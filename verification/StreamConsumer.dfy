/** The stream consume loop as the object that runs it: one session's batch and offset
    over the transactional sink. */
module StreamConsumer {
  import opened Folds
  import opened Frames
  import opened Sink
  import opened GapTracking
  import opened IndexAgreement
  import opened Accounting
  import SI = StreamIngest

  const STREAM_CONSUMER_NAME := "cb-ingest"

  /** Where the client asks the stream to start. */
  datatype Position = AtFirst | AtNext | AtOffset(n: nat)

  function PositionIn(p: Position, logLength: nat): nat {
    match p
    case AtFirst => 0
    case AtNext => logLength
    case AtOffset(n) => n
  }

  /** The session after a flush; a commit whose reply is lost has landed. */
  function Flushed(s: SI.Ingest, outcome: TxOutcome): SI.Ingest
    requires s.session.Some?
  {
    match outcome
    case Committed => SI.Step(s, SI.Flush(SI.Commits))
    case RolledBack => SI.Step(s, SI.Flush(SI.RollsBack))
    case CommittedUnreported => SI.Step(SI.Step(s, SI.Flush(SI.TimesOut)), SI.Land(|s.doubt|))
  }

  class StreamConsumer {
    const sink: Database
    const gaps: GapTracker
    var counters: Counters
    var batch: seq<Frame>
    var lastOffset: nat
    /** The newest offset known to be committed. */
    var committed: Option<nat>
    /** Keys of stored rows that the index has not heard of. */
    ghost var unobserved: set<RowKey>
    /** Frames whose session ended before they were accounted. */
    ghost var discarded: nat

    /** The process as the index and the table see it. */
    ghost function View(): Process
      reads this, sink, gaps
    {
      Process(sink.rows, gaps.wells, gaps.histories, unobserved)
    }

    /** Every record is accounted for exactly once. */
    ghost predicate CountersBalance()
      reads this
    {
      counters.consumed == counters.poison + counters.inserted + counters.dupDropped + discarded + |batch|
    }

    ghost predicate Valid()
      reads this, sink, gaps
    {
      gaps.Valid() && sink.Faithful() && Agrees(View()) && CountersBalance()
    }

    /** The loop's side of a session over the log. */
    ghost predicate Mirrors(s: SI.Ingest)
      reads this, sink
    {
      && s.table == sink.rows && s.stored == StoredIn(sink.offsets, STREAM_CONSUMER_NAME)
      && match s.session
         case None => batch == []
         case Some(v) => v.batch == batch && v.lastOffset == lastOffset
    }

    constructor ()
      ensures Valid() && fresh(sink) && fresh(gaps)
      ensures Mirrors(SI.Empty()) && counters == Counters(0, 0, 0, 0, 0, 0)
    {
      sink := new Database();
      gaps := new GapTracker();
      counters, batch, lastOffset, committed := Counters(0, 0, 0, 0, 0, 0), [], 0, None;
      unobserved, discarded := {}, 0;
    }

    /** Seed the gap tracker, read the stored offset, and choose where to start: the
        stored offset decides, and a forced replay overrides it. */
    method StartSession(force: bool, from: SI.From, ghost s: SI.Ingest) returns (start: Position)
      requires Valid() && Mirrors(s) && s.session == None
      modifies this`lastOffset, this`committed, this`unobserved, gaps
      ensures Valid() && Mirrors(SI.Step(s, SI.Start(force, from)))
      ensures exists marks :: IsWatermarks(old(sink.rows), marks)
                              && View() == Step(old(View()), IndexAgreement.Event.StartSession(marks))
      ensures PositionIn(start, |s.log|) == SI.StartAt(s, force, from) && committed == s.stored
      ensures !force && s.stored.Some? ==> start == AtOffset(s.stored.value + 1)
      ensures force || s.stored.None? ==>
                match from
                case First => start == AtFirst
                case Next => start == AtNext
                case Offset(n) => start == AtOffset(n)
    {
      SeedSession();
      hide Agrees, GapTracker.Valid;
      var stored := sink.StoredOffset(STREAM_CONSUMER_NAME);
      if !force && stored.Some? {
        start := AtOffset(stored.value + 1);
      } else {
        match from
        case First => start := AtFirst;
        case Next => start := AtNext;
        case Offset(n) => start := AtOffset(n);
      }
      lastOffset, committed := 0, stored;
    }

    method SeedSession()
      requires Valid()
      modifies this`unobserved, gaps
      ensures Valid()
      ensures exists marks :: IsWatermarks(old(sink.rows), marks)
                              && View() == Step(old(View()), IndexAgreement.Event.StartSession(marks))
    {
      var marks := sink.Watermarks();
      ghost var start := View();
      SeedAgrees(start, marks);
      hide Agrees, Seeded, IsWatermarks;
      SeedFrom(gaps, marks, start);
      unobserved := Seeded(start, marks).unobserved;
      assert View() == Step(start, IndexAgreement.Event.StartSession(marks));
    }

    /** One record: poison is counted and skipped, and moves the offset all the same. */
    method Accept(offset: nat, body: Payload, ghost s: SI.Ingest)
      requires Valid() && Mirrors(s) && SI.Possible(s, SI.Deliver)
      requires offset == s.session.value.pos && body == s.log[offset]
      modifies this`counters, this`batch, this`lastOffset
      ensures Valid() && Mirrors(SI.Step(s, SI.Deliver))
      ensures counters == Accepted(old(counters), body, false)
    {
      hide Agrees, IsValid;
      counters := counters.(consumed := counters.consumed + 1);
      lastOffset := offset;
      if body.Json? && IsValid(body.frame) {
        batch := batch + [body.frame];
      } else {
        counters := counters.(poison := counters.poison + 1);
      }
    }

    /** Rows and offset in one transaction, as the index will have to hear of it. */
    method CommitBatch(outcome: TxOutcome) returns (r: Option<nat>)
      requires Valid()
      modifies this`unobserved, sink
      ensures Valid()
      ensures View() == if outcome == RolledBack then old(View()) else Commit(old(View()), batch)
      ensures sink.rows == if outcome == RolledBack then old(sink.rows) else InsertAll(old(sink.rows), batch)
      ensures StoredIn(sink.offsets, STREAM_CONSUMER_NAME) ==
              if outcome == RolledBack then StoredIn(old(sink.offsets), STREAM_CONSUMER_NAME) else Some(lastOffset)
      ensures outcome != RolledBack ==> KeysOf(batch) <= sink.rows.Keys
      ensures r == if outcome == Committed then Some(|KeysOf(batch) - old(sink.rows).Keys|) else None
    {
      hide Agrees, KeysOf, InsertAll, GapTracker.Valid;
      CommitAgrees(View(), batch);
      InsertKeeps(sink.rows, batch);
      r := sink.InsertBatchWithOffset(batch, STREAM_CONSUMER_NAME, lastOffset, outcome);
      if outcome != RolledBack {
        unobserved := unobserved + (KeysOf(batch) - old(sink.rows).Keys);
      }
    }

    /** Commit data and offset, account, then clear; any failure ends the session. */
    method Flush(nowMs: nat, outcome: TxOutcome) returns (ok: bool)
      requires Valid()
      modifies this, sink, gaps
      ensures Valid() && ok == (outcome == Committed) && batch == []
      ensures View() == Step(old(View()), FlushEvent(old(batch), nowMs, outcome))
      ensures sink.rows == if outcome == RolledBack then old(sink.rows) else InsertAll(old(sink.rows), old(batch))
      ensures StoredIn(sink.offsets, STREAM_CONSUMER_NAME) ==
              if outcome == RolledBack then old(StoredIn(sink.offsets, STREAM_CONSUMER_NAME)) else Some(old(lastOffset))
      ensures CountedIf(old(counters), counters, old(batch), old(sink.rows), outcome)
      ensures committed == if outcome == Committed then Some(old(lastOffset)) else old(committed)
      ensures discarded == old(discarded) + (if ok then 0 else |old(batch)|) && lastOffset == old(lastOffset)
    {
      hide Agrees, KeysOf, InsertAll, ObserveBatch, GapTracker.Valid, Step, FlushEvent, Commit, Counted;
      ghost var rows := sink.rows;
      FlushSteps(View(), batch, nowMs);
      var r := CommitBatch(outcome);
      ok := r.Some?;
      if !ok {
        discarded, batch := discarded + |batch|, [];
        return;
      }
      BatchAgrees(View(), batch, nowMs);
      CountBatch(r.value, rows);
      ghost var p := AccountFrames(gaps, batch, nowMs, View());
      unobserved, batch := p.unobserved, [];
    }

    method CountBatch(inserted: nat, ghost rows: Table)
      requires CountersBalance() && inserted == |KeysOf(batch) - rows.Keys|
      modifies this`counters, this`committed
      ensures counters.consumed == counters.poison + counters.inserted + counters.dupDropped + discarded
      ensures Counted(old(counters), counters, batch, rows) && committed == Some(lastOffset)
    {
      InsertCounts(rows, batch);
      counters := counters.(inserted := counters.inserted + inserted,
                            dupDropped := counters.dupDropped + |batch| - inserted,
                            batches := counters.batches + 1);
      committed := Some(lastOffset);
    }

    /** The session's batch ends with it. */
    method EndSession(ghost s: SI.Ingest)
      requires Valid() && Mirrors(s) && s.session.Some?
      modifies this`batch, this`discarded
      ensures Valid() && Mirrors(SI.Step(s, SI.Crash)) && discarded == old(discarded) + |old(batch)|
    {
      hide Agrees, GapTracker.Valid;
      discarded, batch := discarded + |batch|, [];
    }

    /** What a flush of the session `v` leaves, from the given state on. */
    ghost predicate FlushedFrom(s: SI.Ingest, p: Process, c: Counters, gone: nat, nowMs: nat, outcome: TxOutcome)
      requires s.session.Some?
      reads this, sink, gaps
    {
      var v := s.session.value;
      && Mirrors(Flushed(s, outcome))
      && View() == Step(p, FlushEvent(v.batch, nowMs, outcome))
      && CountedIf(c, counters, v.batch, p.table, outcome)
      && (outcome == Committed ==> committed == Some(v.lastOffset))
      && discarded == gone + if outcome == Committed then 0 else |v.batch|
    }

    /** Nothing but the session moved. */
    ghost predicate Unflushed(s: SI.Ingest, p: Process, c: Counters, gone: nat)
      reads this, sink, gaps
    {
      Mirrors(s) && View() == p && counters == c && discarded == gone
    }

    /** One record of the session loop, with a flush at the batch maximum; false ends
        the session. */
    method OnDelivery(offset: nat, body: Payload, batchMax: nat, nowMs: nat, outcome: TxOutcome, ghost s: SI.Ingest)
      returns (ok: bool)
      requires Valid() && Mirrors(s) && SI.Possible(s, SI.Deliver)
      requires offset == s.session.value.pos && body == s.log[offset]
      modifies this, sink, gaps
      ensures Valid()
      ensures var t, c := SI.Step(s, SI.Deliver), Accepted(old(counters), body, false);
              if |t.session.value.batch| < batchMax then ok && Unflushed(t, old(View()), c, old(discarded))
              else
                && SI.Flushes(t.session.value, batchMax)
                && FlushedFrom(t, old(View()), c, old(discarded), nowMs, outcome)
                && ok == (outcome == Committed)
    {
      hide Agrees, GapTracker.Valid, Flushed, SI.Step, Step, FlushEvent, CountedIf, Accepted;
      DeliverIsDue(s);
      Accept(offset, body, s);
      ok := true;
      if |batch| >= batchMax {
        ok := FlushNow(nowMs, outcome, SI.Step(s, SI.Deliver));
      }
    }

    /** The flush timer: an empty batch is not flushed. */
    method OnTick(nowMs: nat, outcome: TxOutcome, ghost s: SI.Ingest) returns (ok: bool)
      requires Valid() && Mirrors(s) && s.session.Some?
      modifies this, sink, gaps
      ensures Valid()
      ensures if s.session.value.batch == [] then ok && Unflushed(s, old(View()), old(counters), old(discarded))
              else
                && FlushedFrom(s, old(View()), old(counters), old(discarded), nowMs, outcome)
                && ok == (outcome == Committed)
    {
      hide Agrees, GapTracker.Valid, Flushed, Step, FlushEvent, CountedIf;
      ok := true;
      if batch != [] {
        ok := FlushNow(nowMs, outcome, s);
      }
    }

    /** A flush seen from its session. */
    method FlushNow(nowMs: nat, outcome: TxOutcome, ghost s: SI.Ingest) returns (ok: bool)
      requires Valid() && Mirrors(s) && s.session.Some?
      modifies this, sink, gaps
      ensures Valid() && ok == (outcome == Committed)
      ensures FlushedFrom(s, old(View()), old(counters), old(discarded), nowMs, outcome)
    {
      hide Agrees, GapTracker.Valid, Flushed, Step, FlushEvent, CountedIf;
      FlushedLoop(s, outcome);
      ok := Flush(nowMs, outcome);
    }
  }

  lemma DeliverIsDue(s: SI.Ingest)
    requires SI.Possible(s, SI.Deliver)
    ensures SI.Step(s, SI.Deliver).session.Some? && SI.Step(s, SI.Deliver).session.value.due
  {
  }

  /** The loop's side of the session after a flush. */
  lemma FlushedLoop(s: SI.Ingest, outcome: TxOutcome)
    requires s.session.Some?
    ensures var r, v := Flushed(s, outcome), s.session.value;
            && r.table == (if outcome == RolledBack then s.table else InsertAll(s.table, v.batch))
            && r.stored == (if outcome == RolledBack then s.stored else Some(v.lastOffset))
            && (if outcome == Committed
                then r.session.Some? && r.session.value.batch == [] && r.session.value.lastOffset == v.lastOffset
                else r.session == None)
  {
    hide InsertAll;
  }
}

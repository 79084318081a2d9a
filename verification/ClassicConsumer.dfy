/** The classic consume loop as the object that runs it: batch state of one session
    over the sink, the gap tracker and the counters that outlive it. */
module ClassicConsumer {
  import opened Folds
  import opened Frames
  import opened Sink
  import opened GapTracking
  import opened IndexAgreement
  import opened Accounting
  import CM = ConsumerModel

  class ClassicConsumer {
    const sink: Database
    const gaps: GapTracker
    var counters: Counters
    var batch: seq<Frame>
    var highestTag: nat
    /** Keys of stored rows that the index has not heard of. */
    ghost var unobserved: set<RowKey>
    /** The batch at hand is already in the counters. */
    ghost var accounted: bool
    /** Frames whose session ended before they were accounted. */
    ghost var discarded: nat

    /** The process as the index and the table see it. */
    ghost function View(): Process
      reads this, sink, gaps
    {
      Process(sink.rows, gaps.wells, gaps.histories, unobserved)
    }

    /** Every delivery is accounted for exactly once. */
    ghost predicate CountersBalance()
      reads this
    {
      counters.consumed ==
      counters.poison + counters.inserted + counters.dupDropped + discarded + if accounted then 0 else |batch|
    }

    ghost predicate Valid()
      reads this, sink, gaps
    {
      gaps.Valid() && Agrees(View()) && CountersBalance()
    }

    /** The loop's side of a consume session. */
    ghost predicate Mirrors(s: CM.Side)
      reads this, sink
    {
      s.batch == batch && s.highestTag == highestTag && s.table == sink.rows && !s.committed && !accounted
    }

    constructor ()
      ensures Valid() && fresh(sink) && fresh(gaps)
      ensures Mirrors(CM.Empty())
      ensures counters == Counters(0, 0, 0, 0, 0, 0)
    {
      sink := new Database();
      gaps := new GapTracker();
      counters, batch, highestTag := Counters(0, 0, 0, 0, 0, 0), [], 0;
      unobserved, accounted, discarded := {}, false, 0;
    }

    /** A session starts by seeding the gap tracker from the durable store. */
    method StartSession()
      requires Valid()
      modifies this`unobserved, gaps
      ensures Valid()
      ensures exists marks :: IsWatermarks(old(sink.rows), marks)
                              && View() == Step(old(View()), IndexAgreement.Event.StartSession(marks))
    {
      var marks := sink.Watermarks();
      ghost var start := View();
      SeedAgrees(start, marks);
      hide Agrees, Seeded, IsWatermarks;
      SeedFrom(gaps, marks, start);
      unobserved := Seeded(start, marks).unobserved;
      assert View() == Step(start, IndexAgreement.Event.StartSession(marks));
    }

    /** A delivery that is no valid frame is dead-lettered; a frame joins the batch. */
    method Accept(delivery: CM.Delivery, redelivered: bool, rejectWorks: bool, ghost s: CM.Side)
      requires Valid() && Mirrors(s) && s.inbox != [] && s.inbox[0] == delivery
      modifies this`counters, this`batch, this`highestTag
      ensures Valid() && Mirrors(CM.Step(s, CM.Take(rejectWorks)))
      ensures counters == Accepted(old(counters), delivery.payload, redelivered)
    {
      hide Agrees, IsValid;
      counters := counters.(consumed := counters.consumed + 1,
                            redeliveries := counters.redeliveries + if redelivered then 1 else 0);
      if delivery.payload.Json? && IsValid(delivery.payload.frame) {
        highestTag := delivery.tag;
        batch := batch + [delivery.payload.frame];
      } else {
        counters := counters.(poison := counters.poison + 1);
      }
    }

    /** The session's locals end with it. */
    method EndSession()
      requires Valid()
      modifies this`batch, this`highestTag, this`accounted, this`discarded
      ensures Valid() && batch == [] && highestTag == 0 && !accounted
      ensures discarded == old(discarded) + if old(accounted) then 0 else |old(batch)|
    {
      hide Agrees;
      discarded := discarded + if accounted then 0 else |batch|;
      batch, highestTag, accounted := [], 0, false;
    }

    /** Commit, then account, then one multiple-ack that names the newest delivery of
        the batch. Any failure ends the session; a commit that was not
        reported is neither accounted nor acked. */
    method Flush(nowMs: nat, outcome: TxOutcome, ackWorks: bool) returns (acked: Option<nat>)
      requires Valid() && !accounted
      modifies this, sink`rows, gaps
      ensures Valid()
      ensures View() == Step(old(View()), FlushEvent(old(batch), nowMs, outcome))
      ensures sink.rows == if outcome == RolledBack then old(sink.rows) else InsertAll(old(sink.rows), old(batch))
      ensures CountedIf(old(counters), counters, old(batch), old(sink.rows), outcome)
      ensures acked == if outcome == Committed && ackWorks then Some(old(highestTag)) else None
      ensures batch == [] && !accounted && highestTag == (if acked.Some? then old(highestTag) else 0)
      ensures discarded == old(discarded) + if outcome == Committed then 0 else |old(batch)|
    {
      hide Agrees, KeysOf, InsertAll, ObserveBatch, GapTracker.Valid;
      hide Step, FlushEvent, Commit, Counted, CountersBalance;
      ghost var rows := sink.rows;
      FlushSteps(View(), batch, nowMs);
      var r := CommitBatch(outcome);
      if r.None? {
        EndSession();
        acked := None;
      } else {
        acked := AccountAndAck(nowMs, ackWorks, r.value, rows);
      }
    }

    /** What a flush of the session `t` leaves, from the given state on. */
    ghost predicate FlushedFrom(t: CM.Side, p: Process, c: Counters, gone: nat, nowMs: nat, outcome: TxOutcome,
                                ackWorks: bool, acked: Option<nat>)
      reads this, sink, gaps
    {
      && Mirrors(Flushed(t, outcome, ackWorks))
      && View() == Step(p, FlushEvent(t.batch, nowMs, outcome))
      && CountedIf(c, counters, t.batch, p.table, outcome)
      && acked == (if outcome == Committed && ackWorks then Some(t.highestTag) else None)
      && discarded == gone + if outcome == Committed then 0 else |t.batch|
    }

    /** Nothing but the session moved. */
    ghost predicate Unflushed(t: CM.Side, p: Process, c: Counters, gone: nat, acked: Option<nat>)
      reads this, sink, gaps
    {
      Mirrors(t) && View() == p && counters == c && discarded == gone && acked == None
    }

    /** One delivery of the session loop: accept it, and flush at the batch maximum.
        False ends the session. */
    method OnDelivery(delivery: CM.Delivery, redelivered: bool, rejectWorks: bool, batchMax: nat,
                      nowMs: nat, outcome: TxOutcome, ackWorks: bool, ghost s: CM.Side)
      returns (ok: bool, acked: Option<nat>)
      requires Valid() && Mirrors(s) && s.inbox != [] && s.inbox[0] == delivery
      modifies this, sink`rows, gaps
      ensures Valid()
      ensures var t := CM.Step(s, CM.Take(rejectWorks));
              var c := Accepted(old(counters), delivery.payload, redelivered);
              if |t.batch| < batchMax then ok && Unflushed(t, old(View()), c, old(discarded), acked)
              else
                && CM.Enabled(t, batchMax, CM.Commit(outcome))
                && FlushedFrom(t, old(View()), c, old(discarded), nowMs, outcome, ackWorks, acked)
                && ok == acked.Some?
    {
      hide Agrees, GapTracker.Valid, Flushed, CM.Step, Step, FlushEvent, CountedIf, Accepted;
      TakeIsDue(s, rejectWorks);
      Accept(delivery, redelivered, rejectWorks, s);
      ok, acked := true, None;
      if |batch| >= batchMax {
        ghost var t := CM.Step(s, CM.Take(rejectWorks));
        acked := FlushNow(nowMs, outcome, ackWorks, t);
        ok := acked.Some?;
      }
    }

    /** The flush timer: an empty batch is not flushed. */
    method OnTick(nowMs: nat, outcome: TxOutcome, ackWorks: bool, ghost s: CM.Side)
      returns (ok: bool, acked: Option<nat>)
      requires Valid() && Mirrors(s)
      modifies this, sink`rows, gaps
      ensures Valid()
      ensures if s.batch == [] then ok && Unflushed(s, old(View()), old(counters), old(discarded), acked)
              else
                && FlushedFrom(s, old(View()), old(counters), old(discarded), nowMs, outcome, ackWorks, acked)
                && ok == acked.Some?
    {
      hide Agrees, GapTracker.Valid, Flushed, Step, FlushEvent, CountedIf;
      ok, acked := true, None;
      if batch != [] {
        acked := FlushNow(nowMs, outcome, ackWorks, s);
        ok := acked.Some?;
      }
    }

    /** A flush seen from its session. */
    method FlushNow(nowMs: nat, outcome: TxOutcome, ackWorks: bool, ghost t: CM.Side) returns (acked: Option<nat>)
      requires Valid() && Mirrors(t)
      modifies this, sink`rows, gaps
      ensures Valid()
      ensures FlushedFrom(t, old(View()), old(counters), old(discarded), nowMs, outcome, ackWorks, acked)
    {
      hide Agrees, GapTracker.Valid, Flushed, Step, FlushEvent, CountedIf;
      FlushedLoop(t, outcome, ackWorks);
      acked := Flush(nowMs, outcome, ackWorks);
    }

    /** The second half of a flush: account, then ack. */
    method AccountAndAck(nowMs: nat, ackWorks: bool, inserted: nat, ghost rows: Table) returns (acked: Option<nat>)
      requires Valid() && !accounted && KeysOf(batch) <= sink.rows.Keys && inserted == |KeysOf(batch) - rows.Keys|
      modifies this, gaps
      ensures Valid()
      ensures View() == ObserveBatch(old(View()), old(batch), nowMs)
      ensures Counted(old(counters), counters, old(batch), rows)
      ensures acked == (if ackWorks then Some(old(highestTag)) else None)
      ensures batch == [] && !accounted && highestTag == (if ackWorks then old(highestTag) else 0)
      ensures discarded == old(discarded)
    {
      hide Agrees, KeysOf, ObserveBatch, GapTracker.Valid, Counted;
      BatchAgrees(View(), batch, nowMs);
      CountBatch(inserted, rows);
      ghost var p := AccountFrames(gaps, batch, nowMs, View());
      unobserved := p.unobserved;
      if ackWorks {
        acked := Some(highestTag);
        batch, accounted := [], false;
      } else {
        acked := None;
        EndSession();
      }
    }

    /** The insert, as the index will have to hear of it. */
    method CommitBatch(outcome: TxOutcome) returns (r: Option<nat>)
      requires Valid()
      modifies this`unobserved, sink`rows
      ensures Valid()
      ensures View() == if outcome == RolledBack then old(View()) else Commit(old(View()), batch)
      ensures sink.rows == if outcome == RolledBack then old(sink.rows) else InsertAll(old(sink.rows), batch)
      ensures outcome != RolledBack ==> KeysOf(batch) <= sink.rows.Keys
      ensures r == if outcome == Committed then Some(|KeysOf(batch) - old(sink.rows).Keys|) else None
    {
      hide Agrees, KeysOf, InsertAll, GapTracker.Valid;
      CommitAgrees(View(), batch);
      InsertKeeps(sink.rows, batch);
      r := sink.InsertBatch(batch, outcome);
      if outcome != RolledBack {
        unobserved := unobserved + (KeysOf(batch) - old(sink.rows).Keys);
      }
    }

    method CountBatch(inserted: nat, ghost rows: Table)
      requires CountersBalance() && !accounted && inserted == |KeysOf(batch) - rows.Keys|
      modifies this`counters, this`accounted
      ensures CountersBalance() && accounted && Counted(old(counters), counters, batch, rows)
    {
      InsertCounts(rows, batch);
      counters := counters.(inserted := counters.inserted + inserted,
                            dupDropped := counters.dupDropped + |batch| - inserted,
                            batches := counters.batches + 1);
      accounted := true;
    }
  }

  /** The consume session after a flush. */
  ghost function Flushed(s: CM.Side, outcome: TxOutcome, ackWorks: bool): CM.Side {
    var t := CM.Step(s, CM.Commit(outcome));
    if outcome != Committed then t else CM.Step(t, if ackWorks then CM.SendAck else CM.Disconnect)
  }

  lemma TakeIsDue(s: CM.Side, rejectWorks: bool)
    requires s.inbox != [] && !s.committed
    ensures CM.Step(s, CM.Take(rejectWorks)).due && !CM.Step(s, CM.Take(rejectWorks)).committed
  {
  }

  /** The loop's side of the session after a flush. */
  lemma FlushedLoop(s: CM.Side, outcome: TxOutcome, ackWorks: bool)
    ensures var r := Flushed(s, outcome, ackWorks);
            && r.batch == [] && !r.committed
            && r.highestTag == (if outcome == Committed && ackWorks then s.highestTag else 0)
            && r.table == if outcome == RolledBack then s.table else InsertAll(s.table, s.batch)
  {
    hide InsertAll, CM.Values;
  }
}

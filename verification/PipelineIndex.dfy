/** The classic pipeline together with the gap index of its ingest process: sessions
    that seed, processes that die and start over, and what the index shows once
    everything has come to rest. */
module PipelineIndex {
  import opened Folds
  import opened Frames
  import opened Sink
  import opened Numbering
  import GM = GapModel
  import GP = GapProofs
  import GT = GapTracking
  import CL = ClassicModel
  import CM = ConsumerModel
  import CP = ConsumerProofs
  import IA = IndexAgreement
  import PL = Pipeline

  datatype Whole = Whole(pipe: PL.Pipe, index: IA.Process)

  /** `Seed` is a session's start in a living process; `Restart` is a process that died
      at any point, and its successor, which seeds before it consumes. */
  datatype Event =
    | Does(event: PL.Event, now: nat)
    | Seed(marks: map<WellId, (nat, nat)>)
    | Restart(marks: map<WellId, (nat, nat)>)

  function Boot(c: PL.Setup): Whole {
    Whole(PL.Boot(c), IA.Boot(map[]))
  }

  ghost predicate Enabled(w: Whole, c: PL.Setup, ev: Event) {
    match ev
    case Does(e, _) => PL.Enabled(w.pipe, c, e)
    case Seed(marks) => IsWatermarks(w.pipe.side.table, marks)
    case Restart(marks) => IsWatermarks(w.pipe.side.table, marks)
  }

  /** What the index makes of a step of the consume side: a reported commit is accounted
      for, an unreported or late one is not. */
  function Heard(s: CM.Side, e: CM.Event, now: nat): Option<IA.Event>
    requires e.Land? ==> e.i < |s.doubt|
  {
    match e
    case Commit(Committed) => Some(IA.Flush(s.batch, now))
    case Commit(outcome) => Some(IA.FlushUnknown(s.batch, outcome != RolledBack))
    case Land(i) => Some(IA.FlushUnknown(s.doubt[i], true))
    case _ => None
  }

  function Indexed(p: IA.Process, e: Option<IA.Event>): IA.Process {
    if e.None? then p else IA.Step(p, e.value)
  }

  ghost function Step(w: Whole, c: PL.Setup, ev: Event): Whole
    requires Enabled(w, c, ev)
  {
    match ev
    case Does(e, now) =>
      Whole(PL.Step(w.pipe, c, e),
            if e.AtSide? then Indexed(w.index, Heard(w.pipe.side, e.side, now)) else w.index)
    case Seed(marks) => w.(index := IA.Step(w.index, IA.StartSession(marks)))
    case Restart(marks) =>
      Whole(PL.Step(w.pipe, c, PL.AtSide(CM.Disconnect)),
            IA.Step(IA.Boot(w.pipe.side.table), IA.StartSession(marks)))
  }

  // ---- What the index has not heard of is still on its way ----

  ghost predicate Owed(s: CM.Side, f: Frame) {
    exists t :: t in s.unacked && t > s.lastAck && s.unacked[t] == Json(f)
  }

  /** The frame will be delivered again, or is delivered and not covered by any ack. */
  ghost predicate Awaits(s: CM.Side, f: Frame) {
    IsValid(f) && (Json(f) in s.ready || Owed(s, f))
  }

  ghost predicate Pending(s: CM.Side, r: RowKey) {
    exists f :: KeyOf(f) == r && Awaits(s, f)
  }

  ghost predicate Coming(s: CM.Side, unobserved: set<RowKey>) {
    forall r :: r in unobserved ==> Pending(s, r)
  }

  /** The frames of an insert in doubt are still answered for. */
  ghost predicate DoubtSafe(s: CM.Side) {
    forall i, f :: 0 <= i < |s.doubt| && f in s.doubt[i] ==> IsValid(f) && CM.Safe(s, Json(f))
  }

  ghost predicate SideOk(s: CM.Side, unobserved: set<RowKey>) {
    && Coming(s, unobserved)
    && (s.committed ==> KeysOf(s.batch) !! unobserved)
    && DoubtSafe(s)
  }

  lemma AwaitsComes(s: CM.Side, r: CM.Side, u: set<RowKey>, v: set<RowKey>)
    requires Coming(s, u) && v <= u
    requires forall f :: Awaits(s, f) && KeyOf(f) in v ==> Awaits(r, f)
    ensures Coming(r, v)
  {
    hide Awaits;
    forall k | k in v ensures Pending(r, k) {
      assert Pending(s, k);
      var f :| KeyOf(f) == k && Awaits(s, f);
      assert Awaits(r, f);
    }
  }

  lemma DeliverAwaits(s: CM.Side, p: Payload, f: Frame)
    requires CM.TagsOrdered(s) && Awaits(s, f)
    ensures Awaits(CM.Step(s, CM.Deliver(p)), f)
  {
    var r := CM.Step(s, CM.Deliver(p));
    if Json(f) == p {
      assert s.nextTag in r.unacked && r.unacked[s.nextTag] == Json(f);
    } else if Owed(s, f) {
      var t :| t in s.unacked && t > s.lastAck && s.unacked[t] == Json(f);
      assert t in r.unacked && r.unacked[t] == Json(f);
    }
  }

  lemma TakeAwaits(s: CM.Side, works: bool, f: Frame)
    requires CM.TagsTrue(s) && s.inbox != [] && Awaits(s, f)
    ensures Awaits(CM.TakeOne(s, works), f)
  {
    var r := CM.TakeOne(s, works);
    if Owed(s, f) {
      var t :| t in s.unacked && t > s.lastAck && s.unacked[t] == Json(f);
      assert t in r.unacked && r.unacked[t] == Json(f);
    }
  }

  lemma DroppedAwaits(s: CM.Side, f: Frame)
    requires Awaits(s, f)
    ensures Awaits(CM.Dropped(s), f)
  {
    if Owed(s, f) {
      var t :| t in s.unacked && t > s.lastAck && s.unacked[t] == Json(f);
      CP.ValuesHas(s.unacked, t);
    }
    hide CM.Values;
  }

  lemma BrokerAckAwaits(s: CM.Side, f: Frame)
    requires CM.TagsOrdered(s) && s.acks != [] && Awaits(s, f)
    ensures Awaits(CM.Step(s, CM.BrokerAck), f)
  {
    var r := CM.Step(s, CM.BrokerAck);
    if Owed(s, f) {
      var t :| t in s.unacked && t > s.lastAck && s.unacked[t] == Json(f);
      assert t in r.unacked && r.unacked[t] == Json(f);
    }
  }

  /** The frames of the batch are delivered and not covered by an ack. */
  lemma BatchAwaits(s: CM.Side, f: Frame)
    requires CM.TagsOrdered(s) && CM.TagsTrue(s) && f in s.batch
    ensures Awaits(s, f) && CM.Safe(s, Json(f))
  {
    var i :| 0 <= i < |s.batch| && s.batch[i] == f;
    assert s.held[i] in s.unacked && s.held[i] > s.lastAck && s.unacked[s.held[i]] == Json(f);
  }

  lemma HeldKey(s: CM.Side, t: nat, f: Frame)
    requires CM.TagsTrue(s) && t in s.held && t in s.unacked && s.unacked[t] == Json(f)
    ensures KeyOf(f) in KeysOf(s.batch)
  {
    var i :| 0 <= i < |s.held| && s.held[i] == t;
    assert s.batch[i] == f && f in s.batch;
  }

  lemma InboxIsNewer(s: CM.Side, t: nat)
    requires CM.TagsOrdered(s) && CM.InInbox(s, t)
    ensures t > s.highestTag
  {
  }

  /** An ack covers only what the index has heard of. */
  lemma SendAckAwaits(s: CM.Side, f: Frame)
    requires CM.Good(s) && s.committed && Awaits(s, f) && KeyOf(f) !in KeysOf(s.batch)
    ensures Awaits(CM.Step(s, CM.SendAck), f)
  {
    var r := CM.Step(s, CM.SendAck);
    if Json(f) !in s.ready {
      var t :| t in s.unacked && t > s.lastAck && s.unacked[t] == Json(f);
      CP.UnsettledIsTheBatch(s);
      hide CM.Placed, KeysOf, KeyOf;
      assert t !in s.held by {
        if t in s.held { HeldKey(s, t, f); }
      }
      InboxIsNewer(s, t);
      assert t in r.unacked && t > r.lastAck && r.unacked[t] == Json(f);
    }
  }

  /** A frame that is answered for and not stored is on its way. */
  lemma SafeAwaits(s: CM.Side, f: Frame)
    requires CM.Good(s) && IsValid(f) && CM.Safe(s, Json(f)) && KeyOf(f) !in s.table
    ensures Awaits(s, f)
  {
    if Json(f) !in s.ready {
      var t :| t in s.unacked && s.unacked[t] == Json(f);
      assert CM.Placed(s, t);
    }
  }

  // ---- Each step of the consume side ----

  /** What an index event leaves unobserved. */
  function Left(p: IA.Process, e: Option<IA.Event>): set<RowKey> {
    match e
    case None => p.unobserved
    case Some(Flush(fs, _)) => p.unobserved - KeysOf(fs)
    case Some(FlushUnknown(fs, landed)) => p.unobserved + if landed then KeysOf(fs) - p.table.Keys else {}
    case Some(StartSession(_)) => {}
  }

  lemma CommitOk(s: CM.Side, batchMax: nat, outcome: TxOutcome, p: IA.Process, now: nat)
    requires CM.Good(s) && SideOk(s, p.unobserved) && p.table == s.table && batchMax >= 1
    requires CM.Enabled(s, batchMax, CM.Commit(outcome))
    ensures var r := CM.Step(s, CM.Commit(outcome));
            var v := Left(p, Heard(s, CM.Commit(outcome), now));
            Coming(r, v) && (r.committed ==> KeysOf(r.batch) !! v)
  {
    hide CM.Good, Awaits, InsertAll, CM.Dropped;
    GoodParts(s);
    var r := CM.Step(s, CM.Commit(outcome));
    var v := Left(p, Heard(s, CM.Commit(outcome), now));
    var t := if outcome == RolledBack then s else s.(table := InsertAll(s.table, s.batch));
    SameAwaits(s, t);
    if outcome == Committed {
      SameAwaits(s, r);
      AwaitsComes(s, r, p.unobserved, v);
    } else {
      NotCommitted(t);
      forall k | k in v ensures Pending(r, k) {
        var f := WhichFrame(s, p.unobserved, k);
        assert Awaits(t, f);
        DroppedAwaits(t, f);
      }
    }
  }

  lemma GoodParts(s: CM.Side)
    requires CM.Good(s)
    ensures CM.TagsOrdered(s) && CM.TagsTrue(s)
    ensures s.committed ==> forall f :: f in s.batch ==> KeyOf(f) in s.table
  {
  }

  lemma NotCommitted(s: CM.Side)
    ensures !CM.Dropped(s).committed && CM.Dropped(s).doubt == s.doubt
  {
  }

  lemma SameAwaits(s: CM.Side, r: CM.Side)
    requires r.ready == s.ready && r.unacked == s.unacked && r.lastAck == s.lastAck
    ensures forall f :: Awaits(s, f) <==> Awaits(r, f)
  {
  }

  /** A frame on its way for a key that was unobserved or belongs to the batch. */
  lemma WhichFrame(s: CM.Side, u: set<RowKey>, k: RowKey) returns (f: Frame)
    requires CM.TagsOrdered(s) && CM.TagsTrue(s) && Coming(s, u)
    requires k in u || k in KeysOf(s.batch)
    ensures KeyOf(f) == k && Awaits(s, f)
  {
    hide Awaits, CM.TagsOrdered, CM.TagsTrue;
    if k in u {
      assert Pending(s, k);
      f :| KeyOf(f) == k && Awaits(s, f);
    } else {
      f :| f in s.batch && KeyOf(f) == k;
      BatchAwaits(s, f);
    }
  }

  lemma LandOk(s: CM.Side, i: nat, p: IA.Process)
    requires CM.Good(s) && SideOk(s, p.unobserved) && p.table == s.table && i < |s.doubt|
    ensures var r := CM.Step(s, CM.Land(i));
            var v := Left(p, Some(IA.FlushUnknown(s.doubt[i], true)));
            Coming(r, v) && (r.committed ==> KeysOf(r.batch) !! v)
  {
    hide CM.Good, Awaits, InsertAll, CM.Safe;
    GoodParts(s);
    var r := CM.Step(s, CM.Land(i));
    var v := Left(p, Some(IA.FlushUnknown(s.doubt[i], true)));
    SameAwaits(s, r);
    forall k | k in v ensures Pending(r, k) {
      if k in p.unobserved {
        assert Pending(s, k);
        var f :| KeyOf(f) == k && Awaits(s, f);
        assert Awaits(r, f);
      } else {
        var f :| f in s.doubt[i] && KeyOf(f) == k;
        SafeAwaits(s, f);
        assert Awaits(r, f);
      }
    }
  }

  lemma SendAckOk(s: CM.Side, u: set<RowKey>)
    requires CM.Good(s) && SideOk(s, u) && s.committed
    ensures Coming(CM.Step(s, CM.SendAck), u)
  {
    hide CM.Good, Awaits, CM.Step;
    forall f | Awaits(s, f) && KeyOf(f) in u ensures Awaits(CM.Step(s, CM.SendAck), f) {
      SendAckAwaits(s, f);
    }
    AwaitsComes(s, CM.Step(s, CM.SendAck), u, u);
  }

  lemma MoveOk(s: CM.Side, batchMax: nat, e: CM.Event, u: set<RowKey>)
    requires CM.Good(s) && Coming(s, u) && CM.Enabled(s, batchMax, e)
    requires e.Deliver? || e.Take? || e.BrokerAck? || e.Disconnect? || e.TimeOut? || e.Vanish?
    ensures Coming(CM.Step(s, e), u)
  {
    GoodParts(s);
    hide CM.Good, Awaits, CM.TagsOrdered, CM.TagsTrue, CM.TakeOne, CM.Dropped, KeyOf;
    var r := CM.Step(s, e);
    forall f | Awaits(s, f) && KeyOf(f) in u ensures Awaits(r, f) {
      match e
      case Deliver(m) => DeliverAwaits(s, m, f);
      case Take(works) => TakeAwaits(s, works, f);
      case BrokerAck => BrokerAckAwaits(s, f);
      case Disconnect => DroppedAwaits(s, f);
      case TimeOut =>
        SameAwaits(s, s.(doubt := s.doubt + [s.batch]));
        DroppedAwaits(s.(doubt := s.doubt + [s.batch]), f);
      case Vanish(i) => SameAwaits(s, r);
    }
    AwaitsComes(s, r, u, u);
  }

  lemma DoubtStaysSafe(s: CM.Side, batchMax: nat, e: CM.Event)
    requires CM.Good(s) && batchMax >= 1 && CM.Enabled(s, batchMax, e) && DoubtSafe(s)
    ensures DoubtSafe(CM.Step(s, e))
  {
    hide CM.Good, CM.Safe, CM.Step, CM.TagsOrdered, CM.TagsTrue, CM.Flushes, CM.MustFlush, IsValid;
    GoodParts(s);
    var r := CM.Step(s, e);
    forall i, f | 0 <= i < |r.doubt| && f in r.doubt[i] ensures IsValid(f) && CM.Safe(r, Json(f)) {
      DoubtFrom(s, batchMax, e, i);
      if r.doubt[i] == s.batch {
        BatchAwaits(s, f);
      } else {
        var j :| 0 <= j < |s.doubt| && s.doubt[j] == r.doubt[i];
      }
      assert IsValid(f) && CM.Safe(s, Json(f));
      CP.StepSafe(s, batchMax, e, Json(f));
    }
  }

  lemma DoubtFrom(s: CM.Side, batchMax: nat, e: CM.Event, i: nat)
    requires CM.Enabled(s, batchMax, e) && i < |CM.Step(s, e).doubt|
    ensures CM.Step(s, e).doubt[i] == s.batch ||
            exists j :: 0 <= j < |s.doubt| && s.doubt[j] == CM.Step(s, e).doubt[i]
  {
    hide InsertAll, CM.Values, CM.Settled, CM.TakeOne;
    if e.Take? { TakeTable(s, e.rejectWorks); }
    if e.Land? || e.Vanish? {
      var j := if i < e.i then i else i + 1;
      assert s.doubt[j] == CM.Step(s, e).doubt[i];
    } else if i < |s.doubt| {
      assert s.doubt[i] == CM.Step(s, e).doubt[i];
    }
  }

  lemma BatchFrames(s: CM.Side, batchMax: nat, e: CM.Event)
    requires CM.Enabled(s, batchMax, e) && CM.Step(s, e).committed && !e.Commit?
    ensures s.committed && CM.Step(s, e).batch == s.batch
  {
    hide InsertAll, CM.Values, CM.Settled, Without;
  }

  lemma SideStepOk(s: CM.Side, batchMax: nat, e: CM.Event, p: IA.Process, now: nat)
    requires CM.Good(s) && SideOk(s, p.unobserved) && p.table == s.table && batchMax >= 1
    requires CM.Enabled(s, batchMax, e)
    ensures SideOk(CM.Step(s, e), Left(p, Heard(s, e, now)))
  {
    DoubtStaysSafe(s, batchMax, e);
    hide CM.Good, CM.Step, Coming, DoubtSafe, CM.Flushes, CM.MustFlush;
    match e
    case Commit(outcome) => CommitOk(s, batchMax, outcome, p, now);
    case Land(i) => LandOk(s, i, p);
    case SendAck =>
      SendAckOk(s, p.unobserved);
      NotCommittedAfterAck(s);
    case _ =>
      MoveOk(s, batchMax, e, p.unobserved);
      if CM.Step(s, e).committed { BatchFrames(s, batchMax, e); }
  }

  lemma NotCommittedAfterAck(s: CM.Side)
    ensures !CM.Step(s, CM.SendAck).committed
  {
  }

  // ---- The index's wells ----

  /** Wells are accounted for in the one epoch there is, from a base that is no higher
      than what the well has made. */
  ghost predicate Local(p: IA.Process, made: seq<Frame>, epoch: nat) {
    && p.wells.Keys == p.histories.Keys
    && forall k :: k in p.wells ==> p.wells[k].epoch == epoch && p.histories[k].base <= CountOf(made, k)
  }

  lemma FrameLocal(p: IA.Process, f: Frame, now: nat, made: seq<Frame>, epoch: nat)
    requires Local(p, made, epoch) && f.epoch == epoch
    ensures Local(IA.ObserveFrame(p, f, now), made, epoch)
  {
    var k := WellOf(f);
    GP.ObserveSummary(GT.EntryOf(p.wells, k, f.epoch), IA.HistoryOf(p, k), f.epoch, f.seqNo, now);
    hide GM.Observe, GM.HistObserve, CountOf;
  }

  lemma {:induction false} BatchLocal(p: IA.Process, fs: seq<Frame>, now: nat, made: seq<Frame>, epoch: nat)
    requires Local(p, made, epoch) && forall f :: f in fs ==> f.epoch == epoch
    ensures Local(IA.ObserveBatch(p, fs, now), made, epoch)
  {
    if fs != [] {
      hide Local, IA.ObserveFrame;
      var gs, f := fs[..|fs| - 1], fs[|fs| - 1];
      assert fs == gs + [f];
      BatchLocal(p, gs, now, made, epoch);
      FrameLocal(IA.ObserveBatch(p, gs, now), f, now, made, epoch);
    }
  }

  lemma MadeIsCounted(made: seq<Frame>, epoch: nat, f: Frame)
    requires Numbered(made, epoch) && f in made
    ensures f.epoch == epoch && f.seqNo <= CountOf(made, WellOf(f))
  {
    var i :| 0 <= i < |made| && made[i] == f;
    assert f.epoch == epoch;
    hide Numbered, CountOf;
    NumbersAreAnInterval(made, epoch, WellOf(f), f.seqNo);
    assert IdentityOf(f) == Identity(WellOf(f), epoch, f.seqNo);
  }

  lemma MarksLocal(t: Table, marks: map<WellId, (nat, nat)>, made: seq<Frame>, epoch: nat)
    requires IsWatermarks(t, marks) && Numbered(made, epoch)
    requires forall r :: r in t ==> PL.RowFrom(t, r, made)
    ensures forall k :: k in marks ==> marks[k].0 == epoch && marks[k].1 <= CountOf(made, k)
  {
    hide Numbered, CountOf;
    forall k | k in marks ensures marks[k].0 == epoch && marks[k].1 <= CountOf(made, k) {
      var r :| r in t && r.id.source == k && (r.id.epoch, r.id.seqNo) == marks[k];
      assert PL.RowFrom(t, r, made);
      var f :| f in made && KeyOf(f) == r;
      MadeIsCounted(made, epoch, f);
    }
  }

  lemma SeedLocal(p: IA.Process, marks: map<WellId, (nat, nat)>, made: seq<Frame>, epoch: nat)
    requires Local(p, made, epoch)
    requires forall k :: k in marks ==> marks[k].0 == epoch && marks[k].1 <= CountOf(made, k)
    ensures Local(IA.Step(p, IA.StartSession(marks)), made, epoch)
  {
    hide CountOf;
  }

  lemma GrowthIsLocal(p: IA.Process, made: seq<Frame>, f: Frame, epoch: nat)
    requires Local(p, made, epoch)
    ensures Local(p, made + [f], epoch)
  {
    hide CountOf;
    forall k ensures CountOf(made + [f], k) >= CountOf(made, k) {
      CountLast(made, f, k);
    }
  }

  // ---- Every step of the whole ----

  ghost predicate Inv(w: Whole, c: PL.Setup) {
    && PL.Inv(w.pipe, c)
    && w.index.table == w.pipe.side.table
    && IA.Agrees(w.index)
    && Local(w.index, w.pipe.made, c.epoch)
    && SideOk(w.pipe.side, w.index.unobserved)
  }

  lemma IndexTable(s: CM.Side, batchMax: nat, e: CM.Event, p: IA.Process, now: nat)
    requires IA.Agrees(p) && p.table == s.table && CM.Enabled(s, batchMax, e)
    ensures var q := Indexed(p, Heard(s, e, now));
            && IA.Agrees(q) && q.table == CM.Step(s, e).table
            && q.unobserved == Left(p, Heard(s, e, now))
  {
    hide IA.Agrees, InsertAll, CM.TakeOne, CM.Settled, CM.Values, KeysOf;
    var x := Heard(s, e, now);
    if x.Some? {
      IA.StepAgrees(p, x.value);
      FlushTable(p, x.value);
    } else {
      TableStays(s, e);
    }
  }

  lemma TableStays(s: CM.Side, e: CM.Event)
    requires (e.Take? ==> s.inbox != []) && (e.BrokerAck? ==> s.acks != []) && (e.Vanish? ==> e.i < |s.doubt|)
    requires !e.Commit? && !e.Land?
    ensures CM.Step(s, e).table == s.table
  {
    hide CM.Values, CM.Settled, CM.TakeOne, InsertAll, Without;
    if e.Take? { TakeTable(s, e.rejectWorks); }
  }

  lemma TakeTable(s: CM.Side, works: bool)
    requires s.inbox != []
    ensures CM.TakeOne(s, works).table == s.table && CM.TakeOne(s, works).doubt == s.doubt
  {
  }

  lemma FlushTable(p: IA.Process, e: IA.Event)
    requires IA.Agrees(p) && !e.StartSession?
    ensures IA.Step(p, e).table ==
            if e.Flush? || e.landed then InsertAll(p.table, e.frames) else p.table
  {
    if e.Flush? {
      InsertKeeps(p.table, e.frames);
      IA.CommitAgrees(p, e.frames);
      hide IA.Agrees, InsertAll, KeysOf, IA.ObserveBatch;
      IA.BatchAgrees(IA.Commit(p, e.frames), e.frames, e.now);
    }
  }

  lemma IndexLocal(p: IA.Process, e: Option<IA.Event>, made: seq<Frame>, epoch: nat)
    requires Local(p, made, epoch) && (e.Some? ==> !e.value.StartSession?)
    requires e.Some? && e.value.Flush? ==> forall f :: f in e.value.frames ==> f.epoch == epoch
    ensures Local(Indexed(p, e), made, epoch)
  {
    hide IA.ObserveBatch, CountOf, InsertAll;
    if e.Some? && e.value.Flush? {
      BatchLocal(IA.Commit(p, e.value.frames), e.value.frames, e.value.now, made, epoch);
    }
  }

  lemma BatchEpoch(p: PL.Pipe, c: PL.Setup)
    requires PL.Inv(p, c)
    ensures forall f :: f in p.side.batch ==> f.epoch == c.epoch
  {
    hide PL.EdgeOk, PL.BrokerOk, Numbered, CM.TagsOrdered, CM.TagsTrue, PL.Traced;
    PL.BatchTraced(p.side, p.made);
    forall f | f in p.side.batch ensures f.epoch == c.epoch {
      MadeIsCounted(p.made, c.epoch, f);
    }
  }

  lemma HeardIsNoStart(s: CM.Side, batchMax: nat, e: CM.Event, now: nat)
    requires CM.Enabled(s, batchMax, e)
    ensures var x := Heard(s, e, now);
            x.Some? ==> !x.value.StartSession? && (x.value.Flush? ==> x.value.frames == s.batch)
  {
  }

  lemma SideKeeps(w: Whole, c: PL.Setup, e: CM.Event, now: nat)
    requires Inv(w, c) && c.batchMax >= 1 && Enabled(w, c, Does(PL.AtSide(e), now))
    ensures Inv(Step(w, c, Does(PL.AtSide(e), now)), c)
  {
    hide Inv, PL.Inv, IA.Agrees, Local, SideOk, CM.Good, CM.Step, IA.Step, CM.Flushes, CM.MustFlush, PL.Traced,
         Numbered, Left, Heard;
    InvParts(w, c);
    HeardIsNoStart(w.pipe.side, c.batchMax, e, now);
    PL.StepKeeps(w.pipe, c, PL.AtSide(e));
    SideStepOk(w.pipe.side, c.batchMax, e, w.index, now);
    IndexTable(w.pipe.side, c.batchMax, e, w.index, now);
    BatchEpoch(w.pipe, c);
    IndexLocal(w.index, Heard(w.pipe.side, e, now), w.pipe.made, c.epoch);
    InvFrom(Step(w, c, Does(PL.AtSide(e), now)), c);
  }

  lemma InvParts(w: Whole, c: PL.Setup)
    requires Inv(w, c)
    ensures PL.Inv(w.pipe, c) && CM.Good(w.pipe.side) && PL.Traced(w.pipe.side, w.pipe.made)
    ensures Numbered(w.pipe.made, c.epoch)
    ensures w.index.table == w.pipe.side.table && IA.Agrees(w.index)
    ensures Local(w.index, w.pipe.made, c.epoch) && SideOk(w.pipe.side, w.index.unobserved)
  {
  }

  lemma InvFrom(w: Whole, c: PL.Setup)
    requires PL.Inv(w.pipe, c)
    requires w.index.table == w.pipe.side.table && IA.Agrees(w.index)
    requires Local(w.index, w.pipe.made, c.epoch) && SideOk(w.pipe.side, w.index.unobserved)
    ensures Inv(w, c)
  {
  }

  lemma QueuedOk(s: CM.Side, m: Payload, u: set<RowKey>)
    requires SideOk(s, u)
    ensures SideOk(PL.Queued(s, m), u)
  {
    hide CM.Safe;
    var r := PL.Queued(s, m);
    forall f | Awaits(s, f) && KeyOf(f) in u ensures Awaits(r, f) {
      if Owed(s, f) { assert Owed(r, f); }
    }
    AwaitsComes(s, r, u, u);
    forall i, f | 0 <= i < |r.doubt| && f in r.doubt[i] ensures IsValid(f) && CM.Safe(r, Json(f)) {
      assert f in s.doubt[i];
      PL.QueuedSafe(s, m, Json(f));
    }
  }

  lemma ElsewhereKeeps(w: Whole, c: PL.Setup, e: PL.Event, now: nat)
    requires Inv(w, c) && c.batchMax >= 1 && Enabled(w, c, Does(e, now)) && !e.AtSide?
    ensures Inv(Step(w, c, Does(e, now)), c)
  {
    hide Inv, PL.Inv, IA.Agrees, Local, SideOk, PL.Traced, CM.Good, Numbered, CL.Step, CL.Enabled;
    InvParts(w, c);
    PL.StepKeeps(w.pipe, c, e);
    match e {
      case Generate(f) => GrowthIsLocal(w.index, w.pipe.made, f, c.epoch);
      case AtEdge(_) =>
      case Enqueue(id) => QueuedOk(w.pipe.side, Json(w.pipe.edge.published[id]), w.index.unobserved);
      case Foreign(m) => QueuedOk(w.pipe.side, m, w.index.unobserved);
    }
    InvFrom(Step(w, c, Does(e, now)), c);
  }

  lemma FewerUnobserved(s: CM.Side, u: set<RowKey>, v: set<RowKey>)
    requires SideOk(s, u) && v <= u
    ensures SideOk(s, v)
  {
    hide Awaits, CM.Safe;
    AwaitsComes(s, s, u, v);
  }

  lemma SeedKeeps(w: Whole, c: PL.Setup, marks: map<WellId, (nat, nat)>)
    requires Inv(w, c) && Enabled(w, c, Seed(marks))
    ensures Inv(Step(w, c, Seed(marks)), c)
  {
    InvParts(w, c);
    TracedRows(w.pipe.side, w.pipe.made);
    hide Inv, PL.Inv, PL.Traced, IA.Agrees, Local, SideOk, CM.Good, Numbered, IsWatermarks, PL.RowFrom;
    MarksLocal(w.pipe.side.table, marks, w.pipe.made, c.epoch);
    SeedLocal(w.index, marks, w.pipe.made, c.epoch);
    IA.StepAgrees(w.index, IA.StartSession(marks));
    FewerUnobserved(w.pipe.side, w.index.unobserved, IA.Step(w.index, IA.StartSession(marks)).unobserved);
    InvFrom(Step(w, c, Seed(marks)), c);
  }

  lemma TracedRows(s: CM.Side, made: seq<Frame>)
    requires PL.Traced(s, made)
    ensures forall r :: r in s.table ==> PL.RowFrom(s.table, r, made)
  {
  }

  /** A process that seeds before it consumes starts with nothing unobserved. */
  lemma FreshProcess(t: Table, marks: map<WellId, (nat, nat)>)
    requires IsWatermarks(t, marks)
    ensures var p := IA.Step(IA.Boot(t), IA.StartSession(marks));
            IA.Agrees(p) && p.table == t && p.unobserved == {}
  {
    IA.RunAgrees(t, []);
    IA.StepAgrees(IA.Boot(t), IA.StartSession(marks));
    hide IA.Agrees;
  }

  lemma FreshLocal(t: Table, made: seq<Frame>, epoch: nat)
    ensures Local(IA.Boot(t), made, epoch)
  {
  }

  lemma RestartKeeps(w: Whole, c: PL.Setup, marks: map<WellId, (nat, nat)>)
    requires Inv(w, c) && c.batchMax >= 1 && Enabled(w, c, Restart(marks))
    ensures Inv(Step(w, c, Restart(marks)), c)
  {
    InvParts(w, c);
    TracedRows(w.pipe.side, w.pipe.made);
    hide Inv, PL.Inv, PL.Traced, IA.Agrees, Local, CM.Good, Numbered, IsWatermarks, PL.RowFrom, DoubtSafe, CM.Values;
    var t := w.pipe.side.table;
    PL.StepKeeps(w.pipe, c, PL.AtSide(CM.Disconnect));
    DoubtStaysSafe(w.pipe.side, c.batchMax, CM.Disconnect);
    FreshProcess(t, marks);
    MarksLocal(t, marks, w.pipe.made, c.epoch);
    FreshLocal(t, w.pipe.made, c.epoch);
    SeedLocal(IA.Boot(t), marks, w.pipe.made, c.epoch);
    InvFrom(Step(w, c, Restart(marks)), c);
  }

  lemma StepKeeps(w: Whole, c: PL.Setup, ev: Event)
    requires Inv(w, c) && c.batchMax >= 1 && Enabled(w, c, ev)
    ensures Inv(Step(w, c, ev), c)
  {
    hide Inv, Enabled, Step;
    match ev
    case Does(e, now) => if e.AtSide? { SideKeeps(w, c, e.side, now); } else { ElsewhereKeeps(w, c, e, now); }
    case Seed(marks) => SeedKeeps(w, c, marks);
    case Restart(marks) => RestartKeeps(w, c, marks);
  }

  ghost predicate Path(c: PL.Setup, ws: seq<Whole>, es: seq<Event>) {
    && |ws| == |es| + 1
    && forall i :: 0 <= i < |es| ==> Enabled(ws[i], c, es[i]) && ws[i + 1] == Step(ws[i], c, es[i])
  }

  lemma BootKeeps(c: PL.Setup)
    ensures Inv(Boot(c), c)
  {
    PL.BootKeeps(c);
    IA.RunAgrees(map[], []);
    hide PL.Inv, IA.Agrees, CountOf;
  }

  lemma {:induction false} PathKeeps(c: PL.Setup, ws: seq<Whole>, es: seq<Event>)
    requires c.batchMax >= 1 && Path(c, ws, es) && ws[0] == Boot(c)
    ensures Inv(ws[|es|], c)
    decreases |es|
  {
    hide Inv, Enabled, Step;
    if es == [] {
      BootKeeps(c);
    } else {
      var n := |es| - 1;
      assert Path(c, ws[..n + 1], es[..n]) by {
        assert forall i :: 0 <= i < n ==> es[..n][i] == es[i];
      }
      PathKeeps(c, ws[..n + 1], es[..n]);
      assert Enabled(ws[n], c, es[n]) && ws[n + 1] == Step(ws[n], c, es[n]);
      StepKeeps(ws[n], c, es[n]);
    }
  }

  // ---- At rest ----

  lemma QuietAwaitsNothing(p: PL.Pipe, r: RowKey)
    requires PL.Quiet(p)
    ensures !Pending(p.side, r)
  {
    forall f: Frame ensures !Awaits(p.side, f) {
      assert IsValid(f) <==> Usable(Json(f));
    }
  }

  lemma QuietIsObserved(w: Whole, c: PL.Setup)
    requires Inv(w, c) && PL.Quiet(w.pipe)
    ensures w.index.unobserved == {}
  {
    InvParts(w, c);
    hide Inv, PL.Inv, PL.Quiet, IA.Agrees, Local, DoubtSafe, Pending, CM.Good, PL.Traced, Numbered;
    forall r: RowKey ensures !Pending(w.pipe.side, r) {
      QuietAwaitsNothing(w.pipe, r);
    }
  }

  /** With every number above the base seen up to `n`, nothing is open. */
  lemma NothingMissing(w: GM.WellGaps, h: GM.History, n: nat)
    requires GM.WellOk(w, h) && h.base <= n
    requires forall q: nat :: q > h.base ==> (q in h.seen <==> q <= n)
    ensures w.nextExpected == n + 1 && w.open == map[]
  {
    assert n > h.base ==> n in h.seen;
    forall q: nat ensures !GM.Missing(h, w.nextExpected, q) {
    }
    forall s: nat ensures s !in w.open {
      assert GM.Covers(w.open, s) ==> GM.Missing(h, w.nextExpected, s);
      assert s in w.open ==> GM.Covers(w.open, s);
    }
  }

  lemma QuietSeen(w: Whole, c: PL.Setup, k: WellId, q: nat)
    requires Inv(w, c) && PL.Quiet(w.pipe) && k in w.index.wells && k in w.index.histories
    requires q > w.index.histories[k].base
    ensures q in w.index.histories[k].seen <==> q <= CountOf(w.pipe.made, k)
  {
    QuietIsObserved(w, c);
    InvParts(w, c);
    LocalAt(w.index, w.pipe.made, c.epoch, k);
    hide Inv, Local, SideOk, CM.Good, PL.Traced;
    PL.QuietTable(w.pipe, c);
    hide PL.Inv, PL.Quiet, IA.Agrees, InsertAll, CountOf, Numbered;
    PL.StoredNumbers(w.pipe.made, c.epoch, k, q);
    IA.SeenIsStored(w.index, k);
    RowsAndNumbers(w.index.table, k, c.epoch, w.index.histories[k].base, q);
  }

  lemma LocalAt(p: IA.Process, made: seq<Frame>, epoch: nat, k: WellId)
    requires Local(p, made, epoch) && k in p.wells
    ensures k in p.histories && p.wells[k].epoch == epoch && p.histories[k].base <= CountOf(made, k)
  {
  }

  lemma RowsAndNumbers(t: Table, k: WellId, epoch: nat, b: nat, q: nat)
    requires q > b
    ensures q in IA.Numbers(IA.RowsAbove(t, k, epoch, b)) <==>
            exists r :: r in t && r.id == Identity(k, epoch, q)
  {
    if r :| r in t && r.id == Identity(k, epoch, q) {
      assert r in IA.RowsAbove(t, k, epoch, b);
    }
    if q in IA.Numbers(IA.RowsAbove(t, k, epoch, b)) {
      var r :| r in IA.RowsAbove(t, k, epoch, b) && r.id.seqNo == q;
      assert r.id == Identity(k, epoch, q);
    }
  }

  lemma QuietKnows(w: Whole, c: PL.Setup, k: WellId)
    requires Inv(w, c) && PL.Quiet(w.pipe) && CountOf(w.pipe.made, k) >= 1
    ensures k in w.index.wells
  {
    QuietIsObserved(w, c);
    InvParts(w, c);
    hide Inv, Local, SideOk, CM.Good, PL.Traced;
    PL.QuietTable(w.pipe, c);
    hide PL.Inv, PL.Quiet, InsertAll, CountOf, Numbered;
    PL.StoredNumbers(w.pipe.made, c.epoch, k, 1);
    var r :| r in w.index.table && r.id == Identity(k, c.epoch, 1);
    assert IA.Known(w.index, r);
  }

  lemma WellOkAt(p: IA.Process, k: WellId)
    requires IA.Agrees(p) && k in p.wells
    ensures k in p.histories && GM.WellOk(p.wells[k], p.histories[k])
  {
  }

  /** Over every run of the whole system, with sessions that break, inserts that land
      unreported or late, and ingest processes that die and reseed: once everything has
      come to rest and nothing was dropped, the index knows every well that made a frame,
      shows no gap in it, and expects exactly the number after the last one made. */
  lemma IndexShowsNoGapAtRest(c: PL.Setup, ws: seq<Whole>, es: seq<Event>, k: WellId)
    requires c.batchMax >= 1 && Path(c, ws, es) && ws[0] == Boot(c) && PL.Quiet(ws[|es|].pipe)
    requires CountOf(ws[|es|].pipe.made, k) >= 1
    ensures var w := ws[|es|];
            && k in w.index.wells
            && w.index.wells[k].epoch == c.epoch
            && w.index.wells[k].open == map[]
            && w.index.wells[k].nextExpected == CountOf(w.pipe.made, k) + 1
  {
    PathKeeps(c, ws, es);
    var w := ws[|es|];
    hide Path, PL.Quiet, CountOf;
    QuietKnows(w, c, k);
    InvParts(w, c);
    LocalAt(w.index, w.pipe.made, c.epoch, k);
    WellOkAt(w.index, k);
    forall q: nat | q > w.index.histories[k].base
      ensures q in w.index.histories[k].seen <==> q <= CountOf(w.pipe.made, k)
    {
      QuietSeen(w, c, k, q);
    }
    hide Inv, PL.Inv, IA.Agrees, Local, SideOk, GM.WellOk, Numbered, PL.Traced, CM.Good;
    NothingMissing(w.index.wells[k], w.index.histories[k], CountOf(w.pipe.made, k));
  }

  /** At every moment of such a run the index agrees with the table, and a stored row it
      has not heard of belongs to a frame that will be delivered again or is delivered
      and not covered by an ack. */
  lemma IndexAgreesOverRuns(c: PL.Setup, ws: seq<Whole>, es: seq<Event>)
    requires c.batchMax >= 1 && Path(c, ws, es) && ws[0] == Boot(c)
    ensures var w := ws[|es|];
            && w.index.table == w.pipe.side.table && IA.Agrees(w.index)
            && forall r :: r in w.index.unobserved ==> Pending(w.pipe.side, r)
  {
    PathKeeps(c, ws, es);
    hide Path, PL.Inv, IA.Agrees, Local, Pending;
  }
}

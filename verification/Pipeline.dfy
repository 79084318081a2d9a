/** The classic pipeline end to end: generator, channel, edge custody, an abstract
    durable broker, the consume session and the table, in one step relation. */
module Pipeline {
  import opened Folds
  import opened Frames
  import opened Sink
  import opened Numbering
  import UM = UplinkModel
  import CL = ClassicModel
  import CC = ClassicCustody
  import CM = ConsumerModel
  import CP = ConsumerProofs

  /** `made` logs what the generator emitted; `channel` holds what the edge has not
      taken yet; `enqueued` names the publish attempts that reached the broker. */
  datatype Pipe = Pipe(
    made: seq<Frame>, channel: seq<Frame>, edge: CL.Edge, enqueued: set<nat>, side: CM.Side)

  datatype Setup = Setup(epoch: nat, pads: nat, cap: nat, window: nat, batchMax: nat)

  function Boot(c: Setup): Pipe {
    Pipe([], [], CL.Boot(c.pads, c.cap), {}, CM.Empty())
  }

  datatype Event =
    | Generate(frame: Frame)
    | AtEdge(edge: CL.Event)
    | Enqueue(id: nat)
    | Foreign(payload: Payload)
    | AtSide(side: CM.Event)

  /** The generator numbers its frames; the edge takes frames from the channel in order
      and hears an ack only for a publish the broker has queued; a publish attempt may
      reach the queue at any later time, once, whether or not the edge hears of it;
      others may queue messages that do not parse or validate. */
  ghost predicate Enabled(p: Pipe, c: Setup, ev: Event) {
    match ev
    case Generate(f) => IsValid(f) && f.epoch == c.epoch && f.seqNo == CountOf(p.made, WellOf(f)) + 1
    case AtEdge(e) =>
      && CL.Paired(p.edge) && CL.Enabled(p.edge, c.window, e)
      && (e.Arrive? ==> p.channel != [] && p.channel[0] == e.frame)
      && CL.Step(p.edge, e).acked <= p.edge.acked + p.enqueued
    case Enqueue(id) => id < |p.edge.published| && id !in p.enqueued
    case Foreign(m) => !Usable(m)
    case AtSide(e) => CM.Enabled(p.side, c.batchMax, e)
  }

  ghost function Step(p: Pipe, c: Setup, ev: Event): Pipe
    requires Enabled(p, c, ev)
  {
    match ev
    case Generate(f) => p.(made := p.made + [f], channel := p.channel + [f])
    case AtEdge(e) =>
      p.(edge := CL.Step(p.edge, e), channel := if e.Arrive? then p.channel[1..] else p.channel)
    case Enqueue(id) =>
      p.(enqueued := p.enqueued + {id}, side := Queued(p.side, Json(p.edge.published[id])))
    case Foreign(m) => p.(side := Queued(p.side, m))
    case AtSide(e) => p.(side := CM.Step(p.side, e))
  }

  function Queued(s: CM.Side, m: Payload): CM.Side {
    s.(ready := s.ready + multiset{m})
  }

  // ---- Invariants ----

  ghost predicate EdgeOk(p: Pipe, c: Setup) {
    && CC.Matched(p.edge) && CC.Balanced(p.edge) && CC.Closed(p.edge)
    && |p.edge.inflight| <= c.window
    && multiset(p.made) == multiset(p.channel) + p.edge.books.received
  }

  ghost predicate BrokerOk(p: Pipe) {
    && p.edge.acked <= p.enqueued
    && (forall id :: id in p.enqueued ==> id < |p.edge.published|)
    && (forall id :: id in p.enqueued ==> CM.Safe(p.side, Json(p.edge.published[id])))
  }

  /** Everything usable at the broker, and every row, comes from a frame that was made. */
  ghost predicate Traced(s: CM.Side, made: seq<Frame>) {
    && (forall m :: m in s.ready && Usable(m) ==> m.frame in made)
    && (forall t :: t in s.unacked && Usable(s.unacked[t]) ==> s.unacked[t].frame in made)
    && (forall i, f :: 0 <= i < |s.doubt| && f in s.doubt[i] ==> f in made)
    && (forall k :: k in s.table ==> RowFrom(s.table, k, made))
  }

  ghost predicate RowFrom(t: Table, k: RowKey, fs: seq<Frame>)
    requires k in t
  {
    exists f :: f in fs && KeyOf(f) == k && t[k] == ReadingOf(f)
  }

  ghost predicate Inv(p: Pipe, c: Setup) {
    && Numbered(p.made, c.epoch)
    && EdgeOk(p, c) && BrokerOk(p)
    && CM.Good(p.side) && Traced(p.side, p.made)
  }

  // ---- Tracing ----

  lemma {:induction false} InsertFrom(t: Table, fs: seq<Frame>, k: RowKey)
    requires k in InsertAll(t, fs)
    ensures (k in t && InsertAll(t, fs)[k] == t[k]) || RowFrom(InsertAll(t, fs), k, fs)
  {
    if fs != [] {
      var gs, f := fs[..|fs| - 1], fs[|fs| - 1];
      assert fs == gs + [f];
      if k in InsertAll(t, gs) {
        InsertFrom(t, gs, k);
        if !(k in t && InsertAll(t, gs)[k] == t[k]) {
          var g :| g in gs && KeyOf(g) == k && InsertAll(t, gs)[k] == ReadingOf(g);
          assert g in fs;
        }
      } else {
        assert f in fs && KeyOf(f) == k;
      }
    }
  }

  /** The batch's frames are unsettled usable deliveries. */
  lemma BatchTraced(s: CM.Side, made: seq<Frame>)
    requires CM.TagsTrue(s) && Traced(s, made)
    ensures forall f :: f in s.batch ==> f in made
  {
    forall f | f in s.batch ensures f in made {
      var i :| 0 <= i < |s.batch| && s.batch[i] == f;
      assert s.held[i] in s.unacked && Usable(s.unacked[s.held[i]]);
    }
  }

  lemma RowsTraced(t: Table, fs: seq<Frame>, made: seq<Frame>)
    requires forall f :: f in fs ==> f in made
    requires forall k :: k in t ==> RowFrom(t, k, made)
    ensures forall k :: k in InsertAll(t, fs) ==> RowFrom(InsertAll(t, fs), k, made)
  {
    hide InsertAll;
    var u := InsertAll(t, fs);
    forall k | k in u ensures RowFrom(u, k, made) {
      InsertFrom(t, fs, k);
      if k in t && u[k] == t[k] {
        assert RowFrom(t, k, made);
        var f :| f in made && KeyOf(f) == k && t[k] == ReadingOf(f);
      } else {
        var f :| f in fs && KeyOf(f) == k && u[k] == ReadingOf(f);
      }
    }
  }

  /** Inserting made frames, and forgetting or adding inserts of made frames. */
  lemma GrownTraced(s: CM.Side, fs: seq<Frame>, doubt: seq<seq<Frame>>, made: seq<Frame>)
    requires Traced(s, made) && forall f :: f in fs ==> f in made
    requires forall i, f :: 0 <= i < |doubt| && f in doubt[i] ==> f in made
    ensures Traced(s.(table := InsertAll(s.table, fs), doubt := doubt), made)
  {
    hide RowFrom, InsertAll;
    RowsTraced(s.table, fs, made);
  }

  lemma DoubtTraced(s: CM.Side, made: seq<Frame>, i: nat)
    requires Traced(s, made) && i < |s.doubt|
    ensures forall f :: f in s.doubt[i] ==> f in made
    ensures forall j, f :: 0 <= j < |Without(s.doubt, i)| && f in Without(s.doubt, i)[j] ==> f in made
  {
    hide RowFrom;
    forall j, f | 0 <= j < |Without(s.doubt, i)| && f in Without(s.doubt, i)[j] ensures f in made {
      assert Without(s.doubt, i)[j] == s.doubt[if j < i then j else j + 1];
    }
  }

  lemma {:induction false} ValuesFrom(unacked: map<nat, Payload>, m: Payload)
    requires m in CM.Values(unacked)
    ensures exists t :: t in unacked && unacked[t] == m
    decreases |unacked|
  {
    if k :| k in unacked {
      GatherSplit(unacked, (p: Payload) => multiset{p}, k);
      if unacked[k] != m {
        ValuesFrom(unacked - {k}, m);
        var t :| t in unacked - {k} && (unacked - {k})[t] == m;
        assert t in unacked && unacked[t] == m;
      }
    }
  }

  lemma DroppedTraced(s: CM.Side, made: seq<Frame>)
    requires Traced(s, made)
    ensures Traced(CM.Dropped(s), made)
  {
    hide RowFrom;
    var r := CM.Dropped(s);
    forall m | m in r.ready && Usable(m) ensures m.frame in made {
      if m !in s.ready {
        ValuesFrom(s.unacked, m);
      }
    }
  }

  lemma MoveTraced(s: CM.Side, batchMax: nat, e: CM.Event, made: seq<Frame>)
    requires CM.TagsTrue(s) && CM.Enabled(s, batchMax, e) && Traced(s, made)
    requires e.Deliver? || e.Take? || e.SendAck? || e.BrokerAck?
    ensures Traced(CM.Step(s, e), made)
  {
    hide RowFrom, InsertAll, CM.Dropped, Without;
  }

  lemma CommitTraced(s: CM.Side, outcome: TxOutcome, made: seq<Frame>)
    requires CM.TagsTrue(s) && Traced(s, made)
    ensures Traced(CM.Step(s, CM.Commit(outcome)), made)
  {
    hide RowFrom, InsertAll, CM.Dropped, CM.TagsTrue;
    BatchTraced(s, made);
    assert forall i, f :: 0 <= i < |s.doubt| && f in s.doubt[i] ==> f in made;
    GrownTraced(s, s.batch, s.doubt, made);
    DroppedTraced(s, made);
    DroppedTraced(s.(table := InsertAll(s.table, s.batch)), made);
  }

  lemma TimeOutTraced(s: CM.Side, made: seq<Frame>)
    requires CM.TagsTrue(s) && Traced(s, made)
    ensures Traced(CM.Step(s, CM.TimeOut), made)
  {
    hide RowFrom, InsertAll, CM.Dropped, CM.TagsTrue;
    BatchTraced(s, made);
    GrownTraced(s, [], s.doubt + [s.batch], made);
    InsertNothing(s.table);
    DroppedTraced(s.(doubt := s.doubt + [s.batch]), made);
  }

  lemma LandTraced(s: CM.Side, i: nat, made: seq<Frame>)
    requires Traced(s, made) && i < |s.doubt|
    ensures Traced(CM.Step(s, CM.Land(i)), made) && Traced(CM.Step(s, CM.Vanish(i)), made)
  {
    hide RowFrom, InsertAll, Traced, Without;
    DoubtTraced(s, made, i);
    GrownTraced(s, s.doubt[i], Without(s.doubt, i), made);
    InsertNothing(s.table);
    GrownTraced(s, [], Without(s.doubt, i), made);
  }

  lemma SideTraced(s: CM.Side, batchMax: nat, e: CM.Event, made: seq<Frame>)
    requires CM.Good(s) && CM.Enabled(s, batchMax, e) && Traced(s, made)
    ensures Traced(CM.Step(s, e), made)
  {
    hide Traced, CM.Step, CM.TagsOrdered, CM.TagsTrue, CM.Placed, CM.Flushes;
    match e
    case Commit(outcome) => CommitTraced(s, outcome, made);
    case Disconnect => DisconnectTraced(s, made);
    case TimeOut => TimeOutTraced(s, made);
    case Land(i) => LandTraced(s, i, made);
    case Vanish(i) => LandTraced(s, i, made);
    case _ => MoveTraced(s, batchMax, e, made);
  }

  lemma DisconnectTraced(s: CM.Side, made: seq<Frame>)
    requires Traced(s, made)
    ensures Traced(CM.Step(s, CM.Disconnect), made)
  {
    hide Traced;
    DroppedTraced(s, made);
  }

  lemma InsertNothing(t: Table)
    ensures InsertAll(t, []) == t
  {
  }

  // ---- Each step ----

  lemma MadeTwice(made: seq<Frame>, more: Frame, s: CM.Side)
    requires Traced(s, made)
    ensures Traced(s, made + [more])
  {
    forall k | k in s.table ensures RowFrom(s.table, k, made + [more]) {
      assert RowFrom(s.table, k, made);
      var f :| f in made && KeyOf(f) == k && s.table[k] == ReadingOf(f);
      assert f in made + [more];
    }
  }

  lemma GenerateKeeps(p: Pipe, c: Setup, f: Frame)
    requires Inv(p, c) && Enabled(p, c, Generate(f))
    ensures Inv(Step(p, c, Generate(f)), c)
  {
    hide Numbered, CC.Matched, CC.Balanced, CC.Closed, CM.Good, Traced, CM.Safe, CountOf;
    NumberedMore(p.made, f, c.epoch);
    MadeTwice(p.made, f, p.side);
    assert multiset(p.made + [f]) == multiset(p.made) + multiset{f};
    assert multiset(p.channel + [f]) == multiset(p.channel) + multiset{f};
  }

  lemma EdgeKeeps(p: Pipe, c: Setup, e: CL.Event)
    requires EdgeOk(p, c) && Enabled(p, c, AtEdge(e))
    ensures EdgeOk(Step(p, c, AtEdge(e)), c)
  {
    hide CC.Matched, CC.Balanced, CC.Closed, CL.Step;
    CC.StepKeeps(p.edge, c.window, e);
    CC.StepCloses(p.edge, e);
    CC.StepLogs(p.edge, e);
    if e.Arrive? {
      assert p.channel == [p.channel[0]] + p.channel[1..];
    }
  }

  lemma EdgeBroker(p: Pipe, c: Setup, e: CL.Event)
    requires BrokerOk(p) && Enabled(p, c, AtEdge(e))
    ensures BrokerOk(Step(p, c, AtEdge(e)))
  {
    hide CL.Step, CM.Safe;
    CC.StepLogs(p.edge, e);
  }

  lemma QueuedKeeps(s: CM.Side, m: Payload, made: seq<Frame>)
    requires CM.Good(s) && Traced(s, made) && (Usable(m) ==> m.frame in made)
    ensures CM.Good(Queued(s, m)) && Traced(Queued(s, m), made) && CM.Safe(Queued(s, m), m)
  {
    var r := Queued(s, m);
    QueuedGood(s, m);
    hide CM.Good, RowFrom;
  }

  lemma QueuedGood(s: CM.Side, m: Payload)
    requires CM.Good(s)
    ensures CM.Good(Queued(s, m))
  {
    forall t: nat ensures CM.Placed(Queued(s, m), t) {
      assert CM.Placed(s, t);
    }
  }

  lemma QueuedSafe(s: CM.Side, m: Payload, n: Payload)
    requires CM.Safe(s, n)
    ensures CM.Safe(Queued(s, m), n)
  {
  }

  /** What was published was made, and so parses and validates. */
  lemma PublishedIsUsable(p: Pipe, c: Setup, id: nat)
    requires Numbered(p.made, c.epoch) && EdgeOk(p, c) && id < |p.edge.published|
    ensures p.edge.published[id] in p.made && Usable(Json(p.edge.published[id]))
  {
    hide CC.Matched, CC.Balanced, CountOf;
    var f := p.edge.published[id];
    assert f in p.edge.published && f in p.edge.books.received;
    assert f in multiset(p.made);
    var i :| 0 <= i < |p.made| && p.made[i] == f;
  }

  lemma QueueKeeps(p: Pipe, c: Setup, m: Payload, enqueued: set<nat>)
    requires Inv(p, c) && (Usable(m) ==> m.frame in p.made)
    requires forall id :: id in enqueued ==>
               id in p.enqueued || (id < |p.edge.published| && m == Json(p.edge.published[id]))
    requires p.enqueued <= enqueued
    ensures Inv(p.(enqueued := enqueued, side := Queued(p.side, m)), c)
  {
    hide Numbered, CC.Matched, CC.Balanced, CC.Closed, CM.Good, Traced, CM.Safe, Queued;
    QueuedKeeps(p.side, m, p.made);
    forall id | id in p.enqueued ensures CM.Safe(Queued(p.side, m), Json(p.edge.published[id])) {
      QueuedSafe(p.side, m, Json(p.edge.published[id]));
    }
  }

  lemma SideKeeps(p: Pipe, c: Setup, e: CM.Event)
    requires Inv(p, c) && c.batchMax >= 1 && Enabled(p, c, AtSide(e))
    ensures Inv(Step(p, c, AtSide(e)), c)
  {
    hide Numbered, CC.Matched, CC.Balanced, CC.Closed, CM.Good, Traced, CM.Safe, CM.Step;
    CP.StepKeeps(p.side, c.batchMax, e);
    SideTraced(p.side, c.batchMax, e, p.made);
    forall id | id in p.enqueued ensures CM.Safe(CM.Step(p.side, e), Json(p.edge.published[id])) {
      PublishedIsUsable(p, c, id);
      CP.StepSafe(p.side, c.batchMax, e, Json(p.edge.published[id]));
    }
  }

  lemma StepKeeps(p: Pipe, c: Setup, ev: Event)
    requires Inv(p, c) && c.batchMax >= 1 && Enabled(p, c, ev)
    ensures Inv(Step(p, c, ev), c)
  {
    hide Numbered, EdgeOk, CM.Good, Traced, CM.Safe, Queued, CL.Step, CM.Step;
    match ev
    case Generate(f) => GenerateKeeps(p, c, f);
    case AtEdge(e) =>
      EdgeKeeps(p, c, e);
      EdgeBroker(p, c, e);
    case Enqueue(id) =>
      PublishedIsUsable(p, c, id);
      QueueKeeps(p, c, Json(p.edge.published[id]), p.enqueued + {id});
    case Foreign(m) => QueueKeeps(p, c, m, p.enqueued);
    case AtSide(e) => SideKeeps(p, c, e);
  }

  // ---- No frame is lost ----

  /** Where a made frame can be. */
  ghost predicate Accounted(p: Pipe, f: Frame) {
    || f in p.channel
    || f in p.edge.books.dropped
    || f in UM.Held(p.edge.up)
    || f in CC.Wire(p.edge.pending, false)
    || CM.Safe(p.side, Json(f))
  }

  lemma EveryFrameIsAccounted(p: Pipe, c: Setup, f: Frame)
    requires Inv(p, c) && f in p.made
    ensures Accounted(p, f)
  {
    hide Numbered, CM.Good, Traced, CM.Safe, UM.Held, CC.Wire, CC.Closed, CC.InStep;
    assert f in multiset(p.made);
    if f !in p.channel {
      assert f in p.edge.books.received;
      assert f in p.edge.books.received + p.edge.books.promoted;
      if f in p.edge.books.confirmed {
        assert CC.WasAcked(p.edge, f);
      }
    }
  }

  ghost predicate Path(c: Setup, ps: seq<Pipe>, es: seq<Event>) {
    && |ps| == |es| + 1
    && forall i :: 0 <= i < |es| ==> Enabled(ps[i], c, es[i]) && ps[i + 1] == Step(ps[i], c, es[i])
  }

  lemma BootKeeps(c: Setup)
    ensures Inv(Boot(c), c)
  {
    CC.BootKeeps(c.pads, c.cap);
    CP.IdleGood(CM.Empty());
    hide CC.Matched, CC.Balanced, CM.Good;
  }

  /** At least once, end to end: over every run of generator, edge, broker, ingest and
      table steps, with lost confirms, connection losses, crashes at any point and
      redelivery, every frame ever made is waiting in the channel, among the counted
      drops, in edge custody, on the wire, queued or unsettled at the broker, or in the
      table. */
  lemma {:induction false} NoFrameIsLost(c: Setup, ps: seq<Pipe>, es: seq<Event>)
    requires c.batchMax >= 1 && Path(c, ps, es) && ps[0] == Boot(c)
    ensures Inv(ps[|es|], c)
    ensures forall f :: f in ps[|es|].made ==> Accounted(ps[|es|], f)
    decreases |es|
  {
    hide Inv, Enabled, Step, Accounted;
    BootKeeps(c);
    if es != [] {
      var n := |es| - 1;
      assert Path(c, ps[..n + 1], es[..n]) by {
        assert forall i :: 0 <= i < n ==> es[..n][i] == es[i];
      }
      NoFrameIsLost(c, ps[..n + 1], es[..n]);
      assert Enabled(ps[n], c, es[n]) && ps[n + 1] == Step(ps[n], c, es[n]);
      StepKeeps(ps[n], c, es[n]);
    }
    forall f | f in ps[|es|].made ensures Accounted(ps[|es|], f) {
      EveryFrameIsAccounted(ps[|es|], c, f);
    }
  }

  // ---- Exactly once at the table ----

  /** Nothing is under way and nothing was given up. */
  ghost predicate Quiet(p: Pipe) {
    && p.channel == [] && UM.Held(p.edge.up) == multiset{} && p.edge.pending == []
    && p.edge.books.dropped == multiset{}
    && (forall m :: m in p.side.ready ==> !Usable(m))
    && (forall t :: t in p.side.unacked ==> !Usable(p.side.unacked[t]))
  }

  lemma FreshIdentity(gs: seq<Frame>, l: Frame, epoch: nat)
    requires Numbered(gs + [l], epoch)
    ensures IdentityOf(l) !in IdentitiesOf(gs)
  {
    hide Numbered;
    forall g | g in gs ensures IdentityOf(g) != IdentityOf(l) {
      var i :| 0 <= i < |gs| && gs[i] == g;
      IdentitiesAreDistinct(gs + [l], epoch, i, |gs|);
    }
  }

  lemma {:induction false} DistinctIdentities(fs: seq<Frame>, epoch: nat)
    requires Numbered(fs, epoch)
    ensures |IdentitiesOf(fs)| == |fs|
  {
    if fs != [] {
      hide Numbered, IdentitiesOf, KeysOf, FramesOf;
      var n := |fs| - 1;
      var gs, l := fs[..n], fs[n];
      assert fs == gs + [l];
      NumberedPrefix(fs, epoch);
      DistinctIdentities(gs, epoch);
      KeysOfLast(gs, l);
      FreshIdentity(gs, l, epoch);
    }
  }

  lemma QuietStores(p: Pipe, c: Setup, f: Frame)
    requires Inv(p, c) && Quiet(p) && f in p.made
    ensures KeyOf(f) in p.side.table
  {
    hide EdgeOk, BrokerOk, CM.Good, Traced, UM.Held, CountOf;
    EveryFrameIsAccounted(p, c, f);
    var i :| 0 <= i < |p.made| && p.made[i] == f;
    assert Usable(Json(f));
    assert CC.Wire([], false) == multiset{};
  }

  /** At every moment a row is a made frame's own, and no identity has two rows. */
  lemma OneRowPerIdentity(p: Pipe, c: Setup, r: RowKey, s: RowKey)
    requires Inv(p, c) && r in p.side.table && s in p.side.table && r.id == s.id
    ensures r == s
  {
    hide EdgeOk, BrokerOk, CM.Good, CountOf;
    OneFramePerIdentity(p.made, c.epoch);
    hide Numbered;
    assert RowFrom(p.side.table, r, p.made) && RowFrom(p.side.table, s, p.made);
    var f :| f in p.made && KeyOf(f) == r;
    var g :| g in p.made && KeyOf(g) == s;
    assert f in FramesOf(p.made) && g in FramesOf(p.made);
  }

  /** A table whose rows come from some frames and that has a row for each of them is
      what inserting them leaves. */
  lemma RowsOf(t: Table, fs: seq<Frame>)
    requires OneBodyPerIdentity(FramesOf(fs)) && KeysOf(fs) <= t.Keys
    requires forall k :: k in t ==> RowFrom(t, k, fs)
    ensures t == InsertAll(map[], fs)
  {
    hide InsertAll, OneBodyPerIdentity;
    InsertKeeps(map[], fs);
    forall k | k in t ensures k in InsertAll(map[], fs) && t[k] == InsertAll(map[], fs)[k] {
      assert RowFrom(t, k, fs);
      var f :| f in fs && KeyOf(f) == k && t[k] == ReadingOf(f);
      RowsHoldTheirFrames(fs, f);
    }
  }

  lemma QuietTable(p: Pipe, c: Setup)
    requires Inv(p, c) && Quiet(p)
    ensures p.side.table == InsertAll(map[], p.made)
  {
    hide EdgeOk, BrokerOk, CM.Good, Numbered, Quiet, InsertAll, OneBodyPerIdentity, RowFrom;
    OneFramePerIdentity(p.made, c.epoch);
    forall f | f in p.made ensures KeyOf(f) in p.side.table {
      QuietStores(p, c, f);
    }
    RowsOf(p.side.table, p.made);
  }

  /** Effectively exactly once: over every run, when the volatile places are empty and
      nothing was dropped, the table is the made frames, one row each, and each well's
      stored numbers are exactly 1 up to what it made. */
  lemma TableIsWhatWasMade(c: Setup, ps: seq<Pipe>, es: seq<Event>, k: WellId, q: nat)
    requires c.batchMax >= 1 && Path(c, ps, es) && ps[0] == Boot(c) && Quiet(ps[|es|])
    ensures var p := ps[|es|];
            && p.side.table == InsertAll(map[], p.made)
            && |p.side.table| == |p.made|
            && (forall f :: f in p.made ==> ReadsBack(p.side.table, f))
            && ((exists r :: r in p.side.table && r.id == Identity(k, c.epoch, q)) <==> 1 <= q <= CountOf(p.made, k))
  {
    NoFrameIsLost(c, ps, es);
    var p := ps[|es|];
    QuietTable(p, c);
    TableCounts(p.made, c.epoch);
    StoredNumbers(p.made, c.epoch, k, q);
    hide Inv, Path, Quiet, InsertAll, CountOf, Numbered;
    AllReadBack(p.made, c.epoch);
  }

  lemma AllReadBack(made: seq<Frame>, epoch: nat)
    requires Numbered(made, epoch)
    ensures forall f :: f in made ==> ReadsBack(InsertAll(map[], made), f)
  {
    OneFramePerIdentity(made, epoch);
    hide Numbered, InsertAll, ReadsBack, OneBodyPerIdentity;
    forall f | f in made ensures ReadsBack(InsertAll(map[], made), f) {
      EveryFrameReadsBack(made, f);
    }
  }

  /** The stored numbers of a well are those it made. */
  lemma StoredNumbers(made: seq<Frame>, epoch: nat, k: WellId, q: nat)
    requires Numbered(made, epoch)
    ensures (exists r :: r in InsertAll(map[], made) && r.id == Identity(k, epoch, q)) <==> 1 <= q <= CountOf(made, k)
  {
    hide InsertAll, CountOf, Numbered;
    NumbersAreAnInterval(made, epoch, k, q);
    InsertKeeps(map[], made);
    if f :| f in made && IdentityOf(f) == Identity(k, epoch, q) {
      assert KeyOf(f) in InsertAll(map[], made) && KeyOf(f).id == Identity(k, epoch, q);
    }
    if r :| r in InsertAll(map[], made) && r.id == Identity(k, epoch, q) {
      var f :| f in made && KeyOf(f) == r;
      assert IdentityOf(f) == Identity(k, epoch, q);
    }
  }

  lemma TableCounts(made: seq<Frame>, epoch: nat)
    requires Numbered(made, epoch)
    ensures |InsertAll(map[], made)| == |made|
  {
    OneFramePerIdentity(made, epoch);
    DistinctIdentities(made, epoch);
    IdentitiesMatchKeys(made);
    InsertCounts(map[], made);
    hide Numbered, InsertAll, KeysOf, IdentitiesOf;
    var none: Table := map[];
    assert KeysOf(made) - none.Keys == KeysOf(made);
  }
}

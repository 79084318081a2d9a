/** The stream pipeline end to end: generator, channel, stream edge, the log, and the
    ingest that commits rows and offset together. */
module StreamPipeline {
  import opened Frames
  import opened Sink
  import opened Numbering
  import UM = UplinkModel
  import SM = StreamModel
  import SC = StreamCustody
  import SL = StreamLog
  import SI = StreamIngest
  import PL = Pipeline

  /** `system.log` names the ids the broker appended; `ingest.log` is the stream's
      content, with whatever others wrote to it in between. */
  datatype Pipe = Pipe(made: seq<Frame>, channel: seq<Frame>, system: SL.System, ingest: SI.Ingest)

  datatype Setup = Setup(epoch: nat, pads: nat, cap: nat, window: nat, batchMax: nat)

  function Boot(c: Setup): Pipe {
    Pipe([], [], SL.System(SM.Boot(c.pads, c.cap), []), SI.Empty())
  }

  datatype Event =
    | Generate(frame: Frame)
    | AtEdge(edge: SM.Event)
    | Land(id: nat)
    | Foreign(payload: Payload)
    | AtIngest(ingest: SI.Event)

  /** Sessions start within what was ever committed, as the defaults and every resume
      do; only the broker appends. */
  ghost predicate Enabled(p: Pipe, c: Setup, ev: Event) {
    match ev
    case Generate(f) => IsValid(f) && f.epoch == c.epoch && f.seqNo == CountOf(p.made, WellOf(f)) + 1
    case AtEdge(e) =>
      && SL.Enabled(p.system, c.window, SL.AtEdge(e)) && |p.system.edge.inflight| <= c.window
      && (e.Arrive? ==> p.channel != [] && p.channel[0] == e.frame)
    case Land(id) => SL.Enabled(p.system, c.window, SL.Land(id)) && |p.system.edge.inflight| <= c.window
    case Foreign(m) => !Usable(m)
    case AtIngest(e) => SI.Enabled(p.ingest, c.batchMax, e) && !e.Append? && SI.Covered(p.ingest, e)
  }

  ghost function Step(p: Pipe, c: Setup, ev: Event): Pipe
    requires Enabled(p, c, ev)
  {
    match ev
    case Generate(f) => p.(made := p.made + [f], channel := p.channel + [f])
    case AtEdge(e) =>
      p.(system := SL.Step(p.system, c.window, SL.AtEdge(e)),
         channel := if e.Arrive? then p.channel[1..] else p.channel)
    case Land(id) =>
      p.(system := SL.Step(p.system, c.window, SL.Land(id)),
         ingest := if id in p.system.log then p.ingest
                   else SI.Step(p.ingest, SI.Append(Json(p.system.edge.bound[id].0))))
    case Foreign(m) => p.(ingest := SI.Step(p.ingest, SI.Append(m)))
    case AtIngest(e) => p.(ingest := SI.Step(p.ingest, e))
  }

  // ---- Invariants ----

  ghost predicate EdgeOk(p: Pipe, c: Setup) {
    && SL.Good(p.system, c.window)
    && multiset(p.made) == multiset(p.channel) + p.system.edge.received
  }

  /** The stream holds a record of every appended id, and nothing usable that was not
      made. */
  ghost predicate StreamOk(p: Pipe) {
    && (forall id :: id in p.system.log ==>
          id < |p.system.edge.bound| && Json(p.system.edge.bound[id].0) in p.ingest.log)
    && (forall m :: m in p.ingest.log && Usable(m) ==> m.frame in p.made)
  }

  ghost predicate Inv(p: Pipe, c: Setup) {
    Numbered(p.made, c.epoch) && EdgeOk(p, c) && StreamOk(p) && SI.Sound(p.ingest)
  }

  lemma GenerateKeeps(p: Pipe, c: Setup, f: Frame)
    requires Inv(p, c) && Enabled(p, c, Generate(f))
    ensures Inv(Step(p, c, Generate(f)), c)
  {
    hide Numbered, SL.Good, SI.Sound, CountOf;
    NumberedMore(p.made, f, c.epoch);
    assert multiset(p.made + [f]) == multiset(p.made) + multiset{f};
    assert multiset(p.channel + [f]) == multiset(p.channel) + multiset{f};
  }

  lemma BoundWasMade(p: Pipe, c: Setup, id: nat)
    requires Numbered(p.made, c.epoch) && EdgeOk(p, c) && id < |p.system.edge.bound|
    ensures p.system.edge.bound[id].0 in p.made
  {
    hide SC.Custody, SL.LogOk, Numbered;
    SL.BoundWasReceived(p.system.edge, c.window, id);
    assert p.system.edge.bound[id].0 in multiset(p.made);
  }

  lemma EdgeKeeps(p: Pipe, c: Setup, e: SM.Event)
    requires EdgeOk(p, c) && StreamOk(p) && Enabled(p, c, AtEdge(e))
    ensures EdgeOk(Step(p, c, AtEdge(e)), c) && StreamOk(Step(p, c, AtEdge(e)))
  {
    hide SL.Good, SM.Step, SM.Enabled;
    SL.StepKeeps(p.system, c.window, SL.AtEdge(e));
    SL.StepSettles(p.system.edge, c.window, e);
    if e.Arrive? {
      assert p.channel == [p.channel[0]] + p.channel[1..];
    }
  }

  lemma LandKeeps(p: Pipe, c: Setup, id: nat)
    requires Inv(p, c) && Enabled(p, c, Land(id))
    ensures Inv(Step(p, c, Land(id)), c)
  {
    hide SL.Good, SI.Sound, Numbered, SI.Step;
    SL.StepKeeps(p.system, c.window, SL.Land(id));
    BoundWasMade(p, c, id);
    var m := Json(p.system.edge.bound[id].0);
    if id !in p.system.log {
      SI.AppendSound(p.ingest, m);
      Appended(p.ingest, m);
    }
  }

  lemma Appended(s: SI.Ingest, m: Payload)
    ensures SI.Step(s, SI.Append(m)).log == s.log + [m]
  {
  }

  lemma ForeignKeeps(p: Pipe, c: Setup, m: Payload)
    requires Inv(p, c) && !Usable(m)
    ensures Inv(Step(p, c, Foreign(m)), c)
  {
    hide SL.Good, SI.Sound, Numbered, SI.Step;
    SI.AppendSound(p.ingest, m);
    Appended(p.ingest, m);
  }

  lemma IngestKeeps(p: Pipe, c: Setup, e: SI.Event)
    requires Inv(p, c) && Enabled(p, c, AtIngest(e))
    ensures Inv(Step(p, c, AtIngest(e)), c)
  {
    hide SL.Good, SI.Sound, Numbered, SI.Covered, SI.Possible, SI.Flushes;
    SI.StepSound(p.ingest, c.batchMax, e);
    SameLog(p.ingest, e);
  }

  lemma SameLog(s: SI.Ingest, e: SI.Event)
    requires SI.Possible(s, e) && !e.Append?
    ensures SI.Step(s, e).log == s.log
  {
    hide InsertAll, SI.Accept;
  }

  lemma StepKeeps(p: Pipe, c: Setup, ev: Event)
    requires Inv(p, c) && Enabled(p, c, ev)
    ensures Inv(Step(p, c, ev), c)
  {
    hide Numbered, EdgeOk, StreamOk, SI.Sound, SL.Step, SI.Step;
    match ev
    case Generate(f) => GenerateKeeps(p, c, f);
    case AtEdge(e) => EdgeKeeps(p, c, e);
    case Land(id) => LandKeeps(p, c, id);
    case Foreign(m) => ForeignKeeps(p, c, m);
    case AtIngest(e) => IngestKeeps(p, c, e);
  }

  // ---- No frame is lost ----

  /** Where a made frame can be; once in the log it is a record of the stream. */
  ghost predicate Accounted(p: Pipe, f: Frame) {
    var e := p.system.edge;
    || f in p.channel
    || f in e.dropped
    || f in UM.Held(e.up)
    || f in SM.FramesAt(e.bound, SL.Live(e))
    || f in SM.FramesAt(e.bound, SL.Waiting(e))
    || Json(f) in p.ingest.log
  }

  lemma {:induction false} FrameHasId(bound: seq<(Frame, bool)>, ids: set<nat>, f: Frame)
    requires f in SM.FramesAt(bound, ids)
    ensures exists id :: id in ids && id < |bound| && bound[id].0 == f
  {
    if bound != [] {
      var n := |bound| - 1;
      if n in ids && bound[n].0 == f {
      } else {
        FrameHasId(bound[..n], ids, f);
      }
    }
  }

  lemma EveryFrameIsAccounted(p: Pipe, c: Setup, f: Frame)
    requires Inv(p, c) && f in p.made
    ensures Accounted(p, f)
  {
    hide Numbered, SI.Sound, SC.Custody, UM.Held, SM.FramesAt, SL.Live, SL.Waiting;
    var e := p.system.edge;
    SL.FramesHaveOnePlace(e, c.window);
    assert f in multiset(p.made);
    if f !in p.channel {
      assert f in e.received;
      if f in SM.FramesAt(e.bound, e.settled) {
        FrameHasId(e.bound, e.settled, f);
      }
    }
  }

  ghost predicate Path(c: Setup, ps: seq<Pipe>, es: seq<Event>) {
    && |ps| == |es| + 1
    && forall i :: 0 <= i < |es| ==> Enabled(ps[i], c, es[i]) && ps[i + 1] == Step(ps[i], c, es[i])
  }

  lemma BootKeeps(c: Setup)
    ensures Inv(Boot(c), c)
  {
    hide SL.Good;
    SL.BootGood(c.pads, c.cap, c.window);
    SI.EmptySound();
  }

  /** At least once over the stream: over every run, every frame ever made is in the
      channel, among the drops, in edge custody, or a record of the stream. */
  lemma {:induction false} NoFrameIsLost(c: Setup, ps: seq<Pipe>, es: seq<Event>)
    requires Path(c, ps, es) && ps[0] == Boot(c)
    ensures Inv(ps[|es|], c)
    ensures forall f :: f in ps[|es|].made ==> Accounted(ps[|es|], f)
    decreases |es|
  {
    hide Inv, Enabled, Step, Accounted;
    BootKeeps(c);
    if es != [] {
      var n := |es| - 1;
      assert Path(c, ps[..n + 1], es[..n]) by {
        assert forall i :: 0 <= i < n ==> es[..n][i] == es[i];
      }
      NoFrameIsLost(c, ps[..n + 1], es[..n]);
      assert Enabled(ps[n], c, es[n]) && ps[n + 1] == Step(ps[n], c, es[n]);
      StepKeeps(ps[n], c, es[n]);
    }
    forall f | f in ps[|es|].made ensures Accounted(ps[|es|], f) {
      EveryFrameIsAccounted(ps[|es|], c, f);
    }
  }

  // ---- Exactly once at the table ----

  /** Nothing is under way, nothing was dropped, and the ingest has committed the whole
      stream. */
  ghost predicate Quiet(p: Pipe) {
    var e := p.system.edge;
    && p.channel == [] && e.dropped == multiset{} && UM.Held(e.up) == multiset{}
    && e.inflight == map[] && e.retryIds == []
    && p.ingest.reached == |p.ingest.log|
  }

  lemma QuietStream(p: Pipe, c: Setup)
    requires Inv(p, c) && Quiet(p)
    ensures FramesOf(SI.ValidOf(p.ingest.log)) == FramesOf(p.made)
  {
    hide EdgeOk, SI.Sound, UM.Held, CountOf, SI.ValidOf;
    forall f | f in p.made ensures f in SI.ValidOf(p.ingest.log) {
      EveryFrameIsAccounted(p, c, f);
      NothingAt(p.system.edge);
      SI.ValidHas(p.ingest.log, f);
      var i :| 0 <= i < |p.made| && p.made[i] == f;
    }
    forall f | f in SI.ValidOf(p.ingest.log) ensures f in p.made {
      SI.ValidHas(p.ingest.log, f);
      assert Usable(Json(f));
    }
  }

  lemma NothingAt(e: SM.Edge)
    requires e.inflight == map[] && e.retryIds == []
    ensures SM.FramesAt(e.bound, SL.Live(e)) == multiset{} && SM.FramesAt(e.bound, SL.Waiting(e)) == multiset{}
  {
    SL.NoFrames(e.bound);
    assert SL.Live(e) == {} && SL.Waiting(e) == {};
  }

  /** Effectively exactly once over the stream: when the volatile places are empty,
      nothing was dropped and the stream is committed to its end, the table is the made
      frames, one row each, with no hole in any well's numbers. */
  lemma TableIsWhatWasMade(c: Setup, ps: seq<Pipe>, es: seq<Event>, k: WellId, q: nat)
    requires Path(c, ps, es) && ps[0] == Boot(c) && Quiet(ps[|es|])
    ensures var p := ps[|es|];
            && p.ingest.table == InsertAll(map[], p.made)
            && |p.ingest.table| == |p.made|
            && (forall f :: f in p.made ==> ReadsBack(p.ingest.table, f))
            && ((exists r :: r in p.ingest.table && r.id == Identity(k, c.epoch, q)) <==> 1 <= q <= CountOf(p.made, k))
  {
    NoFrameIsLost(c, ps, es);
    var p := ps[|es|];
    QuietTable(p, c);
    PL.TableCounts(p.made, c.epoch);
    PL.StoredNumbers(p.made, c.epoch, k, q);
    PL.AllReadBack(p.made, c.epoch);
    hide Inv, Path, Quiet, InsertAll, CountOf, Numbered, ReadsBack;
  }

  lemma QuietTable(p: Pipe, c: Setup)
    requires Inv(p, c) && Quiet(p)
    ensures p.ingest.table == InsertAll(map[], p.made)
  {
    hide EdgeOk, StreamOk, InsertAll, SI.ValidOf, OneBodyPerIdentity, Numbered;
    QuietStream(p, c);
    OneFramePerIdentity(p.made, c.epoch);
    SameFramesSameTable(p.made, SI.ValidOf(p.ingest.log));
    assert p.ingest.log[..|p.ingest.log|] == p.ingest.log;
  }
}

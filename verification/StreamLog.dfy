/** The stream publisher together with a broker that appends the first copy of each
    publishing id: what the log holds of every accepted frame. */
module StreamLog {
  import opened Frames
  import opened UplinkModel
  import SM = StreamModel
  import SC = StreamCustody

  /** `log` names, in order, the ids the broker appended. */
  datatype System = System(edge: SM.Edge, log: seq<nat>)

  /** A message that was handed to the client may reach the broker at any later time,
      any number of times. */
  datatype Event = AtEdge(event: SM.Event) | Land(id: nat)

  /** The broker confirms only what its log holds. */
  ghost predicate Enabled(s: System, window: nat, ev: Event) {
    match ev
    case AtEdge(e) => SM.Enabled(s.edge, window, e) && (e.Confirm? && e.ok ==> e.id in s.log)
    case Land(id) => id < |s.edge.bound|
  }

  ghost function Step(s: System, window: nat, ev: Event): System
    requires |s.edge.inflight| <= window
  {
    match ev
    case AtEdge(e) => s.(edge := SM.Step(s.edge, window, e))
    case Land(id) => if id in s.log then s else s.(log := s.log + [id])
  }

  predicate Injects(ev: Event) {
    ev.AtEdge? && ev.event.Confirm? && ev.event.inject
  }

  function Ids(log: seq<nat>): set<nat> {
    set id | id in log
  }

  ghost predicate LogOk(s: System) {
    && (forall i :: 0 <= i < |s.log| ==> s.log[i] < |s.edge.bound|)
    && (forall i, j :: 0 <= i < j < |s.log| ==> s.log[i] != s.log[j])
    && s.edge.settled <= Ids(s.log)
  }

  /** The frames of the log's records, with their copies. */
  ghost function Contents(bound: seq<(Frame, bool)>, log: seq<nat>): multiset<Frame>
    requires forall i :: 0 <= i < |log| ==> log[i] < |bound|
  {
    if log == [] then multiset{}
    else Contents(bound, log[..|log| - 1]) + multiset{bound[log[|log| - 1]].0}
  }

  lemma {:induction false} ContentsByIds(bound: seq<(Frame, bool)>, log: seq<nat>)
    requires forall i :: 0 <= i < |log| ==> log[i] < |bound|
    requires forall i, j :: 0 <= i < j < |log| ==> log[i] != log[j]
    ensures Contents(bound, log) == SM.FramesAt(bound, Ids(log))
  {
    if log == [] {
      NoFrames(bound);
      assert Ids(log) == {};
    } else {
      var n := |log| - 1;
      ContentsByIds(bound, log[..n]);
      assert log == log[..n] + [log[n]];
      assert Ids(log) == Ids(log[..n]) + {log[n]};
      SC.FramesAdd(bound, Ids(log[..n]), log[n]);
    }
  }

  lemma {:induction false} NoFrames(bound: seq<(Frame, bool)>)
    ensures SM.FramesAt(bound, {}) == multiset{}
  {
    if bound != [] {
      NoFrames(bound[..|bound| - 1]);
    }
  }

  // ---- Every step ----

  ghost predicate Good(s: System, window: nat) {
    SC.Custody(s.edge, window) && LogOk(s)
  }

  /** Only a positive confirm of an ordinary frame settles an id. */
  lemma StepSettles(e: SM.Edge, window: nat, ev: SM.Event)
    requires |e.inflight| <= window
    ensures SM.Step(e, window, ev).settled <= e.settled + if ev.Confirm? && ev.ok then {ev.id} else {}
    ensures !(ev.Confirm? && ev.inject) ==> SM.Step(e, window, ev).injected == e.injected
    ensures SM.Step(e, window, ev).received == e.received + if ev.Arrive? then multiset{ev.frame} else multiset{}
  {
    hide SM.TakeRetries, SM.TakeFresh, SM.GiveBack;
    match ev
    case Arrive(f) =>
    case Pump(faults, now) => StagedSettles(e, SM.Room(e, window), faults, now);
    case PumpFails(faults, now, order) =>
      StagedSettles(e, SM.Room(e, window), faults, now);
      var (s, ids) := SM.Staged(e, SM.Room(e, window), faults, now);
      SC.GiveBackBooks(s, ids);
      SC.GiveBackBooks(SM.GiveBack(s, ids), order);
    case Confirm(id, ok, inject) =>
    case Sweep(now, order) => SC.GiveBackBooks(e, order);
    case End(order) => SC.GiveBackBooks(e, order);
  }

  lemma StagedSettles(e: SM.Edge, room: nat, faults: nat -> Faults, now: nat -> nat)
    ensures SM.Staged(e, room, faults, now).0.settled == e.settled
    ensures SM.Staged(e, room, faults, now).0.injected == e.injected
    ensures SM.Staged(e, room, faults, now).0.received == e.received
  {
    hide SM.TakeRetries, SM.TakeFresh;
    SC.TakeRetriesBooks(e, room, 0, now);
    var (r, again) := SM.TakeRetries(e, room, 0, now);
    FreshSettles(r, room - |again|, |again|, faults, now);
  }

  lemma {:induction false} FreshSettles(e: SM.Edge, room: nat, n: nat, faults: nat -> Faults, now: nat -> nat)
    ensures SM.TakeFresh(e, room, n, faults, now).0.settled == e.settled
    ensures SM.TakeFresh(e, room, n, faults, now).0.injected == e.injected
    ensures SM.TakeFresh(e, room, n, faults, now).0.received == e.received
    decreases room
  {
    hide Next;
    if room > 0 && Next(e.up, faults(n)).1.Some? {
      var (v, r) := Next(e.up, faults(n));
      FreshSettles(SM.Bind(e, v, r.value, now(n)), room - 1, n + 1, faults, now);
    }
  }

  lemma GoodWindow(s: System, window: nat)
    requires Good(s, window)
    ensures |s.edge.inflight| <= window
  {
    hide SM.IdsOk, SM.BooksOk, LogOk;
  }

  lemma StepKeeps(s: System, window: nat, ev: Event)
    requires Good(s, window) && Enabled(s, window, ev)
    ensures Good(Step(s, window, ev), window) && s.edge.bound <= Step(s, window, ev).edge.bound
    ensures s.log <= Step(s, window, ev).log
  {
    hide SM.Step;
    GoodWindow(s, window);
    hide SC.Custody, SM.Enabled;
    if ev.AtEdge? {
      SC.StepKeeps(s.edge, window, ev.event);
      StepSettles(s.edge, window, ev.event);
    } else {
      assert Ids(s.log) <= Ids(Step(s, window, ev).log);
    }
  }

  // ---- Where every accepted frame is ----

  /** Ids of ordinary frames in flight. */
  function Live(e: SM.Edge): set<nat> {
    set id | id in e.inflight && !e.inflight[id].dup
  }

  function Waiting(e: SM.Edge): set<nat> {
    set i | 0 <= i < |e.retryIds| :: e.retryIds[i].1
  }

  function Ordinary(bound: seq<(Frame, bool)>): set<nat> {
    set i | 0 <= i < |bound| && !bound[i].1
  }

  lemma {:induction false} GivenIsOrdinary(bound: seq<(Frame, bool)>)
    ensures SM.Given(bound, false) == SM.FramesAt(bound, Ordinary(bound))
  {
    if bound != [] {
      var n := |bound| - 1;
      GivenIsOrdinary(bound[..n]);
      SC.FramesSame(bound[..n], Ordinary(bound[..n]), Ordinary(bound));
    }
  }

  lemma OrdinarySplits(e: SM.Edge)
    requires SM.IdsOk(e)
    ensures Ordinary(e.bound) == Live(e) + Waiting(e) + e.settled
    ensures Live(e) !! Waiting(e) && Live(e) + Waiting(e) !! e.settled
  {
    forall id | id in Ordinary(e.bound) ensures id in Live(e) + Waiting(e) + e.settled {
      assert id in e.inflight || SM.InRetry(e, id) || id in e.settled;
    }
  }

  /** Each accepted frame is in exactly one place: dropped, held before the wire, in
      flight, waiting for retransmission under its id, or confirmed. */
  lemma FramesHaveOnePlace(e: SM.Edge, window: nat)
    requires SC.Custody(e, window)
    ensures e.received == e.dropped + Held(e.up) + SM.FramesAt(e.bound, Live(e))
                          + SM.FramesAt(e.bound, Waiting(e)) + SM.FramesAt(e.bound, e.settled)
    ensures Live(e) !! Waiting(e) && Live(e) + Waiting(e) !! e.settled
  {
    OrdinarySplits(e);
    GivenIsOrdinary(e.bound);
    SC.FramesSplit(e.bound, Live(e), Waiting(e));
    SC.FramesSplit(e.bound, Live(e) + Waiting(e), e.settled);
    hide SM.IdsOk, Live, Waiting, Ordinary, Held, SM.FramesAt, SM.Given;
  }

  // ---- What the log holds ----

  lemma {:induction false} FramesWithin(bound: seq<(Frame, bool)>, a: set<nat>, b: set<nat>)
    requires a <= b
    ensures SM.FramesAt(bound, a) <= SM.FramesAt(bound, b)
  {
    if bound != [] {
      FramesWithin(bound[..|bound| - 1], a, b);
    }
  }

  lemma {:induction false} FramesAreGiven(bound: seq<(Frame, bool)>, ids: set<nat>)
    ensures SM.FramesAt(bound, ids) <= SM.Given(bound, false) + SM.Given(bound, true)
  {
    if bound != [] {
      FramesAreGiven(bound[..|bound| - 1], ids);
    }
  }

  /** The log contains every positively confirmed frame. */
  lemma LogHasTheConfirmed(s: System, window: nat)
    requires Good(s, window)
    ensures SM.FramesAt(s.edge.bound, s.edge.settled) <= Contents(s.edge.bound, s.log)
  {
    ContentsByIds(s.edge.bound, s.log);
    FramesWithin(s.edge.bound, s.edge.settled, Ids(s.log));
  }

  lemma ConfirmedWasReceived(e: SM.Edge, window: nat)
    requires SC.Custody(e, window)
    ensures SM.FramesAt(e.bound, e.settled) <= e.received
  {
    FramesHaveOnePlace(e, window);
    hide SM.FramesAt, Held, SC.Custody;
  }

  /** The log holds no more copies of a frame than it was accepted, plus its injected
      duplicates, and those are no more than it was accepted. */
  lemma LogCopies(s: System, window: nat, f: Frame)
    requires Good(s, window)
    ensures Contents(s.edge.bound, s.log)[f] <= s.edge.received[f] + s.edge.injected[f]
    ensures s.edge.injected[f] <= s.edge.received[f]
  {
    ContentsByIds(s.edge.bound, s.log);
    FramesAreGiven(s.edge.bound, Ids(s.log));
    ConfirmedWasReceived(s.edge, window);
    var e := s.edge;
    assert SM.BooksOk(e);
    hide SC.Custody, LogOk, SM.FramesAt, SM.Given, Contents, Held;
    assert SM.Given(e.bound, false) <= e.received;
    assert SM.Given(e.bound, true) <= e.injected;
  }

  /** Whatever an id was given to had been accepted. */
  lemma BoundWasReceived(e: SM.Edge, window: nat, id: nat)
    requires SC.Custody(e, window) && id < |e.bound|
    ensures e.bound[id].0 in e.received
  {
    hide SM.IdsOk, SM.FramesAt, SM.Given, Held;
    ConfirmedWasReceived(e, window);
    FramesAreGiven(e.bound, {id});
    NoFrames(e.bound);
    SC.FramesAdd(e.bound, {}, id);
    assert {} + {id} == {id};
    assert e.bound[id].0 in SM.FramesAt(e.bound, {id});
    assert SM.Given(e.bound, false) <= e.received;
    assert SM.Given(e.bound, true) <= e.injected;
  }

  // ---- Runs ----

  ghost predicate Reaches(start: System, window: nat, evs: seq<Event>, end: System)
    decreases |evs|
  {
    if evs == [] then end == start
    else exists mid :: Reaches(start, window, evs[..|evs| - 1], mid) && |mid.edge.inflight| <= window
                       && Enabled(mid, window, evs[|evs| - 1]) && end == Step(mid, window, evs[|evs| - 1])
  }

  lemma BootGood(pads: nat, cap: nat, window: nat)
    ensures Good(System(SM.Boot(pads, cap), []), window)
  {
    SC.BootKeeps(pads, cap, window);
  }

  lemma {:induction false} RunKeeps(pads: nat, cap: nat, window: nat, evs: seq<Event>, end: System)
    requires Reaches(System(SM.Boot(pads, cap), []), window, evs, end)
    ensures Good(end, window)
    ensures (forall ev :: ev in evs ==> !Injects(ev)) ==> end.edge.injected == multiset{}
    decreases |evs|
  {
    hide Good, Step, Enabled, SM.Step;
    if evs == [] {
      BootGood(pads, cap, window);
    } else {
      var init, last := evs[..|evs| - 1], evs[|evs| - 1];
      var mid :| Reaches(System(SM.Boot(pads, cap), []), window, init, mid) && |mid.edge.inflight| <= window
                 && Enabled(mid, window, last) && end == Step(mid, window, last);
      RunKeeps(pads, cap, window, init, mid);
      StepKeeps(mid, window, last);
      assert last in evs && forall ev :: ev in init ==> ev in evs;
      if !Injects(last) {
        InjectedOnlyByInjection(mid, window, last);
      }
    }
  }

  lemma InjectedOnlyByInjection(s: System, window: nat, ev: Event)
    requires |s.edge.inflight| <= window && !Injects(ev)
    ensures Step(s, window, ev).edge.injected == s.edge.injected
  {
    if ev.AtEdge? {
      StepSettles(s.edge, window, ev.event);
      hide SM.Step;
    }
  }

  /** Over every run: the log has every confirmed frame; one copy of each frame
      accepted once when duplicate injection is off, and at most two otherwise. */
  lemma LogIsExact(pads: nat, cap: nat, window: nat, evs: seq<Event>, end: System, f: Frame)
    requires Reaches(System(SM.Boot(pads, cap), []), window, evs, end)
    ensures LogOk(end)
    ensures SM.FramesAt(end.edge.bound, end.edge.settled) <= Contents(end.edge.bound, end.log)
    ensures Contents(end.edge.bound, end.log)[f] <= 2 * end.edge.received[f]
    ensures (forall ev :: ev in evs ==> !Injects(ev)) ==>
              Contents(end.edge.bound, end.log)[f] <= end.edge.received[f]
  {
    RunKeeps(pads, cap, window, evs, end);
    LogHasTheConfirmed(end, window);
    LogCopies(end, window, f);
  }

  // ---- The pump's loop ----

  lemma ReachesNext(start: System, window: nat, evs: seq<Event>, s: System, ev: Event)
    requires Reaches(start, window, evs, s) && |s.edge.inflight| <= window && Enabled(s, window, ev)
    ensures Reaches(start, window, evs + [ev], Step(s, window, ev))
  {
    hide Step, Enabled;
    assert (evs + [ev])[..|evs|] == evs;
  }

  /** What a batch loop adds to a run: batches, and a failed one at most at the end. */
  ghost predicate PumpedOn(evs: seq<Event>, more: seq<Event>, failed: bool) {
    && evs <= more && (failed ==> |evs| < |more|)
    && forall i :: |evs| <= i < |more| ==>
         more[i].AtEdge? && if failed && i == |more| - 1 then more[i].event.PumpFails? else more[i].event.Pump?
  }

  /** The pump's whole loop, with the drain that follows a failed send in whatever order
      the window yields it, is a run of single batches. */
  lemma {:induction false} PumpAllIsARun(start: System, window: nat, evs: seq<Event>, s: System, n: nat,
                                         batches: nat -> SC.Batch, order: seq<nat>)
    returns (more: seq<Event>)
    requires Reaches(start, window, evs, s) && SM.IdsOk(s.edge) && |s.edge.inflight| <= window
    requires var (r, failed) := SC.PumpAll(s.edge, window, n, batches);
             failed ==> SM.Enumerates(order, r.inflight.Keys)
    ensures var (r, failed) := SC.PumpAll(s.edge, window, n, batches);
            && Reaches(start, window, more, s.(edge := if failed then SM.GiveBack(r, order) else r))
            && PumpedOn(evs, more, failed)
    decreases window - |s.edge.inflight|
  {
    hide SM.IdsOk, SM.Staged, SM.GiveBack, SM.Enumerates, Reaches;
    more := evs;
    var e := s.edge;
    if |e.inflight| < window {
      var b := batches(n);
      var room := SM.Room(e, window);
      SC.StagedKeeps(e, room, b.faults, b.clock);
      SC.StagedGrows(e, room, b.faults, b.clock);
      var (t, ids) := SM.Staged(e, room, b.faults, b.clock);
      var ev := if ids == [] || b.sent then SM.Pump(b.faults, b.clock) else SM.PumpFails(b.faults, b.clock, order);
      ReachesNext(start, window, evs, s, AtEdge(ev));
      more := evs + [AtEdge(ev)];
      if ids != [] && b.sent {
        more := PumpAllIsARun(start, window, evs + [AtEdge(ev)], s.(edge := t), n + 1, batches, order);
      }
    } else {
      assert s.(edge := e) == s;
    }
  }
}

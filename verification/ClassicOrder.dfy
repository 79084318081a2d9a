/** Per-pad order for the classic publisher's own runs: every step of the publisher,
    nacks, errors and teardowns included, is a series of uplink events. */
module ClassicOrder {
  import opened Frames
  import opened UplinkModel
  import opened ClassicModel
  import CC = ClassicCustody
  import UO = UplinkOrder

  /** Frames that come back, and nothing else. */
  ghost predicate Returns(es: seq<UO.Event>) {
    forall x :: x in es ==> x.RetryLast?
  }

  lemma {:induction false} ReturnsAreQuiet(u: Uplink, es: seq<UO.Event>)
    requires Returns(es)
    ensures UO.Arrivals(es) == [] && UO.FirstAttempts(u, es) == [] && UO.Dropped(u, es) == []
  {
    hide UO.Run, UO.Step, Next, BufferFrame, Victims;
    if es != [] {
      var n := |es| - 1;
      assert es[n] in es && forall x :: x in es[..n] ==> x in es;
      ReturnsAreQuiet(u, es[..n]);
    }
  }

  /** What `Requeue` is to the uplink. */
  function Back(p: (Frame, bool)): seq<UO.Event> {
    if p.1 then [] else [UO.RetryLast(p.0)]
  }

  lemma RequeueTrace(e: Edge, p: (Frame, bool))
    ensures UO.Run(e.up, Back(p)) == Requeue(e, p).up
  {
    assert Back(p) != [] ==> Back(p)[..0] == [];
  }

  function AbandonTrace(e: Edge): seq<UO.Event>
    decreases e.pending
  {
    if e.pending == [] then []
    else Back(e.pending[0]) + AbandonTrace(Requeue(e.(pending := e.pending[1..]), e.pending[0]))
  }

  lemma {:induction false} AbandonIsTrace(e: Edge)
    ensures UO.Run(e.up, AbandonTrace(e)) == Abandon(e).up && Returns(AbandonTrace(e))
    decreases e.pending
  {
    if e.pending != [] {
      var m := Requeue(e.(pending := e.pending[1..]), e.pending[0]);
      RequeueTrace(e.(pending := e.pending[1..]), e.pending[0]);
      AbandonIsTrace(m);
      UO.RunJoin(e.up, Back(e.pending[0]), AbandonTrace(m));
      hide UO.Run;
    }
  }

  function ReapTrace(e: Edge, outcomes: seq<Outcome>): seq<UO.Event>
    requires Paired(e)
    decreases outcomes
  {
    if e.inflight == [] || outcomes == [] then AbandonTrace(e)
    else (if outcomes[0] == Ack then [] else Back(e.pending[0])) + ReapTrace(ReapOne(e, outcomes[0]), outcomes[1..])
  }

  lemma ReapOneTrace(e: Edge, o: Outcome)
    requires Paired(e) && e.inflight != []
    ensures UO.Run(e.up, if o == Ack then [] else Back(e.pending[0])) == ReapOne(e, o).up
  {
    RequeueTrace(PopFront(e), e.pending[0]);
  }

  lemma {:induction false} ReapIsTrace(e: Edge, outcomes: seq<Outcome>)
    requires Paired(e)
    ensures UO.Run(e.up, ReapTrace(e, outcomes)) == Reap(e, outcomes).up && Returns(ReapTrace(e, outcomes))
    decreases outcomes
  {
    hide UO.Run, Abandon, AbandonTrace, ReapOne;
    AbandonIsTrace(e);
    if e.inflight != [] && outcomes != [] {
      ReapOneTrace(e, outcomes[0]);
      var m := ReapOne(e, outcomes[0]);
      PairedAfter(e, outcomes[0]);
      ReapIsTrace(m, outcomes[1..]);
      UO.RunJoin(e.up, if outcomes[0] == Ack then [] else Back(e.pending[0]), ReapTrace(m, outcomes[1..]));
    }
  }

  lemma PairedAfter(e: Edge, o: Outcome)
    requires Paired(e) && e.inflight != []
    ensures Paired(ReapOne(e, o))
  {
  }

  // ---- One step of the publisher ----

  /** The frames whose first publish attempt a step makes: what it publishes when
      neither a retransmit nor a duplicate is waiting. */
  function Fresh(e: Edge, ev: Event): seq<Frame> {
    if (ev.Pump? || ev.PumpFails?) && e.up.retry == [] && e.up.dupQueue == [] && Next(e.up, ev.faults).1.Some?
    then [Next(e.up, ev.faults).1.value.0]
    else []
  }

  function Arrived(ev: Event): seq<Frame> {
    if ev.Arrive? then [ev.frame] else []
  }

  /** The frames a step drops. */
  function Lost(e: Edge, ev: Event): seq<Frame> {
    if ev.Arrive? then Victims(e.up, ev.frame) else []
  }

  function StepTrace(e: Edge, ev: Event): seq<UO.Event>
    requires Paired(e) && (ev.Resolve? ==> e.inflight != [])
  {
    match ev
    case Arrive(f) => [UO.Arrive(f)]
    case Pump(flt) => [UO.PullNext(flt)]
    case PumpFails(flt, outcomes) =>
      var (v, r) := Next(e.up, flt);
      if r.None? then [UO.PullNext(flt)]
      else
        var m := CC.Returned(e, v, r.value.0, r.value.1);
        [UO.PullNext(flt)] + ([UO.RetryFirst(r.value.0)] + ReapTrace(m, outcomes))
    case Resolve(o, inject, outcomes) =>
      (match o
       case Ack => if inject && !e.pending[0].1 then [UO.InjectDup(e.pending[0].0)] else []
       case Nack => Back(e.pending[0])
       case Broken => Back(e.pending[0]) + ReapTrace(ReapOne(e, o), outcomes))
    case Teardown(outcomes) => ReapTrace(e, outcomes)
  }

  /** A step's trace leads where the step leads, and shows its arrival, its first
      attempt and its drops. */
  ghost predicate Traces(e: Edge, ev: Event, es: seq<UO.Event>)
    requires Paired(e) && (ev.Resolve? ==> e.inflight != [])
  {
    && UO.Run(e.up, es) == Step(e, ev).up
    && UO.Arrivals(es) == Arrived(ev)
    && UO.FirstAttempts(e.up, es) == Fresh(e, ev)
    && UO.Dropped(e.up, es) == Lost(e, ev)
    && forall x :: x in es && x.PullNext? ==> (ev.Pump? || ev.PumpFails?) && x.faults == ev.faults
  }

  lemma ReturnsTrace(e: Edge, ev: Event, es: seq<UO.Event>)
    requires Paired(e) && (ev.Teardown? || (ev.Resolve? && e.inflight != []))
    requires Returns(es) && UO.Run(e.up, es) == Step(e, ev).up
    ensures Traces(e, ev, es)
  {
    hide Step, UO.Run;
    ReturnsAreQuiet(e.up, es);
  }

  lemma PumpTrace(e: Edge, flt: Faults)
    requires Paired(e)
    ensures Traces(e, Pump(flt), StepTrace(e, Pump(flt)))
  {
    hide Next;
    UO.OneEvent(e.up, UO.PullNext(flt));
  }

  lemma FailTrace(e: Edge, flt: Faults, outcomes: seq<Outcome>)
    requires Paired(e)
    ensures Traces(e, PumpFails(flt, outcomes), StepTrace(e, PumpFails(flt, outcomes)))
  {
    hide Next, UO.Run, UO.Arrivals, UO.FirstAttempts, UO.Dropped, Reap, ReapTrace;
    UO.OneEvent(e.up, UO.PullNext(flt));
    var (v, r) := Next(e.up, flt);
    if r.Some? {
      var back, m := UO.RetryFirst(r.value.0), CC.Returned(e, v, r.value.0, r.value.1);
      var rest := ReapTrace(m, outcomes);
      UO.OneEvent(v, back);
      ReapIsTrace(m, outcomes);
      ReturnsAreQuiet(m.up, rest);
      UO.RunJoin(v, [back], rest);
      UO.RunJoin(e.up, [UO.PullNext(flt)], [back] + rest);
    }
  }

  lemma ResolveTrace(e: Edge, o: Outcome, inject: bool, outcomes: seq<Outcome>)
    requires Paired(e) && e.inflight != []
    ensures Traces(e, Resolve(o, inject, outcomes), StepTrace(e, Resolve(o, inject, outcomes)))
  {
    hide UO.Run, UO.Arrivals, UO.FirstAttempts, UO.Dropped, Reap, ReapTrace;
    var ev, p, m := Resolve(o, inject, outcomes), e.pending[0], ReapOne(e, o);
    ReapOneTrace(e, o);
    match o
    case Ack =>
      UO.NoEvent(e.up);
      UO.OneEvent(e.up, UO.InjectDup(p.0));
    case Nack => ReturnsTrace(e, ev, Back(p));
    case Broken =>
      ReapIsTrace(m, outcomes);
      UO.RunJoin(e.up, Back(p), ReapTrace(m, outcomes));
      ReturnsTrace(e, ev, Back(p) + ReapTrace(m, outcomes));
  }

  lemma StepIsTrace(e: Edge, ev: Event)
    requires Paired(e) && (ev.Resolve? ==> e.inflight != [])
    ensures Traces(e, ev, StepTrace(e, ev))
  {
    match ev
    case Arrive(f) => UO.OneEvent(e.up, UO.Arrive(f));
    case Pump(flt) => PumpTrace(e, flt);
    case PumpFails(flt, outcomes) => FailTrace(e, flt, outcomes);
    case Resolve(o, inject, outcomes) => ResolveTrace(e, o, inject, outcomes);
    case Teardown(outcomes) =>
      ReapIsTrace(e, outcomes);
      ReturnsTrace(e, ev, ReapTrace(e, outcomes));
  }

  // ---- Runs of the publisher ----

  ghost predicate Path(window: nat, ss: seq<Edge>, evs: seq<Event>) {
    && |ss| == |evs| + 1
    && forall i :: 0 <= i < |evs| ==>
         Paired(ss[i]) && Enabled(ss[i], window, evs[i]) && ss[i + 1] == Step(ss[i], evs[i])
  }

  function ArrivedIn(evs: seq<Event>): seq<Frame> {
    if evs == [] then [] else ArrivedIn(evs[..|evs| - 1]) + Arrived(evs[|evs| - 1])
  }

  /** The first publish attempts of a run, in order. */
  function FreshIn(ss: seq<Edge>, evs: seq<Event>): seq<Frame>
    requires |ss| == |evs| + 1
  {
    if evs == [] then []
    else FreshIn(ss[..|evs|], evs[..|evs| - 1]) + Fresh(ss[|evs| - 1], evs[|evs| - 1])
  }

  function LostIn(ss: seq<Edge>, evs: seq<Event>): seq<Frame>
    requires |ss| == |evs| + 1
  {
    if evs == [] then [] else LostIn(ss[..|evs|], evs[..|evs| - 1]) + Lost(ss[|evs| - 1], evs[|evs| - 1])
  }

  ghost predicate ReorderOff(evs: seq<Event>) {
    forall ev :: ev in evs && (ev.Pump? || ev.PumpFails?) ==> ev.faults.window <= 1
  }

  ghost predicate Follows(ss: seq<Edge>, evs: seq<Event>, es: seq<UO.Event>)
    requires |ss| == |evs| + 1
  {
    && UO.Run(ss[0].up, es) == ss[|evs|].up
    && UO.Arrivals(es) == ArrivedIn(evs)
    && UO.FirstAttempts(ss[0].up, es) == FreshIn(ss, evs)
    && UO.Dropped(ss[0].up, es) == LostIn(ss, evs)
    && forall x :: x in es && x.PullNext? ==> x.faults.window <= 1
  }

  lemma PathPrefix(window: nat, ss: seq<Edge>, evs: seq<Event>)
    requires Path(window, ss, evs) && evs != [] && ReorderOff(evs)
    ensures var n := |evs| - 1;
            && Path(window, ss[..n + 1], evs[..n]) && ReorderOff(evs[..n])
            && Paired(ss[n]) && Enabled(ss[n], window, evs[n]) && ss[n + 1] == Step(ss[n], evs[n])
            && ((evs[n].Pump? || evs[n].PumpFails?) ==> evs[n].faults.window <= 1)
  {
    hide Step;
    var n := |evs| - 1;
    assert evs[n] in evs && forall ev :: ev in evs[..n] ==> ev in evs;
    assert forall i :: 0 <= i < n ==> evs[..n][i] == evs[i];
  }

  lemma {:induction false} RunFollows(window: nat, ss: seq<Edge>, evs: seq<Event>) returns (es: seq<UO.Event>)
    requires |ss| == |evs| + 1 && Path(window, ss, evs) && ReorderOff(evs)
    ensures Follows(ss, evs, es)
    decreases |evs|
  {
    hide UO.Run, UO.Arrivals, UO.FirstAttempts, UO.Dropped, Path, ReorderOff, Step, Fresh, Lost, Arrived, StepTrace;
    es := [];
    if evs == [] {
      UO.NoEvent(ss[0].up);
    } else {
      var n := |evs| - 1;
      PathPrefix(window, ss, evs);
      es := RunFollows(window, ss[..n + 1], evs[..n]);
      StepIsTrace(ss[n], evs[n]);
      UO.RunJoin(ss[0].up, es, StepTrace(ss[n], evs[n]));
      es := es + StepTrace(ss[n], evs[n]);
    }
  }

  /** Per-pad order over every run of the publisher with the reorder fault off: under
      any link flips, nacks, broken confirms, failed publishes and teardowns, a pad's
      first publish attempts are its arrivals in order without the dropped ones,
      followed by what is staged and then by what its buffer still holds; and the missing
      ones are exactly the drop-oldest victims. */
  lemma ClassicPerPadOrder(pads: nat, cap: nat, window: nat, ss: seq<Edge>, evs: seq<Event>, pad: nat)
    requires Path(window, ss, evs) && ReorderOff(evs) && ss[0] == Boot(pads, cap)
    ensures exists fates ::
              UO.InOrder(ss[|evs|].up, UO.OfPad(ArrivedIn(evs), pad), FreshIn(ss, evs), LostIn(ss, evs), pad, fates)
  {
    var es := RunFollows(window, ss, evs);
    UO.PerPadOrder(pads, cap, es, pad);
    hide UO.InOrder, UO.Run, UO.FirstAttempts, UO.Arrivals, UO.Dropped, Path, ReorderOff;
  }
}

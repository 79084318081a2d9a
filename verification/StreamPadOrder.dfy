/** Per-pad order for the stream publisher's own runs: publishing ids are handed out, pad
    by pad, in the order in which the frames arrived. */
module StreamPadOrder {
  import opened Frames
  import opened UplinkModel
  import opened StreamModel
  import SC = StreamCustody
  import UO = UplinkOrder

  /** The frames that ids were given to as ordinary frames, in order of id. */
  function Originals(bound: seq<(Frame, bool)>): seq<Frame> {
    if bound == [] then []
    else
      var p := bound[|bound| - 1];
      Originals(bound[..|bound| - 1]) + if p.1 then [] else [p.0]
  }

  lemma OriginalsLast(bound: seq<(Frame, bool)>, p: (Frame, bool))
    ensures Originals(bound + [p]) == Originals(bound) + if p.1 then [] else [p.0]
  {
    assert (bound + [p])[..|bound|] == bound;
  }

  // ---- One step as uplink events ----

  /** The pulls of one batch. */
  function FreshTrace(e: Edge, room: nat, n: nat, faults: nat -> Faults, now: nat -> nat): seq<UO.Event>
    decreases room
  {
    if room == 0 then []
    else
      var (v, r) := Next(e.up, faults(n));
      var rest := if r.None? then [] else FreshTrace(Bind(e, v, r.value, now(n)), room - 1, n + 1, faults, now);
      [UO.PullNext(faults(n))] + rest
  }

  /** With nothing in the uplink's own retry queue, a pull is a duplicate exactly when
      one waits. */
  lemma NextKind(u: Uplink, flt: Faults)
    requires u.retry == []
    ensures var (v, r) := Next(u, flt);
            v.retry == [] && (r.Some? ==> (r.value.1 <==> u.dupQueue != []))
  {
    NextKeeps(u, flt);
    hide Fill, Held;
  }

  /** A series of events leads from one custody to another and shows these arrivals,
      first attempts and drops; the reorder fault is off in all its pulls. */
  ghost predicate Leads(u: Uplink, es: seq<UO.Event>, v: Uplink, arrived: seq<Frame>, attempted: seq<Frame>,
                        dropped: seq<Frame>) {
    && UO.Run(u, es) == v && UO.Arrivals(es) == arrived
    && UO.FirstAttempts(u, es) == attempted && UO.Dropped(u, es) == dropped
    && forall x :: x in es && x.PullNext? ==> x.faults.window <= 1
  }

  lemma LeadsNowhere(u: Uplink)
    ensures Leads(u, [], u, [], [], [])
  {
    UO.NoEvent(u);
  }

  lemma LeadsOne(u: Uplink, x: UO.Event)
    requires x.PullNext? ==> x.faults.window <= 1
    ensures Leads(u, [x], UO.Step(u, x), UO.Arrival(x), UO.FirstAttempt(u, x), UO.DroppedBy(u, x))
  {
    hide UO.Step, UO.Arrival, UO.FirstAttempt, UO.DroppedBy;
    UO.OneEvent(u, x);
  }

  lemma LeadsOn(u: Uplink, a: seq<UO.Event>, v: Uplink, b: seq<UO.Event>, w: Uplink,
                arrived: seq<Frame>, attempted: seq<Frame>, dropped: seq<Frame>,
                arrived': seq<Frame>, attempted': seq<Frame>, dropped': seq<Frame>)
    requires Leads(u, a, v, arrived, attempted, dropped) && Leads(v, b, w, arrived', attempted', dropped')
    ensures Leads(u, a + b, w, arrived + arrived', attempted + attempted', dropped + dropped')
  {
    hide UO.Run, UO.Arrivals, UO.FirstAttempts, UO.Dropped;
    UO.RunJoin(u, a, b);
  }

  lemma PullsOn(u: Uplink, a: seq<UO.Event>, v: Uplink, b: seq<UO.Event>, w: Uplink,
                attempted: seq<Frame>, attempted': seq<Frame>)
    requires Leads(u, a, v, [], attempted, []) && Leads(v, b, w, [], attempted', [])
    ensures Leads(u, a + b, w, [], attempted + attempted', [])
  {
    hide Leads;
    var none: seq<Frame> := [];
    LeadsOn(u, a, v, b, w, none, attempted, none, none, attempted', none);
    assert none + none == none;
  }

  ghost predicate AllOff(faults: nat -> Faults) {
    forall n :: faults(n).window <= 1
  }

  /** The frames that a move gives fresh ids to. */
  ghost predicate Gives(e: Edge, r: Edge, given: seq<Frame>) {
    Originals(r.bound) == Originals(e.bound) + given
  }

  lemma GivesNone(e: Edge)
    ensures Gives(e, e, []) && forall v :: Gives(e, e.(up := v), [])
  {
  }

  lemma PullLeads(u: Uplink, flt: Faults)
    requires u.retry == [] && flt.window <= 1
    ensures var (v, r) := Next(u, flt);
            Leads(u, [UO.PullNext(flt)], v, [], if r.Some? && !r.value.1 then [r.value.0] else [], [])
  {
    hide Next;
    NextKind(u, flt);
    LeadsOne(u, UO.PullNext(flt));
  }

  lemma {:induction false} FreshLeads(e: Edge, room: nat, n: nat, faults: nat -> Faults, now: nat -> nat)
    returns (given: seq<Frame>)
    requires e.up.retry == [] && AllOff(faults)
    ensures var r := TakeFresh(e, room, n, faults, now).0;
            && Leads(e.up, FreshTrace(e, room, n, faults, now), r.up, [], given, [])
            && Gives(e, r, given) && r.up.retry == []
    decreases room
  {
    hide Next, Leads, Originals, Gives;
    given := [];
    GivesNone(e);
    LeadsNowhere(e.up);
    if room > 0 {
      var (v, r) := Next(e.up, faults(n));
      NextKind(e.up, faults(n));
      PullLeads(e.up, faults(n));
      if r.None? {
        assert FreshTrace(e, room, n, faults, now) == [UO.PullNext(faults(n))];
      } else {
        var b := Bind(e, v, r.value, now(n));
        var rest := FreshLeads(b, room - 1, n + 1, faults, now);
        var t := TakeFresh(b, room - 1, n + 1, faults, now).0;
        given := BoundLeads(e, faults(n), v, r.value, now(n), FreshTrace(b, room - 1, n + 1, faults, now), t, rest);
      }
    }
  }

  /** One fresh id, and then the rest of its batch. */
  lemma BoundLeads(e: Edge, flt: Faults, v: Uplink, p: (Frame, bool), now: nat, es: seq<UO.Event>, t: Edge,
                   rest: seq<Frame>)
    returns (given: seq<Frame>)
    requires Leads(e.up, [UO.PullNext(flt)], v, [], if p.1 then [] else [p.0], [])
    requires Leads(v, es, t.up, [], rest, []) && Gives(Bind(e, v, p, now), t, rest)
    ensures Leads(e.up, [UO.PullNext(flt)] + es, t.up, [], given, []) && Gives(e, t, given)
  {
    hide Leads, Originals;
    var first := if p.1 then [] else [p.0];
    OriginalsLast(e.bound, p);
    PullsOn(e.up, [UO.PullNext(flt)], v, es, t.up, first, rest);
    given := first + rest;
    assert Originals(e.bound) + first + rest == Originals(e.bound) + given;
  }

  lemma StagedLeads(e: Edge, room: nat, faults: nat -> Faults, now: nat -> nat)
    returns (es: seq<UO.Event>, given: seq<Frame>)
    requires e.up.retry == [] && AllOff(faults)
    ensures var s := Staged(e, room, faults, now).0;
            Leads(e.up, es, s.up, [], given, []) && Gives(e, s, given) && s.up.retry == []
  {
    hide Leads, TakeRetries, TakeFresh;
    SC.TakeRetriesBooks(e, room, 0, now);
    var (r, again) := TakeRetries(e, room, 0, now);
    given := FreshLeads(r, room - |again|, |again|, faults, now);
    es := FreshTrace(r, room - |again|, |again|, faults, now);
  }

  function Arrived(ev: Event): seq<Frame> {
    if ev.Arrive? then [ev.frame] else []
  }

  function Lost(e: Edge, ev: Event): seq<Frame> {
    if ev.Arrive? then Victims(e.up, ev.frame) else []
  }

  ghost predicate Off(ev: Event) {
    ev.Pump? || ev.PumpFails? ==> AllOff(ev.faults)
  }

  /** Every step of the stream publisher is a series of uplink events whose first
      attempts are the frames it gives fresh ids to. */
  lemma StepLeads(e: Edge, window: nat, ev: Event) returns (es: seq<UO.Event>, given: seq<Frame>)
    requires e.up.retry == [] && |e.inflight| <= window && Off(ev)
    ensures var r := Step(e, window, ev);
            Leads(e.up, es, r.up, Arrived(ev), given, Lost(e, ev)) && Gives(e, r, given) && r.up.retry == []
  {
    hide Leads, Staged, GiveBack, Victims, BufferFrame;
    es, given := [], [];
    LeadsNowhere(e.up);
    match ev
    case Arrive(f) =>
      LeadsOne(e.up, UO.Arrive(f));
      BufferTouches(e.up, f);
      es := [UO.Arrive(f)];
    case Pump(faults, now) => es, given := StagedLeads(e, Room(e, window), faults, now);
    case PumpFails(faults, now, order) =>
      es, given := StagedLeads(e, Room(e, window), faults, now);
      var (s, ids) := Staged(e, Room(e, window), faults, now);
      SC.GiveBackBooks(s, ids);
      SC.GiveBackBooks(GiveBack(s, ids), order);
    case Confirm(id, ok, inject) =>
      if id in e.inflight && ok && !e.inflight[id].dup && inject {
        LeadsOne(e.up, UO.InjectDup(e.inflight[id].frame));
        es := [UO.InjectDup(e.inflight[id].frame)];
      }
    case Sweep(now, order) => SC.GiveBackBooks(e, order);
    case End(order) => SC.GiveBackBooks(e, order);
  }

  // ---- Runs ----

  ghost predicate Path(window: nat, ss: seq<Edge>, evs: seq<Event>) {
    && |ss| == |evs| + 1
    && forall i :: 0 <= i < |evs| ==>
         |ss[i].inflight| <= window && Enabled(ss[i], window, evs[i]) && ss[i + 1] == Step(ss[i], window, evs[i])
  }

  function ArrivedIn(evs: seq<Event>): seq<Frame> {
    if evs == [] then [] else ArrivedIn(evs[..|evs| - 1]) + Arrived(evs[|evs| - 1])
  }

  function LostIn(ss: seq<Edge>, evs: seq<Event>): seq<Frame>
    requires |ss| == |evs| + 1
  {
    if evs == [] then [] else LostIn(ss[..|evs|], evs[..|evs| - 1]) + Lost(ss[|evs| - 1], evs[|evs| - 1])
  }

  lemma {:induction false} RunLeads(window: nat, ss: seq<Edge>, evs: seq<Event>) returns (es: seq<UO.Event>)
    requires |ss| == |evs| + 1 && Path(window, ss, evs) && forall ev :: ev in evs ==> Off(ev)
    requires ss[0].up.retry == [] && ss[0].bound == []
    ensures Leads(ss[0].up, es, ss[|evs|].up, ArrivedIn(evs), Originals(ss[|evs|].bound), LostIn(ss, evs))
    ensures ss[|evs|].up.retry == []
    decreases |evs|
  {
    hide Leads, Step, Off, Originals, Arrived, Lost;
    es := [];
    if evs == [] {
      LeadsNowhere(ss[0].up);
      NoOriginals();
    } else {
      var n := |evs| - 1;
      assert evs[n] in evs && forall ev :: ev in evs[..n] ==> ev in evs;
      assert Path(window, ss[..n + 1], evs[..n]) by {
        assert forall i :: 0 <= i < n ==> evs[..n][i] == evs[i];
      }
      es := RunLeads(window, ss[..n + 1], evs[..n]);
      assert ss[n + 1] == Step(ss[n], window, evs[n]);
      hide Path;
      var more, given := StepLeads(ss[n], window, evs[n]);
      LeadsOn(ss[0].up, es, ss[n].up, more, ss[n + 1].up,
              ArrivedIn(evs[..n]), Originals(ss[n].bound), LostIn(ss[..n + 1], evs[..n]),
              Arrived(evs[n]), given, Lost(ss[n], evs[n]));
      es := es + more;
    }
  }

  lemma NoOriginals()
    ensures Originals([]) == []
  {
  }

  /** Per-pad order over every run of the stream publisher with the reorder fault off:
      under any link flips, confirms, sweeps, failed batches and teardowns, the ordinary
      frames of a pad, in order of publishing id, are its arrivals in order without the
      drop-oldest victims, followed by what is staged and what its buffer holds. */
  lemma StreamPerPadOrder(pads: nat, cap: nat, window: nat, ss: seq<Edge>, evs: seq<Event>, pad: nat)
    requires Path(window, ss, evs) && ss[0] == Boot(pads, cap) && forall ev :: ev in evs ==> Off(ev)
    ensures exists fates ::
              UO.InOrder(ss[|evs|].up, UO.OfPad(ArrivedIn(evs), pad), Originals(ss[|evs|].bound), LostIn(ss, evs),
                         pad, fates)
  {
    var es := RunLeads(window, ss, evs);
    hide UO.InOrder, UO.Run, UO.FirstAttempts, UO.Arrivals, UO.Dropped, Path, Originals;
    UO.PerPadOrder(pads, cap, es, pad);
  }
}

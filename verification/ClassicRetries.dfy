/** The order of classic retransmits: what every teardown leaves in the retry queue, and
    exactly when that is in sequence order. */
module ClassicRetries {
  import opened Folds
  import opened Frames
  import opened UplinkModel
  import opened ClassicModel
  import CC = ClassicCustody

  /** The ordinary frames of a pending queue, in order. */
  function Ordinary(pending: seq<(Frame, bool)>): seq<Frame> {
    Unacked(pending, [])
  }

  /** The ordinary pending frames whose confirm, taken position by position, is not an
      ack; where the outcomes end, the deadline struck. */
  function Unacked(pending: seq<(Frame, bool)>, outcomes: seq<Outcome>): seq<Frame>
    decreases pending
  {
    if pending == [] then []
    else
      var settled := pending[0].1 || (outcomes != [] && outcomes[0] == Ack);
      (if settled then [] else [pending[0].0]) + Unacked(pending[1..], if outcomes == [] then [] else outcomes[1..])
  }

  lemma {:induction false} AbandonOrder(e: Edge)
    ensures Abandon(e).up.retry == e.up.retry + Ordinary(e.pending)
    decreases e.pending
  {
    if e.pending != [] {
      AbandonOrder(Requeue(e.(pending := e.pending[1..]), e.pending[0]));
    }
  }

  /** A reap puts exactly the unacked ordinary frames behind what already waits, in the
      order in which they were published. */
  lemma {:induction false} ReapOrder(e: Edge, outcomes: seq<Outcome>)
    requires Paired(e)
    ensures Reap(e, outcomes).up.retry == e.up.retry + Unacked(e.pending, outcomes)
    decreases outcomes
  {
    hide Abandon;
    AbandonOrder(e);
    if e.inflight != [] && outcomes != [] {
      ReapOrder(ReapOne(e, outcomes[0]), outcomes[1..]);
    }
  }

  lemma FailedOrder(e: Edge, flt: Faults, outcomes: seq<Outcome>)
    requires Paired(e) && Next(e.up, flt).1.Some?
    ensures var (v, r) := Next(e.up, flt);
            PublishFailed(e, flt, outcomes).up.retry == [r.value.0] + v.retry + Unacked(e.pending, outcomes)
  {
    hide Next, Reap;
    var (v, r) := Next(e.up, flt);
    ReapOrder(CC.Returned(e, v, r.value.0, r.value.1), outcomes);
  }

  /** A broken confirm counts as one more confirm that is not an ack. */
  lemma BrokenOrder(e: Edge, inject: bool, outcomes: seq<Outcome>)
    requires Paired(e) && e.inflight != []
    ensures Confirm(e, Broken, inject, outcomes).up.retry == e.up.retry + Unacked(e.pending, [Broken] + outcomes)
  {
    assert ([Broken] + outcomes)[1..] == outcomes;
    assert Reap(e, [Broken] + outcomes) == Confirm(e, Broken, inject, outcomes);
    ReapOrder(e, [Broken] + outcomes);
  }

  // ---- In sequence order ----

  /** No frame stands before one of its own well with a lower number. */
  ghost predicate SeqOrder(s: seq<Frame>) {
    forall i, j :: 0 <= i < j < |s| && WellOf(s[i]) == WellOf(s[j]) ==> s[i].seqNo <= s[j].seqNo
  }

  /** Nothing in `a` is newer than anything of its own well in `b`. */
  ghost predicate NoneNewer(a: seq<Frame>, b: seq<Frame>) {
    forall i, j :: 0 <= i < |a| && 0 <= j < |b| && WellOf(a[i]) == WellOf(b[j]) ==> a[i].seqNo <= b[j].seqNo
  }

  lemma SeqOrderJoin(a: seq<Frame>, b: seq<Frame>)
    ensures SeqOrder(a + b) <==> SeqOrder(a) && SeqOrder(b) && NoneNewer(a, b)
  {
    var s := a + b;
    if SeqOrder(s) {
      forall i, j | 0 <= i < j < |a| && WellOf(a[i]) == WellOf(a[j]) ensures a[i].seqNo <= a[j].seqNo {
        assert s[i] == a[i] && s[j] == a[j];
      }
      forall i, j | 0 <= i < j < |b| && WellOf(b[i]) == WellOf(b[j]) ensures b[i].seqNo <= b[j].seqNo {
        assert s[|a| + i] == b[i] && s[|a| + j] == b[j];
      }
      forall i, j | 0 <= i < |a| && 0 <= j < |b| && WellOf(a[i]) == WellOf(b[j]) ensures a[i].seqNo <= b[j].seqNo {
        assert s[i] == a[i] && s[|a| + j] == b[j];
      }
    }
  }

  lemma NoneNewerJoin(a: seq<Frame>, b: seq<Frame>, c: seq<Frame>)
    ensures NoneNewer(a, b + c) <==> NoneNewer(a, b) && NoneNewer(a, c)
  {
    if NoneNewer(a, b + c) {
      forall i, j | 0 <= i < |a| && 0 <= j < |b| && WellOf(a[i]) == WellOf(b[j]) ensures a[i].seqNo <= b[j].seqNo {
        assert (b + c)[j] == b[j];
      }
      forall i, j | 0 <= i < |a| && 0 <= j < |c| && WellOf(a[i]) == WellOf(c[j]) ensures a[i].seqNo <= c[j].seqNo {
        assert (b + c)[|b| + j] == c[j];
      }
    }
  }

  lemma {:induction false} UnackedIsOrdinary(pending: seq<(Frame, bool)>, outcomes: seq<Outcome>)
    ensures forall f :: f in Unacked(pending, outcomes) ==> f in Ordinary(pending)
    ensures SeqOrder(Ordinary(pending)) ==> SeqOrder(Unacked(pending, outcomes))
    decreases pending
  {
    if pending != [] {
      var rest := if outcomes == [] then [] else outcomes[1..];
      UnackedIsOrdinary(pending[1..], rest);
      var head := if pending[0].1 then [] else [pending[0].0];
      SeqOrderJoin(head, Ordinary(pending[1..]));
      SeqOrderJoin(head, Unacked(pending[1..], rest));
      NewerThanPart(head, Ordinary(pending[1..]), Unacked(pending[1..], rest));
    }
  }

  lemma NewerThanPart(a: seq<Frame>, whole: seq<Frame>, part: seq<Frame>)
    requires forall f :: f in part ==> f in whole
    ensures NoneNewer(a, whole) ==> NoneNewer(a, part)
  {
    if NoneNewer(a, whole) {
      forall i, j | 0 <= i < |a| && 0 <= j < |part| && WellOf(a[i]) == WellOf(part[j])
        ensures a[i].seqNo <= part[j].seqNo
      {
        assert part[j] in whole;
        var k :| 0 <= k < |whole| && whole[k] == part[j];
      }
    }
  }

  // ---- When each teardown leaves the queue in order ----

  /** A plain teardown: in order exactly when what waited is, the unacked frames are, and
      nothing that waited is newer than an unacked frame of its well. */
  lemma TeardownInOrderIff(e: Edge, outcomes: seq<Outcome>)
    requires Paired(e)
    ensures var lost := Unacked(e.pending, outcomes);
            SeqOrder(Reap(e, outcomes).up.retry) <==>
            SeqOrder(e.up.retry) && SeqOrder(lost) && NoneNewer(e.up.retry, lost)
  {
    hide SeqOrder, NoneNewer, Unacked;
    ReapOrder(e, outcomes);
    SeqOrderJoin(e.up.retry, Unacked(e.pending, outcomes));
  }

  /** A broken confirm: the same, its own frame among the unacked ones. */
  lemma BrokenInOrderIff(e: Edge, inject: bool, outcomes: seq<Outcome>)
    requires Paired(e) && e.inflight != []
    ensures var lost := Unacked(e.pending, [Broken] + outcomes);
            SeqOrder(Confirm(e, Broken, inject, outcomes).up.retry) <==>
            SeqOrder(e.up.retry) && SeqOrder(lost) && NoneNewer(e.up.retry, lost)
  {
    hide SeqOrder, NoneNewer, Unacked;
    BrokenOrder(e, inject, outcomes);
    SeqOrderJoin(e.up.retry, Unacked(e.pending, [Broken] + outcomes));
  }

  /** A failed publish: its frame goes in front, so besides it must not be newer than
      anything of its well that waited or is unacked. */
  lemma FailedInOrderIff(e: Edge, flt: Faults, outcomes: seq<Outcome>)
    requires Paired(e) && Next(e.up, flt).1.Some?
    ensures var (v, r) := Next(e.up, flt);
            var lost := Unacked(e.pending, outcomes);
            SeqOrder(PublishFailed(e, flt, outcomes).up.retry) <==>
            && SeqOrder(v.retry) && SeqOrder(lost) && NoneNewer(v.retry, lost)
            && NoneNewer([r.value.0], v.retry) && NoneNewer([r.value.0], lost)
  {
    hide SeqOrder, NoneNewer, Unacked, Next;
    var (v, r) := Next(e.up, flt);
    var lost := Unacked(e.pending, outcomes);
    FailedOrder(e, flt, outcomes);
    assert [r.value.0] + v.retry + lost == [r.value.0] + (v.retry + lost);
    SeqOrderJoin([r.value.0], v.retry + lost);
    SeqOrderJoin(v.retry, lost);
    NoneNewerJoin([r.value.0], v.retry, lost);
    OneInOrder(r.value.0);
  }

  lemma OneInOrder(f: Frame)
    ensures SeqOrder([f])
  {
  }

  /** In the state the publisher works towards, with nothing waiting and the pending
      frames in order, a teardown or a broken confirm keeps the order; a failed publish
      does if and only if every unacked frame of its well is at least as new as the
      frame that failed. */
  lemma RetransmitsInOrderIff(e: Edge, flt: Faults, inject: bool, outcomes: seq<Outcome>)
    requires Paired(e) && e.up.retry == [] && SeqOrder(Ordinary(e.pending))
    ensures SeqOrder(Reap(e, outcomes).up.retry)
    ensures e.inflight != [] ==> SeqOrder(Confirm(e, Broken, inject, outcomes).up.retry)
    ensures Next(e.up, flt).1.Some? ==>
              (SeqOrder(PublishFailed(e, flt, outcomes).up.retry) <==>
               NoneNewer([Next(e.up, flt).1.value.0], Unacked(e.pending, outcomes)))
  {
    NextKeeps(e.up, flt);
    hide Unacked, Next, Reap, Confirm, PublishFailed, Held;
    assert SeqOrder([]) && forall s :: NoneNewer(s, []) && NoneNewer([], s);
    hide SeqOrder, NoneNewer;
    UnackedIsOrdinary(e.pending, outcomes);
    UnackedIsOrdinary(e.pending, [Broken] + outcomes);
    TeardownInOrderIff(e, outcomes);
    if e.inflight != [] { BrokenInOrderIff(e, inject, outcomes); }
    if Next(e.up, flt).1.Some? { FailedInOrderIff(e, flt, outcomes); }
  }

  // ---- A nack alone breaks the order ----

  /** A nacked frame is published again behind the younger pending ones, so a teardown
      that then hears nothing leaves it last: no publish has to fail. */
  lemma NackThenTeardown(e: Edge, flt: Faults, inject: bool)
    requires Paired(e) && e.up.retry == [] && e.pending != [] && !e.pending[0].1
    ensures var nacked := Confirm(e, Nack, inject, []);
            var again := Publish(nacked, flt);
            Reap(again, []).up.retry == Ordinary(e.pending[1..]) + [e.pending[0].0]
  {
    hide Unacked, Reap;
    var again := Publish(Confirm(e, Nack, inject, []), flt);
    assert again.up.retry == [] && again.pending == e.pending[1..] + [e.pending[0]];
    ReapOrder(again, []);
    OrdinaryLast(e.pending[1..], e.pending[0]);
  }

  lemma {:induction false} OrdinaryLast(pending: seq<(Frame, bool)>, p: (Frame, bool))
    ensures Ordinary(pending + [p]) == Ordinary(pending) + if p.1 then [] else [p.0]
    decreases pending
  {
    if pending == [] {
      assert ([] + [p])[1..] == [];
    } else {
      OrdinaryLast(pending[1..], p);
      assert (pending + [p])[1..] == pending[1..] + [p];
    }
  }

  function Numbered(q: nat): Frame {
    Frame(FRAME_VERSION, 1, 1, 1, q, q, Finite(0.0), Finite(0.0), Finite(0.0), Finite(0.0))
  }

  function NoFaults(): Faults {
    Faults(1, (pass: nat, pad: nat) => true, (i: nat) => 0)
  }

  /** An empty uplink with its link up passes a frame straight through. */
  lemma StraightThrough(f: Frame)
    requires f.pad == 1
    ensures Next(BufferFrame(Start(1, 1), f), NoFaults()) == (Start(1, 1), Some((f, false)))
  {
    hide PadOrder;
    assert EmptyPads(0) == map[] && EmptyPads(1) == map[1 := []];
    var full, empty := Stage(map[1 := [f]], []), Stage(map[1 := []], [f]);
    assert Start(1, 1).pads == map[1 := []] && Victims(Start(1, 1), f) == [] && [][0..] + [f] == [f];
    assert BufferFrame(Start(1, 1), f).pads == full.pads;
    OnePass(full);
    OnePass(empty);
    var up := NoFaults().up;
    assert FullPass(full, 0, up) == empty && FullPass(empty, 1, up) == empty;
    assert Pull(empty, 1, 1, up) == empty;
    assert Pull(full, 0, 0, up) == empty;
  }

  lemma OnePass(s: Stage)
    requires s.pads.Keys == {1}
    ensures forall pass: nat :: FullPass(s, pass, NoFaults().up) == TakeOne(s, 1, true)
  {
    var keys := PadOrder(s.pads);
    assert |s.pads| == |s.pads.Keys| == 1;
    assert keys[0] in s.pads.Keys;
    hide PadOrder;
    forall pass: nat ensures FullPass(s, pass, NoFaults().up) == TakeOne(s, 1, true) {
      var up := Links(NoFaults().up, pass);
      assert Pass(s, keys, 0, up) == Pass(TakeOne(s, 1, true), keys, 1, up);
    }
  }

  /** One more frame arrives and is published. */
  lemma SendOne(window: nat, evs: seq<Event>, e: Edge, f: Frame) returns (r: Edge)
    requires CC.Reaches(Boot(1, 1), window, evs, e)
    requires Paired(e) && |e.inflight| < window && e.up == Start(1, 1) && f.pad == 1
    ensures CC.Reaches(Boot(1, 1), window, evs + [Arrive(f), Pump(NoFaults())], r)
    ensures Paired(r) && |r.inflight| == |e.inflight| + 1 && r.up == Start(1, 1)
    ensures r.pending == e.pending + [(f, false)]
  {
    hide CC.Reaches, Next, BufferFrame, Victims, Start;
    StraightThrough(f);
    var a := Step(e, Arrive(f));
    CC.ReachesNext(Boot(1, 1), window, evs, e, Arrive(f));
    CC.ReachesNext(Boot(1, 1), window, evs + [Arrive(f)], a, Pump(NoFaults()));
    assert evs + [Arrive(f), Pump(NoFaults())] == evs + [Arrive(f)] + [Pump(NoFaults())];
    r := Step(a, Pump(NoFaults()));
  }

  lemma NackShape(e: Edge, flt: Faults, inject: bool)
    requires Paired(e) && e.inflight != []
    ensures var nacked := Confirm(e, Nack, inject, []);
            Paired(nacked) && |nacked.inflight| == |e.inflight| - 1 && Paired(Publish(nacked, flt))
  {
    hide Next;
  }

  lemma NackAndTeardown(window: nat, evs: seq<Event>, e: Edge, inject: bool) returns (r: Edge)
    requires CC.Reaches(Boot(1, 1), window, evs, e)
    requires Paired(e) && e.pending != [] && !e.pending[0].1 && |e.inflight| <= window && e.up.retry == []
    ensures CC.Reaches(Boot(1, 1), window,
                       evs + [Resolve(Nack, inject, []), Pump(NoFaults()), Teardown([])], r)
    ensures r.up.retry == Ordinary(e.pending[1..]) + [e.pending[0].0]
  {
    hide CC.Reaches, Reap, Unacked, Confirm, Publish;
    NackThenTeardown(e, NoFaults(), inject);
    NackShape(e, NoFaults(), inject);
    var nack, pump, end := Resolve(Nack, inject, []), Pump(NoFaults()), Teardown([]);
    var nacked := Step(e, nack);
    var again := Step(nacked, pump);
    CC.ReachesNext(Boot(1, 1), window, evs, e, nack);
    CC.ReachesNext(Boot(1, 1), window, evs + [nack], nacked, pump);
    CC.ReachesNext(Boot(1, 1), window, evs + [nack] + [pump], again, end);
    assert evs + [nack, pump, end] == evs + [nack] + [pump] + [end];
    r := Step(again, end);
  }

  /** From a fresh start, with a window for three frames and no publish that fails: 1, 2
      and 3 are published in order, 1 is nacked and published again, and a teardown that
      hears nothing leaves 2, 3, 1. */
  lemma NackBreaksTheOrder(window: nat, inject: bool) returns (evs: seq<Event>, end: Edge)
    requires window >= 3
    ensures CC.Reaches(Boot(1, 1), window, evs, end)
    ensures forall i :: 0 <= i < |evs| ==> !evs[i].PumpFails? && (evs[i].Resolve? ==> evs[i].outcome == Nack)
    ensures end.up.retry == [Numbered(2), Numbered(3), Numbered(1)] && !SeqOrder(end.up.retry)
  {
    hide CC.Reaches, Start, SeqOrder;
    var (a, b, c) := (Numbered(1), Numbered(2), Numbered(3));
    var e := Boot(1, 1);
    StartReaches(window);
    evs := [];
    e := SendOne(window, evs, e, a);
    evs := evs + [Arrive(a), Pump(NoFaults())];
    e := SendOne(window, evs, e, b);
    evs := evs + [Arrive(b), Pump(NoFaults())];
    e := SendOne(window, evs, e, c);
    evs := evs + [Arrive(c), Pump(NoFaults())];
    StartWaitsForNothing();
    end := NackAndTeardown(window, evs, e, inject);
    evs := evs + [Resolve(Nack, inject, []), Pump(NoFaults()), Teardown([])];
    assert e.pending[1..] == [(b, false), (c, false)];
    TwoOrdinary(b, c);
    OutOfOrder(a, b, c);
  }

  lemma StartReaches(window: nat)
    ensures CC.Reaches(Boot(1, 1), window, [], Boot(1, 1)) && Paired(Boot(1, 1)) && Boot(1, 1).up == Start(1, 1)
  {
  }

  lemma StartWaitsForNothing()
    ensures Start(1, 1).retry == []
  {
  }

  lemma TwoOrdinary(b: Frame, c: Frame)
    ensures Ordinary([(b, false), (c, false)]) == [b, c]
  {
    assert Unacked([], []) == [];
    OrdinaryLast([], (b, false));
    OrdinaryLast([(b, false)], (c, false));
    assert [] + [(b, false)] == [(b, false)] && [(b, false)] + [(c, false)] == [(b, false), (c, false)];
  }

  lemma OutOfOrder(a: Frame, b: Frame, c: Frame)
    requires WellOf(a) == WellOf(b) && a.seqNo < b.seqNo
    ensures !SeqOrder([b, c, a])
  {
    var s := [b, c, a];
    assert s[0].seqNo > s[2].seqNo;
  }
}

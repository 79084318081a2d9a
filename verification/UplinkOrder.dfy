/** Order through the uplink: with the reorder fault off, a pad's frames reach the
    wire in arrival order, minus the oldest ones a full buffer gave up. */
module UplinkOrder {
  import opened Folds
  import opened Frames
  import opened UplinkModel

  /** Everything that touches the uplink: arrivals, pulls by the publisher, and
      frames that come back for retransmission or are injected as duplicates. */
  datatype Event =
    | Arrive(frame: Frame)
    | PullNext(faults: Faults)
    | RetryFirst(frame: Frame)
    | RetryLast(frame: Frame)
    | InjectDup(frame: Frame)

  function Step(u: Uplink, e: Event): Uplink {
    match e
    case Arrive(f) => BufferFrame(u, f)
    case PullNext(flt) => Next(u, flt).0
    case RetryFirst(f) => u.(retry := [f] + u.retry)
    case RetryLast(f) => u.(retry := u.retry + [f])
    case InjectDup(f) => u.(dupQueue := u.dupQueue + [f])
  }

  /** The frame whose first publish attempt this event is, if it is one. */
  function FirstAttempt(u: Uplink, e: Event): seq<Frame> {
    if e.PullNext? && u.retry == [] && u.dupQueue == [] && Next(u, e.faults).1.Some? then
      [Next(u, e.faults).1.value.0]
    else []
  }

  function Run(u: Uplink, es: seq<Event>): Uplink {
    if es == [] then u else Step(Run(u, es[..|es| - 1]), es[|es| - 1])
  }

  function FirstAttempts(u: Uplink, es: seq<Event>): seq<Frame> {
    if es == [] then []
    else FirstAttempts(u, es[..|es| - 1]) + FirstAttempt(Run(u, es[..|es| - 1]), es[|es| - 1])
  }

  function Arrival(e: Event): seq<Frame> {
    if e.Arrive? then [e.frame] else []
  }

  function Arrivals(es: seq<Event>): seq<Frame> {
    if es == [] then [] else Arrivals(es[..|es| - 1]) + Arrival(es[|es| - 1])
  }

  function OfPad(s: seq<Frame>, pad: nat): seq<Frame> {
    if s == [] then []
    else OfPad(s[..|s| - 1], pad) + if s[|s| - 1].pad == pad then [s[|s| - 1]] else []
  }

  /** The arrivals that were pulled (fate true), or those that were given up (false). */
  function Kept(a: seq<Frame>, fates: seq<bool>, fate: bool): seq<Frame>
    requires |a| == |fates|
  {
    if a == [] then []
    else Kept(a[..|a| - 1], fates[..|a| - 1], fate) + if fates[|a| - 1] == fate then [a[|a| - 1]] else []
  }

  /** The frames that an event drops, and those that a run drops, in order. */
  function DroppedBy(u: Uplink, e: Event): seq<Frame> {
    if e.Arrive? then Victims(u, e.frame) else []
  }

  function Dropped(u: Uplink, es: seq<Event>): seq<Frame> {
    if es == [] then []
    else Dropped(u, es[..|es| - 1]) + DroppedBy(Run(u, es[..|es| - 1]), es[|es| - 1])
  }

  // ---- Small facts ----

  lemma {:induction false} OfPadConcat(a: seq<Frame>, b: seq<Frame>, pad: nat)
    ensures OfPad(a + b, pad) == OfPad(a, pad) + OfPad(b, pad)
  {
    if b == [] {
      assert a + b == a;
    } else {
      OfPadConcat(a, b[..|b| - 1], pad);
      assert (a + b)[..|a + b| - 1] == a + b[..|b| - 1];
    }
  }

  lemma {:induction false} OfPadAll(s: seq<Frame>, pad: nat)
    ensures (forall f :: f in s ==> f.pad == pad) ==> OfPad(s, pad) == s
    ensures (forall f :: f in s ==> f.pad != pad) ==> OfPad(s, pad) == []
  {
    if s != [] {
      OfPadAll(s[..|s| - 1], pad);
      assert s == s[..|s| - 1] + [s[|s| - 1]];
    }
  }

  lemma OfPadLast(s: seq<Frame>, f: Frame, pad: nat)
    ensures OfPad(s + [f], pad) == OfPad(s, pad) + if f.pad == pad then [f] else []
  {
    assert (s + [f])[..|s|] == s;
  }

  lemma KeptLast(a: seq<Frame>, fates: seq<bool>, f: Frame, b: bool, fate: bool)
    requires |a| == |fates|
    ensures Kept(a + [f], fates + [b], fate) == Kept(a, fates, fate) + if b == fate then [f] else []
  {
    assert (a + [f])[..|a|] == a && (fates + [b])[..|a|] == fates;
  }

  function Yes(n: nat): seq<bool> {
    seq(n, _ => true)
  }

  lemma {:induction false} KeptMore(a: seq<Frame>, fates: seq<bool>, b: seq<Frame>)
    requires |a| == |fates|
    ensures Kept(a + b, fates + Yes(|b|), true) == Kept(a, fates, true) + b
    ensures Kept(a + b, fates + Yes(|b|), false) == Kept(a, fates, false)
  {
    if b == [] {
      assert a + b == a && fates + Yes(0) == fates;
    } else {
      hide Kept;
      var c := b[..|b| - 1];
      KeptMore(a, fates, c);
      KeptLast(a + c, fates + Yes(|c|), b[|b| - 1], true, true);
      KeptLast(a + c, fates + Yes(|c|), b[|b| - 1], true, false);
      assert a + b == (a + c) + [b[|b| - 1]];
      assert fates + Yes(|b|) == (fates + Yes(|c|)) + [true];
    }
  }

  // ---- Series of uplink events ----

  lemma NoEvent(u: Uplink)
    ensures Run(u, []) == u && Arrivals([]) == []
    ensures FirstAttempts(u, []) == [] && Dropped(u, []) == []
  {
  }

  lemma LastEvent(u: Uplink, es: seq<Event>, x: Event)
    ensures Run(u, es + [x]) == Step(Run(u, es), x)
    ensures Arrivals(es + [x]) == Arrivals(es) + Arrival(x)
    ensures FirstAttempts(u, es + [x]) == FirstAttempts(u, es) + FirstAttempt(Run(u, es), x)
    ensures Dropped(u, es + [x]) == Dropped(u, es) + DroppedBy(Run(u, es), x)
  {
    hide Step, Arrival, FirstAttempt, DroppedBy;
    assert (es + [x])[..|es|] == es;
  }

  lemma {:induction false} RunJoin(u: Uplink, a: seq<Event>, b: seq<Event>)
    ensures Run(u, a + b) == Run(Run(u, a), b)
    ensures Arrivals(a + b) == Arrivals(a) + Arrivals(b)
    ensures FirstAttempts(u, a + b) == FirstAttempts(u, a) + FirstAttempts(Run(u, a), b)
    ensures Dropped(u, a + b) == Dropped(u, a) + Dropped(Run(u, a), b)
  {
    hide Run, Arrivals, FirstAttempts, Dropped, Step, Arrival, FirstAttempt, DroppedBy;
    if b == [] {
      NoEvent(Run(u, a));
      assert a + b == a;
    } else {
      var c, x := b[..|b| - 1], b[|b| - 1];
      RunJoin(u, a, c);
      LastEvent(u, a + c, x);
      LastEvent(Run(u, a), c, x);
      assert a + b == (a + c) + [x] && b == c + [x];
    }
  }

  lemma OneEvent(u: Uplink, x: Event)
    ensures Run(u, [x]) == Step(u, x) && Arrivals([x]) == Arrival(x)
    ensures FirstAttempts(u, [x]) == FirstAttempt(u, x) && Dropped(u, [x]) == DroppedBy(u, x)
  {
    assert [x][..0] == [];
    assert Run(u, []) == u;
  }

  // ---- Pulling keeps each pad's line ----

  ghost predicate Sorted(pads: map<nat, seq<Frame>>) {
    forall p, f :: p in pads && f in pads[p] ==> f.pad == p
  }

  /** From `s` to `t` a pad's line moved forward: staged frames, then the buffer. */
  ghost predicate Forward(s: Stage, t: Stage, pad: nat) {
    && OfPad(t.shuffle, pad) + At(t.pads, pad) == OfPad(s.shuffle, pad) + At(s.pads, pad)
    && |At(t.pads, pad)| <= |At(s.pads, pad)|
  }

  lemma ForwardTwice(s: Stage, t: Stage, v: Stage, pad: nat)
    requires Forward(s, t, pad) && Forward(t, v, pad)
    ensures Forward(s, v, pad)
  {
  }

  lemma TakeOneSorted(s: Stage, q: nat, up: bool)
    requires q in s.pads && Sorted(s.pads)
    ensures Sorted(TakeOne(s, q, up).pads)
  {
  }

  lemma TakeOneForward(s: Stage, q: nat, up: bool, pad: nat)
    requires q in s.pads && Sorted(s.pads)
    ensures Forward(s, TakeOne(s, q, up), pad)
    ensures !up || q != pad ==> At(TakeOne(s, q, up).pads, pad) == At(s.pads, pad)
  {
    if up && s.pads[q] != [] {
      var f := s.pads[q][0];
      assert f in s.pads[q] && f.pad == q;
      hide Sorted, OfPad;
      OfPadLast(s.shuffle, f, pad);
      if q == pad {
        assert (OfPad(s.shuffle, pad) + [f]) + s.pads[q][1..] == OfPad(s.shuffle, pad) + s.pads[q];
      }
    }
  }

  lemma {:induction false} PassForward(s: Stage, keys: seq<nat>, i: nat, up: nat -> bool, pad: nat)
    requires i <= |keys| && forall j :: i <= j < |keys| ==> keys[j] in s.pads
    requires Sorted(s.pads)
    ensures Forward(s, Pass(s, keys, i, up), pad) && Sorted(Pass(s, keys, i, up).pads)
    ensures !up(pad) ==> At(Pass(s, keys, i, up).pads, pad) == At(s.pads, pad)
    decreases |keys| - i
  {
    hide Sorted, OfPad;
    if i < |keys| {
      var t := TakeOne(s, keys[i], up(keys[i]));
      TakeOneForward(s, keys[i], up(keys[i]), pad);
      TakeOneSorted(s, keys[i], up(keys[i]));
      PassForward(t, keys, i + 1, up, pad);
      ForwardTwice(s, t, Pass(t, keys, i + 1, up), pad);
    }
  }

  lemma FullPassForward(s: Stage, pass: nat, up: (nat, nat) -> bool, pad: nat)
    requires Sorted(s.pads)
    ensures Forward(s, FullPass(s, pass, up), pad) && Sorted(FullPass(s, pass, up).pads)
    ensures !up(pass, pad) ==> At(FullPass(s, pass, up).pads, pad) == At(s.pads, pad)
  {
    PassForward(s, PadOrder(s.pads), 0, Links(up, pass), pad);
    hide PadOrder, Pass, OfPad, Sorted, Forward;
  }

  lemma {:induction false} PullForward(s: Stage, pulled: nat, pass: nat, up: (nat, nat) -> bool, pad: nat)
    requires Sorted(s.pads)
    ensures Forward(s, Pull(s, pulled, pass, up), pad) && Sorted(Pull(s, pulled, pass, up).pads)
    ensures (forall n :: n >= pass ==> !up(n, pad)) ==> At(Pull(s, pulled, pass, up).pads, pad) == At(s.pads, pad)
    decreases PULL_LIMIT - pulled
  {
    hide Sorted, OfPad, FullPass;
    var t := FullPass(s, pass, up);
    FullPassForward(s, pass, up, pad);
    var got := |t.shuffle| - |s.shuffle|;
    FullPassGrows(s, pass, up);
    if got != 0 && pulled + got < PULL_LIMIT {
      PullForward(t, pulled + got, pass + 1, up, pad);
      ForwardTwice(s, t, Pull(t, pulled + got, pass + 1, up), pad);
    }
  }

  lemma FullPassGrows(s: Stage, pass: nat, up: (nat, nat) -> bool)
    ensures |FullPass(s, pass, up).shuffle| >= |s.shuffle|
  {
  }

  /** The frames of a pad that left its buffer and have not been attempted yet. */
  function Staged(u: Uplink, pad: nat): seq<Frame> {
    OfPad(u.publishQueue, pad) + OfPad(u.shuffle, pad)
  }

  lemma PullEmptyPad(s: Stage, pulled: nat, pass: nat, up: (nat, nat) -> bool)
    requires pulled < PULL_LIMIT
    ensures Pull(s, pulled, pass, up).pads.Keys == s.pads.Keys
  {
    PullKeeps(s, pulled, pass, up);
  }

  /** A fill with the reorder fault off moves each pad's line forward in order. */
  lemma FillLine(u: Uplink, flt: Faults, pad: nat)
    requires Sorted(u.pads) && flt.window <= 1
    ensures var v := Fill(u, flt);
            && Sorted(v.pads)
            && Staged(v, pad) + BufferOf(v, pad) == Staged(u, pad) + BufferOf(u, pad)
            && |BufferOf(v, pad)| <= |BufferOf(u, pad)|
            && v.retry == u.retry && v.dupQueue == u.dupQueue
  {
    hide Sorted, OfPad, Pull;
    var t := Pull(Stage(u.pads, u.shuffle), 0, 0, flt.up);
    PullForward(Stage(u.pads, u.shuffle), 0, 0, flt.up, pad);
    OfPadConcat(u.publishQueue, t.shuffle, pad);
    OfPadAll([], pad);
    assert Staged(Fill(u, flt), pad) + At(t.pads, pad) ==
           OfPad(u.publishQueue, pad) + (OfPad(t.shuffle, pad) + At(t.pads, pad));
    assert Staged(u, pad) + BufferOf(u, pad) ==
           OfPad(u.publishQueue, pad) + (OfPad(u.shuffle, pad) + BufferOf(u, pad));
  }

  lemma NextLine(u: Uplink, flt: Faults, pad: nat)
    requires Sorted(u.pads) && flt.window <= 1
    ensures var v := Next(u, flt).0;
            && Sorted(v.pads)
            && OfPad(FirstAttempt(u, PullNext(flt)), pad) + Staged(v, pad) + BufferOf(v, pad) ==
               Staged(u, pad) + BufferOf(u, pad)
            && |BufferOf(v, pad)| <= |BufferOf(u, pad)|
  {
    hide Sorted, Fill;
    OfPadAll([], pad);
    if u.retry == [] && u.dupQueue == [] {
      if u.publishQueue == [] { FillLine(u, flt, pad); }
      var v := if u.publishQueue == [] then Fill(u, flt) else u;
      if v.publishQueue != [] {
        HeadOut(v, pad);
        assert OfPad([v.publishQueue[0]], pad) + Staged(Next(u, flt).0, pad) + BufferOf(v, pad) ==
               Staged(v, pad) + BufferOf(v, pad);
      }
    }
  }

  lemma HeadOut(v: Uplink, pad: nat)
    requires v.publishQueue != []
    ensures OfPad([v.publishQueue[0]], pad) + Staged(v.(publishQueue := v.publishQueue[1..]), pad) == Staged(v, pad)
  {
    OfPadConcat([v.publishQueue[0]], v.publishQueue[1..], pad);
    assert [v.publishQueue[0]] + v.publishQueue[1..] == v.publishQueue;
  }

  // ---- The whole run ----

  /** Each arrival of the pad was either pulled or given up, oldest first, or is still in
      the buffer; the pulled ones went or will go out in that order, and the given-up
      ones are exactly the pad's drops, in that order. */
  ghost predicate InOrder(u: Uplink, arrived: seq<Frame>, attempted: seq<Frame>, dropped: seq<Frame>,
                          pad: nat, fates: seq<bool>) {
    && Sorted(u.pads)
    && |fates| <= |arrived|
    && BufferOf(u, pad) == arrived[|fates|..]
    && OfPad(attempted, pad) + Staged(u, pad) == Kept(arrived[..|fates|], fates, true)
    && OfPad(dropped, pad) == Kept(arrived[..|fates|], fates, false)
  }

  /** What a full buffer gives up is its pad's own oldest frame. */
  lemma VictimsOfPad(u: Uplink, f: Frame, dropped: seq<Frame>, pad: nat)
    requires Sorted(u.pads)
    ensures OfPad(dropped + Victims(u, f), pad) == OfPad(dropped, pad) + if f.pad == pad then Victims(u, f) else []
  {
    OfPadConcat(dropped, Victims(u, f), pad);
    OfPadAll(Victims(u, f), pad);
  }

  /** An arrival moves its own pad's buffer and nothing else. */
  lemma BufferAfter(u: Uplink, f: Frame, pad: nat)
    ensures Staged(BufferFrame(u, f), pad) == Staged(u, pad)
    ensures f.pad != pad ==> BufferOf(BufferFrame(u, f), pad) == BufferOf(u, pad)
    ensures BufferOf(BufferFrame(u, f), f.pad) == BufferOf(u, f.pad)[|Victims(u, f)|..] + [f]
    ensures Victims(u, f) == [] || (BufferOf(u, f.pad) != [] && Victims(u, f) == [BufferOf(u, f.pad)[0]])
  {
    hide OfPad;
  }

  lemma ArriveInOrder(u: Uplink, a: seq<Frame>, attempted: seq<Frame>, dropped: seq<Frame>, pad: nat,
                      fates: seq<bool>, f: Frame)
    returns (fates': seq<bool>)
    requires InOrder(u, a, attempted, dropped, pad, fates)
    ensures InOrder(BufferFrame(u, f), a + OfPad([f], pad), attempted, dropped + Victims(u, f), pad, fates')
  {
    hide Sorted, OfPad, Kept, Staged, BufferFrame, Victims, BufferOf;
    OfPadAll([f], pad);
    SortedAfter(u, f);
    VictimsOfPad(u, f, dropped, pad);
    BufferAfter(u, f, pad);
    fates' := fates;
    if f.pad != pad {
      assert a + OfPad([f], pad) == a;
    } else if Victims(u, f) == [] {
      assert (a + [f])[..|fates|] == a[..|fates|];
    } else {
      fates' := fates + [false];
      KeptLast(a[..|fates|], fates, a[|fates|], false, true);
      KeptLast(a[..|fates|], fates, a[|fates|], false, false);
      assert (a + [f])[..|fates| + 1] == a[..|fates|] + [a[|fates|]];
      assert (a + [f])[|fates| + 1..] == a[|fates|..][1..] + [f];
    }
  }

  lemma SortedAfter(u: Uplink, f: Frame)
    requires Sorted(u.pads)
    ensures Sorted(BufferFrame(u, f).pads)
  {
  }

  /** Equal lines, the front one grown: the buffer lost a prefix to it. */
  lemma LineSplit(x: seq<Frame>, b: seq<Frame>, x': seq<Frame>, b': seq<Frame>)
    requires x' + b' == x + b && |b'| <= |b|
    ensures b' == b[|b| - |b'|..] && x' == x + b[..|b| - |b'|]
  {
    var k := |b| - |b'|;
    assert |x'| == |x| + k;
    assert x' == (x' + b')[..|x'|] == (x + b)[..|x| + k];
    assert b' == (x' + b')[|x'|..] == (x + b)[|x| + k..];
  }

  lemma PullInOrder(u: Uplink, a: seq<Frame>, attempted: seq<Frame>, dropped: seq<Frame>, pad: nat,
                    fates: seq<bool>, flt: Faults)
    returns (fates': seq<bool>)
    requires InOrder(u, a, attempted, dropped, pad, fates) && flt.window <= 1
    ensures InOrder(Next(u, flt).0, a, attempted + FirstAttempt(u, PullNext(flt)), dropped, pad, fates')
  {
    hide Next, Sorted, FirstAttempt, Staged, OfPad, Kept;
    NextLine(u, flt, pad);
    var v, first := Next(u, flt).0, FirstAttempt(u, PullNext(flt));
    OfPadConcat(attempted, first, pad);
    var x := OfPad(attempted, pad) + Staged(u, pad);
    var x' := OfPad(attempted + first, pad) + Staged(v, pad);
    assert x' + BufferOf(v, pad) == OfPad(attempted, pad) + (OfPad(first, pad) + Staged(v, pad) + BufferOf(v, pad));
    assert x + BufferOf(u, pad) == OfPad(attempted, pad) + (Staged(u, pad) + BufferOf(u, pad));
    LineSplit(x, BufferOf(u, pad), x', BufferOf(v, pad));
    var moved := BufferOf(u, pad)[..|BufferOf(u, pad)| - |BufferOf(v, pad)|];
    KeptMore(a[..|fates|], fates, moved);
    fates' := fates + Yes(|moved|);
    assert a[..|fates'|] == a[..|fates|] + moved;
    assert a[|fates'|..] == BufferOf(u, pad)[|moved|..];
  }

  lemma StepInOrder(u: Uplink, a: seq<Frame>, attempted: seq<Frame>, dropped: seq<Frame>, pad: nat,
                    fates: seq<bool>, e: Event)
    returns (fates': seq<bool>)
    requires InOrder(u, a, attempted, dropped, pad, fates)
    requires e.PullNext? ==> e.faults.window <= 1
    ensures InOrder(Step(u, e), a + OfPad(Arrival(e), pad), attempted + FirstAttempt(u, e),
                    dropped + DroppedBy(u, e), pad, fates')
  {
    hide InOrder, Next, BufferFrame, Victims;
    assert a + [] == a && attempted + [] == attempted && dropped + [] == dropped;
    match e
    case Arrive(f) => fates' := ArriveInOrder(u, a, attempted, dropped, pad, fates, f);
    case PullNext(flt) => fates' := PullInOrder(u, a, attempted, dropped, pad, fates, flt);
    case _ =>
      fates' := fates;
      OthersInOrder(u, a, attempted, dropped, pad, fates, e);
  }

  lemma OthersInOrder(u: Uplink, a: seq<Frame>, attempted: seq<Frame>, dropped: seq<Frame>, pad: nat,
                      fates: seq<bool>, e: Event)
    requires InOrder(u, a, attempted, dropped, pad, fates) && !e.Arrive? && !e.PullNext?
    ensures InOrder(Step(u, e), a, attempted, dropped, pad, fates)
  {
  }

  lemma PullKeepsPads(u: Uplink, flt: Faults)
    ensures Next(u, flt).0.pads.Keys == u.pads.Keys && Next(u, flt).0.cap == u.cap
  {
    hide Fill, Held;
    FillKeeps(u, flt);
  }

  lemma ArriveKeepsPads(u: Uplink, f: Frame)
    ensures u.pads.Keys <= BufferFrame(u, f).pads.Keys && BufferFrame(u, f).cap == u.cap
  {
    hide Victims, BufferOf;
  }

  lemma StepKeepsPads(u: Uplink, e: Event)
    ensures u.pads.Keys <= Step(u, e).pads.Keys && Step(u, e).cap == u.cap
  {
    hide Next, BufferFrame;
    match e
    case Arrive(f) => ArriveKeepsPads(u, f);
    case PullNext(flt) => PullKeepsPads(u, flt);
    case _ =>
  }

  lemma {:induction false} RunKeepsPads(u: Uplink, es: seq<Event>)
    ensures u.pads.Keys <= Run(u, es).pads.Keys && Run(u, es).cap == u.cap
  {
    hide Step;
    if es != [] {
      RunKeepsPads(u, es[..|es| - 1]);
      StepKeepsPads(Run(u, es[..|es| - 1]), es[|es| - 1]);
    }
  }

  /** The fates that put a pad's run in order, built arrival by arrival. */
  lemma {:induction false} PerPadFates(pads: nat, cap: nat, es: seq<Event>, pad: nat) returns (fates: seq<bool>)
    requires forall e :: e in es && e.PullNext? ==> e.faults.window <= 1
    ensures var u := Start(pads, cap);
            InOrder(Run(u, es), OfPad(Arrivals(es), pad), FirstAttempts(u, es), Dropped(u, es), pad, fates)
  {
    var u := Start(pads, cap);
    if es == [] {
      StartIsEmpty(pads);
      fates := [];
    } else {
      hide InOrder, Step, FirstAttempt, DroppedBy;
      var init, e := es[..|es| - 1], es[|es| - 1];
      assert e in es;
      fates := PerPadFates(pads, cap, init, pad);
      fates := StepInOrder(Run(u, init), OfPad(Arrivals(init), pad), FirstAttempts(u, init), Dropped(u, init),
                           pad, fates, e);
      OfPadConcat(Arrivals(init), Arrival(e), pad);
    }
  }

  /** Per-pad order: with the reorder window at most 1, under any link flips, retransmits
      and duplicates, the first publish attempts of a pad are its arrivals in order
      without the dropped ones, followed by what is staged and then by what its buffer
      still holds; and the missing ones are exactly the drop-oldest victims. */
  lemma PerPadOrder(pads: nat, cap: nat, es: seq<Event>, pad: nat)
    requires forall e :: e in es && e.PullNext? ==> e.faults.window <= 1
    ensures var u := Start(pads, cap);
            exists fates ::
              InOrder(Run(u, es), OfPad(Arrivals(es), pad), FirstAttempts(u, es), Dropped(u, es), pad, fates)
  {
    hide InOrder, Run, FirstAttempts, Dropped;
    var fates := PerPadFates(pads, cap, es, pad);
  }

  lemma {:induction false} StartIsEmpty(pads: nat)
    ensures forall p :: p in EmptyPads(pads) ==> EmptyPads(pads)[p] == []
  {
    if pads > 0 { StartIsEmpty(pads - 1); }
  }

  // ---- How much the reorder stage holds ----

  /** The most frames that one fill can release: a window short of its release, and what
      one pull loop adds. */
  function BatchBound(pads: map<nat, seq<Frame>>): nat {
    (MAX_REORDER_WINDOW - 1) + (PULL_LIMIT - 1) + |pads|
  }

  ghost predicate Bounded(u: Uplink) {
    |u.shuffle| < MAX_REORDER_WINDOW && |u.publishQueue| <= BatchBound(u.pads)
  }

  lemma KeysCount(a: map<nat, seq<Frame>>, b: map<nat, seq<Frame>>)
    requires a.Keys <= b.Keys
    ensures |a| <= |b|
  {
    SubsetSize(a.Keys, b.Keys);
    assert |a.Keys| == |a| && |b.Keys| == |b|;
  }

  lemma {:induction false} SubsetSize(a: set<nat>, b: set<nat>)
    requires a <= b
    ensures |a| <= |b|
  {
    if a != {} {
      var x :| x in a;
      SubsetSize(a - {x}, b - {x});
    }
  }

  lemma PullBounded(u: Uplink, flt: Faults)
    requires Bounded(u) && flt.window <= MAX_REORDER_WINDOW
    ensures Bounded(Next(u, flt).0)
  {
    hide Fill;
    FillIsLocal(u, flt);
    FillKeeps(u, flt);
    KeysCount(u.pads, Fill(u, flt).pads);
  }

  lemma StepBounded(u: Uplink, e: Event)
    requires Bounded(u) && (e.PullNext? ==> e.faults.window <= MAX_REORDER_WINDOW)
    ensures Bounded(Step(u, e))
  {
    hide Next;
    StepKeepsPads(u, e);
    KeysCount(u.pads, Step(u, e).pads);
    if e.PullNext? { PullBounded(u, e.faults); }
  }

  /** Over every run with validated windows, under any link flips, retransmits and
      duplicates, at most 4095 frames rest in the reorder stage, and what is staged for
      the wire never exceeds one released batch. */
  lemma {:induction false} ReorderStaysLocal(pads: nat, cap: nat, es: seq<Event>)
    requires forall e :: e in es && e.PullNext? ==> e.faults.window <= MAX_REORDER_WINDOW
    ensures Bounded(Run(Start(pads, cap), es))
  {
    if es != [] {
      hide Bounded, Step;
      var init, e := es[..|es| - 1], es[|es| - 1];
      assert e in es;
      ReorderStaysLocal(pads, cap, init);
      StepBounded(Run(Start(pads, cap), init), e);
    }
  }

  // ---- A pad whose link stays down ----

  function LastOf(s: seq<Frame>, n: nat): seq<Frame> {
    if |s| <= n then s else s[|s| - n..]
  }

  function Room(cap: nat): nat {
    if cap == 0 then 1 else cap
  }

  lemma PullSorted(s: Stage, up: (nat, nat) -> bool)
    requires Sorted(s.pads)
    ensures Sorted(Pull(s, 0, 0, up).pads)
  {
    PullForward(s, 0, 0, up, 0);
  }

  lemma FillDownPad(u: Uplink, flt: Faults, pad: nat)
    requires Sorted(u.pads) && forall n :: !flt.up(n, pad)
    ensures Sorted(Fill(u, flt).pads) && BufferOf(Fill(u, flt), pad) == BufferOf(u, pad)
  {
    hide Pull, Sorted, Shuffled, OfPad;
    PullSorted(Stage(u.pads, u.shuffle), flt.up);
    PullEmptyPad(Stage(u.pads, u.shuffle), 0, 0, flt.up);
    PullForward(Stage(u.pads, u.shuffle), 0, 0, flt.up, pad);
  }

  lemma DownPadKeepsBuffer(u: Uplink, flt: Faults, pad: nat)
    requires Sorted(u.pads) && forall n :: !flt.up(n, pad)
    ensures Sorted(Next(u, flt).0.pads) && BufferOf(Next(u, flt).0, pad) == BufferOf(u, pad)
    ensures Next(u, flt).0.cap == u.cap
  {
    hide Fill, Sorted, Held;
    FillDownPad(u, flt, pad);
    FillKeeps(u, flt);
  }

  lemma LastOfGrows(all: seq<Frame>, f: Frame, n: nat)
    requires n >= 1
    ensures LastOf(all + [f], n) ==
            (if |LastOf(all, n)| == n then LastOf(all, n)[1..] else LastOf(all, n)) + [f]
  {
  }

  lemma LatestAfter(v: Uplink, f: Frame, pad: nat, all: seq<Frame>)
    requires Sorted(v.pads) && BufferOf(v, pad) == LastOf(all, Room(v.cap))
    ensures Sorted(BufferFrame(v, f).pads)
    ensures BufferOf(BufferFrame(v, f), pad) ==
            LastOf(if f.pad == pad then all + [f] else all, Room(v.cap))
  {
    assert Sorted(BufferFrame(v, f).pads);
    hide Sorted;
    LastOfGrows(all, f, Room(v.cap));
    assert |LastOf(all, Room(v.cap))| <= Room(v.cap);
    hide LastOf;
  }

  lemma DownPadStep(v: Uplink, e: Event, pad: nat, all: seq<Frame>)
    requires Sorted(v.pads) && BufferOf(v, pad) == LastOf(all, Room(v.cap))
    requires e.PullNext? ==> forall n :: !e.faults.up(n, pad)
    ensures Sorted(Step(v, e).pads)
    ensures BufferOf(Step(v, e), pad) ==
            LastOf(if e.Arrive? && e.frame.pad == pad then all + [e.frame] else all, Room(v.cap))
  {
    hide Next, Sorted, LastOf, BufferFrame;
    match e
    case Arrive(f) => LatestAfter(v, f, pad, all);
    case PullNext(flt) => DownPadKeepsBuffer(v, flt, pad);
    case _ =>
  }

  /** What the pad's buffer would hold without a bound. */
  function Everything(u: Uplink, es: seq<Event>, pad: nat): seq<Frame> {
    BufferOf(u, pad) + OfPad(Arrivals(es), pad)
  }

  lemma EverythingLast(u: Uplink, es: seq<Event>, pad: nat)
    requires es != []
    ensures var (init, e) := (es[..|es| - 1], es[|es| - 1]);
            Everything(u, es, pad) ==
            if e.Arrive? && e.frame.pad == pad then Everything(u, init, pad) + [e.frame] else Everything(u, init, pad)
  {
    var init, e := es[..|es| - 1], es[|es| - 1];
    if e.Arrive? {
      OfPadLast(Arrivals(init), e.frame, pad);
    } else {
      assert Arrivals(es) == Arrivals(init);
    }
  }

  /** A pad kept down holds exactly its most recent frames, up to the capacity (one
      frame when the capacity is zero), whatever the other pads do. */
  lemma {:induction false} DownPadHoldsTheLatest(u: Uplink, es: seq<Event>, pad: nat)
    requires Sorted(u.pads) && |BufferOf(u, pad)| <= Room(u.cap)
    requires forall e, n :: e in es && e.PullNext? ==> !e.faults.up(n, pad)
    ensures Sorted(Run(u, es).pads)
    ensures BufferOf(Run(u, es), pad) == LastOf(Everything(u, es, pad), Room(u.cap))
  {
    hide Step, Sorted;
    if es == [] {
      assert BufferOf(u, pad) + OfPad([], pad) == BufferOf(u, pad);
    } else {
      hide LastOf, BufferOf, Everything, Room;
      var init, e := es[..|es| - 1], es[|es| - 1];
      assert e in es && forall d :: d in init ==> d in es;
      DownPadHoldsTheLatest(u, init, pad);
      RunKeepsPads(u, init);
      DownPadStep(Run(u, init), e, pad, Everything(u, init, pad));
      EverythingLast(u, es, pad);
    }
  }

  // ---- The drop counter ----

  /** The counter counts exactly the dropped frames if and only if the capacity is
      at least one or the buffer is not empty: a zero capacity counts a drop for a
      frame that finds an empty buffer and is kept. */
  lemma DropCounterIsHonestIff(u: Uplink, f: Frame)
    ensures (CountsDrop(u, f) <==> Victims(u, f) != []) <==> (u.cap >= 1 || BufferOf(u, f.pad) != [])
  {
  }

  /** The drop counter after a run. */
  function Counter(u: Uplink, es: seq<Event>): nat {
    if es == [] then 0
    else
      var v, e := Run(u, es[..|es| - 1]), es[|es| - 1];
      Counter(u, es[..|es| - 1]) + if e.Arrive? && CountsDrop(v, e.frame) then 1 else 0
  }

  lemma StepKeepsCap(u: Uplink, e: Event)
    ensures Step(u, e).cap == u.cap
  {
    hide Fill;
    if e.PullNext? { FillKeeps(u, e.faults); }
  }

  /** Over every run the counter is at least the number of dropped frames, and exactly
      that when the capacity is at least one. */
  lemma {:induction false} DropsAreCounted(u: Uplink, es: seq<Event>)
    ensures Run(u, es).cap == u.cap
    ensures |Dropped(u, es)| <= Counter(u, es)
    ensures u.cap >= 1 ==> |Dropped(u, es)| == Counter(u, es)
  {
    hide Step;
    if es != [] {
      DropsAreCounted(u, es[..|es| - 1]);
      StepKeepsCap(Run(u, es[..|es| - 1]), es[|es| - 1]);
    }
  }

  // ---- A released batch goes out whole ----

  /** One pull, and the retransmits and duplicates that came back just before it. */
  datatype Pulling = Pulling(flt: Faults, retries: seq<Frame>, dups: seq<Frame>)

  function WithReturns(u: Uplink, p: Pulling): Uplink {
    u.(retry := u.retry + p.retries, dupQueue := u.dupQueue + p.dups)
  }

  /** A series of pulls; also the frames that came out of the publish queue. */
  function Pulls(u: Uplink, ps: seq<Pulling>): (Uplink, seq<Frame>) {
    if ps == [] then (u, [])
    else
      var (v, out) := Pulls(u, ps[..|ps| - 1]);
      var w := WithReturns(v, ps[|ps| - 1]);
      var (x, r) := Next(w, ps[|ps| - 1].flt);
      (x, if w.retry == [] && w.dupQueue == [] && r.Some? then out + [r.value.0] else out)
  }

  lemma NextFromQueue(w: Uplink, flt: Faults)
    requires w.publishQueue != []
    ensures var (x, r) := Next(w, flt);
            && x.pads == w.pads && x.shuffle == w.shuffle && r.Some?
            && if w.retry == [] && w.dupQueue == []
               then r.value == (w.publishQueue[0], false) && x.publishQueue == w.publishQueue[1..]
               else x.publishQueue == w.publishQueue
  {
  }

  /** What is staged for publish leaves in its order and whole before anything is pulled
      from the pads again, whatever retransmits and duplicates cut in. */
  lemma {:induction false} BatchGoesOutWhole(u: Uplink, ps: seq<Pulling>)
    ensures var (x, out) := Pulls(u, ps);
            || u.publishQueue <= out
            || (out < u.publishQueue && x.publishQueue == u.publishQueue[|out|..]
                && x.pads == u.pads && x.shuffle == u.shuffle)
  {
    hide Next;
    if ps != [] {
      var n := |ps| - 1;
      BatchGoesOutWhole(u, ps[..n]);
      var (v, out) := Pulls(u, ps[..n]);
      if out < u.publishQueue {
        NextFromQueue(WithReturns(v, ps[n]), ps[n].flt);
        var j := |out|;
        assert u.publishQueue[j..][0] == u.publishQueue[j] && u.publishQueue[j..][1..] == u.publishQueue[j + 1..];
        assert u.publishQueue[..j] + [u.publishQueue[j]] == u.publishQueue[..j + 1];
      }
    }
  }

  /** What a series of pulls puts on the wire, duplicates marked. */
  function Wired(u: Uplink, flts: seq<Faults>): seq<(Frame, bool)>
    decreases |flts|
  {
    if flts == [] then []
    else
      var (v, r) := Next(u, flts[0]);
      (if r.None? then [] else [r.value]) + Wired(v, flts[1..])
  }

  function Marked(fs: seq<Frame>, dup: bool): seq<(Frame, bool)> {
    if fs == [] then [] else [(fs[0], dup)] + Marked(fs[1..], dup)
  }

  /** Retransmits go first, in their order, then injected duplicates, then anything
      else. */
  lemma {:induction false} ReturnsGoFirst(u: Uplink, flts: seq<Faults>)
    requires |flts| == |u.retry| + |u.dupQueue|
    ensures Wired(u, flts) == Marked(u.retry, false) + Marked(u.dupQueue, true)
    decreases |flts|
  {
    hide Fill;
    if flts != [] {
      ReturnsGoFirst(Next(u, flts[0]).0, flts[1..]);
    }
  }
}

/** Frames in edge custody, as values: bounded per-pad buffers, the reorder stage,
    the staged publish queue, retransmits and injected duplicates. Both publishers
    drain this state. */
module UplinkModel {
  import opened Folds
  import opened Frames

  datatype Uplink = Uplink(
    pads: map<nat, seq<Frame>>, retry: seq<Frame>, dupQueue: seq<Frame>,
    shuffle: seq<Frame>, publishQueue: seq<Frame>, cap: nat)

  /** The faults as one fill reads them: the reorder window once, a pad's link once
      a pass (arbitrary each time), and the random index of each swap. */
  datatype Faults = Faults(window: nat, up: (nat, nat) -> bool, pick: nat -> nat)

  const PULL_LIMIT: nat := 512
  const MAX_REORDER_WINDOW: nat := 4096

  function EmptyPads(pads: nat): map<nat, seq<Frame>> {
    if pads == 0 then map[] else EmptyPads(pads - 1)[pads := []]
  }

  /** One empty buffer for each configured pad, numbered from 1. */
  function Start(pads: nat, cap: nat): Uplink {
    Uplink(EmptyPads(pads), [], [], [], [], cap)
  }

  // ---- Accepting a frame ----

  function At(pads: map<nat, seq<Frame>>, pad: nat): seq<Frame> {
    if pad in pads then pads[pad] else []
  }

  function BufferOf(u: Uplink, pad: nat): seq<Frame> {
    At(u.pads, pad)
  }

  /** The frame a full buffer gives up: its oldest. */
  function Victims(u: Uplink, f: Frame): seq<Frame> {
    var buf := BufferOf(u, f.pad);
    if |buf| >= u.cap && buf != [] then [buf[0]] else []
  }

  /** Whether the drop counter goes up. */
  predicate CountsDrop(u: Uplink, f: Frame) {
    |BufferOf(u, f.pad)| >= u.cap
  }

  function BufferFrame(u: Uplink, f: Frame): Uplink {
    u.(pads := u.pads[f.pad := BufferOf(u, f.pad)[|Victims(u, f)|..] + [f]])
  }

  // ---- Draining ----

  /** What the pull loop works on. */
  datatype Stage = Stage(pads: map<nat, seq<Frame>>, shuffle: seq<Frame>)

  function TakeOne(s: Stage, pad: nat, up: bool): Stage
    requires pad in s.pads
  {
    if up && s.pads[pad] != [] then
      Stage(s.pads[pad := s.pads[pad][1..]], s.shuffle + [s.pads[pad][0]])
    else s
  }

  /** One pass: one frame from each pad whose link is up, from key `i` on. */
  function Pass(s: Stage, keys: seq<nat>, i: nat, up: nat -> bool): (t: Stage)
    requires i <= |keys| && forall j :: i <= j < |keys| ==> keys[j] in s.pads
    ensures t.pads.Keys == s.pads.Keys
    ensures |s.shuffle| <= |t.shuffle| <= |s.shuffle| + |keys| - i
    decreases |keys| - i
  {
    if i == |keys| then s else Pass(TakeOne(s, keys[i], up(keys[i])), keys, i + 1, up)
  }

  /** The links as one pass reads them. */
  function Links(up: (nat, nat) -> bool, pass: nat): nat -> bool {
    (pad: nat) => up(pass, pad)
  }

  /** The pads in the order an ordered map yields them. */
  function PadOrder(pads: map<nat, seq<Frame>>): (keys: seq<nat>)
    ensures |keys| == |pads|
    ensures forall j :: 0 <= j < |keys| ==> keys[j] in pads
  {
    assert |pads.Keys| == |pads|;
    Ascending(pads.Keys)
  }

  function FullPass(s: Stage, pass: nat, up: (nat, nat) -> bool): Stage {
    Pass(s, PadOrder(s.pads), 0, Links(up, pass))
  }

  /** Passes until nothing moves or enough was pulled. */
  function Pull(s: Stage, pulled: nat, pass: nat, up: (nat, nat) -> bool): Stage
    decreases PULL_LIMIT - pulled
  {
    var t := FullPass(s, pass, up);
    var got := |t.shuffle| - |s.shuffle|;
    if got == 0 || pulled + got >= PULL_LIMIT then t else Pull(t, pulled + got, pass + 1, up)
  }

  function Swap(s: seq<Frame>, i: nat, j: nat): seq<Frame>
    requires i < |s| && j < |s|
  {
    s[i := s[j]][j := s[i]]
  }

  /** The backward swap loop, from position `i` down. */
  function Shuffled(s: seq<Frame>, i: nat, pick: nat -> nat): seq<Frame>
    requires i == 0 || i < |s|
    decreases i
  {
    if i == 0 then s else Shuffled(Swap(s, i, pick(i) % (i + 1)), i - 1, pick)
  }

  function Last(s: seq<Frame>): nat {
    if s == [] then 0 else |s| - 1
  }

  function Fill(u: Uplink, flt: Faults): Uplink {
    var t := Pull(Stage(u.pads, u.shuffle), 0, 0, flt.up);
    if flt.window <= 1 then
      u.(pads := t.pads, shuffle := [], publishQueue := u.publishQueue + t.shuffle)
    else if |t.shuffle| >= flt.window then
      u.(pads := t.pads, shuffle := [],
         publishQueue := u.publishQueue + Shuffled(t.shuffle, Last(t.shuffle), flt.pick))
    else u.(pads := t.pads, shuffle := t.shuffle)
  }

  /** The next frame for the wire, and whether it is an injected duplicate. */
  function Next(u: Uplink, flt: Faults): (Uplink, Option<(Frame, bool)>) {
    if u.retry != [] then (u.(retry := u.retry[1..]), Some((u.retry[0], false)))
    else if u.dupQueue != [] then (u.(dupQueue := u.dupQueue[1..]), Some((u.dupQueue[0], true)))
    else
      var v := if u.publishQueue == [] then Fill(u, flt) else u;
      if v.publishQueue == [] then (v, None)
      else (v.(publishQueue := v.publishQueue[1..]), Some((v.publishQueue[0], false)))
  }

  // ---- What stays in custody ----

  ghost function Flat(pads: map<nat, seq<Frame>>): multiset<Frame> {
    Gather(pads, (b: seq<Frame>) => multiset(b))
  }

  lemma FlatSplit(pads: map<nat, seq<Frame>>, k: nat)
    requires k in pads
    ensures Flat(pads) == multiset(pads[k]) + Flat(pads - {k})
  {
    GatherSplit(pads, (b: seq<Frame>) => multiset(b), k);
  }

  lemma FlatUpdate(pads: map<nat, seq<Frame>>, k: nat, b: seq<Frame>)
    ensures Flat(pads[k := b]) == multiset(b) + Flat(pads - {k})
  {
    GatherUpdate(pads, (c: seq<Frame>) => multiset(c), k, b);
  }

  lemma {:induction false} EmptyPadsHoldNothing(pads: nat)
    ensures Flat(EmptyPads(pads)) == multiset{}
    ensures forall p :: p in EmptyPads(pads) ==> 1 <= p <= pads
  {
    if pads > 0 {
      EmptyPadsHoldNothing(pads - 1);
      FlatUpdate(EmptyPads(pads - 1), pads, []);
      assert EmptyPads(pads - 1) - {pads} == EmptyPads(pads - 1);
    }
  }

  /** Everything held that is not an injected duplicate. */
  ghost function Held(u: Uplink): multiset<Frame> {
    Flat(u.pads) + multiset(u.shuffle) + multiset(u.publishQueue) + multiset(u.retry)
  }

  lemma HeadTail(s: seq<Frame>)
    requires s != []
    ensures multiset(s) == multiset{s[0]} + multiset(s[1..])
  {
    assert s == [s[0]] + s[1..];
  }

  lemma BufferSwap(pads: map<nat, seq<Frame>>, pad: nat, before: seq<Frame>, gone: seq<Frame>, f: Frame)
    requires before == if pad in pads then pads[pad] else []
    requires gone <= before
    ensures Flat(pads[pad := before[|gone|..] + [f]]) + multiset(gone) == Flat(pads) + multiset{f}
  {
    FlatUpdate(pads, pad, before[|gone|..] + [f]);
    assert before == gone + before[|gone|..];
    assert multiset(before) == multiset(gone) + multiset(before[|gone|..]);
    if pad in pads {
      FlatSplit(pads, pad);
    } else {
      assert pads - {pad} == pads;
    }
  }

  /** Accepting a frame loses exactly the victim. */
  lemma BufferKeeps(u: Uplink, f: Frame)
    ensures Held(BufferFrame(u, f)) + multiset(Victims(u, f)) == Held(u) + multiset{f}
  {
    var v, gone := BufferFrame(u, f), multiset(Victims(u, f));
    BufferSwap(u.pads, f.pad, BufferOf(u, f.pad), Victims(u, f), f);
    hide Flat, BufferFrame, Victims;
    var rest := multiset(u.shuffle) + multiset(u.publishQueue) + multiset(u.retry);
    assert Held(v) + gone == (Flat(v.pads) + gone) + rest;
    assert Held(u) + multiset{f} == (Flat(u.pads) + multiset{f}) + rest;
  }

  lemma BufferTouches(u: Uplink, f: Frame)
    ensures BufferFrame(u, f).dupQueue == u.dupQueue && BufferFrame(u, f).retry == u.retry
  {
  }

  lemma DupQueueOnly(u: Uplink, f: Frame)
    ensures Held(u.(dupQueue := u.dupQueue + [f])) == Held(u)
  {
  }

  lemma TakeOneKeeps(s: Stage, pad: nat, up: bool)
    requires pad in s.pads
    ensures Flat(TakeOne(s, pad, up).pads) + multiset(TakeOne(s, pad, up).shuffle) ==
            Flat(s.pads) + multiset(s.shuffle)
  {
    if up && s.pads[pad] != [] {
      FlatSplit(s.pads, pad);
      FlatUpdate(s.pads, pad, s.pads[pad][1..]);
      HeadTail(s.pads[pad]);
    }
  }

  lemma {:induction false} PassKeeps(s: Stage, keys: seq<nat>, i: nat, up: nat -> bool)
    requires i <= |keys| && forall j :: i <= j < |keys| ==> keys[j] in s.pads
    ensures Flat(Pass(s, keys, i, up).pads) + multiset(Pass(s, keys, i, up).shuffle) ==
            Flat(s.pads) + multiset(s.shuffle)
    ensures |Pass(s, keys, i, up).shuffle| == |s.shuffle| ==> Pass(s, keys, i, up) == s
    decreases |keys| - i
  {
    hide Flat;
    if i < |keys| {
      TakeOneKeeps(s, keys[i], up(keys[i]));
      PassKeeps(TakeOne(s, keys[i], up(keys[i])), keys, i + 1, up);
    }
  }

  lemma FullPassKeeps(s: Stage, pass: nat, up: (nat, nat) -> bool)
    ensures var t := FullPass(s, pass, up);
            && Flat(t.pads) + multiset(t.shuffle) == Flat(s.pads) + multiset(s.shuffle)
            && t.pads.Keys == s.pads.Keys
            && |s.shuffle| <= |t.shuffle| <= |s.shuffle| + |s.pads|
            && (|t.shuffle| == |s.shuffle| ==> t == s)
  {
    PassKeeps(s, PadOrder(s.pads), 0, Links(up, pass));
    hide PadOrder, Flat, Pass;
  }

  lemma SameKeysSameSize(a: map<nat, seq<Frame>>, b: map<nat, seq<Frame>>)
    requires a.Keys == b.Keys
    ensures |a| == |b|
  {
    assert |a.Keys| == |a| && |b.Keys| == |b|;
  }

  /** The pull loop moves frames, and at most one pass more than the limit. */
  lemma {:induction false} PullKeeps(s: Stage, pulled: nat, pass: nat, up: (nat, nat) -> bool)
    requires pulled < PULL_LIMIT
    ensures var t := Pull(s, pulled, pass, up);
            && Flat(t.pads) + multiset(t.shuffle) == Flat(s.pads) + multiset(s.shuffle)
            && t.pads.Keys == s.pads.Keys
            && (t == s || |t.shuffle| - |s.shuffle| + pulled < PULL_LIMIT + |s.pads|)
    decreases PULL_LIMIT - pulled
  {
    var t := FullPass(s, pass, up);
    FullPassKeeps(s, pass, up);
    hide FullPass, Flat;
    SameKeysSameSize(s.pads, t.pads);
    var got := |t.shuffle| - |s.shuffle|;
    if got != 0 && pulled + got < PULL_LIMIT {
      PullKeeps(t, pulled + got, pass + 1, up);
    }
  }

  /** The swap loop yields a permutation. */
  lemma {:induction false} ShuffledKeeps(s: seq<Frame>, i: nat, pick: nat -> nat)
    requires i == 0 || i < |s|
    ensures |Shuffled(s, i, pick)| == |s|
    ensures multiset(Shuffled(s, i, pick)) == multiset(s)
    decreases i
  {
    if i > 0 {
      ShuffledKeeps(Swap(s, i, pick(i) % (i + 1)), i - 1, pick);
    }
  }

  lemma ReleaseKeeps(u: Uplink, t: Stage, batch: seq<Frame>)
    requires Flat(t.pads) + multiset(t.shuffle) == Flat(u.pads) + multiset(u.shuffle)
    requires multiset(batch) == multiset(t.shuffle)
    ensures Held(u.(pads := t.pads, shuffle := [], publishQueue := u.publishQueue + batch)) == Held(u)
    ensures Held(u.(pads := t.pads, shuffle := t.shuffle)) == Held(u)
  {
    hide Flat;
    assert multiset(u.publishQueue + batch) == multiset(u.publishQueue) + multiset(batch);
  }

  /** Filling the publish queue only moves frames. */
  lemma FillKeeps(u: Uplink, flt: Faults)
    ensures Held(Fill(u, flt)) == Held(u)
    ensures Fill(u, flt).retry == u.retry && Fill(u, flt).dupQueue == u.dupQueue && Fill(u, flt).cap == u.cap
    ensures Fill(u, flt).pads.Keys == u.pads.Keys
  {
    hide Held, Flat, Pull, Shuffled;
    var t := Pull(Stage(u.pads, u.shuffle), 0, 0, flt.up);
    PullKeeps(Stage(u.pads, u.shuffle), 0, 0, flt.up);
    ShuffledKeeps(t.shuffle, Last(t.shuffle), flt.pick);
    if flt.window > 1 && |t.shuffle| >= flt.window {
      ReleaseKeeps(u, t, Shuffled(t.shuffle, Last(t.shuffle), flt.pick));
    } else {
      ReleaseKeeps(u, t, t.shuffle);
    }
  }

  /** The reorder stage stays local: with validated commands at most one frame less
      than the widest window rests in it, and a released batch is bounded. */
  lemma FillIsLocal(u: Uplink, flt: Faults)
    requires |u.shuffle| < MAX_REORDER_WINDOW && flt.window <= MAX_REORDER_WINDOW
    ensures |Fill(u, flt).shuffle| < MAX_REORDER_WINDOW
    ensures |Fill(u, flt).publishQueue| - |u.publishQueue| <=
            (MAX_REORDER_WINDOW - 1) + (PULL_LIMIT - 1) + |u.pads|
  {
    hide Flat, Pull, Shuffled;
    var t := Pull(Stage(u.pads, u.shuffle), 0, 0, flt.up);
    PullKeeps(Stage(u.pads, u.shuffle), 0, 0, flt.up);
    ShuffledKeeps(t.shuffle, Last(t.shuffle), flt.pick);
  }

  /** Pulling the next frame takes exactly that frame out of custody. */
  lemma NextKeeps(u: Uplink, flt: Faults)
    ensures var (v, r) := Next(u, flt);
            match r
            case None => Held(v) == Held(u) && v.dupQueue == u.dupQueue
            case Some((f, false)) => Held(u) == Held(v) + multiset{f} && v.dupQueue == u.dupQueue
            case Some((f, true)) => Held(v) == Held(u) && u.dupQueue == [f] + v.dupQueue
    ensures u.retry == [] ==> Next(u, flt).0.retry == []
  {
    hide Fill, Held, Flat;
    if u.retry != [] {
      RetryOut(u);
    } else if u.dupQueue == [] {
      FillKeeps(u, flt);
      var v := if u.publishQueue == [] then Fill(u, flt) else u;
      if v.publishQueue != [] {
        QueueOut(v);
      }
    } else {
      DupOut(u);
    }
  }

  lemma RetryOut(u: Uplink)
    requires u.retry != []
    ensures Held(u) == Held(u.(retry := u.retry[1..])) + multiset{u.retry[0]}
  {
    hide Flat;
    HeadTail(u.retry);
  }

  lemma QueueOut(u: Uplink)
    requires u.publishQueue != []
    ensures Held(u) == Held(u.(publishQueue := u.publishQueue[1..])) + multiset{u.publishQueue[0]}
  {
    hide Flat;
    HeadTail(u.publishQueue);
  }

  lemma DupOut(u: Uplink)
    requires u.dupQueue != []
    ensures Held(u.(dupQueue := u.dupQueue[1..])) == Held(u)
    ensures u.dupQueue == [u.dupQueue[0]] + u.dupQueue[1..]
  {
  }
}

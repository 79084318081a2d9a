/** What draining the pads achieves: which frames one pass takes, why a pull ends, what a
    fill releases, and when there is nothing to publish. */
module UplinkDrain {
  import opened Folds
  import opened Frames
  import opened UplinkModel
  import UO = UplinkOrder

  // ---- One pass ----

  ghost predicate NoneTwice(keys: seq<nat>) {
    forall i, j :: 0 <= i < j < |keys| ==> keys[i] != keys[j]
  }

  /** Pad by pad: a pad of the pass whose link is up gives exactly its front frame, any
      other pad gives nothing. */
  ghost predicate FrontTaken(s: Stage, t: Stage, p: nat, takes: bool) {
    At(t.pads, p) == if takes && At(s.pads, p) != [] then At(s.pads, p)[1..] else At(s.pads, p)
  }

  lemma {:induction false} PassTakesFronts(s: Stage, keys: seq<nat>, i: nat, up: nat -> bool, p: nat)
    requires i <= |keys| && forall j :: i <= j < |keys| ==> keys[j] in s.pads
    requires NoneTwice(keys)
    ensures FrontTaken(s, Pass(s, keys, i, up), p, p in keys[i..] && up(p))
    decreases |keys| - i
  {
    if i < |keys| {
      var k := keys[i];
      PassTakesFronts(TakeOne(s, k, up(k)), keys, i + 1, up, p);
      assert keys[i..] == [k] + keys[i + 1..];
      assert p == k ==> p !in keys[i + 1..];
    }
  }

  lemma PassTakesAllFronts(s: Stage, keys: seq<nat>, up: nat -> bool)
    requires forall j :: 0 <= j < |keys| ==> keys[j] in s.pads
    ensures NoneTwice(keys) ==>
              forall p :: FrontTaken(s, Pass(s, keys, 0, up), p, p in keys && up(p))
  {
    hide NoneTwice, FrontTaken, Pass;
    if NoneTwice(keys) {
      forall p: nat ensures FrontTaken(s, Pass(s, keys, 0, up), p, p in keys && up(p)) {
        PassTakesFronts(s, keys, 0, up, p);
        assert keys[0..] == keys;
      }
    }
  }

  lemma EveryPadOnce(pads: map<nat, seq<Frame>>)
    ensures NoneTwice(PadOrder(pads)) && forall p :: p in PadOrder(pads) <==> p in pads
  {
  }

  /** A full pass takes exactly the front frame of every non-empty pad whose link is up. */
  lemma FullPassTakesFronts(s: Stage, pass: nat, up: (nat, nat) -> bool, p: nat)
    ensures FrontTaken(s, FullPass(s, pass, up), p, up(pass, p))
  {
    EveryPadOnce(s.pads);
    hide PadOrder, Pass;
    var keys := PadOrder(s.pads);
    PassTakesFronts(s, keys, 0, Links(up, pass), p);
    assert keys[0..] == keys;
  }

  /** A pass appends to the reorder stage, lower pads first. */
  lemma {:induction false} PassAppends(s: Stage, keys: seq<nat>, i: nat, up: nat -> bool)
    requires i <= |keys| && forall j :: i <= j < |keys| ==> keys[j] in s.pads
    requires UO.Sorted(s.pads) && forall j, k :: 0 <= j < k < |keys| ==> keys[j] < keys[k]
    ensures var t := Pass(s, keys, i, up).shuffle;
            && s.shuffle <= t
            && (forall j :: |s.shuffle| <= j < |t| ==> t[j].pad in keys[i..])
            && (forall j, k :: |s.shuffle| <= j < k < |t| ==> t[j].pad < t[k].pad)
    decreases |keys| - i
  {
    if i < |keys| {
      var q := keys[i];
      var r := TakeOne(s, q, up(q));
      UO.TakeOneSorted(s, q, up(q));
      PassAppends(r, keys, i + 1, up);
      assert keys[i..] == [q] + keys[i + 1..];
      if |r.shuffle| > |s.shuffle| {
        var f := s.pads[q][0];
        assert f in s.pads[q] && f.pad == q && r.shuffle == s.shuffle + [f];
      }
      hide UO.Sorted, TakeOne, Pass;
      AppendsMore(s.shuffle, r.shuffle, Pass(r, keys, i + 1, up).shuffle, keys, i);
    }
  }

  /** Frames of later pads behind at most one frame of this pad. */
  lemma AppendsMore(a: seq<Frame>, b: seq<Frame>, t: seq<Frame>, keys: seq<nat>, i: nat)
    requires i < |keys| && forall j, k :: 0 <= j < k < |keys| ==> keys[j] < keys[k]
    requires b == a || (|b| == |a| + 1 && a <= b && b[|a|].pad == keys[i])
    requires b <= t && forall j :: |b| <= j < |t| ==> t[j].pad in keys[i + 1..]
    requires forall j, k :: |b| <= j < k < |t| ==> t[j].pad < t[k].pad
    ensures a <= t && forall j :: |a| <= j < |t| ==> t[j].pad in keys[i..]
    ensures forall j, k :: |a| <= j < k < |t| ==> t[j].pad < t[k].pad
  {
    assert keys[i..] == [keys[i]] + keys[i + 1..];
    forall j | |b| <= j < |t| ensures keys[i] < t[j].pad {
      var k :| 0 <= k < |keys[i + 1..]| && keys[i + 1..][k] == t[j].pad;
      assert keys[i + 1 + k] == t[j].pad;
    }
  }

  /** The frames of a pass join the reorder stage behind what is there, in the order of
      their pads. */
  lemma FullPassAppends(s: Stage, pass: nat, up: (nat, nat) -> bool)
    requires UO.Sorted(s.pads)
    ensures var t := FullPass(s, pass, up).shuffle;
            && s.shuffle <= t
            && forall j, k :: |s.shuffle| <= j < k < |t| ==> t[j].pad < t[k].pad
  {
    PassAppends(s, PadOrder(s.pads), 0, Links(up, pass));
  }

  // ---- Why a pull ends ----

  /** Every pad whose link was up in the pass is empty. */
  ghost predicate Drained(pads: map<nat, seq<Frame>>, up: (nat, nat) -> bool, pass: nat) {
    forall p :: up(pass, p) ==> At(pads, p) == []
  }

  /** A pass that moves nothing leaves nothing behind a link that is up. */
  lemma NothingMoved(s: Stage, pass: nat, up: (nat, nat) -> bool)
    requires |FullPass(s, pass, up).shuffle| == |s.shuffle|
    ensures FullPass(s, pass, up) == s && Drained(s.pads, up, pass)
  {
    FullPassKeeps(s, pass, up);
    hide FullPass, Flat;
    forall p | up(pass, p) ensures At(s.pads, p) == [] {
      FullPassTakesFronts(s, pass, up, p);
    }
  }

  /** A pull ends only when the limit is reached or its last pass found every pad with a
      live link empty. */
  lemma {:induction false} PullEnds(s: Stage, pulled: nat, pass: nat, up: (nat, nat) -> bool) returns (last: nat)
    requires pulled < PULL_LIMIT
    ensures var t := Pull(s, pulled, pass, up);
            && last >= pass
            && |s.shuffle| <= |t.shuffle|
            && (pulled + |t.shuffle| - |s.shuffle| >= PULL_LIMIT || Drained(t.pads, up, last))
    decreases PULL_LIMIT - pulled
  {
    hide FullPass, Drained;
    var t := FullPass(s, pass, up);
    FullPassKeeps(s, pass, up);
    var got := |t.shuffle| - |s.shuffle|;
    last := pass;
    if got == 0 {
      NothingMoved(s, pass, up);
    } else if pulled + got < PULL_LIMIT {
      last := PullEnds(t, pulled + got, pass + 1, up);
    }
  }

  /** What a pull moves goes behind what the reorder stage held. */
  lemma {:induction false} PullAppends(s: Stage, pulled: nat, pass: nat, up: (nat, nat) -> bool)
    requires UO.Sorted(s.pads)
    ensures s.shuffle <= Pull(s, pulled, pass, up).shuffle
    decreases PULL_LIMIT - pulled
  {
    hide FullPass, UO.Sorted;
    var t := FullPass(s, pass, up);
    FullPassAppends(s, pass, up);
    UO.FullPassForward(s, pass, up, 0);
    var got := |t.shuffle| - |s.shuffle|;
    if got != 0 && pulled + got < PULL_LIMIT {
      PullAppends(t, pulled + got, pass + 1, up);
    }
  }

  // ---- What a fill releases ----

  /** How many frames a fill took from the pads. */
  function Moved(u: Uplink, v: Uplink): int {
    |v.shuffle| + |v.publishQueue| - |u.shuffle| - |u.publishQueue|
  }

  /** A fill takes from the pads until the limit or until the live ones are empty; then
      it releases the whole reorder stage if the fault is off or the stage has at least a
      window of frames, and nothing otherwise. */
  lemma FillReleases(u: Uplink, flt: Faults) returns (last: nat)
    ensures var v := Fill(u, flt);
            && Moved(u, v) >= 0
            && (Moved(u, v) >= PULL_LIMIT || Drained(v.pads, flt.up, last))
            && u.publishQueue <= v.publishQueue
            && (if flt.window <= 1 || |u.shuffle| + Moved(u, v) >= flt.window then
                  v.shuffle == [] && |v.publishQueue| == |u.publishQueue| + |u.shuffle| + Moved(u, v)
                else v.publishQueue == u.publishQueue && |v.shuffle| == |u.shuffle| + Moved(u, v))
  {
    hide Pull, Shuffled, Drained;
    last := PullEnds(Stage(u.pads, u.shuffle), 0, 0, flt.up);
    var t := Pull(Stage(u.pads, u.shuffle), 0, 0, flt.up);
    ShuffledKeeps(t.shuffle, Last(t.shuffle), flt.pick);
  }

  /** With the reorder fault off, what the stage held goes out first. */
  lemma FillInOrder(u: Uplink, flt: Faults)
    requires UO.Sorted(u.pads) && flt.window <= 1
    ensures u.publishQueue + u.shuffle <= Fill(u, flt).publishQueue
  {
    hide Pull, Shuffled, UO.Sorted;
    PullAppends(Stage(u.pads, u.shuffle), 0, 0, flt.up);
  }

  // ---- When there is nothing to publish ----

  /** No frame could go out: nothing returned, no copy, nothing pulled; the reorder stage
      is empty or the fault holds back less than a window; and every pad with a live link
      is empty, unless the stage took a whole pull. */
  ghost predicate NothingToSend(u: Uplink, v: Uplink, flt: Faults) {
    && u.retry == [] && u.dupQueue == [] && u.publishQueue == []
    && v.retry == [] && v.dupQueue == [] && v.publishQueue == []
    && (v.shuffle == [] || |v.shuffle| < flt.window)
    && ((exists last :: Drained(v.pads, flt.up, last)) || |v.shuffle| >= PULL_LIMIT)
  }

  lemma NothingToSendWhen(u: Uplink, flt: Faults)
    requires Next(u, flt).1.None?
    ensures NothingToSend(u, Next(u, flt).0, flt)
  {
    hide Fill, Drained;
    var last := FillReleases(u, flt);
    FillKeeps(u, flt);
  }

  /** In particular a frame behind a link that stays up goes out when the reorder fault
      is off. */
  lemma LivePadIsServed(u: Uplink, flt: Faults, p: nat)
    requires flt.window <= 1 && forall pass :: flt.up(pass, p)
    ensures BufferOf(u, p) != [] ==> Next(u, flt).1.Some?
  {
    if Next(u, flt).1.None? {
      NothingToSendWhen(u, flt);
      NothingMovedAtAll(u, flt);
      hide Next;
      var last :| Drained(Fill(u, flt).pads, flt.up, last);
      assert flt.up(last, p);
    }
  }

  lemma NothingMovedAtAll(u: Uplink, flt: Faults)
    requires Next(u, flt).1.None? && flt.window <= 1
    ensures Fill(u, flt).pads == u.pads && Next(u, flt).0 == Fill(u, flt)
  {
    hide Pull, Shuffled, Flat;
    var s := Stage(u.pads, u.shuffle);
    PullKeeps(s, 0, 0, flt.up);
    var last := PullEnds(s, 0, 0, flt.up);
    PullStays(s, 0, 0, flt.up);
  }

  /** A pull that leaves the stage as it was has left the pads alone. */
  lemma PullStays(s: Stage, pulled: nat, pass: nat, up: (nat, nat) -> bool)
    requires pulled < PULL_LIMIT && |Pull(s, pulled, pass, up).shuffle| == |s.shuffle|
    ensures Pull(s, pulled, pass, up) == s
  {
    hide FullPass;
    FullPassKeeps(s, pass, up);
    var t := FullPass(s, pass, up);
    if |t.shuffle| != |s.shuffle| && pulled + |t.shuffle| - |s.shuffle| < PULL_LIMIT {
      var last := PullEnds(t, pulled + |t.shuffle| - |s.shuffle|, pass + 1, up);
    }
  }

  // ---- Every order can come out of the shuffle ----

  lemma {:induction false} PicksBelow(s: seq<Frame>, i: nat, a: nat -> nat, b: nat -> nat)
    requires i == 0 || i < |s|
    requires forall k :: 1 <= k <= i ==> a(k) == b(k)
    ensures Shuffled(s, i, a) == Shuffled(s, i, b)
    decreases i
  {
    if i > 0 {
      PicksBelow(Swap(s, i, a(i) % (i + 1)), i - 1, a, b);
    }
  }

  lemma SplitAt(s: seq<Frame>, i: nat)
    requires i < |s|
    ensures multiset(s[..i + 1]) == multiset(s[..i]) + multiset{s[i]}
  {
    assert s[..i + 1] == s[..i] + [s[i]];
  }

  lemma SwapParts(s: seq<Frame>, i: nat, j: nat)
    requires j <= i < |s|
    ensures Swap(s, i, j)[i + 1..] == s[i + 1..] && Swap(s, i, j)[i] == s[j]
    ensures multiset(Swap(s, i, j)[..i + 1]) == multiset(s[..i + 1])
  {
    SwapPermutes(s[..i + 1], i, j);
    assert Swap(s, i, j)[..i + 1] == Swap(s[..i + 1], i, j);
  }

  lemma SwapPermutes(s: seq<Frame>, i: nat, j: nat)
    requires i < |s| && j < |s|
    ensures multiset(Swap(s, i, j)) == multiset(s)
  {
  }

  lemma Find(s: seq<Frame>, n: nat, f: Frame) returns (j: nat)
    requires n <= |s| && f in multiset(s[..n])
    ensures j < n && s[j] == f
  {
    assert f in s[..n];
    j :| 0 <= j < n && s[..n][j] == f;
  }

  lemma HasLast(t: seq<Frame>, i: nat)
    requires i < |t|
    ensures t[i] in multiset(t[..i + 1])
  {
    assert t[..i + 1][i] == t[i];
  }

  /** The swap that puts the wanted frame into place. */
  lemma SwapInto(s: seq<Frame>, t: seq<Frame>, i: nat) returns (j: nat)
    requires |s| == |t| && i < |s| && s[i + 1..] == t[i + 1..]
    requires multiset(s[..i + 1]) == multiset(t[..i + 1])
    ensures j <= i && Swap(s, i, j)[i..] == t[i..]
    ensures multiset(Swap(s, i, j)[..i]) == multiset(t[..i])
  {
    hide Swap;
    HasLast(t, i);
    j := Find(s, i + 1, t[i]);
    var r := Swap(s, i, j);
    SwapParts(s, i, j);
    SwapLength(s, i, j);
    SplitAt(r, i);
    SplitAt(t, i);
    Cancel(multiset(r[..i]), multiset(t[..i]), t[i]);
    assert r[i..] == [r[i]] + r[i + 1..] && t[i..] == [t[i]] + t[i + 1..];
  }

  lemma Cancel(a: multiset<Frame>, b: multiset<Frame>, f: Frame)
    requires a + multiset{f} == b + multiset{f}
    ensures a == b
  {
    assert a == a + multiset{f} - multiset{f};
  }

  lemma SwapLength(s: seq<Frame>, i: nat, j: nat)
    requires i < |s| && j < |s|
    ensures |Swap(s, i, j)| == |s|
  {
  }

  function Picking(i: nat, j: nat, rest: nat -> nat): nat -> nat {
    (k: nat) => if k == i then j else rest(k)
  }

  lemma SameBelow(i: nat, j: nat, rest: nat -> nat)
    ensures Picking(i, j, rest)(i) == j && forall k :: k != i ==> Picking(i, j, rest)(k) == rest(k)
  {
  }

  /** The backward swap loop can turn a batch into any order of its frames. */
  lemma {:induction false} ShuffleReaches(s: seq<Frame>, t: seq<Frame>, i: nat) returns (pick: nat -> nat)
    requires |s| == |t| && i < |s| && s[i + 1..] == t[i + 1..]
    requires multiset(s[..i + 1]) == multiset(t[..i + 1])
    ensures Shuffled(s, i, pick) == t
    decreases i
  {
    hide Swap, Shuffled, Picking;
    if i == 0 {
      pick := k => 0;
      OneLeft(s, t);
      NothingShuffled(s, pick);
    } else {
      var j := SwapInto(s, t, i);
      var r := Swap(s, i, j);
      SwapLength(s, i, j);
      var rest := ShuffleReaches(r, t, i - 1);
      pick := Picking(i, j, rest);
      SameBelow(i, j, rest);
      PicksBelow(r, i - 1, rest, pick);
      ShuffledStep(s, i, pick);
    }
  }

  lemma NothingShuffled(s: seq<Frame>, pick: nat -> nat)
    ensures Shuffled(s, 0, pick) == s
  {
  }

  lemma {:induction false} ShuffledStep(s: seq<Frame>, i: nat, pick: nat -> nat)
    requires 0 < i < |s| && pick(i) <= i && |Swap(s, i, pick(i))| == |s|
    ensures Shuffled(s, i, pick) == Shuffled(Swap(s, i, pick(i)), i - 1, pick)
  {
    hide Swap;
    SmallRemainder(pick(i), i + 1);
  }

  lemma SmallRemainder(a: nat, n: nat)
    requires a < n
    ensures a % n == a
  {
  }

  lemma OneLeft(s: seq<Frame>, t: seq<Frame>)
    requires |s| == |t| >= 1 && s[1..] == t[1..] && multiset(s[..1]) == multiset(t[..1])
    ensures s == t
  {
    assert s[..1] == [s[0]] && t[..1] == [t[0]];
    assert multiset([s[0]])[s[0]] == 1 && multiset([t[0]])[s[0]] == 1;
    assert s == s[..1] + s[1..] && t == t[..1] + t[1..];
  }

  lemma EveryOrderIsPossible(s: seq<Frame>, t: seq<Frame>)
    requires multiset(s) == multiset(t)
    ensures exists pick: nat -> nat :: Shuffled(s, Last(s), pick) == t
  {
    assert |multiset(s)| == |s| && |multiset(t)| == |t|;
    if s == [] {
      var pick: nat -> nat := k => 0;
      assert Shuffled(s, Last(s), pick) == t;
    } else {
      assert s[..Last(s) + 1] == s && t[..Last(s) + 1] == t;
      var pick := ShuffleReaches(s, t, Last(s));
    }
  }

  // ---- The start ----

  /** One empty buffer for each configured pad, and no other. */
  lemma {:induction false} StartsEmpty(pads: nat, cap: nat)
    ensures forall p: nat :: p in Start(pads, cap).pads <==> 1 <= p <= pads
    ensures forall p :: p in Start(pads, cap).pads ==> Start(pads, cap).pads[p] == []
  {
    if pads > 0 {
      StartsEmpty(pads - 1, cap);
      assert EmptyPads(pads) == EmptyPads(pads - 1)[pads := []];
    }
  }
}

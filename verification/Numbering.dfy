/** Telemetry generation: the numbering of frames and the sample accumulator. */
module Numbering {
  import opened Frames
  import Sink

  // ---- What numbering means ----

  function CountOf(fs: seq<Frame>, k: WellId): nat {
    if fs == [] then 0
    else CountOf(fs[..|fs| - 1], k) + if WellOf(fs[|fs| - 1]) == k then 1 else 0
  }

  /** Each frame carries the number that follows the frames its well has made before. */
  ghost predicate Numbered(fs: seq<Frame>, epoch: nat) {
    forall i :: 0 <= i < |fs| ==>
      fs[i].epoch == epoch && fs[i].seqNo == CountOf(fs[..i], WellOf(fs[i])) + 1 && IsValid(fs[i])
  }

  lemma {:induction false} CountGrows(fs: seq<Frame>, n: nat, k: WellId)
    requires n <= |fs|
    ensures CountOf(fs[..n], k) <= CountOf(fs, k)
    decreases |fs|
  {
    if n < |fs| {
      assert fs[..|fs| - 1][..n] == fs[..n];
      CountGrows(fs[..|fs| - 1], n, k);
    } else {
      assert fs[..n] == fs;
    }
  }

  lemma CountLast(fs: seq<Frame>, f: Frame, k: WellId)
    ensures CountOf(fs + [f], k) == CountOf(fs, k) + if WellOf(f) == k then 1 else 0
  {
    assert (fs + [f])[..|fs|] == fs;
  }

  lemma NumberedPrefix(fs: seq<Frame>, epoch: nat)
    requires fs != [] && Numbered(fs, epoch)
    ensures Numbered(fs[..|fs| - 1], epoch)
  {
    var gs := fs[..|fs| - 1];
    forall i | 0 <= i < |gs|
      ensures gs[i].epoch == epoch && gs[i].seqNo == CountOf(gs[..i], WellOf(gs[i])) + 1 && IsValid(gs[i])
    {
      assert gs[..i] == fs[..i];
    }
  }

  lemma NumberedMore(fs: seq<Frame>, f: Frame, epoch: nat)
    requires Numbered(fs, epoch) && IsValid(f) && f.epoch == epoch && f.seqNo == CountOf(fs, WellOf(f)) + 1
    ensures Numbered(fs + [f], epoch)
  {
    var gs := fs + [f];
    forall i | 0 <= i < |gs|
      ensures gs[i].epoch == epoch && gs[i].seqNo == CountOf(gs[..i], WellOf(gs[i])) + 1 && IsValid(gs[i])
    {
      assert gs[..i] == if i < |fs| then fs[..i] else fs;
    }
  }

  ghost predicate Holds(fs: seq<Frame>, i: Identity) {
    exists f :: f in fs && IdentityOf(f) == i
  }

  lemma HoldsLast(fs: seq<Frame>, l: Frame, i: Identity)
    ensures Holds(fs + [l], i) <==> Holds(fs, i) || IdentityOf(l) == i
  {
    hide IdentityOf;
    assert l in fs + [l];
    assert forall f :: f in fs + [l] <==> f in fs || f == l;
  }

  /** Every well's numbers are exactly 1, 2, 3, ... with no hole. */
  lemma {:induction false} NumbersAreAnInterval(fs: seq<Frame>, epoch: nat, k: WellId, q: nat)
    requires Numbered(fs, epoch)
    ensures Holds(fs, Identity(k, epoch, q)) <==> 1 <= q <= CountOf(fs, k)
  {
    if fs != [] {
      hide Holds;
      var n := |fs| - 1;
      var gs, l := fs[..n], fs[n];
      assert fs == gs + [l];
      assert l.epoch == epoch && l.seqNo == CountOf(gs, WellOf(l)) + 1;
      NumberedPrefix(fs, epoch);
      hide Numbered;
      NumbersAreAnInterval(gs, epoch, k, q);
      HoldsLast(gs, l, Identity(k, epoch, q));
    }
  }

  /** No identity is used twice. */
  lemma IdentitiesAreDistinct(fs: seq<Frame>, epoch: nat, i: nat, j: nat)
    requires Numbered(fs, epoch) && i < j < |fs|
    ensures IdentityOf(fs[i]) != IdentityOf(fs[j])
  {
    if WellOf(fs[i]) == WellOf(fs[j]) {
      assert fs[..j][..i + 1] == fs[..i] + [fs[i]];
      CountGrows(fs[..j], i + 1, WellOf(fs[i]));
      CountLast(fs[..i], fs[i], WellOf(fs[i]));
    }
  }

  /** So each identity has one frame and one event time. */
  lemma OneFramePerIdentity(fs: seq<Frame>, epoch: nat)
    requires Numbered(fs, epoch)
    ensures OneBodyPerIdentity(Sink.FramesOf(fs))
    ensures forall i, j :: 0 <= i < j < |fs| ==> fs[i] != fs[j]
  {
    forall i, j | 0 <= i < j < |fs| ensures fs[i] != fs[j] {
      IdentitiesAreDistinct(fs, epoch, i, j);
    }
    forall f, g | f in Sink.FramesOf(fs) && g in Sink.FramesOf(fs) && IdentityOf(f) == IdentityOf(g) ensures f == g {
      var i :| 0 <= i < |fs| && fs[i] == f;
      var j :| 0 <= j < |fs| && fs[j] == g;
      if i < j {
        IdentitiesAreDistinct(fs, epoch, i, j);
      } else if j < i {
        IdentitiesAreDistinct(fs, epoch, j, i);
      }
    }
  }

  // ---- The sample accumulator ----

  /** One tick: the rate in force and the seconds since the last tick. */
  datatype Tick = Tick(hz: real, dt: real)

  function Owed(t: Tick): real {
    t.hz * t.dt
  }

  /** Samples owed so far, and the fraction carried over. */
  function Accumulated(ticks: seq<Tick>): (int, real) {
    if ticks == [] then (0, 0.0)
    else
      var (total, acc) := Accumulated(ticks[..|ticks| - 1]);
      var t := ticks[|ticks| - 1];
      var more := acc + Owed(t);
      (total + more.Floor, more - more.Floor as real)
  }

  lemma AccumulatedMore(ticks: seq<Tick>, t: Tick)
    ensures var (total, acc) := Accumulated(ticks);
            var more := acc + Owed(t);
            Accumulated(ticks + [t]) == (total + more.Floor, more - more.Floor as real)
  {
    hide Owed;
    assert (ticks + [t])[..|ticks|] == ticks;
  }

  function Elapsed(ticks: seq<Tick>): real {
    if ticks == [] then 0.0
    else Elapsed(ticks[..|ticks| - 1]) + Owed(ticks[|ticks| - 1])
  }

  /** No sample is lost or invented by rounding: after any ticks the samples emitted are
      the whole part of the time elapsed, each second weighted by its rate. */
  lemma {:induction false} SamplesAreTheFloor(ticks: seq<Tick>)
    ensures var (total, acc) := Accumulated(ticks);
            total == Elapsed(ticks).Floor && 0.0 <= acc < 1.0 && total as real + acc == Elapsed(ticks)
  {
    hide Owed;
    if ticks != [] {
      SamplesAreTheFloor(ticks[..|ticks| - 1]);
    }
  }
}

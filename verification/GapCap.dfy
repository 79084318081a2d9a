/** The range table's bound: what it does and does not bound. The documentation
    says at most 1024 open ranges per well; splitting a range never checks the
    bound, and once a range has been spilled, arrival order does matter. */
module GapCap {
  import opened GapModel
  import opened GapProofs
  import GT = GapTracking

  function Evens(n: nat): (xs: seq<Arrival>)
    ensures |xs| == n && forall i :: 0 <= i < n ==> xs[i] == Arrival(0, 2 * i + 2, 0)
  {
    seq(n, i requires 0 <= i < n => Arrival(0, 2 * i + 2, 0))
  }

  function Odds(n: nat): (o: map<nat, GapRange>)
    ensures |o| == n
    ensures forall s :: s in o ==> s < 2 * n && o[s].end == s
    ensures forall i :: 0 <= i < n ==> 2 * i + 1 in o
  {
    if n == 0 then map[] else Odds(n - 1)[2 * n - 1 := GapRange(2 * n - 1, 0)]
  }

  lemma EvenStep(n: nat)
    requires n <= MAX_OPEN_PER_WELL
    ensures Observe(WellGaps(0, 2 * n + 1, Odds(n), 0), 0, 2 * n + 2, 0) ==
            if n < MAX_OPEN_PER_WELL then WellGaps(0, 2 * n + 3, Odds(n + 1), 0)
            else WellGaps(0, 2 * n + 3, Odds(n), 1)
  {
  }

  lemma EvensNone()
    ensures Run(Fresh(0, 1), Evens(0)) == WellGaps(0, 1, Odds(0), 0)
  {
  }

  lemma {:induction false} EvensRun(n: nat)
    requires n <= MAX_OPEN_PER_WELL
    ensures Run(Fresh(0, 1), Evens(n)) == WellGaps(0, 2 * n + 1, Odds(n), 0)
  {
    hide Observe, Run, Odds;
    EvensNone();
    if n > 0 {
      EvensRun(n - 1);
      EvenStep(n - 1);
      assert Evens(n) == Evens(n - 1) + [Arrival(0, 2 * n, 0)];
      RunLast(Fresh(0, 1), Evens(n - 1), Arrival(0, 2 * n, 0));
    }
  }

  /** The widest jump first, then the same even numbers: every arrival splits. */
  function JumpThenEvens(n: nat): seq<Arrival> {
    [Arrival(0, 2 * MAX_OPEN_PER_WELL + 2, 0)] + Evens(n)
  }

  /** `n` single numbers split off the front of one wide range. */
  function SplitOff(n: nat): WellGaps {
    WellGaps(0, 2 * MAX_OPEN_PER_WELL + 3,
             Odds(n)[2 * n + 1 := GapRange(2 * MAX_OPEN_PER_WELL + 1, 0)], 0)
  }

  lemma SplitStep(n: nat)
    requires n < MAX_OPEN_PER_WELL
    ensures Observe(SplitOff(n), 0, 2 * n + 2, 0) == SplitOff(n + 1)
  {
    assert 2 * n + 1 in SplitOff(n).open && 2 * n + 2 !in SplitOff(n).open;
    assert SplitOff(n).open - {2 * n + 1} == Odds(n);
  }

  lemma {:induction false} SplitsRun(n: nat)
    requires n <= MAX_OPEN_PER_WELL
    ensures Run(Fresh(0, 1), JumpThenEvens(n)) == SplitOff(n)
  {
    hide Observe;
    if n == 0 {
      RunLast(Fresh(0, 1), [], Arrival(0, 2 * MAX_OPEN_PER_WELL + 2, 0));
      WidestJump();
      assert JumpThenEvens(0) == [] + [Arrival(0, 2 * MAX_OPEN_PER_WELL + 2, 0)];
    } else {
      SplitsRun(n - 1);
      SplitStep(n - 1);
      assert JumpThenEvens(n) == JumpThenEvens(n - 1) + [Arrival(0, 2 * n, 0)];
      RunLast(Fresh(0, 1), JumpThenEvens(n - 1), Arrival(0, 2 * n, 0));
    }
  }

  lemma WidestJump()
    ensures Observe(Fresh(0, 1), 0, 2 * MAX_OPEN_PER_WELL + 2, 0) == SplitOff(0)
  {
  }

  lemma SameArrivals(n: nat)
    requires n == MAX_OPEN_PER_WELL
    ensures Contents(Evens(n + 1)) == Contents(JumpThenEvens(n))
  {
    var xs, ys := Evens(n + 1), JumpThenEvens(n);
    forall i | 0 <= i < |xs| ensures (xs[i].epoch, xs[i].seqNo) in Contents(ys) {
      assert if i == n then ys[0] == xs[i] else ys[i + 1] == xs[i];
    }
    forall i | 0 <= i < |ys| ensures (ys[i].epoch, ys[i].seqNo) in Contents(xs) {
      assert if i == 0 then xs[n] == ys[i] else xs[i - 1] == ys[i];
    }
  }

  /** One order spills a range and stays at the bound; another order of the same
      arrivals spills nothing and ends with one range more than the bound. */
  lemma BoundIsNotKeptAndOrderMatters()
    ensures exists xs, ys ::
              && Contents(xs) == Contents(ys)
              && Run(Fresh(0, 1), xs).untracked == 1
              && |Run(Fresh(0, 1), xs).open| == MAX_OPEN_PER_WELL
              && Run(Fresh(0, 1), ys).untracked == 0
              && |Run(Fresh(0, 1), ys).open| == MAX_OPEN_PER_WELL + 1
  {
    hide Observe, Run, Contents, JumpThenEvens, SplitOff, Odds;
    var n := MAX_OPEN_PER_WELL;
    EvensRun(n);
    EvenStep(n);
    assert Evens(n + 1) == Evens(n) + [Arrival(0, 2 * n + 2, 0)];
    RunLast(Fresh(0, 1), Evens(n), Arrival(0, 2 * n + 2, 0));
    SplitsRun(n);
    SameArrivals(n);
    assert Run(Fresh(0, 1), Evens(n + 1)) == WellGaps(0, 2 * n + 3, Odds(n), 1);
    SplitOffSize(n);
    assert |Run(Fresh(0, 1), JumpThenEvens(n)).open| == n + 1;
  }

  lemma SplitOffSize(n: nat)
    ensures |SplitOff(n).open| == n + 1 && SplitOff(n).untracked == 0
  {
    assert 2 * n + 1 !in Odds(n);
  }

  /** One arrival takes a table within the bound past it if and only if the table is
      full and the arrival falls strictly inside one of its ranges. */
  lemma BoundKeptIff(w: WellGaps, h: History, epoch: nat, q: nat, now: nat)
    requires WellOk(w, h) && |w.open| <= MAX_OPEN_PER_WELL
    ensures |Observe(w, epoch, q, now).open| <= MAX_OPEN_PER_WELL <==>
            !(epoch == w.epoch && |w.open| == MAX_OPEN_PER_WELL && GT.SplitBy(w, epoch, q) == 1)
  {
    hide WellOk, Holder, FillGap;
    GT.ArrivalBalances(w, h, epoch, q, now);
    if epoch >= w.epoch {
      SplitsNothingElse(Current(w, epoch), q, now);
    }
  }

  /** A jump opens at most one range, and only below the bound; anything late never
      touches the spill counter. */
  lemma SplitsNothingElse(w: WellGaps, q: nat, now: nat)
    ensures Record(w, q, now).untracked ==
            w.untracked + if q > w.nextExpected && |w.open| >= MAX_OPEN_PER_WELL then 1 else 0
    ensures q > w.nextExpected && |w.open| >= MAX_OPEN_PER_WELL ==> Record(w, q, now).open == w.open
    ensures q == w.nextExpected ==> Record(w, q, now).open == w.open
  {
    hide Holder;
  }
}

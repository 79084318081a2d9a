/** Arrival order over the whole tracker: wells interleave, and a well begins either from
    a seed or unknown. */
module GapOrder {
  import opened Folds
  import opened Frames
  import opened GapModel
  import opened GapProofs
  import opened GapTracking

  predicate Knows(xs: seq<Signal>, k: WellId) {
    exists i :: 0 <= i < |xs| && xs[i].source == k
  }

  /** The seed a well began from, if a seed was the first the tracker was told of it. */
  function SeedOf(xs: seq<Signal>, k: WellId): Option<(nat, nat)> {
    if xs == [] then None
    else
      var init, x := xs[..|xs| - 1], xs[|xs| - 1];
      if x.Marked? && x.source == k && !Knows(init, k) then Some((x.epoch, x.maxSeq)) else SeedOf(init, k)
  }

  /** The arrivals of one well. */
  function HeardOf(xs: seq<Signal>, k: WellId): seq<Arrival> {
    if xs == [] then []
    else
      var x := xs[|xs| - 1];
      HeardOf(xs[..|xs| - 1], k) +
      if x.Heard? && x.source == k then [Arrival(x.epoch, x.seqNo, x.atMs)] else []
  }

  function StartOf(seed: Option<(nat, nat)>): WellGaps {
    match seed
    case None => Fresh(0, 1)
    case Some((epoch, maxSeq)) => Fresh(epoch, maxSeq + 1)
  }

  function StartLog(seed: Option<(nat, nat)>): History {
    History(if seed.Some? then seed.value.1 else 0, {}, {})
  }

  lemma KnowsLast(xs: seq<Signal>, k: WellId)
    requires xs != []
    ensures Knows(xs, k) <==> Knows(xs[..|xs| - 1], k) || xs[|xs| - 1].source == k
  {
    var n := |xs| - 1;
    if Knows(xs[..n], k) {
      var i :| 0 <= i < n && xs[..n][i].source == k;
      assert xs[i].source == k;
    }
  }

  /** A well not yet known begins with the epoch of its first arrival, as one that began
      at epoch zero would. */
  lemma FirstArrival(k: WellId, epoch: nat, q: nat, now: nat)
    ensures Observe(Fresh(epoch, 1), epoch, q, now) == Observe(Fresh(0, 1), epoch, q, now)
    ensures HistObserve(History(0, {}, {}), Fresh(epoch, 1), epoch, q) ==
            HistObserve(History(0, {}, {}), Fresh(0, 1), epoch, q)
  {
  }

  lemma RunMore(w: WellGaps, h: History, xs: seq<Arrival>, x: Arrival)
    ensures Run(w, xs + [x]) == Observe(Run(w, xs), x.epoch, x.seqNo, x.atMs)
    ensures HistRun(h, w, xs + [x]) == HistObserve(HistRun(h, w, xs), Run(w, xs), x.epoch, x.seqNo)
  {
    assert (xs + [x])[..|xs|] == xs;
  }

  /** Of a well that was never told of, nothing was seeded and nothing heard. */
  lemma {:induction false} UnknownIsEmpty(xs: seq<Signal>, k: WellId)
    requires !Knows(xs, k)
    ensures SeedOf(xs, k) == None && HeardOf(xs, k) == []
  {
    if xs != [] {
      KnowsLast(xs, k);
      UnknownIsEmpty(xs[..|xs| - 1], k);
    }
  }

  /** Each well's accounting is the run of its own arrivals from its own start, whatever
      the other wells do in between. */
  lemma {:induction false} WellIsItsRun(xs: seq<Signal>, k: WellId)
    ensures k in WellsAfter(xs) <==> Knows(xs, k)
    ensures k in LogsAfter(xs) <==> Knows(xs, k)
    ensures Knows(xs, k) ==>
              var start := StartOf(SeedOf(xs, k));
              && WellsAfter(xs)[k] == Run(start, HeardOf(xs, k))
              && LogsAfter(xs)[k] == HistRun(StartLog(SeedOf(xs, k)), start, HeardOf(xs, k))
  {
    hide Observe, HistObserve, Knows, Run, HistRun;
    if xs == [] {
      NothingKnown(k);
    } else {
      var init, x := xs[..|xs| - 1], xs[|xs| - 1];
      WellIsItsRun(init, k);
      KnowsLast(xs, k);
      if x.source == k {
        if !Knows(init, k) { UnknownIsEmpty(init, k); }
        StartsItself(SeedOf(xs, k));
        if x.Heard? {
          FirstArrival(k, x.epoch, x.seqNo, x.atMs);
          RunMore(StartOf(SeedOf(init, k)), StartLog(SeedOf(init, k)), HeardOf(init, k),
                  Arrival(x.epoch, x.seqNo, x.atMs));
        }
      }
      if x.Marked? || x.source != k {
        assert HeardOf(xs, k) == HeardOf(init, k);
      }
    }
  }

  lemma NothingKnown(k: WellId)
    ensures !Knows([], k)
  {
  }

  lemma StartsItself(seed: Option<(nat, nat)>)
    ensures Run(StartOf(seed), []) == StartOf(seed)
    ensures HistRun(StartLog(seed), StartOf(seed), []) == StartLog(seed)
    ensures WellOk(StartOf(seed), StartLog(seed))
  {
    FreshOk(StartOf(seed).epoch, StartLog(seed).base);
  }

  /** Two series tell the tracker the same: each well begins from the same seed, if from
      one at all, and then has the same arrivals. */
  ghost predicate SameNews(xs: seq<Signal>, ys: seq<Signal>) {
    forall k ::
      && (Knows(xs, k) <==> Knows(ys, k))
      && SeedOf(xs, k) == SeedOf(ys, k)
      && Contents(HeardOf(xs, k)) == Contents(HeardOf(ys, k))
  }

  /** Two accountings agree on everything but opening times. */
  predicate Agree(a: WellGaps, b: WellGaps) {
    a.epoch == b.epoch && a.nextExpected == b.nextExpected && Shape(a.open) == Shape(b.open)
  }

  /** Over the whole tracker: the same news in any order, wells interleaved in any way,
      leaves the same wells, and they agree if and only if every well has lost the same
      numbers to full tables. */
  lemma TrackerOrder(xs: seq<Signal>, ys: seq<Signal>)
    requires SameNews(xs, ys)
    ensures WellsAfter(xs).Keys == WellsAfter(ys).Keys == LogsAfter(xs).Keys == LogsAfter(ys).Keys
    ensures forall k :: k in WellsAfter(xs) ==>
              (Agree(WellsAfter(xs)[k], WellsAfter(ys)[k]) <==> Lost(LogsAfter(xs)[k]) == Lost(LogsAfter(ys)[k]))
    ensures forall k :: k in WellsAfter(xs) && WellsAfter(xs)[k].untracked == 0 && WellsAfter(ys)[k].untracked == 0 ==>
              Agree(WellsAfter(xs)[k], WellsAfter(ys)[k])
  {
    hide Run, HistRun, WellsAfter, LogsAfter, SeedOf, HeardOf, Knows, Lost, Contents, StartOf, StartLog, Shape;
    forall k
      ensures k in WellsAfter(xs) <==> k in WellsAfter(ys)
      ensures k in WellsAfter(xs) <==> k in LogsAfter(xs)
      ensures k in WellsAfter(ys) <==> k in LogsAfter(ys)
      ensures k in WellsAfter(xs) && k in WellsAfter(ys) && k in LogsAfter(xs) && k in LogsAfter(ys) ==>
                (Agree(WellsAfter(xs)[k], WellsAfter(ys)[k]) <==> Lost(LogsAfter(xs)[k]) == Lost(LogsAfter(ys)[k]))
                && (WellsAfter(xs)[k].untracked == 0 && WellsAfter(ys)[k].untracked == 0 ==>
                      Agree(WellsAfter(xs)[k], WellsAfter(ys)[k]))
    {
      WellIsItsRun(xs, k);
      WellIsItsRun(ys, k);
      if Knows(xs, k) {
        WellOrder(SeedOf(xs, k), HeardOf(xs, k), HeardOf(ys, k));
      }
    }
  }

  lemma WellOrder(seed: Option<(nat, nat)>, xs: seq<Arrival>, ys: seq<Arrival>)
    requires Contents(xs) == Contents(ys)
    ensures var (w, h) := (StartOf(seed), StartLog(seed));
            && (Agree(Run(w, xs), Run(w, ys)) <==> Lost(HistRun(h, w, xs)) == Lost(HistRun(h, w, ys)))
            && (Run(w, xs).untracked == 0 && Run(w, ys).untracked == 0 ==> Agree(Run(w, xs), Run(w, ys)))
  {
    hide Run, HistRun, WellOk, Lost, Contents, Shape, StartOf, StartLog;
    StartsItself(seed);
    OrderMattersOnlyThroughSpills(StartOf(seed), StartLog(seed), xs, ys);
    if Run(StartOf(seed), xs).untracked == 0 && Run(StartOf(seed), ys).untracked == 0 {
      OrderIndependent(StartOf(seed), StartLog(seed), xs, ys);
    }
  }
}

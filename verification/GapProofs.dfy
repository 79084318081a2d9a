/** What the gap ranges of a well are worth: every arrival keeps them exact, they
    are the only maximal-interval decomposition, and arrival order cannot matter. */
module GapProofs {
  import opened Folds
  import opened GapModel

  // ---- Every arrival keeps the index exact ----

  lemma FreshOk(epoch: nat, base: nat)
    ensures WellOk(Fresh(epoch, base + 1), History(base, {}, {}))
  {
  }

  /** A number is held by the range its predecessor lookup finds, or by none. */
  lemma HolderFinds(w: WellGaps, base: nat, q: nat)
    requires Ranges(w, base)
    ensures Holder(w.open, q).Some? <==> Covers(w.open, q)
    ensures Holder(w.open, q).Some? ==>
              var s := Holder(w.open, q).value; s in w.open && s <= q <= w.open[s].end
  {
  }

  lemma JumpCovers(w: WellGaps, base: nat, q: nat, now: nat, x: nat)
    requires Ranges(w, base) && q > w.nextExpected
    ensures Covers(Record(w, q, now).open, x) <==>
            Covers(w.open, x) || (|w.open| < MAX_OPEN_PER_WELL && w.nextExpected <= x < q)
  {
    var o := Record(w, q, now).open;
    if |w.open| < MAX_OPEN_PER_WELL {
      assert w.nextExpected in o && o[w.nextExpected].end == q - 1;
      if Covers(w.open, x) {
        var s :| s in w.open && s <= x <= w.open[s].end;
        assert s in o && o[s] == w.open[s];
      }
    }
  }

  lemma JumpRanges(w: WellGaps, base: nat, q: nat, now: nat)
    requires Ranges(w, base) && base < w.nextExpected < q
    ensures Ranges(Record(w, q, now), base)
  {
  }

  lemma JumpMissing(w: WellGaps, h: History, q: nat, x: nat)
    requires Marks(w, h) && q > w.nextExpected
    ensures Missing(HistRecord(h, w, q), q + 1, x) && x !in HistRecord(h, w, q).spilled <==>
            (Missing(h, w.nextExpected, x) && x !in h.spilled)
            || (|w.open| < MAX_OPEN_PER_WELL && w.nextExpected <= x < q)
  {
  }

  lemma JumpExact(w: WellGaps, h: History, q: nat, now: nat, x: nat)
    requires WellOk(w, h) && q > w.nextExpected
    ensures Covers(Record(w, q, now).open, x) <==>
            Missing(HistRecord(h, w, q), q + 1, x) && x !in HistRecord(h, w, q).spilled
  {
    hide Ranges, Marks, Covers, Missing, Record, HistRecord;
    JumpCovers(w, h.base, q, now, x);
    JumpMissing(w, h, q, x);
    assert Covers(w.open, x) <==> Missing(h, w.nextExpected, x) && x !in h.spilled;
  }

  lemma JumpMarks(w: WellGaps, h: History, q: nat, now: nat)
    requires Marks(w, h) && q > w.nextExpected
    ensures Marks(Record(w, q, now), HistRecord(h, w, q))
  {
  }

  lemma JumpKeeps(w: WellGaps, h: History, q: nat, now: nat)
    requires WellOk(w, h) && q > w.nextExpected
    ensures WellOk(Record(w, q, now), HistRecord(h, w, q))
  {
    JumpMarks(w, h, q, now);
    JumpRanges(w, h.base, q, now);
    assert Exact(Record(w, q, now), HistRecord(h, w, q)) by {
      forall x: nat ensures Covers(Record(w, q, now).open, x) <==>
          Missing(HistRecord(h, w, q), q + 1, x) && x !in HistRecord(h, w, q).spilled {
        JumpExact(w, h, q, now, x);
      }
    }
  }

  lemma CoversWithout(w: WellGaps, base: nat, k: nat, q: nat)
    requires Ranges(w, base) && k in w.open
    ensures Covers(w.open - {k}, q) <==> Covers(w.open, q) && !(k <= q <= w.open[k].end)
  {
    if Covers(w.open, q) && !(k <= q <= w.open[k].end) {
      var s :| s in w.open && s <= q <= w.open[s].end;
      assert s in w.open - {k};
    }
  }

  lemma CoversWith(open: map<nat, GapRange>, k: nat, r: GapRange, x: nat)
    requires k !in open
    ensures Covers(open[k := r], x) <==> Covers(open, x) || k <= x <= r.end
  {
    if Covers(open, x) {
      var s :| s in open && s <= x <= open[s].end;
      assert s in open[k := r] && open[k := r][s] == open[s];
    }
    if k <= x <= r.end {
      assert k in open[k := r];
    }
  }

  lemma FillCovers(w: WellGaps, base: nat, q: nat, x: nat)
    requires Ranges(w, base) && q < w.nextExpected
    ensures Covers(FillGap(w, q).open, x) <==> Covers(w.open, x) && x != q
  {
    hide Covers, Holder, Floor;
    HolderFinds(w, base, q);
    if Holder(w.open, q).Some? {
      var s, r := Holder(w.open, q).value, w.open[Holder(w.open, q).value];
      CoversWithout(w, base, s, x);
      if s <= x <= r.end { InRange(w, s, x); }
      var left := w.open - {s};
      if s < q {
        CoversWith(left, s, GapRange(q - 1, r.openedAtMs), x);
        left := left[s := GapRange(q - 1, r.openedAtMs)];
      }
      if q < r.end {
        CoversWith(left, q + 1, GapRange(r.end, r.openedAtMs), x);
      }
    }
  }

  lemma InRange(w: WellGaps, s: nat, x: nat)
    requires s in w.open && s <= x <= w.open[s].end
    ensures Covers(w.open, x)
  {
  }

  /** A range that lies apart from every other one. */
  ghost predicate Fits(w: WellGaps, base: nat, s: nat, end: nat) {
    && base < s <= end && end + 2 <= w.nextExpected
    && forall t :: t in w.open ==> t != s && (t < s ==> w.open[t].end + 2 <= s) && (s < t ==> end + 2 <= t)
  }

  lemma AddRange(w: WellGaps, base: nat, s: nat, r: GapRange)
    requires Ranges(w, base) && Fits(w, base, s, r.end)
    ensures Ranges(w.(open := w.open[s := r]), base)
  {
  }

  /** Taking a range out leaves its whole span free. */
  lemma TakeRange(w: WellGaps, base: nat, s: nat, lo: nat, hi: nat)
    requires Ranges(w, base) && s in w.open && s <= lo <= hi <= w.open[s].end
    ensures Ranges(w.(open := w.open - {s}), base)
    ensures Fits(w.(open := w.open - {s}), base, lo, hi)
  {
  }

  lemma FillRanges(w: WellGaps, base: nat, q: nat)
    requires Ranges(w, base) && q < w.nextExpected
    ensures Ranges(FillGap(w, q), base)
  {
    HolderFinds(w, base, q);
    hide Holder, Ranges, Fits;
    var h := Holder(w.open, q);
    if h.Some? {
      var s, r := h.value, w.open[h.value];
      var rest, low := w.(open := w.open - {s}), GapRange(q - 1, r.openedAtMs);
      TakeRange(w, base, s, q, q);
      var left := rest;
      if s < q {
        TakeRange(w, base, s, s, q - 1);
        AddRange(rest, base, s, low);
        left := rest.(open := rest.open[s := low]);
      }
      if q < r.end {
        TakeRange(w, base, s, q + 1, r.end);
        if s < q { FitsBoth(rest, base, s, low, q + 1, r.end); }
        AddRange(left, base, q + 1, GapRange(r.end, r.openedAtMs));
      }
    }
  }

  lemma FitsBoth(w: WellGaps, base: nat, s: nat, low: GapRange, t: nat, end: nat)
    requires Fits(w, base, t, end) && s <= low.end && low.end + 2 <= t
    ensures Fits(w.(open := w.open[s := low]), base, t, end)
  {
  }

  lemma LateKeeps(w: WellGaps, h: History, q: nat, now: nat)
    requires WellOk(w, h) && q < w.nextExpected
    ensures WellOk(Record(w, q, now), HistRecord(h, w, q))
  {
    FillRanges(w, h.base, q);
    var w', h' := Record(w, q, now), HistRecord(h, w, q);
    forall x: nat ensures Covers(w'.open, x) <==> Missing(h', w'.nextExpected, x) && x !in h'.spilled {
      FillCovers(w, h.base, q, x);
      assert Covers(w.open, x) <==> Missing(h, w.nextExpected, x) && x !in h.spilled;
    }
  }

  lemma NextKeeps(w: WellGaps, h: History, now: nat)
    requires WellOk(w, h)
    ensures WellOk(Record(w, w.nextExpected, now), HistRecord(h, w, w.nextExpected))
  {
    var w', h' := Record(w, w.nextExpected, now), HistRecord(h, w, w.nextExpected);
    forall x: nat ensures Covers(w'.open, x) <==> Missing(h', w'.nextExpected, x) && x !in h'.spilled {
      assert Covers(w.open, x) <==> Missing(h, w.nextExpected, x) && x !in h.spilled;
    }
  }

  lemma RecordKeeps(w: WellGaps, h: History, q: nat, now: nat)
    requires WellOk(w, h)
    ensures WellOk(Record(w, q, now), HistRecord(h, w, q))
  {
    if q == w.nextExpected {
      NextKeeps(w, h, now);
    } else if q > w.nextExpected {
      JumpKeeps(w, h, q, now);
    } else {
      LateKeeps(w, h, q, now);
    }
  }

  /** Every branch of `observe` keeps the well's invariant. */
  lemma ObserveKeeps(w: WellGaps, h: History, epoch: nat, q: nat, now: nat)
    requires WellOk(w, h)
    ensures WellOk(Observe(w, epoch, q, now), HistObserve(h, w, epoch, q))
  {
    if epoch > w.epoch {
      FreshOk(epoch, 0);
      RecordKeeps(Fresh(epoch, 1), History(0, {}, {}), q, now);
    } else if epoch == w.epoch {
      RecordKeeps(w, h, q, now);
    }
  }

  // ---- When a number went missing ----

  /** The range that holds a number is the only one that does. */
  lemma HolderIs(w: WellGaps, base: nat, s: nat, x: nat)
    requires Ranges(w, base) && s in w.open && s <= x <= w.open[s].end
    ensures Holder(w.open, x) == Some(s)
  {
    var f := Floor(w.open, x);
    assert f.Some? && s <= f.value;
  }

  /** When the gap that holds a number was opened. */
  function OpenedAt(open: map<nat, GapRange>, x: nat): nat
    requires Holder(open, x).Some?
  {
    open[Holder(open, x).value].openedAtMs
  }

  lemma FillKeepsTimes(w: WellGaps, base: nat, q: nat, x: nat)
    requires Ranges(w, base) && q < w.nextExpected && Covers(FillGap(w, q).open, x)
    ensures Holder(w.open, x).Some? && Holder(FillGap(w, q).open, x).Some?
    ensures OpenedAt(FillGap(w, q).open, x) == OpenedAt(w.open, x)
  {
    hide Floor, Holder;
    var v := FillGap(w, q);
    FillRanges(w, base, q);
    FillCovers(w, base, q, x);
    HolderFinds(w, base, q);
    HolderFinds(v, base, x);
    HolderFinds(w, base, x);
    var s := Holder(w.open, x).value;
    if Holder(w.open, q) == Some(s) {
      HolderIs(v, base, if x < q then s else q + 1, x);
    } else {
      if Holder(w.open, q).Some? { HolderIs(w, base, Holder(w.open, q).value, q); }
      HolderIs(v, base, s, x);
    }
  }

  lemma JumpTimes(w: WellGaps, base: nat, q: nat, now: nat, x: nat)
    requires Ranges(w, base) && base < w.nextExpected < q && Covers(Record(w, q, now).open, x)
    ensures Holder(Record(w, q, now).open, x).Some?
    ensures OpenedAt(Record(w, q, now).open, x) == if Covers(w.open, x) then OpenedAt(w.open, x) else now
  {
    hide Floor, Holder;
    var v := Record(w, q, now);
    JumpRanges(w, base, q, now);
    HolderFinds(v, base, x);
    HolderFinds(w, base, x);
    if Covers(w.open, x) {
      HolderIs(v, base, Holder(w.open, x).value, x);
    } else {
      JumpCovers(w, base, q, now, x);
      HolderIs(v, base, w.nextExpected, x);
    }
  }

  /** A missing number keeps the time of the jump that skipped it, through every shrink
      and split of its range, so a heal reports how long the gap was open. */
  lemma OpeningTimesSurvive(w: WellGaps, h: History, q: nat, now: nat, x: nat)
    requires WellOk(w, h) && Covers(Observe(w, w.epoch, q, now).open, x)
    ensures var v := Observe(w, w.epoch, q, now);
            && (Covers(w.open, x) ==> Holder(w.open, x).Some?) && Holder(v.open, x).Some?
            && OpenedAt(v.open, x) == if Covers(w.open, x) then OpenedAt(w.open, x) else now
  {
    hide Floor, Holder, FillGap;
    HolderFinds(w, h.base, x);
    if q < w.nextExpected {
      FillKeepsTimes(w, h.base, q, x);
    } else if q > w.nextExpected {
      JumpTimes(w, h.base, q, now, x);
    }
  }

  /** The report of a jump names exactly the numbers that became missing. */
  lemma OpenedIsWhatBecameMissing(w: WellGaps, h: History, q: nat, now: nat, x: nat)
    requires WellOk(w, h)
    ensures var cs := Changes(w, w.epoch, q, now);
            Missing(HistRecord(h, w, q), Record(w, q, now).nextExpected, x) && !Missing(h, w.nextExpected, x) <==>
            cs != [] && cs[0].Opened? && cs[0].from <= x <= cs[0].to
  {
    hide Floor, Holder, Ranges, Exact;
  }

  /** A heal is reported exactly when the last number of a gap arrives, with the time
      the gap was open. */
  lemma HealedIsTheLastOfItsGap(w: WellGaps, h: History, q: nat, now: nat)
    requires WellOk(w, h)
    ensures var cs := Changes(w, w.epoch, q, now);
            cs != [] && cs[0].Healed? <==>
            q >= 1 && Covers(w.open, q) && !Covers(w.open, q - 1) && !Covers(w.open, q + 1)
    ensures forall c :: c in Changes(w, w.epoch, q, now) && c.Healed? ==>
              Covers(w.open, q) && Holder(w.open, q).Some? && c == Healed(q, q, SatSub(now, OpenedAt(w.open, q)))
  {
    hide Floor, Holder;
    HolderFinds(w, h.base, q);
    if Covers(w.open, q) {
      var s := Holder(w.open, q).value;
      RangeEdges(w, h.base, s);
      if s < q { assert Covers(w.open, q - 1); }
      if q < w.open[s].end { assert Covers(w.open, q + 1); }
    }
  }

  // ---- The ranges are the only maximal-interval decomposition ----

  /** Within the window, a range is bounded on both sides by numbers that are not
      open, so it cannot be extended. */
  lemma RangesAreMaximal(w: WellGaps, h: History, s: nat)
    requires WellOk(w, h) && s in w.open
    ensures !Covers(w.open, s - 1) && !Covers(w.open, w.open[s].end + 1)
    ensures forall q :: s <= q <= w.open[s].end ==> Missing(h, w.nextExpected, q)
  {
    forall q | s <= q <= w.open[s].end ensures Missing(h, w.nextExpected, q) {
      assert Covers(w.open, q);
    }
  }

  /** The (start, end) pairs, without the times the ranges were opened at. */
  function Shape(open: map<nat, GapRange>): map<nat, nat> {
    map s | s in open :: open[s].end
  }

  lemma RangeEdges(w: WellGaps, base: nat, s: nat)
    requires Ranges(w, base) && s in w.open
    ensures !Covers(w.open, s - 1) && !Covers(w.open, w.open[s].end + 1)
  {
  }

  /** A range starts exactly where coverage begins. */
  lemma StartIff(w: WellGaps, base: nat, s: nat)
    requires Ranges(w, base)
    ensures s in w.open <==> Covers(w.open, s) && (s == 0 || !Covers(w.open, s - 1))
  {
  }

  /** A range reaches as far as coverage is unbroken. */
  lemma EndIsReach(w: WellGaps, base: nat, s: nat, x: nat)
    requires Ranges(w, base) && s in w.open && s <= x
    ensures (forall y :: s <= y <= x ==> Covers(w.open, y)) <==> x <= w.open[s].end
  {
    RangeEdges(w, base, s);
  }

  /** Two wells whose ranges cover the same numbers have the same ranges. */
  lemma RangesAreUnique(a: WellGaps, b: WellGaps, base: nat)
    requires Ranges(a, base) && Ranges(b, base)
    requires forall q :: Covers(a.open, q) <==> Covers(b.open, q)
    ensures Shape(a.open) == Shape(b.open)
  {
    forall s: nat ensures s in a.open <==> s in b.open {
      StartIff(a, base, s);
      StartIff(b, base, s);
    }
    forall s | s in a.open ensures a.open[s].end == b.open[s].end {
      EndIsReach(a, base, s, a.open[s].end);
      EndIsReach(b, base, s, a.open[s].end);
      EndIsReach(a, base, s, b.open[s].end);
      EndIsReach(b, base, s, b.open[s].end);
    }
  }

  // ---- Arrival order ----

  datatype Arrival = Arrival(epoch: nat, seqNo: nat, atMs: nat)

  function Run(w: WellGaps, xs: seq<Arrival>): WellGaps {
    if xs == [] then w
    else
      var v := Run(w, xs[..|xs| - 1]);
      var x := xs[|xs| - 1];
      Observe(v, x.epoch, x.seqNo, x.atMs)
  }

  function HistRun(h: History, w: WellGaps, xs: seq<Arrival>): History {
    if xs == [] then h
    else
      var x := xs[|xs| - 1];
      HistObserve(HistRun(h, w, xs[..|xs| - 1]), Run(w, xs[..|xs| - 1]), x.epoch, x.seqNo)
  }

  lemma {:induction false} RunKeeps(w: WellGaps, h: History, xs: seq<Arrival>)
    requires WellOk(w, h)
    ensures WellOk(Run(w, xs), HistRun(h, w, xs))
  {
    if xs != [] {
      var x := xs[|xs| - 1];
      RunKeeps(w, h, xs[..|xs| - 1]);
      ObserveKeeps(Run(w, xs[..|xs| - 1]), HistRun(h, w, xs[..|xs| - 1]), x.epoch, x.seqNo, x.atMs);
    }
  }

  /** The newest generation heard of. */
  function TopEpoch(e: nat, xs: seq<Arrival>): nat {
    if xs == [] then e
    else
      var t := TopEpoch(e, xs[..|xs| - 1]);
      if xs[|xs| - 1].epoch > t then xs[|xs| - 1].epoch else t
  }

  function SeqsOf(epoch: nat, xs: seq<Arrival>): set<nat> {
    set i | 0 <= i < |xs| && xs[i].epoch == epoch :: xs[i].seqNo
  }

  lemma {:induction false} TopEpochBounds(e: nat, xs: seq<Arrival>)
    ensures TopEpoch(e, xs) >= e
    ensures forall i :: 0 <= i < |xs| ==> xs[i].epoch <= TopEpoch(e, xs)
    ensures TopEpoch(e, xs) == e || exists i :: 0 <= i < |xs| && xs[i].epoch == TopEpoch(e, xs)
  {
    if xs != [] {
      var ys := xs[..|xs| - 1];
      TopEpochBounds(e, ys);
      assert forall i :: 0 <= i < |ys| ==> ys[i] == xs[i];
      if TopEpoch(e, xs) != e && xs[|xs| - 1].epoch <= TopEpoch(e, ys) {
        var i :| 0 <= i < |ys| && ys[i].epoch == TopEpoch(e, ys);
        assert xs[i].epoch == TopEpoch(e, xs);
      }
    }
  }

  lemma SeqsOfLast(e: nat, xs: seq<Arrival>)
    requires xs != []
    ensures SeqsOf(e, xs) ==
            SeqsOf(e, xs[..|xs| - 1]) + if xs[|xs| - 1].epoch == e then {xs[|xs| - 1].seqNo} else {}
  {
    var ys := xs[..|xs| - 1];
    assert forall i :: 0 <= i < |ys| ==> ys[i] == xs[i];
    forall q | q in SeqsOf(e, xs) && q !in SeqsOf(e, ys)
      ensures xs[|xs| - 1].epoch == e && q == xs[|xs| - 1].seqNo
    {
      assert forall i :: 0 <= i < |ys| && xs[i].epoch == e ==> ys[i].seqNo in SeqsOf(e, ys);
    }
  }

  lemma RecordEpoch(w: WellGaps, q: nat, now: nat)
    ensures Record(w, q, now).epoch == w.epoch
  {
  }

  lemma ObserveSummary(w: WellGaps, h: History, epoch: nat, q: nat, now: nat)
    ensures Observe(w, epoch, q, now).epoch == if epoch > w.epoch then epoch else w.epoch
    ensures HistObserve(h, w, epoch, q).base == if epoch > w.epoch then 0 else h.base
    ensures HistObserve(h, w, epoch, q).seen ==
            if epoch < w.epoch then h.seen else if epoch == w.epoch then h.seen + {q} else {q}
  {
    RecordEpoch(Current(w, epoch), q, now);
  }

  /** After any run, the accounting is about the newest epoch, from its own base,
      and has seen exactly that epoch's arrivals. */
  lemma {:induction false} RunSummary(w: WellGaps, h: History, xs: seq<Arrival>)
    ensures Run(w, xs).epoch == TopEpoch(w.epoch, xs)
    ensures HistRun(h, w, xs).base == if TopEpoch(w.epoch, xs) > w.epoch then 0 else h.base
    ensures HistRun(h, w, xs).seen ==
            (if TopEpoch(w.epoch, xs) > w.epoch then {} else h.seen) + SeqsOf(TopEpoch(w.epoch, xs), xs)
  {
    if xs != [] {
      var ys, x := xs[..|xs| - 1], xs[|xs| - 1];
      RunSummary(w, h, ys);
      TopEpochBounds(w.epoch, ys);
      ObserveSummary(Run(w, ys), HistRun(h, w, ys), x.epoch, x.seqNo, x.atMs);
      SeqsOfLast(TopEpoch(w.epoch, xs), xs);
      if x.epoch > TopEpoch(w.epoch, ys) {
        assert SeqsOf(x.epoch, ys) == {};
      }
    }
  }

  /** What a set of (epoch, seq) arrivals contains. */
  function Contents(xs: seq<Arrival>): set<(nat, nat)> {
    set i | 0 <= i < |xs| :: (xs[i].epoch, xs[i].seqNo)
  }

  lemma SameContentsSameSummary(e: nat, xs: seq<Arrival>, ys: seq<Arrival>)
    requires Contents(xs) == Contents(ys)
    ensures TopEpoch(e, xs) == TopEpoch(e, ys)
    ensures SeqsOf(TopEpoch(e, xs), xs) == SeqsOf(TopEpoch(e, xs), ys)
  {
    TopEpochBounds(e, xs);
    TopEpochBounds(e, ys);
    forall i | 0 <= i < |xs|
      ensures exists j :: 0 <= j < |ys| && ys[j].epoch == xs[i].epoch && ys[j].seqNo == xs[i].seqNo {
      assert (xs[i].epoch, xs[i].seqNo) in Contents(ys);
    }
    forall i | 0 <= i < |ys|
      ensures exists j :: 0 <= j < |xs| && xs[j].epoch == ys[i].epoch && xs[j].seqNo == ys[i].seqNo {
      assert (ys[i].epoch, ys[i].seqNo) in Contents(xs);
    }
  }

  /** Two accountings of the same base and arrivals agree on the watermark. */
  lemma WatermarkIsDetermined(a: WellGaps, h: History, b: WellGaps, k: History)
    requires WellOk(a, h) && WellOk(b, k) && h.base == k.base && h.seen == k.seen
    ensures a.nextExpected == b.nextExpected
  {
  }

  /** Numbers that were spilled and have not arrived since. */
  function Lost(h: History): set<nat> {
    h.spilled - h.seen
  }

  /** The index is the exact set of missing numbers if and only if everything that
      was spilled has arrived since. */
  lemma CompleteIffNothingLost(w: WellGaps, h: History)
    requires WellOk(w, h)
    ensures (forall q :: Covers(w.open, q) <==> Missing(h, w.nextExpected, q)) <==> Lost(h) == {}
  {
    forall q: nat ensures Covers(w.open, q) <==> Missing(h, w.nextExpected, q) && q !in Lost(h) {
      assert Covers(w.open, q) <==> Missing(h, w.nextExpected, q) && q !in h.spilled;
    }
    if Lost(h) != {} {
      var q :| q in Lost(h);
      assert Missing(h, w.nextExpected, q) && !Covers(w.open, q);
    }
  }

  lemma ShapesAgreeIff(a: WellGaps, h: History, b: WellGaps, k: History)
    requires WellOk(a, h) && WellOk(b, k) && h.base == k.base && h.seen == k.seen
    ensures Shape(a.open) == Shape(b.open) <==> Lost(h) == Lost(k)
  {
    WatermarkIsDetermined(a, h, b, k);
    forall q: nat ensures Covers(a.open, q) <==> Missing(h, a.nextExpected, q) && q !in Lost(h) {
      assert Covers(a.open, q) <==> Missing(h, a.nextExpected, q) && q !in h.spilled;
    }
    forall q: nat ensures Covers(b.open, q) <==> Missing(h, a.nextExpected, q) && q !in Lost(k) {
      assert Covers(b.open, q) <==> Missing(k, b.nextExpected, q) && q !in k.spilled;
    }
    if Lost(h) == Lost(k) {
      RangesAreUnique(a, b, h.base);
    }
    if Shape(a.open) == Shape(b.open) {
      forall q: nat ensures Covers(a.open, q) <==> Covers(b.open, q) {
        assert forall s :: s in a.open ==> s in Shape(b.open) && Shape(b.open)[s] == Shape(a.open)[s];
        assert forall s :: s in b.open ==> s in Shape(a.open) && Shape(a.open)[s] == Shape(b.open)[s];
      }
      forall q: nat ensures q in Lost(h) <==> q in Lost(k) {
        assert Covers(a.open, q) <==> Covers(b.open, q);
      }
    }
  }

  /** Arrival order: the same arrivals from the same start, in any order, any number
      of times and at any times, leave the same epoch and watermark; and they leave
      the same ranges if and only if both lost the same numbers to full tables. */
  lemma OrderMattersOnlyThroughSpills(w: WellGaps, h: History, xs: seq<Arrival>, ys: seq<Arrival>)
    requires WellOk(w, h) && Contents(xs) == Contents(ys)
    ensures Run(w, xs).epoch == Run(w, ys).epoch
    ensures Run(w, xs).nextExpected == Run(w, ys).nextExpected
    ensures Shape(Run(w, xs).open) == Shape(Run(w, ys).open) <==>
            Lost(HistRun(h, w, xs)) == Lost(HistRun(h, w, ys))
  {
    hide WellOk, Run, HistRun, Shape, Lost;
    RunKeeps(w, h, xs);
    RunKeeps(w, h, ys);
    RunSummary(w, h, xs);
    RunSummary(w, h, ys);
    SameContentsSameSummary(w.epoch, xs, ys);
    WatermarkIsDetermined(Run(w, xs), HistRun(h, w, xs), Run(w, ys), HistRun(h, w, ys));
    ShapesAgreeIff(Run(w, xs), HistRun(h, w, xs), Run(w, ys), HistRun(h, w, ys));
  }

  /** While no range was spilled, arrival order does not matter at all. */
  lemma OrderIndependent(w: WellGaps, h: History, xs: seq<Arrival>, ys: seq<Arrival>)
    requires WellOk(w, h) && Contents(xs) == Contents(ys)
    requires Run(w, xs).untracked == 0 && Run(w, ys).untracked == 0
    ensures Run(w, xs).epoch == Run(w, ys).epoch
    ensures Run(w, xs).nextExpected == Run(w, ys).nextExpected
    ensures Shape(Run(w, xs).open) == Shape(Run(w, ys).open)
  {
    OrderMattersOnlyThroughSpills(w, h, xs, ys);
    RunKeeps(w, h, xs);
    RunKeeps(w, h, ys);
  }

  function OnlyEpoch(e: nat, xs: seq<Arrival>): seq<Arrival> {
    if xs == [] then []
    else
      var rest := OnlyEpoch(e, xs[..|xs| - 1]);
      if xs[|xs| - 1].epoch == e then rest + [xs[|xs| - 1]] else rest
  }

  lemma RunLast(w: WellGaps, xs: seq<Arrival>, x: Arrival)
    ensures Run(w, xs + [x]) == Observe(Run(w, xs), x.epoch, x.seqNo, x.atMs)
  {
    assert (xs + [x])[..|xs|] == xs;
  }

  /** Dead generations leave no trace: feeding only the newest epoch's arrivals
      gives the same accounting, spilled ranges and opening times included. */
  lemma {:induction false} OnlyNewestEpochCounts(w: WellGaps, xs: seq<Arrival>)
    ensures Run(w, xs) == Run(w, OnlyEpoch(TopEpoch(w.epoch, xs), xs))
  {
    hide Record;
    if xs != [] {
      var ys, x := xs[..|xs| - 1], xs[|xs| - 1];
      var top := TopEpoch(w.epoch, ys);
      RunSummary(w, History(0, {}, {}), ys);
      TopEpochBounds(w.epoch, ys);
      if x.epoch > top {
        NothingOfEpoch(w.epoch, x.epoch, ys);
        RunLast(w, [], x);
        assert OnlyEpoch(x.epoch, xs) == [] + [x];
      } else {
        OnlyNewestEpochCounts(w, ys);
        RunLast(w, OnlyEpoch(top, ys), x);
      }
    }
  }

  lemma {:induction false} NothingOfEpoch(start: nat, e: nat, xs: seq<Arrival>)
    requires TopEpoch(start, xs) < e
    ensures OnlyEpoch(e, xs) == []
  {
    if xs != [] {
      NothingOfEpoch(start, e, xs[..|xs| - 1]);
    }
  }
}

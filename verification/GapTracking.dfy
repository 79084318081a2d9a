/** The gap tracker as the object the ingest process keeps: every well's accounting
    updated in place, and two cumulative counters. */
module GapTracking {
  import opened Folds
  import opened Frames
  import opened GapModel
  import opened GapProofs

  /** A change together with the well it happened to. */
  datatype GapChange = GapChange(source: WellId, change: Change)

  function EntryOf(wells: map<WellId, WellGaps>, k: WellId, epoch: nat): WellGaps {
    if k in wells then wells[k] else Fresh(epoch, 1)
  }

  function Tagged(k: WellId, cs: seq<Change>): seq<GapChange> {
    seq(|cs|, i requires 0 <= i < |cs| => GapChange(k, cs[i]))
  }

  // ---- Accounting of one arrival ----

  function Load(w: WellGaps): nat {
    |w.open| + w.untracked
  }

  function OpenedBy(cs: seq<Change>): nat {
    if cs != [] && cs[0].Opened? then 1 else 0
  }

  function HealedBy(cs: seq<Change>): nat {
    if cs != [] && cs[0].Healed? then 1 else 0
  }

  /** One when the arrival falls strictly inside an open range. */
  function SplitBy(w: WellGaps, epoch: nat, q: nat): nat {
    var c := Current(w, epoch);
    var h := Holder(c.open, q);
    if epoch >= w.epoch && q < c.nextExpected && h.Some? && h.value < q < c.open[h.value].end then 1 else 0
  }

  /** Ranges thrown away because a newer generation resets the well. */
  function DiscardedBy(w: WellGaps, epoch: nat): nat {
    if epoch > w.epoch then Load(w) else 0
  }

  lemma FillBalances(w: WellGaps, base: nat, q: nat)
    requires Ranges(w, base) && q < w.nextExpected
    ensures var h := Holder(w.open, q);
            var split := if h.Some? && h.value < q < w.open[h.value].end then 1 else 0;
            var healedOne := if h == Some(q) && w.open[q].end == q then 1 else 0;
            |FillGap(w, q).open| + healedOne == |w.open| + split
  {
    HolderFinds(w, base, q);
    var h := Holder(w.open, q);
    if h.Some? {
      var s, r := h.value, w.open[h.value];
      var rest := w.open - {s};
      assert w.open == rest[s := r];
      assert |w.open| == |rest| + 1;
      var left := if s < q then rest[s := GapRange(q - 1, r.openedAtMs)] else rest;
      assert s < q ==> |left| == |rest| + 1;
      if q < r.end {
        assert q + 1 !in left;
      }
    }
  }

  /** Opened plus split ranges are healed, still open, or discarded. */
  lemma ArrivalBalances(w: WellGaps, h: History, epoch: nat, q: nat, now: nat)
    requires WellOk(w, h)
    ensures var cs := Changes(w, epoch, q, now);
            OpenedBy(cs) + SplitBy(w, epoch, q) + Load(w) ==
            HealedBy(cs) + Load(Observe(w, epoch, q, now)) + DiscardedBy(w, epoch)
  {
    var c := Current(w, epoch);
    if epoch >= w.epoch {
      var base := if epoch > w.epoch then 0 else h.base;
      assert Ranges(c, base);
      if q < c.nextExpected {
        FillBalances(c, base, q);
      } else if q > c.nextExpected && |c.open| < MAX_OPEN_PER_WELL {
        assert c.nextExpected !in c.open;
      }
    }
  }

  /** Open and spilled ranges over all wells. */
  ghost function OpenTotal(wells: map<WellId, WellGaps>): nat {
    Sum(wells, (_, w: WellGaps) => Load(w))
  }

  lemma OpenTotalSplit(wells: map<WellId, WellGaps>, k: WellId)
    requires k in wells
    ensures OpenTotal(wells) == Load(wells[k]) + OpenTotal(wells - {k})
  {
    SumSplit(wells, (_, w: WellGaps) => Load(w), k);
  }

  lemma OpenTotalUpdate(wells: map<WellId, WellGaps>, k: WellId, w: WellGaps)
    ensures OpenTotal(wells[k := w]) + (if k in wells then Load(wells[k]) else 0) ==
            OpenTotal(wells) + Load(w)
  {
    SumUpdate(wells, (_, v: WellGaps) => Load(v), k, w);
    if k in wells {
      OpenTotalSplit(wells, k);
    } else {
      assert wells - {k} == wells;
    }
  }

  ghost predicate AllOk(wells: map<WellId, WellGaps>, histories: map<WellId, History>) {
    && histories.Keys == wells.Keys
    && forall k :: k in wells ==> WellOk(wells[k], histories[k])
  }

  lemma ArrivalOk(wells: map<WellId, WellGaps>, histories: map<WellId, History>, k: WellId, h: History,
                  epoch: nat, q: nat, now: nat)
    requires AllOk(wells, histories)
    requires h == if k in wells then histories[k] else History(0, {}, {})
    ensures var w := EntryOf(wells, k, epoch);
            AllOk(wells[k := GapModel.Observe(w, epoch, q, now)], histories[k := HistObserve(h, w, epoch, q)])
  {
    FreshOk(epoch, 0);
    ObserveKeeps(EntryOf(wells, k, epoch), h, epoch, q, now);
  }

  /** The histories after an arrival. */
  ghost function Logged(histories: map<WellId, History>, wells: map<WellId, WellGaps>, k: WellId,
                        epoch: nat, q: nat): map<WellId, History> {
    var h := if k in histories then histories[k] else History(0, {}, {});
    histories[k := HistObserve(h, EntryOf(wells, k, epoch), epoch, q)]
  }

  lemma LoggedOk(wells: map<WellId, WellGaps>, histories: map<WellId, History>, k: WellId, epoch: nat, q: nat, now: nat)
    requires AllOk(wells, histories)
    ensures var w := EntryOf(wells, k, epoch);
            AllOk(wells[k := GapModel.Observe(w, epoch, q, now)], Logged(histories, wells, k, epoch, q))
  {
    hide GapModel.Observe, WellOk, HistObserve;
    ArrivalOk(wells, histories, k, if k in wells then histories[k] else History(0, {}, {}), epoch, q, now);
  }

  lemma LoggedBalances(wells: map<WellId, WellGaps>, histories: map<WellId, History>, k: WellId,
                       epoch: nat, q: nat, now: nat)
    requires AllOk(wells, histories)
    ensures var w := EntryOf(wells, k, epoch);
            var w' := GapModel.Observe(w, epoch, q, now);
            var cs := Changes(w, epoch, q, now);
            OpenedBy(cs) + SplitBy(w, epoch, q) + OpenTotal(wells) ==
            HealedBy(cs) + DiscardedBy(w, epoch) + OpenTotal(wells[k := w'])
  {
    hide GapModel.Observe, WellOk, Changes, SplitBy, DiscardedBy, OpenTotal, OpenedBy, HealedBy;
    var w := EntryOf(wells, k, epoch);
    FreshOk(epoch, 0);
    ArrivalBalances(w, if k in wells then histories[k] else History(0, {}, {}), epoch, q, now);
    OpenTotalUpdate(wells, k, GapModel.Observe(w, epoch, q, now));
  }

  // ---- Everything a tracker has been told ----

  datatype Signal =
    | Marked(source: WellId, epoch: nat, maxSeq: nat)
    | Heard(source: WellId, epoch: nat, seqNo: nat, atMs: nat)

  function WellsAfter(xs: seq<Signal>): map<WellId, WellGaps> {
    if xs == [] then map[] else Told(WellsAfter(xs[..|xs| - 1]), xs[|xs| - 1])
  }

  function Told(wells: map<WellId, WellGaps>, x: Signal): map<WellId, WellGaps> {
    match x
    case Marked(k, epoch, maxSeq) => if k in wells then wells else wells[k := Fresh(epoch, maxSeq + 1)]
    case Heard(k, epoch, q, now) => wells[k := GapModel.Observe(EntryOf(wells, k, epoch), epoch, q, now)]
  }

  ghost function LogsAfter(xs: seq<Signal>): map<WellId, History> {
    if xs == [] then map[]
    else
      var wells, logs := WellsAfter(xs[..|xs| - 1]), LogsAfter(xs[..|xs| - 1]);
      match xs[|xs| - 1]
      case Marked(k, _, maxSeq) => if k in wells then logs else logs[k := History(maxSeq, {}, {})]
      case Heard(k, epoch, q, _) => Logged(logs, wells, k, epoch, q)
  }

  /** Ranges reported opened, reported healed, split in two, and thrown away by a newer
      generation. */
  datatype Tally = Tally(opens: nat, heals: nat, splits: nat, discards: nat)

  function Tallied(t: Tally, wells: map<WellId, WellGaps>, x: Signal): Tally {
    match x
    case Marked(_, _, _) => t
    case Heard(k, epoch, q, now) =>
      var w := EntryOf(wells, k, epoch);
      var cs := Changes(w, epoch, q, now);
      Tally(t.opens + OpenedBy(cs), t.heals + HealedBy(cs),
            t.splits + SplitBy(w, epoch, q), t.discards + DiscardedBy(w, epoch))
  }

  function TallyOf(xs: seq<Signal>): Tally {
    if xs == [] then Tally(0, 0, 0, 0)
    else Tallied(TallyOf(xs[..|xs| - 1]), WellsAfter(xs[..|xs| - 1]), xs[|xs| - 1])
  }

  lemma LastSignal(xs: seq<Signal>, x: Signal)
    ensures WellsAfter(xs + [x]) == Told(WellsAfter(xs), x)
    ensures TallyOf(xs + [x]) == Tallied(TallyOf(xs), WellsAfter(xs), x)
    ensures x.Heard? ==> LogsAfter(xs + [x]) == Logged(LogsAfter(xs), WellsAfter(xs), x.source, x.epoch, x.seqNo)
    ensures x.Marked? ==>
              LogsAfter(xs + [x]) == if x.source in WellsAfter(xs) then LogsAfter(xs)
                                     else LogsAfter(xs)[x.source := History(x.maxSeq, {}, {})]
  {
    hide Told, Tallied, Logged;
    assert (xs + [x])[..|xs|] == xs;
  }

  lemma MarkBalances(wells: map<WellId, WellGaps>, histories: map<WellId, History>, k: WellId, epoch: nat, maxSeq: nat)
    requires AllOk(wells, histories) && k !in wells
    ensures AllOk(wells[k := Fresh(epoch, maxSeq + 1)], histories[k := History(maxSeq, {}, {})])
    ensures OpenTotal(wells[k := Fresh(epoch, maxSeq + 1)]) == OpenTotal(wells)
  {
    hide WellOk, OpenTotal;
    FreshOk(epoch, maxSeq);
    OpenTotalUpdate(wells, k, Fresh(epoch, maxSeq + 1));
  }

  /** Over every series of seeds and arrivals, over all wells: every well's ranges are
      exact, and ranges opened and split are healed, discarded, or still open. */
  lemma {:induction false} BooksBalance(xs: seq<Signal>)
    ensures AllOk(WellsAfter(xs), LogsAfter(xs))
    ensures var t := TallyOf(xs);
            t.opens + t.splits == t.heals + t.discards + OpenTotal(WellsAfter(xs))
  {
    hide AllOk, OpenTotal, Logged, EntryOf, Changes, SplitBy, DiscardedBy, OpenedBy, HealedBy;
    if xs == [] {
      NoWells();
    } else {
      var init, x := xs[..|xs| - 1], xs[|xs| - 1];
      var wells, logs := WellsAfter(init), LogsAfter(init);
      BooksBalance(init);
      match x
      case Marked(k, epoch, maxSeq) =>
        if k !in wells { MarkBalances(wells, logs, k, epoch, maxSeq); }
      case Heard(k, epoch, q, now) =>
        LoggedOk(wells, logs, k, epoch, q, now);
        LoggedBalances(wells, logs, k, epoch, q, now);
    }
  }

  lemma NoWells()
    ensures AllOk(map[], map[]) && OpenTotal(map[]) == 0
  {
  }

  class GapTracker {
    var wells: map<WellId, WellGaps>
    var openedTotal: nat
    var healedTotal: nat
    /** What each well's accounting has been through, and all the tracker was told. */
    ghost var histories: map<WellId, History>
    ghost var heard: seq<Signal>

    /** The tracker is where everything it was told leads, and every well's ranges are
        exact. */
    ghost predicate Valid()
      reads this
    {
      && wells == WellsAfter(heard) && histories == LogsAfter(heard)
      && openedTotal == TallyOf(heard).opens && healedTotal == TallyOf(heard).heals
      && AllOk(wells, histories)
    }

    constructor ()
      ensures Valid() && heard == [] && wells == map[] && openedTotal == 0 && healedTotal == 0
    {
      wells, openedTotal, healedTotal := map[], 0, 0;
      histories, heard := map[], [];
    }

    /** Ranges open now over all wells, spilled ones included; the order in which
        the table yields its entries is arbitrary. */
    method OpenNow() returns (total: nat)
      requires Valid()
      ensures total == OpenTotal(wells)
      ensures var t := TallyOf(heard);
              openedTotal + t.splits == healedTotal + t.discards + total
    {
      hide AllOk, OpenTotal, WellsAfter, LogsAfter, TallyOf;
      BooksBalance(heard);
      total := 0;
      var rest := wells;
      while rest != map[]
        invariant total + OpenTotal(rest) == OpenTotal(wells)
        decreases |rest|
      {
        var k :| k in rest;
        OpenTotalSplit(rest, k);
        total := total + |rest[k].open| + rest[k].untracked;
        rest := rest - {k};
      }
      NoWells();
    }

    /** Start a well's accounting from the durable store's watermark, unless the
        well is already known. */
    method Seed(pad: nat, well: nat, epoch: nat, maxSeq: nat)
      requires Valid()
      modifies this
      ensures Valid() && heard == old(heard) + [Marked(WellId(pad, well), epoch, maxSeq)]
      ensures openedTotal == old(openedTotal) && healedTotal == old(healedTotal)
      ensures var k := WellId(pad, well);
              if k in old(wells) then wells == old(wells) && histories == old(histories)
              else wells == old(wells)[k := Fresh(epoch, maxSeq + 1)]
                   && histories == old(histories)[k := History(maxSeq, {}, {})]
    {
      hide AllOk, WellsAfter, LogsAfter, TallyOf;
      var k := WellId(pad, well);
      LastSignal(heard, Marked(k, epoch, maxSeq));
      heard := heard + [Marked(k, epoch, maxSeq)];
      if k !in wells {
        MarkBalances(wells, histories, k, epoch, maxSeq);
        wells := wells[k := WellGaps(epoch, maxSeq + 1, map[], 0)];
        histories := histories[k := History(maxSeq, {}, {})];
      }
    }

    /** Account for one arrival in its well and report what that changed. */
    method Observe(pad: nat, well: nat, epoch: nat, seqNo: nat, nowMs: nat) returns (changes: seq<GapChange>)
      requires Valid()
      modifies this
      ensures Valid() && heard == old(heard) + [Heard(WellId(pad, well), epoch, seqNo, nowMs)]
      ensures var k := WellId(pad, well);
              var w := EntryOf(old(wells), k, epoch);
              var cs := Changes(w, epoch, seqNo, nowMs);
              && wells == old(wells)[k := GapModel.Observe(w, epoch, seqNo, nowMs)]
              && changes == Tagged(k, cs)
              && openedTotal == old(openedTotal) + OpenedBy(cs)
              && healedTotal == old(healedTotal) + HealedBy(cs)
      ensures histories == Logged(old(histories), old(wells), WellId(pad, well), epoch, seqNo)
    {
      hide Holder, Record, AllOk, Logged, WellsAfter, LogsAfter, TallyOf, SplitBy, DiscardedBy;
      var k := WellId(pad, well);
      LoggedOk(wells, histories, k, epoch, seqNo, nowMs);
      LastSignal(heard, Heard(k, epoch, seqNo, nowMs));
      var entry := if k in wells then wells[k] else WellGaps(epoch, 1, map[], 0);
      histories := Logged(histories, wells, k, epoch, seqNo);
      heard := heard + [Heard(k, epoch, seqNo, nowMs)];
      changes := [];
      if epoch < entry.epoch {
        assert wells[k := entry] == wells;
        return; // a straggler from a dead producer generation
      }
      if epoch > entry.epoch {
        entry := WellGaps(epoch, 1, map[], 0);
      }
      var cs;
      entry, cs := Arrive(entry, seqNo, nowMs);
      openedTotal := openedTotal + if cs != [] && cs[0].Opened? then 1 else 0;
      healedTotal := healedTotal + if cs != [] && cs[0].Healed? then 1 else 0;
      changes := Tagged(k, cs);
      wells := wells[k := entry];
    }

    /** The three cases of an arrival in its own epoch. */
    static method Arrive(w: WellGaps, seqNo: nat, nowMs: nat) returns (entry: WellGaps, changes: seq<Change>)
      ensures entry == Record(w, seqNo, nowMs)
      ensures changes == Changes(w, w.epoch, seqNo, nowMs)
    {
      entry, changes := w, [];
      if seqNo == entry.nextExpected {
        entry := entry.(nextExpected := entry.nextExpected + 1);
      } else if seqNo > entry.nextExpected {
        var from, to := entry.nextExpected, seqNo - 1;
        if |entry.open| < MAX_OPEN_PER_WELL {
          entry := entry.(open := entry.open[from := GapRange(to, nowMs)]);
        } else {
          entry := entry.(untracked := entry.untracked + 1);
        }
        changes := changes + [Opened(from, to)];
        entry := entry.(nextExpected := seqNo + 1);
      } else {
        // Late: it fills an open gap, or it is a duplicate.
        var start := Floor(entry.open, seqNo);
        if start.Some? && entry.open[start.value].end >= seqNo {
          var range := entry.open[start.value];
          entry := entry.(open := entry.open - {start.value});
          if start.value < seqNo {
            entry := entry.(open := entry.open[start.value := GapRange(seqNo - 1, range.openedAtMs)]);
          }
          if seqNo < range.end {
            entry := entry.(open := entry.open[seqNo + 1 := GapRange(range.end, range.openedAtMs)]);
          }
          if start.value == seqNo && range.end == seqNo {
            changes := changes + [Healed(start.value, range.end, SatSub(nowMs, range.openedAtMs))];
          }
        }
      }
    }
  }
}

/** One ingest process: the in-memory gap index and the durable table it accounts
    for, through sessions, successful flushes and flushes whose outcome is unknown. */
module IndexAgreement {
  import opened Folds
  import opened Frames
  import opened GapModel
  import opened GapProofs
  import opened Sink
  import opened GapTracking

  /** `unobserved` holds the keys of rows that a flush stored without the index having
      heard of them since. */
  datatype Process = Process(
    table: Table, wells: map<WellId, WellGaps>, histories: map<WellId, History>, unobserved: set<RowKey>)

  /** A commit that lands after its session gave up is `FlushUnknown` at the moment it
      lands. */
  datatype Event =
    | StartSession(marks: map<WellId, (nat, nat)>)
    | Flush(frames: seq<Frame>, now: nat)
    | FlushUnknown(frames: seq<Frame>, landed: bool)

  ghost predicate Enabled(p: Process, e: Event) {
    e.StartSession? ==> IsWatermarks(p.table, e.marks)
  }

  function FreshWells(newly: map<WellId, (nat, nat)>): map<WellId, WellGaps> {
    map k | k in newly :: Fresh(newly[k].0, newly[k].1 + 1)
  }

  function FreshHistories(newly: map<WellId, (nat, nat)>): map<WellId, History> {
    map k | k in newly :: History(newly[k].1, {}, {})
  }

  /** Seed every well of the store that the process does not know yet. */
  function Seeded(p: Process, marks: map<WellId, (nat, nat)>): Process {
    var newly := marks - p.wells.Keys;
    p.(wells := p.wells + FreshWells(newly),
       histories := p.histories + FreshHistories(newly),
       unobserved := set r | r in p.unobserved && r.id.source !in newly)
  }

  function Commit(p: Process, fs: seq<Frame>): Process {
    p.(table := InsertAll(p.table, fs), unobserved := p.unobserved + (KeysOf(fs) - p.table.Keys))
  }

  function ObserveFrame(p: Process, f: Frame, now: nat): Process {
    var k := WellOf(f);
    var w := EntryOf(p.wells, k, f.epoch);
    var h := HistoryOf(p, k);
    p.(wells := p.wells[k := GapModel.Observe(w, f.epoch, f.seqNo, now)],
       histories := p.histories[k := HistObserve(h, w, f.epoch, f.seqNo)],
       unobserved := p.unobserved - {KeyOf(f)})
  }

  function ObserveBatch(p: Process, fs: seq<Frame>, now: nat): Process {
    if fs == [] then p else ObserveFrame(ObserveBatch(p, fs[..|fs| - 1], now), fs[|fs| - 1], now)
  }

  /** Commit, account; an unknown outcome ends the session before the accounting. */
  function Step(p: Process, e: Event): Process {
    match e
    case StartSession(marks) => Seeded(p, marks)
    case Flush(fs, now) => ObserveBatch(Commit(p, fs), fs, now)
    case FlushUnknown(fs, landed) => if landed then Commit(p, fs) else p
  }

  // ---- The index agrees with the table ----

  /** A stored row is known to the index: of its own epoch and above the base it has
      been seen, and none is of a newer epoch. */
  ghost predicate Known(p: Process, r: RowKey) {
    var k := r.id.source;
    && k in p.wells && k in p.histories
    && r.id.epoch <= p.wells[k].epoch
    && (r.id.epoch == p.wells[k].epoch && r.id.seqNo > p.histories[k].base ==> r.id.seqNo in p.histories[k].seen)
  }

  ghost predicate Stored(t: Table, k: WellId, epoch: nat, q: nat) {
    exists r :: r in t && r.id == Identity(k, epoch, q)
  }

  /** What the index has seen of a well's current generation is in the table. */
  ghost predicate Backed(p: Process, k: WellId, q: nat) {
    k in p.wells && k in p.histories && q in p.histories[k].seen ==>
      Stored(p.table, k, p.wells[k].epoch, q)
  }

  ghost predicate Agrees(p: Process) {
    && AllOk(p.wells, p.histories)
    && (forall r :: r in p.table && r !in p.unobserved ==> Known(p, r))
    && (forall k, q :: Backed(p, k, q))
  }

  lemma CommitAgrees(p: Process, fs: seq<Frame>)
    requires Agrees(p)
    ensures Agrees(Commit(p, fs))
  {
    hide AllOk;
    var p' := Commit(p, fs);
    InsertKeeps(p.table, fs);
    forall r | r in p'.table && r !in p'.unobserved ensures Known(p', r) {
      assert Known(p, r);
    }
    forall k, q: nat ensures Backed(p', k, q) {
      assert Backed(p, k, q);
    }
  }

  /** The accounting a frame is recorded in, and its history. */
  function HistoryOf(p: Process, k: WellId): History {
    if k in p.histories then p.histories[k] else History(0, {}, {})
  }

  lemma FrameKnown(p: Process, f: Frame, now: nat, r: RowKey)
    requires p.wells.Keys == p.histories.Keys
    requires r != KeyOf(f) ==> Known(p, r)
    ensures Known(ObserveFrame(p, f, now), r)
  {
    var k := WellOf(f);
    ObserveSummary(EntryOf(p.wells, k, f.epoch), HistoryOf(p, k), f.epoch, f.seqNo, now);
    hide GapModel.Observe, HistObserve;
  }

  lemma FrameBacked(p: Process, f: Frame, now: nat, j: WellId, q: nat)
    requires p.wells.Keys == p.histories.Keys && KeyOf(f) in p.table
    requires Backed(p, j, q)
    ensures Backed(ObserveFrame(p, f, now), j, q)
  {
    var k, p' := WellOf(f), ObserveFrame(p, f, now);
    var w := EntryOf(p.wells, k, f.epoch);
    ObserveSummary(w, HistoryOf(p, k), f.epoch, f.seqNo, now);
    hide GapModel.Observe, HistObserve;
    if j == k && q == f.seqNo && f.epoch >= w.epoch {
      assert KeyOf(f).id == Identity(k, f.epoch, q);
      assert Stored(p.table, k, f.epoch, q);
    }
  }

  lemma FrameAgrees(p: Process, f: Frame, now: nat)
    requires Agrees(p) && KeyOf(f) in p.table
    ensures Agrees(ObserveFrame(p, f, now))
  {
    hide AllOk, Known, Backed, GapModel.Observe, HistObserve, EntryOf;
    KeysMatch(p);
    ArrivalOk(p.wells, p.histories, WellOf(f), HistoryOf(p, WellOf(f)), f.epoch, f.seqNo, now);
    var p' := ObserveFrame(p, f, now);
    forall r | r in p'.table && r !in p'.unobserved ensures Known(p', r) {
      FrameKnown(p, f, now, r);
    }
    forall j, q: nat ensures Backed(p', j, q) {
      FrameBacked(p, f, now, j, q);
    }
  }

  lemma KeysMatch(p: Process)
    requires AllOk(p.wells, p.histories)
    ensures p.wells.Keys == p.histories.Keys
  {
  }

  lemma {:induction false} BatchAgrees(p: Process, fs: seq<Frame>, now: nat)
    requires Agrees(p) && KeysOf(fs) <= p.table.Keys
    ensures Agrees(ObserveBatch(p, fs, now))
    ensures ObserveBatch(p, fs, now).table == p.table
    ensures ObserveBatch(p, fs, now).unobserved == p.unobserved - KeysOf(fs)
  {
    hide Agrees, EntryOf, HistObserve, GapModel.Observe;
    if fs != [] {
      var gs, f := fs[..|fs| - 1], fs[|fs| - 1];
      assert fs == gs + [f];
      KeysOfLast(gs, f);
      BatchAgrees(p, gs, now);
      FrameAgrees(ObserveBatch(p, gs, now), f, now);
    }
  }

  lemma SeedAllOk(p: Process, marks: map<WellId, (nat, nat)>)
    requires AllOk(p.wells, p.histories)
    ensures AllOk(Seeded(p, marks).wells, Seeded(p, marks).histories)
  {
    hide WellOk;
    var p' := Seeded(p, marks);
    forall k | k in p'.wells ensures WellOk(p'.wells[k], p'.histories[k]) {
      if k !in p.wells { FreshOk(marks[k].0, marks[k].1); }
    }
  }

  lemma SeedAgrees(p: Process, marks: map<WellId, (nat, nat)>)
    requires Agrees(p) && IsWatermarks(p.table, marks)
    ensures Agrees(Seeded(p, marks))
  {
    var p' := Seeded(p, marks);
    SeedAllOk(p, marks);
    hide AllOk, Known, Backed;
    forall r | r in p'.table && r !in p'.unobserved ensures Known(p', r) {
      SeedKnown(p, marks, r);
    }
    forall k, q: nat ensures Backed(p', k, q) {
      SeedBacked(p, marks, k, q);
    }
  }

  lemma SeedBacked(p: Process, marks: map<WellId, (nat, nat)>, k: WellId, q: nat)
    requires p.wells.Keys == p.histories.Keys && Backed(p, k, q)
    ensures Backed(Seeded(p, marks), k, q)
  {
    hide Stored;
  }

  lemma SeedKnown(p: Process, marks: map<WellId, (nat, nat)>, r: RowKey)
    requires Agrees(p) && IsWatermarks(p.table, marks)
    requires r in p.table && r !in Seeded(p, marks).unobserved
    ensures Known(Seeded(p, marks), r)
  {
    KeysMatch(p);
    hide AllOk;
    assert AtMost(r, marks[r.id.source]);
    if r.id.source in p.wells {
      assert Known(p, r);
    }
  }

  /** Every step keeps the index and the table in agreement; a successful flush also
      settles the keys it carries. */
  lemma StepAgrees(p: Process, e: Event)
    requires Agrees(p) && Enabled(p, e)
    ensures Agrees(Step(p, e))
    ensures e.Flush? ==> Step(p, e).unobserved == p.unobserved - KeysOf(e.frames)
  {
    hide Agrees;
    match e
    case StartSession(marks) => SeedAgrees(p, marks);
    case Flush(fs, now) =>
      CommitAgrees(p, fs);
      InsertKeeps(p.table, fs);
      BatchAgrees(Commit(p, fs), fs, now);
    case FlushUnknown(fs, landed) => CommitAgrees(p, fs);
  }

  function Run(p: Process, es: seq<Event>): Process {
    if es == [] then p else Step(Run(p, es[..|es| - 1]), es[|es| - 1])
  }

  ghost predicate Runs(p: Process, es: seq<Event>) {
    forall i :: 0 <= i < |es| ==> Enabled(Run(p, es[..i]), es[i])
  }

  /** A process starts with no accounting and whatever its predecessors stored, and
      seeds from the store before it consumes. */
  function Boot(t: Table): Process {
    Process(t, map[], map[], t.Keys)
  }

  lemma {:induction false} RunAgrees(t: Table, es: seq<Event>)
    requires Runs(Boot(t), es)
    ensures Agrees(Run(Boot(t), es))
  {
    if es != [] {
      var init := es[..|es| - 1];
      assert forall i :: 0 <= i <= |init| ==> init[..i] == es[..i];
      RunAgrees(t, init);
      StepAgrees(Run(Boot(t), init), es[|es| - 1]);
    }
  }

  /** A process that seeds first and whose flushes all have a known outcome leaves
      nothing unobserved. */
  lemma {:induction false} KnownOutcomesAreObserved(t: Table, es: seq<Event>)
    requires es != [] && es[0].StartSession? && Runs(Boot(t), es)
    requires forall i :: 0 <= i < |es| ==> es[i].FlushUnknown? ==> !es[i].landed
    ensures Run(Boot(t), es).unobserved == {}
  {
    var init := es[..|es| - 1];
    assert forall i :: 0 <= i <= |init| ==> init[..i] == es[..i];
    RunAgrees(t, init);
    StepAgrees(Run(Boot(t), init), es[|es| - 1]);
    hide Agrees, Commit, ObserveBatch;
    if init == [] {
      assert Run(Boot(t), es) == Seeded(Boot(t), es[0].marks);
    } else {
      KnownOutcomesAreObserved(t, init);
    }
  }

  // ---- Counting ----

  /** Total length of the open ranges. */
  ghost function OpenLength(open: map<nat, GapRange>): nat {
    Sum(open, (s: nat, r: GapRange) => SatSub(r.end + 1, s))
  }

  lemma {:induction false} BetweenSize(lo: nat, hi: nat)
    ensures |Between(lo, hi)| == SatSub(hi, lo)
  {
    if lo < hi { BetweenSize(lo, hi - 1); }
  }

  lemma OpenLengthSplit(open: map<nat, GapRange>, k: nat)
    requires k in open
    ensures OpenLength(open) == SatSub(open[k].end + 1, k) + OpenLength(open - {k})
  {
    SumSplit(open, (s: nat, r: GapRange) => SatSub(r.end + 1, s), k);
  }

  lemma SetSplit(s: set<nat>, part: set<nat>)
    requires part <= s
    ensures |s| == |s - part| + |part|
  {
    assert s == (s - part) + part;
  }

  /** Take an interval out of a set that contains it. */
  lemma IntervalOut(s: set<nat>, lo: nat, hi: nat) returns (rest: set<nat>)
    requires forall q :: lo <= q < hi ==> q in s
    ensures |s| == SatSub(hi, lo) + |rest|
    ensures forall q :: q in rest <==> q in s && !(lo <= q < hi)
  {
    BetweenSize(lo, hi);
    SetSplit(s, Between(lo, hi));
    rest := s - Between(lo, hi);
  }

  /** Take one range's numbers out of the covered set. */
  lemma RangeOut(w: WellGaps, base: nat, s: set<nat>, k: nat) returns (rest: set<nat>)
    requires Ranges(w, base) && k in w.open
    requires forall q :: q in s <==> Covers(w.open, q)
    ensures |s| == SatSub(w.open[k].end + 1, k) + |rest|
    ensures forall q :: q in rest <==> Covers(w.open - {k}, q)
  {
    forall q: nat ensures k <= q < w.open[k].end + 1 ==> q in s {
      assert k <= q <= w.open[k].end ==> Covers(w.open, q);
    }
    rest := IntervalOut(s, k, w.open[k].end + 1);
    forall q: nat ensures q in rest <==> Covers(w.open - {k}, q) {
      CoversWithout(w, base, k, q);
    }
  }

  lemma {:induction false} LengthIsCount(w: WellGaps, base: nat, s: set<nat>)
    requires Ranges(w, base)
    requires forall q :: q in s <==> Covers(w.open, q)
    ensures OpenLength(w.open) == |s|
    decreases |w.open|
  {
    if w.open == map[] {
      assert s == {};
    } else {
      hide OpenLength, Covers;
      var k :| k in w.open;
      var rest := RangeOut(w, base, s, k);
      OpenLengthSplit(w.open, k);
      LengthIsCount(w.(open := w.open - {k}), base, rest);
    }
  }

  /** Stored rows of one generation of one well, above a sequence number. */
  ghost function RowsAbove(t: Table, k: WellId, epoch: nat, b: nat): set<RowKey> {
    set r | r in t && r.id.source == k && r.id.epoch == epoch && r.id.seqNo > b
  }

  ghost function Numbers(rs: set<RowKey>): set<nat> {
    set r | r in rs :: r.id.seqNo
  }

  /** Highest stored number of the generation, or the base when that is higher. */
  ghost function HighMark(t: Table, k: WellId, epoch: nat, b: nat): nat {
    Greatest(Numbers(RowsAbove(t, k, epoch, b)) + {b})
  }

  /** One event time per identity, as the generator guarantees. */
  ghost predicate OneTimePerIdentity(t: Table) {
    forall r, s :: r in t && s in t && r.id == s.id ==> r == s
  }

  lemma {:induction false} NumbersCountRows(rs: set<RowKey>)
    requires forall r, s :: r in rs && s in rs && r.id.seqNo == s.id.seqNo ==> r == s
    ensures |Numbers(rs)| == |rs|
    decreases rs
  {
    if rs != {} {
      var r :| r in rs;
      NumbersCountRows(rs - {r});
      assert Numbers(rs) == Numbers(rs - {r}) + {r.id.seqNo};
    }
  }

  /** What the index has seen above the base is what the table stores above it. */
  lemma SeenIsStored(p: Process, k: WellId)
    requires Agrees(p) && k in p.wells
    requires forall r :: r in p.unobserved ==> r.id.source != k
    ensures forall q :: q > p.histories[k].base ==>
              (q in p.histories[k].seen <==>
               q in Numbers(RowsAbove(p.table, k, p.wells[k].epoch, p.histories[k].base)))
  {
    KeysMatch(p);
    hide AllOk;
    var e, h := p.wells[k].epoch, p.histories[k];
    forall q | q > h.base
      ensures q in h.seen <==> q in Numbers(RowsAbove(p.table, k, e, h.base))
    {
      if q in h.seen {
        assert Backed(p, k, q);
        var r :| r in p.table && r.id == Identity(k, e, q);
        assert r in RowsAbove(p.table, k, e, h.base);
      }
      if q in Numbers(RowsAbove(p.table, k, e, h.base)) {
        var r :| r in RowsAbove(p.table, k, e, h.base) && r.id.seqNo == q;
        assert Known(p, r);
      }
    }
  }

  lemma MissingNumbers(w: WellGaps, h: History, ns: set<nat>, q: nat)
    requires Exact(w, h) && h.spilled == {}
    requires forall q :: q > h.base ==> (q in h.seen <==> q in ns)
    ensures q in Between(h.base + 1, w.nextExpected) - ns <==> Covers(w.open, q)
  {
    assert Covers(w.open, q) <==> Missing(h, w.nextExpected, q) && q !in h.spilled;
  }

  lemma MissingCount(w: WellGaps, h: History, ns: set<nat>)
    requires WellOk(w, h) && h.spilled == {}
    requires forall q :: q > h.base ==> (q in h.seen <==> q in ns)
    requires forall q :: q in ns ==> q > h.base
    ensures w.nextExpected - 1 == Greatest(ns + {h.base})
    ensures OpenLength(w.open) == w.nextExpected - 1 - h.base - |ns|
  {
    hide Covers, OpenLength, Exact, Ranges, Between;
    forall q: nat ensures q in Between(h.base + 1, w.nextExpected) - ns <==> Covers(w.open, q) {
      MissingNumbers(w, h, ns, q);
    }
    LengthIsCount(w, h.base, Between(h.base + 1, w.nextExpected) - ns);
    WindowWithout(h.base + 1, w.nextExpected, ns);
    assert w.nextExpected - 1 in ns + {h.base};
  }

  lemma WindowWithout(lo: nat, hi: nat, ns: set<nat>)
    requires lo <= hi && forall q :: q in ns ==> lo <= q < hi
    ensures |Between(lo, hi) - ns| == hi - lo - |ns|
  {
    BetweenSize(lo, hi);
    SetSplit(Between(lo, hi), ns);
  }

  /** The incremental index and the durable table count the same holes: when nothing
      of the well is unobserved and no range was spilled, the open ranges add up to
      the numbers between the base and the highest stored one that are not stored. */
  lemma IndexCountsTheTablesHoles(p: Process, k: WellId)
    requires Agrees(p) && k in p.wells && OneTimePerIdentity(p.table)
    requires p.wells[k].untracked == 0
    requires forall r :: r in p.unobserved ==> r.id.source != k
    ensures var (e, b) := (p.wells[k].epoch, p.histories[k].base);
            && p.wells[k].nextExpected == HighMark(p.table, k, e, b) + 1
            && OpenLength(p.wells[k].open) == HighMark(p.table, k, e, b) - b - |RowsAbove(p.table, k, e, b)|
  {
    var w, h := p.wells[k], p.histories[k];
    var rs := RowsAbove(p.table, k, w.epoch, h.base);
    assert WellOk(w, h);
    SeenIsStored(p, k);
    NumbersCountRows(rs);
    MissingCount(w, h, Numbers(rs));
  }
}

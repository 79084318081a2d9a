/** What both consume loops do with the gap tracker and the counters: seeding from the
    durable store, and accounting for a committed batch. */
module Accounting {
  import opened Frames
  import opened Sink
  import opened GapTracking
  import opened IndexAgreement
  import GM = GapModel

  datatype Counters = Counters(
    consumed: nat, redeliveries: nat, poison: nat, inserted: nat, dupDropped: nat, batches: nat)

  /** What a flush is to the index and the table. */
  function FlushEvent(batch: seq<Frame>, now: nat, outcome: TxOutcome): IndexAgreement.Event {
    match outcome
    case Committed => IndexAgreement.Event.Flush(batch, now)
    case RolledBack => FlushUnknown(batch, false)
    case CommittedUnreported => FlushUnknown(batch, true)
  }

  /** One delivery more; poison is counted and goes no further. */
  function Accepted(c: Counters, body: Payload, redelivered: bool): Counters {
    c.(consumed := c.consumed + 1,
       redeliveries := c.redeliveries + if redelivered then 1 else 0,
       poison := c.poison + if Usable(body) then 0 else 1)
  }

  /** A series of deliveries, each with its redelivery flag. */
  function AcceptedAll(c: Counters, ds: seq<(Payload, bool)>): Counters {
    if ds == [] then c
    else Accepted(AcceptedAll(c, ds[..|ds| - 1]), ds[|ds| - 1].0, ds[|ds| - 1].1)
  }

  /** The positions of the deliveries that were flagged, and of those that were poison. */
  function Flagged(ds: seq<(Payload, bool)>): set<nat> {
    set i | 0 <= i < |ds| && ds[i].1
  }

  function Poisoned(ds: seq<(Payload, bool)>): set<nat> {
    set i | 0 <= i < |ds| && !(ds[i].0.Json? && IsValid(ds[i].0.frame))
  }

  lemma NoDeliveries()
    ensures Flagged([]) == {} && Poisoned([]) == {}
  {
  }

  lemma FlaggedLast(ds: seq<(Payload, bool)>)
    requires ds != []
    ensures var n := |ds| - 1;
            |Flagged(ds)| == |Flagged(ds[..n])| + if ds[n].1 then 1 else 0
  {
    var n := |ds| - 1;
    assert Flagged(ds) == Flagged(ds[..n]) + if ds[n].1 then {n} else {};
  }

  lemma PoisonedLast(ds: seq<(Payload, bool)>)
    requires ds != []
    ensures var n := |ds| - 1;
            |Poisoned(ds)| == |Poisoned(ds[..n])| + if Usable(ds[n].0) then 0 else 1
  {
    hide IsValid;
    var n := |ds| - 1;
    assert Poisoned(ds) == Poisoned(ds[..n]) + if Usable(ds[n].0) then {} else {n};
  }

  /** Deliveries are counted one by one: all as consumed, the flagged as redelivered, those
      that are no valid frame as poison, and nothing else moves. */
  lemma {:induction false} DeliveriesAreCounted(c: Counters, ds: seq<(Payload, bool)>)
    ensures var d := AcceptedAll(c, ds);
            && d.consumed == c.consumed + |ds|
            && d.redeliveries == c.redeliveries + |Flagged(ds)|
            && d.poison == c.poison + |Poisoned(ds)|
            && d.inserted == c.inserted && d.dupDropped == c.dupDropped && d.batches == c.batches
  {
    hide IsValid, Flagged, Poisoned;
    if ds == [] {
      NoDeliveries();
    } else {
      var n := |ds| - 1;
      DeliveriesAreCounted(c, ds[..n]);
      FlaggedLast(ds);
      PoisonedLast(ds);
    }
  }

  /** The counters after a flush, whatever its outcome. */
  ghost predicate CountedIf(c: Counters, d: Counters, batch: seq<Frame>, rows: Table, outcome: TxOutcome) {
    if outcome == Committed then Counted(c, d, batch, rows) else d == c
  }

  /** Only a reported commit counts: new rows as inserted, the rest of the batch as
      absorbed duplicates. */
  ghost predicate Counted(c: Counters, d: Counters, batch: seq<Frame>, rows: Table) {
    && d.inserted == c.inserted + |KeysOf(batch) - rows.Keys|
    && d.inserted + d.dupDropped == c.inserted + c.dupDropped + |batch|
    && d.batches == c.batches + 1
    && d.consumed == c.consumed && d.poison == c.poison && d.redeliveries == c.redeliveries
  }

  lemma FlushSteps(p: Process, batch: seq<Frame>, now: nat)
    ensures Step(p, FlushEvent(batch, now, Committed)) == ObserveBatch(Commit(p, batch), batch, now)
    ensures Step(p, FlushEvent(batch, now, RolledBack)) == p
    ensures Step(p, FlushEvent(batch, now, CommittedUnreported)) == Commit(p, batch)
    ensures ObserveBatch(Commit(p, batch), batch, now).table == InsertAll(p.table, batch)
  {
    hide InsertAll, ObserveFrame;
    BatchTable(Commit(p, batch), batch, now);
  }

  lemma {:induction false} BatchTable(p: Process, batch: seq<Frame>, now: nat)
    ensures ObserveBatch(p, batch, now).table == p.table
  {
    if batch != [] {
      BatchTable(p, batch[..|batch| - 1], now);
    }
  }

  /** The tracker holds what the process knows. */
  ghost predicate Tracks(gaps: GapTracker, p: Process)
    reads gaps
  {
    gaps.Valid() && gaps.wells == p.wells && gaps.histories == p.histories
  }

  /** Seed every well of the store; the order in which the marks come does not matter. */
  method SeedFrom(gaps: GapTracker, marks: map<WellId, (nat, nat)>, ghost start: Process)
    requires Tracks(gaps, start)
    modifies gaps
    ensures Tracks(gaps, Seeded(start, marks))
    ensures Seeded(start, marks).table == start.table
  {
    var rest := marks.Keys;
    ghost var newly: map<WellId, (nat, nat)> := map[];
    SeededNone(start, marks);
    hide GapTracker.Valid, Seeded, SeededWith, Reached;
    while rest != {}
      invariant gaps.Valid() && rest <= marks.Keys
      invariant SeededWith(start, newly, gaps.wells, gaps.histories)
      invariant Reached(start, marks, rest, newly)
      decreases rest
    {
      var k :| k in rest;
      ReachedOne(start, marks, rest, newly, gaps.wells, gaps.histories, k);
      SeededOne(start, newly, gaps.wells, gaps.histories, k, marks[k]);
      newly := if k in gaps.wells then newly else newly[k := marks[k]];
      gaps.Seed(k.pad, k.well, marks[k].0, marks[k].1);
      rest := rest - {k};
    }
    SeededAll(start, marks, newly, gaps.wells, gaps.histories);
  }

  /** What the gap tracker is told of a batch: each frame once, in the order of the batch. */
  function Signals(frames: seq<Frame>, nowMs: nat): (xs: seq<Signal>)
    ensures |xs| == |frames|
  {
    seq(|frames|, i requires 0 <= i < |frames| =>
      Heard(WellId(frames[i].pad, frames[i].well), frames[i].epoch, frames[i].seqNo, nowMs))
  }

  lemma SignalsMore(frames: seq<Frame>, i: nat, nowMs: nat)
    requires i < |frames|
    ensures var f := frames[i];
            Signals(frames[..i + 1], nowMs) ==
            Signals(frames[..i], nowMs) + [Heard(WellId(f.pad, f.well), f.epoch, f.seqNo, nowMs)]
  {
  }

  /** Tell the gap tracker of every frame of a batch, in order. */
  method AccountFrames(gaps: GapTracker, frames: seq<Frame>, nowMs: nat, ghost start: Process)
    returns (ghost p: Process)
    requires Tracks(gaps, start)
    modifies gaps
    ensures p == ObserveBatch(start, frames, nowMs) && Tracks(gaps, p)
    ensures gaps.heard == old(gaps.heard) + Signals(frames, nowMs)
  {
    hide GapTracker.Valid, ObserveFrame, EntryOf, Logged, Tagged, OpenedBy, HealedBy, GM.Observe, GM.Changes, Signals;
    p := start;
    for i := 0 to |frames|
      invariant Tracks(gaps, p) && p == ObserveBatch(start, frames[..i], nowMs)
      invariant gaps.heard == old(gaps.heard) + Signals(frames[..i], nowMs)
    {
      assert frames[..i + 1][..i] == frames[..i];
      var f := frames[i];
      ObservedFrame(p, f, nowMs);
      SignalsMore(frames, i, nowMs);
      var changes := gaps.Observe(f.pad, f.well, f.epoch, f.seqNo, nowMs);
      p := ObserveFrame(p, f, nowMs);
    }
    assert frames[..|frames|] == frames;
  }

  /** One frame's accounting, field by field. */
  lemma ObservedFrame(p: Process, f: Frame, now: nat)
    ensures ObserveFrame(p, f, now) ==
            Process(p.table,
                    p.wells[WellOf(f) := GM.Observe(EntryOf(p.wells, WellOf(f), f.epoch), f.epoch, f.seqNo, now)],
                    Logged(p.histories, p.wells, WellOf(f), f.epoch, f.seqNo),
                    p.unobserved - {KeyOf(f)})
  {
    hide GM.Observe, GM.HistObserve, EntryOf;
  }

  // ---- Seeding mark by mark ----

  ghost predicate SeededWith(p: Process, newly: map<WellId, (nat, nat)>,
                             wells: map<WellId, GM.WellGaps>, histories: map<WellId, GM.History>) {
    wells == p.wells + FreshWells(newly) && histories == p.histories + FreshHistories(newly)
  }

  /** Every unknown mark but those of `rest` has been seeded. */
  ghost predicate Reached(p: Process, marks: map<WellId, (nat, nat)>, rest: set<WellId>,
                          newly: map<WellId, (nat, nat)>) {
    && (forall k :: k in newly <==> k in marks && k !in rest && k !in p.wells)
    && (forall k :: k in newly ==> newly[k] == marks[k])
  }

  lemma SeededNone(p: Process, marks: map<WellId, (nat, nat)>)
    ensures SeededWith(p, map[], p.wells, p.histories) && Reached(p, marks, marks.Keys, map[])
  {
  }

  lemma SeededAll(p: Process, marks: map<WellId, (nat, nat)>, newly: map<WellId, (nat, nat)>,
                  wells: map<WellId, GM.WellGaps>, histories: map<WellId, GM.History>)
    requires SeededWith(p, newly, wells, histories) && Reached(p, marks, {}, newly)
    ensures wells == Seeded(p, marks).wells && histories == Seeded(p, marks).histories
    ensures Seeded(p, marks).table == p.table
  {
    assert newly == marks - p.wells.Keys;
  }

  lemma SeededKeys(p: Process, newly: map<WellId, (nat, nat)>,
                   wells: map<WellId, GM.WellGaps>, histories: map<WellId, GM.History>, k: WellId)
    requires SeededWith(p, newly, wells, histories)
    ensures k in wells <==> k in p.wells || k in newly
  {
  }

  lemma ReachedOne(p: Process, marks: map<WellId, (nat, nat)>, rest: set<WellId>, newly: map<WellId, (nat, nat)>,
                   wells: map<WellId, GM.WellGaps>, histories: map<WellId, GM.History>, k: WellId)
    requires SeededWith(p, newly, wells, histories) && Reached(p, marks, rest, newly) && k in rest && k in marks
    ensures Reached(p, marks, rest - {k}, if k in wells then newly else newly[k := marks[k]])
  {
    SeededKeys(p, newly, wells, histories, k);
    hide SeededWith;
  }

  lemma SeededOne(p: Process, newly: map<WellId, (nat, nat)>,
                  wells: map<WellId, GM.WellGaps>, histories: map<WellId, GM.History>, k: WellId, m: (nat, nat))
    requires SeededWith(p, newly, wells, histories)
    ensures SeededWith(p, newly[k := m], wells[k := GM.Fresh(m.0, m.1 + 1)], histories[k := GM.History(m.1, {}, {})])
  {
    FreshMore(newly, k, m);
    hide FreshWells, FreshHistories;
    PlusOne(p.wells, FreshWells(newly), k, GM.Fresh(m.0, m.1 + 1));
    PlusOne(p.histories, FreshHistories(newly), k, GM.History(m.1, {}, {}));
  }

  lemma PlusOne<K, V>(a: map<K, V>, b: map<K, V>, k: K, v: V)
    ensures a + b[k := v] == (a + b)[k := v]
  {
  }

  lemma FreshMore(newly: map<WellId, (nat, nat)>, k: WellId, m: (nat, nat))
    ensures FreshWells(newly[k := m]) == FreshWells(newly)[k := GM.Fresh(m.0, m.1 + 1)]
    ensures FreshHistories(newly[k := m]) == FreshHistories(newly)[k := GM.History(m.1, {}, {})]
  {
  }
}

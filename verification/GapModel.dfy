/** Per-well sequence accounting as a function on values: what one arrival does
    to a well's watermark and open gap ranges, and what the ranges mean. */
module GapModel {
  import opened Folds

  const MAX_OPEN_PER_WELL: nat := 1024

  datatype GapRange = GapRange(end: nat, openedAtMs: nat)

  datatype WellGaps = WellGaps(
    epoch: nat, nextExpected: nat, open: map<nat, GapRange>, untracked: nat)

  /** What an arrival changed, in the order the tracker reports it. */
  datatype Change = Opened(from: nat, to: nat) | Healed(from: nat, to: nat, afterMs: nat)

  function Fresh(epoch: nat, nextExpected: nat): WellGaps {
    WellGaps(epoch, nextExpected, map[], 0)
  }

  /** The greatest range start at or below `q`, as an ordered map finds it. */
  function Floor(open: map<nat, GapRange>, q: nat): (r: Option<nat>)
    ensures r.Some? ==> r.value in open && r.value <= q
    ensures forall s :: s in open && s <= q ==> r.Some? && s <= r.value
  {
    if q in open then Some(q) else if q == 0 then None else Floor(open, q - 1)
  }

  /** The range that holds `q`, found by its predecessor alone. */
  function Holder(open: map<nat, GapRange>, q: nat): Option<nat> {
    var s := Floor(open, q);
    if s.Some? && open[s.value].end >= q then s else None
  }

  function SatSub(a: nat, b: nat): nat {
    if a >= b then a - b else 0
  }

  /** A late arrival: shrink, split or heal the range that holds it, if any. */
  function FillGap(w: WellGaps, q: nat): WellGaps {
    var h := Holder(w.open, q);
    if h.None? then w
    else
      var s, r := h.value, w.open[h.value];
      var rest := w.open - {s};
      var left := if s < q then rest[s := GapRange(q - 1, r.openedAtMs)] else rest;
      w.(open := if q < r.end then left[q + 1 := GapRange(r.end, r.openedAtMs)] else left)
  }

  /** An arrival of the well's own epoch. */
  function Record(w: WellGaps, q: nat, now: nat): WellGaps {
    if q == w.nextExpected then w.(nextExpected := q + 1)
    else if q > w.nextExpected then
      if |w.open| < MAX_OPEN_PER_WELL then
        w.(open := w.open[w.nextExpected := GapRange(q - 1, now)], nextExpected := q + 1)
      else w.(untracked := w.untracked + 1, nextExpected := q + 1)
    else FillGap(w, q)
  }

  /** The accounting an arrival of `epoch` is recorded in, unless it is stale. */
  function Current(w: WellGaps, epoch: nat): WellGaps {
    if epoch > w.epoch then Fresh(epoch, 1) else w
  }

  function Observe(w: WellGaps, epoch: nat, q: nat, now: nat): WellGaps {
    if epoch < w.epoch then w else Record(Current(w, epoch), q, now)
  }

  /** What `Observe` reports. */
  function Changes(w: WellGaps, epoch: nat, q: nat, now: nat): seq<Change> {
    var c := Current(w, epoch);
    if epoch < w.epoch then []
    else if q > c.nextExpected then [Opened(c.nextExpected, q - 1)]
    else if q < c.nextExpected && Holder(c.open, q) == Some(q) && c.open[q].end == q then
      [Healed(q, q, SatSub(now, c.open[q].openedAtMs))]
    else []
  }

  // ---- What the ranges mean ----

  ghost predicate Covers(open: map<nat, GapRange>, q: nat) {
    exists s :: s in open && s <= q <= open[s].end
  }

  /** What a well has been through in its current epoch: the watermark it began
      from, the sequence numbers that arrived, and those inside ranges that were
      reported while the range table was full. */
  datatype History = History(base: nat, seen: set<nat>, spilled: set<nat>)

  function HistRecord(h: History, w: WellGaps, q: nat): History {
    var spill :=
      if q > w.nextExpected && |w.open| >= MAX_OPEN_PER_WELL then Between(w.nextExpected, q) else {};
    h.(seen := h.seen + {q}, spilled := h.spilled + spill)
  }

  function HistObserve(h: History, w: WellGaps, epoch: nat, q: nat): History {
    if epoch < w.epoch then h
    else HistRecord(if epoch > w.epoch then History(0, {}, {}) else h, Current(w, epoch), q)
  }

  /** The well should have received `q` by now and has not. */
  ghost predicate Missing(h: History, nextExpected: nat, q: nat) {
    h.base < q < nextExpected && q !in h.seen
  }

  /** Ranges are non-empty, strictly above the base, end below the watermark by
      at least one received number, and no two of them touch. */
  ghost predicate Ranges(w: WellGaps, base: nat) {
    && (forall s :: s in w.open ==> base < s <= w.open[s].end && w.open[s].end + 2 <= w.nextExpected)
    && (forall s, t :: s in w.open && t in w.open && s < t ==> w.open[s].end + 2 <= t)
  }

  /** The watermark is the highest arrival plus one, or the base plus one. */
  ghost predicate Marks(w: WellGaps, h: History) {
    && h.base < w.nextExpected
    && (w.nextExpected == h.base + 1 || w.nextExpected - 1 in h.seen)
    && (forall q :: q in h.seen ==> q < w.nextExpected)
    && (forall q :: q in h.spilled ==> h.base < q < w.nextExpected)
    && (w.untracked == 0 ==> h.spilled == {})
  }

  /** The open ranges hold exactly the missing numbers that were not spilled. */
  ghost predicate Exact(w: WellGaps, h: History) {
    forall q :: Covers(w.open, q) <==> Missing(h, w.nextExpected, q) && q !in h.spilled
  }

  /** The invariant of one well. */
  ghost predicate WellOk(w: WellGaps, h: History) {
    Marks(w, h) && Ranges(w, h.base) && Exact(w, h)
  }
}

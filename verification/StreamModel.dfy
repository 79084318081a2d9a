/** The stream publisher as values: publishing ids, the unordered window of frames in
    flight, and retransmits that reuse their id. */
module StreamModel {
  import opened Frames
  import opened UplinkModel

  datatype Slot = Slot(frame: Frame, dup: bool, sentAt: nat)

  /** `bound` logs what each publishing id was given to, so the next id is its length;
      `retryIds` is a stack. The books say what was accepted and dropped, which
      duplicates were injected, and which ids of ordinary frames were confirmed. */
  datatype Edge = Edge(
    up: Uplink, retryIds: seq<(Frame, nat)>, inflight: map<nat, Slot>, bound: seq<(Frame, bool)>,
    received: multiset<Frame>, dropped: multiset<Frame>, injected: multiset<Frame>, settled: set<nat>)

  const PUBLISH_BATCH: nat := 128
  const CONFIRM_TIMEOUT_MS: nat := 10_000

  function Boot(pads: nat, cap: nat): Edge {
    Edge(Start(pads, cap), [], map[], [], multiset{}, multiset{}, multiset{}, {})
  }

  function Receive(e: Edge, f: Frame): Edge {
    e.(up := BufferFrame(e.up, f), received := e.received + multiset{f},
       dropped := e.dropped + multiset(Victims(e.up, f)))
  }

  // ---- One batch of the pump ----

  /** The newest retransmit goes back in flight under its own id. */
  function PopRetry(e: Edge, now: nat): Edge
    requires e.retryIds != []
  {
    var (f, id) := e.retryIds[|e.retryIds| - 1];
    e.(retryIds := e.retryIds[..|e.retryIds| - 1], inflight := e.inflight[id := Slot(f, false, now)])
  }

  /** A fresh frame takes the next id. */
  function Bind(e: Edge, v: Uplink, p: (Frame, bool), now: nat): Edge {
    e.(up := v, inflight := e.inflight[|e.bound| := Slot(p.0, p.1, now)], bound := e.bound + [p])
  }

  function TakeRetries(e: Edge, room: nat, n: nat, now: nat -> nat): (r: (Edge, seq<nat>))
    ensures |r.1| <= room
    decreases room
  {
    if room == 0 || e.retryIds == [] then (e, [])
    else
      var (r, ids) := TakeRetries(PopRetry(e, now(n)), room - 1, n + 1, now);
      (r, [e.retryIds[|e.retryIds| - 1].1] + ids)
  }

  function TakeFresh(e: Edge, room: nat, n: nat, faults: nat -> Faults, now: nat -> nat): (Edge, seq<nat>)
    decreases room
  {
    if room == 0 then (e, [])
    else
      var (v, r) := Next(e.up, faults(n));
      if r.None? then (e.(up := v), [])
      else
        var (s, ids) := TakeFresh(Bind(e, v, r.value, now(n)), room - 1, n + 1, faults, now);
        (s, [|e.bound|] + ids)
  }

  function Room(e: Edge, window: nat): nat
    requires |e.inflight| <= window
  {
    var free := window - |e.inflight|;
    if free <= PUBLISH_BATCH then free else PUBLISH_BATCH
  }

  /** Retransmits first, then fresh frames, up to the room there is. The clock is read
      once per message. */
  function Staged(e: Edge, room: nat, faults: nat -> Faults, now: nat -> nat): (Edge, seq<nat>) {
    var (r, again) := TakeRetries(e, room, 0, now);
    var (s, news) := TakeFresh(r, room - |again|, |again|, faults, now);
    (s, again + news)
  }

  // ---- Frames that come back ----

  /** An id leaves the window unconfirmed: its frame will go out again under the same
      id, a duplicate is let go. */
  function GiveOne(e: Edge, id: nat): Edge {
    if id !in e.inflight then e
    else
      var s, r := e.inflight[id], e.(inflight := e.inflight - {id});
      if s.dup then r else r.(retryIds := r.retryIds + [(s.frame, id)])
  }

  function GiveBack(e: Edge, ids: seq<nat>): Edge {
    if ids == [] then e else GiveOne(GiveBack(e, ids[..|ids| - 1]), ids[|ids| - 1])
  }

  /** One enumeration of a hash map's keys. */
  ghost predicate Enumerates(ids: seq<nat>, keys: set<nat>) {
    && (forall id :: id in ids <==> id in keys)
    && (forall i, j :: 0 <= i < j < |ids| ==> ids[i] != ids[j])
  }

  function Stale(e: Edge, now: nat): set<nat> {
    set id | id in e.inflight && now > e.inflight[id].sentAt + CONFIRM_TIMEOUT_MS
  }

  /** A confirmation, in whatever order; one for an id no longer in flight is late and
      changes nothing. */
  function Resolve(e: Edge, id: nat, ok: bool, inject: bool): Edge {
    if id !in e.inflight || !ok then GiveOne(e, id)
    else
      var s, r := e.inflight[id], e.(inflight := e.inflight - {id});
      if s.dup then r
      else
        var t := r.(settled := r.settled + {id});
        if inject then
          t.(up := t.up.(dupQueue := t.up.dupQueue + [s.frame]), injected := t.injected + multiset{s.frame})
        else t
  }

  // ---- Events ----

  /** `Pump` is one batch; a failed send gives the batch back and then everything else
      in flight. `Sweep` retransmits what was not confirmed in time; `End` is a
      teardown. The orders are those in which a hash map yields its keys. */
  datatype Event =
    | Arrive(frame: Frame)
    | Pump(faults: nat -> Faults, clock: nat -> nat)
    | PumpFails(faults: nat -> Faults, clock: nat -> nat, order: seq<nat>)
    | Confirm(id: nat, ok: bool, inject: bool)
    | Sweep(now: nat, order: seq<nat>)
    | End(order: seq<nat>)

  ghost predicate Enabled(e: Edge, window: nat, ev: Event) {
    && |e.inflight| <= window
    && match ev
       case Arrive(_) => true
       case Pump(_, _) => |e.inflight| < window
       case PumpFails(faults, now, order) =>
         && |e.inflight| < window
         && var (s, ids) := Staged(e, Room(e, window), faults, now);
            Enumerates(order, GiveBack(s, ids).inflight.Keys)
       case Confirm(_, _, _) => true
       case Sweep(now, order) => Enumerates(order, Stale(e, now))
       case End(order) => Enumerates(order, e.inflight.Keys)
  }

  ghost function Step(e: Edge, window: nat, ev: Event): Edge
    requires |e.inflight| <= window
  {
    match ev
    case Arrive(f) => Receive(e, f)
    case Pump(faults, now) => Staged(e, Room(e, window), faults, now).0
    case PumpFails(faults, now, order) =>
      var (s, ids) := Staged(e, Room(e, window), faults, now);
      GiveBack(GiveBack(s, ids), order)
    case Confirm(id, ok, inject) => Resolve(e, id, ok, inject)
    case Sweep(_, order) => GiveBack(e, order)
    case End(order) => GiveBack(e, order)
  }

  // ---- What every step keeps ----

  ghost predicate InRetry(e: Edge, id: nat) {
    exists i :: 0 <= i < |e.retryIds| && e.retryIds[i].1 == id
  }

  /** An id in flight or waiting for retransmission still means the frame it was first
      given to. */
  ghost predicate Faithful(e: Edge) {
    && e.up.retry == []
    && (forall id :: id in e.inflight ==>
          id < |e.bound| && e.bound[id] == (e.inflight[id].frame, e.inflight[id].dup))
    && (forall i :: 0 <= i < |e.retryIds| ==>
          e.retryIds[i].1 < |e.bound| && e.bound[e.retryIds[i].1] == (e.retryIds[i].0, false))
    && (forall id :: id in e.settled ==> id < |e.bound| && !e.bound[id].1)
  }

  /** No id is live twice. */
  ghost predicate Distinct(e: Edge) {
    && (forall i, j :: 0 <= i < j < |e.retryIds| ==> e.retryIds[i].1 != e.retryIds[j].1)
    && (forall i :: 0 <= i < |e.retryIds| ==> e.retryIds[i].1 !in e.inflight && e.retryIds[i].1 !in e.settled)
    && e.inflight.Keys !! e.settled
  }

  /** Every id of an ordinary frame is in flight, waiting, or confirmed. */
  ghost predicate Complete(e: Edge) {
    forall id: nat :: id < |e.bound| && !e.bound[id].1 ==> id in e.inflight || InRetry(e, id) || id in e.settled
  }

  ghost predicate IdsOk(e: Edge) {
    Faithful(e) && Distinct(e) && Complete(e)
  }

  /** The frames that a set of ids was given to. */
  ghost function FramesAt(bound: seq<(Frame, bool)>, ids: set<nat>): multiset<Frame> {
    if bound == [] then multiset{}
    else
      var n := |bound| - 1;
      FramesAt(bound[..n], ids) + if n in ids then multiset{bound[n].0} else multiset{}
  }

  /** The frames that ids were given to as ordinary frames, or as duplicates. */
  ghost function Given(bound: seq<(Frame, bool)>, dup: bool): multiset<Frame> {
    if bound == [] then multiset{}
    else
      var n := |bound| - 1;
      Given(bound[..n], dup) + if bound[n].1 == dup then multiset{bound[n].0} else multiset{}
  }

  /** Every accepted frame is dropped, held before the wire, or was given one id; every
      injected duplicate is queued or was given an id of its own; and no duplicate is
      injected without a confirm of its original. */
  ghost predicate BooksOk(e: Edge) {
    && e.received == e.dropped + Held(e.up) + Given(e.bound, false)
    && e.injected == multiset(e.up.dupQueue) + Given(e.bound, true)
    && e.injected <= FramesAt(e.bound, e.settled)
  }
}

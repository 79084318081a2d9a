/** Stream custody: ids stay bound, no frame is lost or doubled, and what the log can
    hold of each frame. */
module StreamCustody {
  import opened Frames
  import opened UplinkModel
  import opened StreamModel

  // ---- Ids: the elementary moves ----

  lemma PopFaithful(e: Edge, now: nat)
    requires Faithful(e) && Distinct(e) && e.retryIds != []
    ensures Faithful(PopRetry(e, now)) && Distinct(PopRetry(e, now))
  {
  }

  lemma PopKeeps(e: Edge, now: nat)
    requires IdsOk(e) && e.retryIds != []
    ensures IdsOk(PopRetry(e, now))
  {
    hide Faithful, Distinct;
    PopFaithful(e, now);
    var r, n := PopRetry(e, now), |e.retryIds| - 1;
    forall id: nat | id < |r.bound| && !r.bound[id].1
      ensures id in r.inflight || InRetry(r, id) || id in r.settled
    {
      assert id in e.inflight || InRetry(e, id) || id in e.settled;
      if InRetry(e, id) {
        var i :| 0 <= i < |e.retryIds| && e.retryIds[i].1 == id;
        if i < n { assert r.retryIds[i].1 == id; }
      }
    }
  }

  lemma BindFaithful(e: Edge, v: Uplink, p: (Frame, bool), now: nat)
    requires Faithful(e) && Distinct(e) && v.retry == []
    ensures Faithful(Bind(e, v, p, now)) && Distinct(Bind(e, v, p, now))
  {
  }

  lemma BindKeeps(e: Edge, v: Uplink, p: (Frame, bool), now: nat)
    requires IdsOk(e) && v.retry == []
    ensures IdsOk(Bind(e, v, p, now)) && |e.bound| !in e.inflight
  {
    BindFaithful(e, v, p, now);
    var r := Bind(e, v, p, now);
    forall id: nat | id < |r.bound| && !r.bound[id].1
      ensures id in r.inflight || InRetry(r, id) || id in r.settled
    {
      if id < |e.bound| {
        assert id in e.inflight || InRetry(e, id) || id in e.settled;
        if InRetry(e, id) {
          var i :| 0 <= i < |e.retryIds| && e.retryIds[i].1 == id;
          assert r.retryIds[i].1 == id;
        }
      }
    }
  }

  lemma RequeueFaithful(e: Edge, id: nat)
    requires Faithful(e) && Distinct(e) && id in e.inflight && !e.inflight[id].dup
    ensures Faithful(GiveOne(e, id))
    ensures Distinct(GiveOne(e, id))
  {
  }

  lemma ForgetFaithful(e: Edge, id: nat)
    requires Faithful(e) && Distinct(e)
    ensures Faithful(e.(inflight := e.inflight - {id})) && Distinct(e.(inflight := e.inflight - {id}))
  {
  }

  lemma GiveOneFaithful(e: Edge, id: nat)
    requires Faithful(e) && Distinct(e)
    ensures Faithful(GiveOne(e, id)) && Distinct(GiveOne(e, id))
  {
    hide Faithful, Distinct;
    ForgetFaithful(e, id);
    if id in e.inflight && !e.inflight[id].dup {
      RequeueFaithful(e, id);
    }
  }

  lemma GiveOneKeeps(e: Edge, id: nat)
    requires IdsOk(e)
    ensures IdsOk(GiveOne(e, id))
  {
    GiveOneFaithful(e, id);
    var r := GiveOne(e, id);
    forall j: nat | j < |r.bound| && !r.bound[j].1
      ensures j in r.inflight || InRetry(r, j) || j in r.settled
    {
      assert j in e.inflight || InRetry(e, j) || j in e.settled;
      if InRetry(e, j) {
        var i :| 0 <= i < |e.retryIds| && e.retryIds[i].1 == j;
        assert r.retryIds[i].1 == j;
      }
      if j == id && j in e.inflight {
        assert r.retryIds[|e.retryIds|].1 == j;
      }
    }
  }

  lemma SettleFaithful(e: Edge, id: nat, inject: bool)
    requires Faithful(e) && Distinct(e) && id in e.inflight
    ensures Faithful(Resolve(e, id, true, inject)) && Distinct(Resolve(e, id, true, inject))
  {
  }

  lemma SettleComplete(e: Edge, id: nat, inject: bool)
    requires Faithful(e) && Complete(e) && id in e.inflight
    ensures Complete(Resolve(e, id, true, inject))
  {
    var r := Resolve(e, id, true, inject);
    forall j: nat | j < |r.bound| && !r.bound[j].1
      ensures j in r.inflight || InRetry(r, j) || j in r.settled
    {
      assert j in e.inflight || InRetry(e, j) || j in e.settled;
      if InRetry(e, j) {
        var i :| 0 <= i < |e.retryIds| && e.retryIds[i].1 == j;
        assert r.retryIds[i].1 == j;
      }
    }
  }

  lemma ResolveKeeps(e: Edge, id: nat, ok: bool, inject: bool)
    requires IdsOk(e)
    ensures IdsOk(Resolve(e, id, ok, inject))
  {
    hide Faithful, Distinct, Complete;
    if id !in e.inflight || !ok {
      GiveOneKeeps(e, id);
    } else {
      SettleFaithful(e, id, inject);
      SettleComplete(e, id, inject);
    }
  }

  // ---- Ids: the compound moves ----

  lemma {:induction false} TakeRetriesKeeps(e: Edge, room: nat, n: nat, now: nat -> nat)
    requires IdsOk(e)
    ensures var r := TakeRetries(e, room, n, now).0;
            IdsOk(r) && r.bound == e.bound && |r.inflight| <= |e.inflight| + |TakeRetries(e, room, n, now).1|
    decreases room
  {
    hide IdsOk;
    if room > 0 && e.retryIds != [] {
      PopKeeps(e, now(n));
      TakeRetriesKeeps(PopRetry(e, now(n)), room - 1, n + 1, now);
    }
  }

  lemma NextQuiet(u: Uplink, flt: Faults)
    requires u.retry == []
    ensures Next(u, flt).0.retry == []
  {
    NextKeeps(u, flt);
    hide Next;
  }

  lemma UpOnly(e: Edge, v: Uplink)
    requires IdsOk(e) && v.retry == []
    ensures IdsOk(e.(up := v))
  {
    var r := e.(up := v);
    assert forall id :: InRetry(e, id) ==> InRetry(r, id);
  }

  lemma QuietOf(e: Edge)
    requires IdsOk(e)
    ensures e.up.retry == []
  {
  }

  lemma {:induction false} TakeFreshKeeps(e: Edge, room: nat, n: nat, faults: nat -> Faults, now: nat -> nat)
    requires IdsOk(e)
    ensures var (r, ids) := TakeFresh(e, room, n, faults, now);
            IdsOk(r) && e.bound <= r.bound && |ids| <= room && |r.inflight| <= |e.inflight| + |ids|
    decreases room
  {
    hide IdsOk, Next;
    if room > 0 {
      QuietOf(e);
      NextQuiet(e.up, faults(n));
      var (v, r) := Next(e.up, faults(n));
      if r.None? {
        UpOnly(e, v);
      } else {
        BindKeeps(e, v, r.value, now(n));
        TakeFreshKeeps(Bind(e, v, r.value, now(n)), room - 1, n + 1, faults, now);
      }
    }
  }

  lemma StagedKeeps(e: Edge, room: nat, faults: nat -> Faults, now: nat -> nat)
    requires IdsOk(e)
    ensures var r := Staged(e, room, faults, now).0;
            IdsOk(r) && e.bound <= r.bound && |r.inflight| <= |e.inflight| + room
  {
    hide IdsOk, TakeRetries, TakeFresh;
    TakeRetriesKeeps(e, room, 0, now);
    var (r, again) := TakeRetries(e, room, 0, now);
    TakeFreshKeeps(r, room - |again|, |again|, faults, now);
  }

  lemma {:induction false} GiveBackKeeps(e: Edge, ids: seq<nat>)
    requires IdsOk(e)
    ensures var r := GiveBack(e, ids);
            && IdsOk(r) && r.bound == e.bound && r.inflight.Keys <= e.inflight.Keys
            && |r.inflight| <= |e.inflight|
            && (forall id :: id in e.inflight && id !in ids ==> id in r.inflight)
            && (forall id :: id in ids ==> id !in r.inflight)
  {
    hide IdsOk;
    if ids != [] {
      var init, id := ids[..|ids| - 1], ids[|ids| - 1];
      assert ids == init + [id];
      GiveBackKeeps(e, init);
      GiveOneKeeps(GiveBack(e, init), id);
    }
  }

  // ---- Books ----

  lemma {:induction false} FramesSame(bound: seq<(Frame, bool)>, a: set<nat>, b: set<nat>)
    requires forall i: nat :: i < |bound| ==> (i in a <==> i in b)
    ensures FramesAt(bound, a) == FramesAt(bound, b)
  {
    if bound != [] {
      FramesSame(bound[..|bound| - 1], a, b);
    }
  }

  lemma {:induction false} FramesLast(bound: seq<(Frame, bool)>, ids: set<nat>)
    requires bound != []
    ensures var n := |bound| - 1;
            FramesAt(bound, ids) ==
            FramesAt(bound[..n], ids) + if n in ids then multiset{bound[n].0} else multiset{}
  {
  }

  lemma {:induction false} FramesAdd(bound: seq<(Frame, bool)>, ids: set<nat>, id: nat)
    requires id < |bound| && id !in ids
    ensures FramesAt(bound, ids + {id}) == FramesAt(bound, ids) + multiset{bound[id].0}
  {
    hide FramesAt;
    var n := |bound| - 1;
    FramesLast(bound, ids);
    FramesLast(bound, ids + {id});
    if id == n {
      FramesSame(bound[..n], ids + {id}, ids);
    } else {
      FramesAdd(bound[..n], ids, id);
    }
  }

  /** Disjoint sets of ids account for disjoint shares of the frames. */
  lemma {:induction false} FramesSplit(bound: seq<(Frame, bool)>, a: set<nat>, b: set<nat>)
    requires a !! b
    ensures FramesAt(bound, a + b) == FramesAt(bound, a) + FramesAt(bound, b)
  {
    if bound != [] {
      FramesSplit(bound[..|bound| - 1], a, b);
    }
  }

  lemma FramesGrow(bound: seq<(Frame, bool)>, ids: set<nat>, p: (Frame, bool))
    requires |bound| !in ids
    ensures FramesAt(bound + [p], ids) == FramesAt(bound, ids)
  {
    assert (bound + [p])[..|bound|] == bound;
  }

  lemma GivenGrow(bound: seq<(Frame, bool)>, p: (Frame, bool), dup: bool)
    ensures Given(bound + [p], dup) == Given(bound, dup) + if p.1 == dup then multiset{p.0} else multiset{}
  {
    assert (bound + [p])[..|bound|] == bound;
  }

  /** Moves that touch neither custody before the wire nor what was confirmed. */
  ghost predicate SameBooks(e: Edge, r: Edge) {
    && r.up == e.up && r.bound == e.bound && r.settled == e.settled
    && r.received == e.received && r.dropped == e.dropped && r.injected == e.injected
  }

  lemma {:induction false} TakeRetriesBooks(e: Edge, room: nat, n: nat, now: nat -> nat)
    ensures SameBooks(e, TakeRetries(e, room, n, now).0)
    decreases room
  {
    if room > 0 && e.retryIds != [] {
      TakeRetriesBooks(PopRetry(e, now(n)), room - 1, n + 1, now);
    }
  }

  lemma {:induction false} GiveBackBooks(e: Edge, ids: seq<nat>)
    ensures SameBooks(e, GiveBack(e, ids))
  {
    if ids != [] {
      GiveBackBooks(e, ids[..|ids| - 1]);
    }
  }

  lemma BooksSame(e: Edge, r: Edge)
    requires BooksOk(e) && SameBooks(e, r)
    ensures BooksOk(r)
  {
  }

  lemma ReceiveBooks(e: Edge, f: Frame)
    requires BooksOk(e)
    ensures BooksOk(Receive(e, f))
  {
    BufferKeeps(e.up, f);
    BufferTouches(e.up, f);
    hide Held, Given, FramesAt, BufferFrame, Victims;
    var more, gone := multiset{f}, multiset(Victims(e.up, f));
    var g := Given(e.bound, false);
    assert (e.dropped + gone) + Held(BufferFrame(e.up, f)) + g == e.dropped + (Held(BufferFrame(e.up, f)) + gone) + g;
    assert e.dropped + (Held(e.up) + more) + g == (e.dropped + Held(e.up) + g) + more;
  }

  /** A fresh frame leaves the queues for an id; a duplicate leaves its queue. */
  lemma BindBooks(e: Edge, flt: Faults, now: nat)
    requires BooksOk(e) && |e.bound| !in e.settled && Next(e.up, flt).1.Some?
    ensures BooksOk(Bind(e, Next(e.up, flt).0, Next(e.up, flt).1.value, now))
  {
    NextKeeps(e.up, flt);
    var (v, r) := Next(e.up, flt);
    hide Next, Held;
    FramesGrow(e.bound, e.settled, r.value);
    GivenGrow(e.bound, r.value, false);
    GivenGrow(e.bound, r.value, true);
    hide FramesAt, Given;
    if r.value.1 {
      assert multiset(e.up.dupQueue) == multiset{r.value.0} + multiset(v.dupQueue);
    }
  }

  lemma IdleBooks(e: Edge, flt: Faults)
    requires BooksOk(e) && Next(e.up, flt).1.None?
    ensures BooksOk(e.(up := Next(e.up, flt).0))
  {
    NextKeeps(e.up, flt);
    hide Next, Held, FramesAt, Given;
  }

  lemma SettledBounded(e: Edge)
    requires IdsOk(e)
    ensures |e.bound| !in e.settled
  {
  }

  lemma {:induction false} TakeFreshBooks(e: Edge, room: nat, n: nat, faults: nat -> Faults, now: nat -> nat)
    requires IdsOk(e) && BooksOk(e)
    ensures BooksOk(TakeFresh(e, room, n, faults, now).0)
    decreases room
  {
    hide IdsOk, BooksOk, Next;
    if room > 0 {
      var (v, r) := Next(e.up, faults(n));
      if r.None? {
        IdleBooks(e, faults(n));
      } else {
        SettledBounded(e);
        QuietOf(e);
        NextQuiet(e.up, faults(n));
        BindKeeps(e, v, r.value, now(n));
        BindBooks(e, faults(n), now(n));
        TakeFreshBooks(Bind(e, v, r.value, now(n)), room - 1, n + 1, faults, now);
      }
    }
  }

  lemma StagedBooks(e: Edge, room: nat, faults: nat -> Faults, now: nat -> nat)
    requires IdsOk(e) && BooksOk(e)
    ensures BooksOk(Staged(e, room, faults, now).0)
  {
    hide IdsOk, BooksOk, TakeRetries, TakeFresh;
    var (r, again) := TakeRetries(e, room, 0, now);
    TakeRetriesKeeps(e, room, 0, now);
    TakeRetriesBooks(e, room, 0, now);
    BooksSame(e, r);
    TakeFreshBooks(r, room - |again|, |again|, faults, now);
  }

  /** A confirm settles an ordinary frame once, and at most one duplicate follows. */
  lemma ResolveBooks(e: Edge, id: nat, ok: bool, inject: bool)
    requires IdsOk(e) && BooksOk(e)
    ensures BooksOk(Resolve(e, id, ok, inject))
  {
    if id in e.inflight && ok && !e.inflight[id].dup {
      FramesAdd(e.bound, e.settled, id);
      assert e.bound[id].0 == e.inflight[id].frame;
      DupQueueOnly(e.up, e.inflight[id].frame);
      hide IdsOk, Held, FramesAt, Given;
    } else {
      hide IdsOk, BooksOk;
      BooksSame(e, Resolve(e, id, ok, inject));
    }
  }

  // ---- Every step ----

  ghost predicate Custody(e: Edge, window: nat) {
    IdsOk(e) && BooksOk(e) && |e.inflight| <= window
  }

  lemma ReceiveKeeps(e: Edge, f: Frame)
    requires IdsOk(e)
    ensures IdsOk(Receive(e, f))
  {
    BufferTouches(e.up, f);
    hide BufferFrame, Victims;
    var r := Receive(e, f);
    assert forall id :: InRetry(e, id) ==> InRetry(r, id);
  }

  lemma GiveBackCustody(e: Edge, window: nat, ids: seq<nat>)
    requires Custody(e, window)
    ensures Custody(GiveBack(e, ids), window) && e.bound <= GiveBack(e, ids).bound
  {
    hide IdsOk, BooksOk;
    GiveBackKeeps(e, ids);
    GiveBackBooks(e, ids);
    BooksSame(e, GiveBack(e, ids));
  }

  lemma ReceiveCustody(e: Edge, window: nat, f: Frame)
    requires Custody(e, window)
    ensures Custody(Receive(e, f), window)
  {
    hide IdsOk, BooksOk;
    ReceiveKeeps(e, f);
    ReceiveBooks(e, f);
  }

  lemma ResolveCustody(e: Edge, window: nat, id: nat, ok: bool, inject: bool)
    requires Custody(e, window)
    ensures Custody(Resolve(e, id, ok, inject), window) && Resolve(e, id, ok, inject).bound == e.bound
  {
    hide IdsOk, BooksOk, Resolve;
    ResolveKeeps(e, id, ok, inject);
    ResolveBooks(e, id, ok, inject);
    ResolveShape(e, id, ok, inject);
  }

  lemma StagedCustody(e: Edge, window: nat, faults: nat -> Faults, now: nat -> nat)
    requires Custody(e, window)
    ensures var s := Staged(e, Room(e, window), faults, now).0;
            Custody(s, window) && e.bound <= s.bound && |s.inflight| <= window
  {
    hide IdsOk, BooksOk, Staged;
    StagedKeeps(e, Room(e, window), faults, now);
    StagedBooks(e, Room(e, window), faults, now);
  }

  /** Under any interleaving of confirms, negative confirms, late confirms, timeout
      sweeps, failed batches and teardowns: an id keeps its frame, no id is live twice,
      the window holds, and the books balance. */
  lemma StepKeeps(e: Edge, window: nat, ev: Event)
    requires Custody(e, window) && Enabled(e, window, ev)
    ensures Custody(Step(e, window, ev), window) && e.bound <= Step(e, window, ev).bound
  {
    hide IdsOk, BooksOk, Staged, Resolve, GiveBack, Enumerates;
    match ev
    case Arrive(f) => ReceiveCustody(e, window, f);
    case Pump(faults, now) => StagedCustody(e, window, faults, now);
    case PumpFails(faults, now, order) =>
      StagedCustody(e, window, faults, now);
      var (s, ids) := Staged(e, Room(e, window), faults, now);
      GiveBackCustody(s, window, ids);
      GiveBackCustody(GiveBack(s, ids), window, order);
    case Confirm(id, ok, inject) => ResolveCustody(e, window, id, ok, inject);
    case Sweep(now, order) => GiveBackCustody(e, window, order);
    case End(order) => GiveBackCustody(e, window, order);
  }

  lemma ResolveShape(e: Edge, id: nat, ok: bool, inject: bool)
    ensures Resolve(e, id, ok, inject).bound == e.bound
    ensures |Resolve(e, id, ok, inject).inflight| <= |e.inflight|
  {
  }

  /** A teardown or a failed batch leaves nothing in flight. */
  lemma TeardownEmpties(e: Edge, window: nat, ev: Event)
    requires IdsOk(e) && Enabled(e, window, ev) && (ev.End? || ev.PumpFails?)
    ensures Step(e, window, ev).inflight == map[]
  {
    hide Staged;
    if ev.End? {
      GiveBackKeeps(e, ev.order);
    } else {
      var (s, ids) := Staged(e, Room(e, window), ev.faults, ev.clock);
      StagedKeeps(e, Room(e, window), ev.faults, ev.clock);
      GiveBackKeeps(s, ids);
      GiveBackKeeps(GiveBack(s, ids), ev.order);
    }
    hide GiveBack, IdsOk;
    assert Step(e, window, ev).inflight.Keys == {};
  }

  // ---- The pump's whole loop ----

  lemma PopGrows(e: Edge, now: nat)
    requires IdsOk(e) && e.retryIds != []
    ensures |PopRetry(e, now).inflight| == |e.inflight| + 1
  {
    assert e.retryIds[|e.retryIds| - 1].1 !in e.inflight;
    hide Complete, Faithful;
  }

  lemma {:induction false} TakeRetriesGrows(e: Edge, room: nat, n: nat, now: nat -> nat)
    requires IdsOk(e)
    ensures |TakeRetries(e, room, n, now).0.inflight| == |e.inflight| + |TakeRetries(e, room, n, now).1|
    decreases room
  {
    hide IdsOk, PopRetry;
    if room > 0 && e.retryIds != [] {
      PopKeeps(e, now(n));
      PopGrows(e, now(n));
      TakeRetriesGrows(PopRetry(e, now(n)), room - 1, n + 1, now);
    }
  }

  lemma {:induction false} TakeFreshGrows(e: Edge, room: nat, n: nat, faults: nat -> Faults, now: nat -> nat)
    requires IdsOk(e)
    ensures var (r, ids) := TakeFresh(e, room, n, faults, now);
            |r.inflight| == |e.inflight| + |ids|
    decreases room
  {
    hide IdsOk, Next;
    if room > 0 {
      QuietOf(e);
      NextQuiet(e.up, faults(n));
      var (v, r) := Next(e.up, faults(n));
      if r.Some? {
        BindKeeps(e, v, r.value, now(n));
        TakeFreshGrows(Bind(e, v, r.value, now(n)), room - 1, n + 1, faults, now);
      }
    }
  }

  /** Every message of a batch takes a place of its own in the window. */
  lemma StagedGrows(e: Edge, room: nat, faults: nat -> Faults, now: nat -> nat)
    requires IdsOk(e)
    ensures var (r, ids) := Staged(e, room, faults, now);
            |r.inflight| == |e.inflight| + |ids| && |ids| <= room
  {
    hide IdsOk, TakeRetries, TakeFresh;
    TakeRetriesKeeps(e, room, 0, now);
    TakeRetriesGrows(e, room, 0, now);
    var (r, again) := TakeRetries(e, room, 0, now);
    TakeFreshKeeps(r, room - |again|, |again|, faults, now);
    TakeFreshGrows(r, room - |again|, |again|, faults, now);
  }

  /** What one batch of the pump meets. */
  datatype Batch = Batch(faults: nat -> Faults, clock: nat -> nat, sent: bool)

  /** Batches until the window is full or nothing is left; true when a send failed,
      in which case its batch has been given back. */
  ghost function PumpAll(e: Edge, window: nat, n: nat, batches: nat -> Batch): (Edge, bool)
    requires IdsOk(e) && |e.inflight| <= window
    decreases window - |e.inflight|
  {
    if |e.inflight| == window then (e, false)
    else
      var b := batches(n);
      var (s, ids) := Staged(e, Room(e, window), b.faults, b.clock);
      StagedKeeps(e, Room(e, window), b.faults, b.clock);
      StagedGrows(e, Room(e, window), b.faults, b.clock);
      if ids == [] then (s, false)
      else if b.sent then PumpAll(s, window, n + 1, batches)
      else (GiveBack(s, ids), true)
  }

  lemma BootKeeps(pads: nat, cap: nat, window: nat)
    ensures Custody(Boot(pads, cap), window)
  {
    EmptyPadsHoldNothing(pads);
  }
}

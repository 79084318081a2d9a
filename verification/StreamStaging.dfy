/** What the stream publisher puts on the wire: which messages a batch carries and with
    which ids and clock readings, when it stops short, and what confirms and the sweep
    lead to. */
module StreamStaging {
  import opened Folds
  import opened Frames
  import opened UplinkModel
  import opened StreamModel
  import SC = StreamCustody
  import UD = UplinkDrain

  // ---- What a batch should be ----

  function Lesser(a: nat, b: nat): nat {
    if a <= b then a else b
  }

  /** The `j`-th newest of the frames that wait for retransmission. */
  function FromTop(e: Edge, j: nat): (Frame, nat)
    requires j < |e.retryIds|
  {
    e.retryIds[|e.retryIds| - 1 - j]
  }

  /** The window kept what it had and gained exactly the given ids. */
  ghost predicate Gained(e: Edge, r: Edge, ids: seq<nat>) {
    && (forall id :: id in r.inflight <==> id in e.inflight || id in ids)
    && (forall id :: id in e.inflight ==> r.inflight[id] == e.inflight[id])
  }

  /** The first `n` messages are the newest `n` of the waiting frames, newest first, each
      under its own id, and they wait no more. */
  ghost predicate Again(e: Edge, r: Edge, ids: seq<nat>, n: nat, k: nat, now: nat -> nat) {
    && n <= |ids| && n <= |e.retryIds| && r.retryIds == e.retryIds[..|e.retryIds| - n]
    && forall j :: 0 <= j < n ==>
         && ids[j] == FromTop(e, j).1
         && ids[j] in r.inflight && r.inflight[ids[j]] == Slot(FromTop(e, j).0, false, now(k + j))
  }

  /** The messages from `n` on carry, one by one, what the uplink gives, under the next
      ids in order. */
  ghost predicate Fresh(e: Edge, r: Edge, ids: seq<nat>, n: nat, us: seq<Uplink>, k: nat,
                        faults: nat -> Faults, now: nat -> nat) {
    && n <= |ids| && |us| == |ids| - n + 1 && us[0] == e.up
    && e.bound <= r.bound && |r.bound| == |e.bound| + |ids| - n
    && forall j :: n <= j < |ids| ==>
         && ids[j] == |e.bound| + j - n
         && Next(us[j - n], faults(k + j)) == (us[j - n + 1], Some(r.bound[ids[j]]))
         && ids[j] in r.inflight
         && r.inflight[ids[j]] == Slot(r.bound[ids[j]].0, r.bound[ids[j]].1, now(k + j))
  }

  /** A full batch leaves the uplink after its last frame; a short one found that the
      uplink had nothing more to give. */
  ghost predicate Ended(r: Edge, ids: seq<nat>, room: nat, us: seq<Uplink>, k: nat, faults: nat -> Faults) {
    && us != []
    && if |ids| == room then r.up == us[|us| - 1]
       else Next(us[|us| - 1], faults(k + |ids|)) == (r.up, None)
  }

  /** One batch, said of its messages alone. */
  ghost predicate IsBatch(e: Edge, r: Edge, ids: seq<nat>, room: nat, us: seq<Uplink>,
                          faults: nat -> Faults, now: nat -> nat) {
    var n := Lesser(room, |e.retryIds|);
    && n <= |ids| <= room
    && Again(e, r, ids, n, 0, now) && Fresh(e, r, ids, n, us, 0, faults, now)
    && Gained(e, r, ids) && Ended(r, ids, room, us, 0, faults)
  }

  // ---- Retransmits ----

  lemma PopGoes(e: Edge, now: nat)
    requires AllWait(e) && e.retryIds != []
    ensures var (f, id) := FromTop(e, 0);
            var r := PopRetry(e, now);
            && r.up == e.up && r.bound == e.bound && r.retryIds == e.retryIds[..|e.retryIds| - 1]
            && id in r.inflight && r.inflight[id] == Slot(f, false, now) && Gained(e, r, [id])
  {
  }

  ghost predicate AllWait(e: Edge) {
    && (forall i :: 0 <= i < |e.retryIds| ==> e.retryIds[i].1 !in e.inflight)
    && (forall i, j :: 0 <= i < j < |e.retryIds| ==> e.retryIds[i].1 != e.retryIds[j].1)
  }

  lemma GainedTwice(e: Edge, m: Edge, r: Edge, id: nat, ids: seq<nat>)
    requires Gained(e, m, [id]) && Gained(m, r, ids)
    ensures Gained(e, r, [id] + ids)
    ensures id in r.inflight && r.inflight[id] == m.inflight[id]
  {
    assert id in [id];
    forall x ensures x in r.inflight <==> x in e.inflight || x in [id] + ids {
      assert x in [id] + ids <==> x == id || x in ids;
    }
  }

  /** Taking from the stack: as many as there is room for, newest first. */
  lemma {:induction false} RetriesGo(e: Edge, room: nat, k: nat, now: nat -> nat)
    requires AllWait(e)
    ensures var (r, ids) := TakeRetries(e, room, k, now);
            && |ids| == Lesser(room, |e.retryIds|) && r.up == e.up && r.bound == e.bound
            && Again(e, r, ids, |ids|, k, now) && Gained(e, r, ids)
    decreases room
  {
    hide PopRetry, Gained, Again, AllWait;
    if room > 0 && e.retryIds != [] {
      PopGoes(e, now(k));
      var m := PopRetry(e, now(k));
      PopWaits(e, now(k));
      RetriesGo(m, room - 1, k + 1, now);
      var (r, ids) := TakeRetries(m, room - 1, k + 1, now);
      GainedTwice(e, m, r, FromTop(e, 0).1, ids);
      AgainMore(e, m, r, ids, k, now);
    } else {
      NoneGo(e, room, k, now);
    }
  }

  lemma NoneGo(e: Edge, room: nat, k: nat, now: nat -> nat)
    requires room == 0 || e.retryIds == []
    ensures TakeRetries(e, room, k, now) == (e, [])
    ensures Again(e, e, [], 0, k, now) && Gained(e, e, [])
  {
    assert e.retryIds[..|e.retryIds|] == e.retryIds;
  }

  lemma PopWaits(e: Edge, now: nat)
    requires AllWait(e) && e.retryIds != []
    ensures AllWait(PopRetry(e, now))
  {
  }

  lemma AgainMore(e: Edge, m: Edge, r: Edge, ids: seq<nat>, k: nat, now: nat -> nat)
    requires e.retryIds != [] && m.retryIds == e.retryIds[..|e.retryIds| - 1]
    requires Again(m, r, ids, |ids|, k + 1, now)
    requires var (f, id) := FromTop(e, 0);
             id in r.inflight && r.inflight[id] == Slot(f, false, now(k))
    ensures Again(e, r, [FromTop(e, 0).1] + ids, |ids| + 1, k, now)
  {
    var all := [FromTop(e, 0).1] + ids;
    assert m.retryIds[..|m.retryIds| - |ids|] == e.retryIds[..|e.retryIds| - (|ids| + 1)];
    forall j | 0 <= j < |ids| + 1
      ensures all[j] == FromTop(e, j).1 && all[j] in r.inflight
      ensures r.inflight[all[j]] == Slot(FromTop(e, j).0, false, now(k + j))
    {
      if j > 0 {
        assert FromTop(e, j) == FromTop(m, j - 1) && all[j] == ids[j - 1];
        assert k + 1 + (j - 1) == k + j;
      }
    }
  }

  // ---- Fresh frames ----

  ghost predicate Below(e: Edge) {
    forall id :: id in e.inflight ==> id < |e.bound|
  }

  lemma BindGoes(e: Edge, v: Uplink, p: (Frame, bool), now: nat)
    requires Below(e)
    ensures var r := Bind(e, v, p, now);
            && Below(r) && r.up == v && r.bound == e.bound + [p] && r.retryIds == e.retryIds
            && Gained(e, r, [|e.bound|]) && r.inflight[|e.bound|] == Slot(p.0, p.1, now)
  {
  }

  /** Fresh frames: what the uplink gives, while there is room and it gives something. */
  lemma {:induction false} FreshGo(e: Edge, room: nat, k: nat, faults: nat -> Faults, now: nat -> nat)
    returns (us: seq<Uplink>)
    requires Below(e)
    ensures var (r, ids) := TakeFresh(e, room, k, faults, now);
            && |ids| <= room && r.retryIds == e.retryIds
            && Fresh(e, r, ids, 0, us, k, faults, now) && Gained(e, r, ids) && Ended(r, ids, room, us, k, faults)
    decreases room
  {
    hide Next, Bind, Gained;
    us := [e.up];
    if room == 0 {
      NoRoom(e, k, faults, now);
    } else {
      var (v, p) := Next(e.up, faults(k));
      if p.None? {
        NoFrame(e, room, k, faults, now);
      } else {
        BindGoes(e, v, p.value, now(k));
        var m := Bind(e, v, p.value, now(k));
        var rest := FreshGo(m, room - 1, k + 1, faults, now);
        var (r, ids) := TakeFresh(m, room - 1, k + 1, faults, now);
        us := [e.up] + rest;
        GainedTwice(e, m, r, |e.bound|, ids);
        FreshMore(e, m, r, ids, rest, k, faults, now, p.value);
        EndedMore(r, ids, room, e.up, rest, k, faults, |e.bound|);
      }
    }
  }

  lemma NoRoom(e: Edge, k: nat, faults: nat -> Faults, now: nat -> nat)
    ensures TakeFresh(e, 0, k, faults, now) == (e, [])
    ensures Fresh(e, e, [], 0, [e.up], k, faults, now) && Gained(e, e, []) && Ended(e, [], 0, [e.up], k, faults)
  {
    hide Next;
  }

  lemma NoFrame(e: Edge, room: nat, k: nat, faults: nat -> Faults, now: nat -> nat)
    requires room > 0 && Next(e.up, faults(k)).1.None?
    ensures var r := e.(up := Next(e.up, faults(k)).0);
            && TakeFresh(e, room, k, faults, now) == (r, [])
            && Fresh(e, r, [], 0, [e.up], k, faults, now) && Gained(e, r, [])
            && Ended(r, [], room, [e.up], k, faults)
  {
    hide Next;
  }

  lemma FreshMore(e: Edge, m: Edge, r: Edge, ids: seq<nat>, rest: seq<Uplink>, k: nat,
                  faults: nat -> Faults, now: nat -> nat, p: (Frame, bool))
    requires Fresh(m, r, ids, 0, rest, k + 1, faults, now)
    requires m.bound == e.bound + [p] && Next(e.up, faults(k)) == (m.up, Some(p))
    requires |e.bound| in r.inflight && r.inflight[|e.bound|] == Slot(p.0, p.1, now(k))
    ensures Fresh(e, r, [|e.bound|] + ids, 0, [e.up] + rest, k, faults, now)
  {
    hide Next;
    var all, us := [|e.bound|] + ids, [e.up] + rest;
    assert r.bound[|e.bound|] == m.bound[|e.bound|] == p;
    forall j | 0 <= j < |all|
      ensures all[j] == |e.bound| + j && all[j] in r.inflight
      ensures Next(us[j], faults(k + j)) == (us[j + 1], Some(r.bound[all[j]]))
      ensures r.inflight[all[j]] == Slot(r.bound[all[j]].0, r.bound[all[j]].1, now(k + j))
    {
      if j > 0 {
        assert all[j] == ids[j - 1] && us[j] == rest[j - 1] && us[j + 1] == rest[j];
        assert k + 1 + (j - 1) == k + j;
      }
    }
  }

  lemma EndedMore(r: Edge, ids: seq<nat>, room: nat, u: Uplink, rest: seq<Uplink>, k: nat,
                  faults: nat -> Faults, id: nat)
    requires room > 0 && Ended(r, ids, room - 1, rest, k + 1, faults)
    ensures Ended(r, [id] + ids, room, [u] + rest, k, faults)
  {
    hide Next;
    var us := [u] + rest;
    assert us[|us| - 1] == rest[|rest| - 1] && k + 1 + |ids| == k + (|ids| + 1);
  }

  // ---- The whole batch ----

  lemma GainedBoth(e: Edge, m: Edge, r: Edge, a: seq<nat>, b: seq<nat>)
    requires Gained(e, m, a) && Gained(m, r, b)
    ensures Gained(e, r, a + b)
    ensures forall id :: id in m.inflight ==> id in r.inflight && r.inflight[id] == m.inflight[id]
  {
  }

  lemma AgainBoth(e: Edge, m: Edge, r: Edge, a: seq<nat>, b: seq<nat>, now: nat -> nat)
    requires Again(e, m, a, |a|, 0, now) && r.retryIds == m.retryIds
    requires forall id :: id in m.inflight ==> id in r.inflight && r.inflight[id] == m.inflight[id]
    ensures Again(e, r, a + b, |a|, 0, now)
  {
  }

  lemma FreshBoth(e: Edge, m: Edge, r: Edge, a: seq<nat>, b: seq<nat>, us: seq<Uplink>,
                  faults: nat -> Faults, now: nat -> nat)
    requires Fresh(m, r, b, 0, us, |a|, faults, now) && m.up == e.up && m.bound == e.bound
    ensures Fresh(e, r, a + b, |a|, us, 0, faults, now)
  {
    hide Next;
    var all := a + b;
    forall j | |a| <= j < |all|
      ensures all[j] == |e.bound| + j - |a| && all[j] in r.inflight
      ensures Next(us[j - |a|], faults(j)) == (us[j - |a| + 1], Some(r.bound[all[j]]))
      ensures r.inflight[all[j]] == Slot(r.bound[all[j]].0, r.bound[all[j]].1, now(j))
    {
      var i := j - |a|;
      assert all[j] == b[i] && |a| + i == j;
    }
  }

  lemma EndedBoth(r: Edge, a: seq<nat>, b: seq<nat>, room: nat, us: seq<Uplink>, faults: nat -> Faults)
    requires |a| <= room && Ended(r, b, room - |a|, us, |a|, faults)
    ensures Ended(r, a + b, room, us, 0, faults)
  {
    hide Next;
    assert |a| + |b| == |a + b|;
  }

  /** A batch carries the waiting frames first, newest first, then fresh frames, and is
      short only when nothing waits and the uplink has nothing to give. */
  lemma StagedIsABatch(e: Edge, room: nat, faults: nat -> Faults, now: nat -> nat) returns (us: seq<Uplink>)
    requires AllWait(e) && Below(e) && forall i :: 0 <= i < |e.retryIds| ==> e.retryIds[i].1 < |e.bound|
    ensures var (r, ids) := Staged(e, room, faults, now);
            IsBatch(e, r, ids, room, us, faults, now)
  {
    hide TakeRetries, TakeFresh, AllWait, Again, Fresh, Gained, Ended;
    RetriesGo(e, room, 0, now);
    var (m, a) := TakeRetries(e, room, 0, now);
    StillBelow(e, m, a, now);
    us := FreshGo(m, room - |a|, |a|, faults, now);
    var (r, b) := TakeFresh(m, room - |a|, |a|, faults, now);
    GainedBoth(e, m, r, a, b);
    AgainBoth(e, m, r, a, b, now);
    FreshBoth(e, m, r, a, b, us, faults, now);
    EndedBoth(r, a, b, room, us, faults);
  }

  lemma StillBelow(e: Edge, m: Edge, a: seq<nat>, now: nat -> nat)
    requires Below(e) && forall i :: 0 <= i < |e.retryIds| ==> e.retryIds[i].1 < |e.bound|
    requires Again(e, m, a, |a|, 0, now) && Gained(e, m, a) && m.bound == e.bound
    ensures Below(m)
  {
    forall id | id in m.inflight ensures id < |m.bound| {
      if id !in e.inflight {
        var j :| 0 <= j < |a| && a[j] == id;
        assert FromTop(e, j).1 == id;
      }
    }
  }

  lemma IdsWait(e: Edge)
    requires IdsOk(e)
    ensures AllWait(e) && Below(e) && forall i :: 0 <= i < |e.retryIds| ==> e.retryIds[i].1 < |e.bound|
  {
    hide Complete;
  }

  /** The same of every state with its ids in order. */
  lemma BatchCarries(e: Edge, room: nat, faults: nat -> Faults, now: nat -> nat)
    requires IdsOk(e)
    ensures var (r, ids) := Staged(e, room, faults, now);
            exists us :: IsBatch(e, r, ids, room, us, faults, now)
  {
    IdsWait(e);
    hide IdsOk, AllWait, Below, Staged, IsBatch;
    var us := StagedIsABatch(e, room, faults, now);
  }

  /** A batch that is not full has left nothing to send. */
  lemma ShortBatch(e: Edge, r: Edge, ids: seq<nat>, room: nat, us: seq<Uplink>, faults: nat -> Faults, now: nat -> nat)
    requires IsBatch(e, r, ids, room, us, faults, now) && |ids| < room
    ensures us != [] && r.retryIds == [] && UD.NothingToSend(us[|us| - 1], r.up, faults(|ids|))
  {
    hide Next, Fresh, Gained;
    UD.NothingToSendWhen(us[|us| - 1], faults(|ids|));
  }

  // ---- The pump ----

  /** The room of a batch: what the window has left, at most a batch's size. */
  lemma RoomIs(e: Edge, window: nat)
    requires |e.inflight| <= window
    ensures Room(e, window) == Lesser(window - |e.inflight|, PUBLISH_BATCH)
  {
  }

  /** A batch with as much room as the window has left, at most a batch's size. */
  ghost predicate Fills(e: Edge, r: Edge, ids: seq<nat>, window: nat, us: seq<Uplink>, b: SC.Batch) {
    |e.inflight| <= window
    && IsBatch(e, r, ids, Lesser(window - |e.inflight|, PUBLISH_BATCH), us, b.faults, b.clock)
  }

  /** The batches of a pump, in order, each sent in full. */
  ghost predicate Batches(trace: seq<Edge>, window: nat, n: nat, bs: nat -> SC.Batch) {
    forall i :: 0 <= i < |trace| - 1 ==> BatchSent(trace[i], trace[i + 1], window, bs(n + i))
  }

  ghost predicate BatchSent(e: Edge, r: Edge, window: nat, b: SC.Batch) {
    |e.inflight| < window && b.sent && exists us, ids :: ids != [] && Fills(e, r, ids, window, us, b)
  }

  /** Why the pump stops: the window is full; or nothing waits and the uplink has nothing
      to give; or the send failed, and its batch has been given back. */
  ghost predicate Stops(e: Edge, window: nat, b: SC.Batch, r: Edge, failed: bool) {
    if |e.inflight| >= window then r == e && !failed
    else
      exists s, us, ids ::
        && Fills(e, s, ids, window, us, b)
        && if ids == [] then r == s && !failed else !b.sent && failed && r == GiveBack(s, ids)
  }

  ghost predicate Pumps(e: Edge, window: nat, n: nat, bs: nat -> SC.Batch, r: Edge, failed: bool, trace: seq<Edge>) {
    && trace != [] && trace[0] == e && Batches(trace, window, n, bs)
    && Stops(trace[|trace| - 1], window, bs(n + |trace| - 1), r, failed)
  }

  lemma StopsHere(e: Edge, window: nat, b: SC.Batch)
    requires IdsOk(e) && |e.inflight| < window
    ensures var (s, ids) := Staged(e, Room(e, window), b.faults, b.clock);
            && (ids == [] ==> Stops(e, window, b, s, false))
            && (ids != [] && !b.sent ==> Stops(e, window, b, GiveBack(s, ids), true))
            && (ids != [] && b.sent ==> BatchSent(e, s, window, b))
  {
    hide IdsOk, Staged, IsBatch, GiveBack;
    RoomIs(e, window);
    BatchCarries(e, Room(e, window), b.faults, b.clock);
    var (s, ids) := Staged(e, Room(e, window), b.faults, b.clock);
    var us :| IsBatch(e, s, ids, Room(e, window), us, b.faults, b.clock);
    assert Fills(e, s, ids, window, us, b);
  }

  lemma FullStops(e: Edge, window: nat, b: SC.Batch)
    requires |e.inflight| >= window
    ensures Stops(e, window, b, e, false)
  {
  }

  lemma BatchesMore(e: Edge, window: nat, n: nat, bs: nat -> SC.Batch, rest: seq<Edge>)
    requires rest != [] && Batches(rest, window, n + 1, bs) && BatchSent(e, rest[0], window, bs(n))
    ensures Batches([e] + rest, window, n, bs)
  {
    hide BatchSent;
    var trace := [e] + rest;
    forall i | 0 <= i < |trace| - 1 ensures BatchSent(trace[i], trace[i + 1], window, bs(n + i)) {
      if i > 0 {
        assert trace[i] == rest[i - 1] && trace[i + 1] == rest[i];
        assert BatchSent(rest[i - 1], rest[i], window, bs(n + 1 + (i - 1)));
      }
    }
  }

  lemma OneState(e: Edge, window: nat, n: nat, bs: nat -> SC.Batch)
    ensures Batches([e], window, n, bs)
  {
  }

  lemma {:induction false} PumpTrace(e: Edge, window: nat, n: nat, bs: nat -> SC.Batch) returns (trace: seq<Edge>)
    requires IdsOk(e) && |e.inflight| <= window
    ensures var (r, failed) := SC.PumpAll(e, window, n, bs);
            Pumps(e, window, n, bs, r, failed, trace)
    decreases window - |e.inflight|
  {
    hide IdsOk, Staged, Stops, Batches, GiveBack, BatchSent;
    trace := [e];
    OneState(e, window, n, bs);
    if |e.inflight| == window {
      FullStops(e, window, bs(n));
    } else {
      var b := bs(n);
      StopsHere(e, window, b);
      var (s, ids) := Staged(e, Room(e, window), b.faults, b.clock);
      SC.StagedKeeps(e, Room(e, window), b.faults, b.clock);
      SC.StagedGrows(e, Room(e, window), b.faults, b.clock);
      if ids != [] && b.sent {
        var rest := PumpTrace(s, window, n + 1, bs);
        BatchesMore(e, window, n, bs, rest);
        trace := [e] + rest;
        assert trace[|trace| - 1] == rest[|rest| - 1] && n + |trace| - 1 == n + 1 + |rest| - 1;
      }
    }
  }

  /** The pump sends batch after batch until the window is full, nothing is left, or a
      send fails. */
  lemma PumpDoesItsWork(e: Edge, window: nat, bs: nat -> SC.Batch)
    requires IdsOk(e) && |e.inflight| <= window
    ensures var (r, failed) := SC.PumpAll(e, window, 0, bs);
            exists trace :: Pumps(e, window, 0, bs, r, failed, trace)
  {
    hide IdsOk, SC.PumpAll, Pumps;
    var trace := PumpTrace(e, window, 0, bs);
  }

  /** A pump that ends short of the window without a failure has left nothing that could
      go out. */
  lemma PumpLeavesNothing(e: Edge, window: nat, bs: nat -> SC.Batch)
    requires IdsOk(e) && |e.inflight| <= window
    ensures var (r, failed) := SC.PumpAll(e, window, 0, bs);
            !failed && |r.inflight| < window ==>
              r.retryIds == [] && exists u, i, j :: UD.NothingToSend(u, r.up, bs(i).faults(j))
  {
    hide IdsOk, SC.PumpAll, Batches, IsBatch, GiveBack;
    var (r, failed) := SC.PumpAll(e, window, 0, bs);
    var trace := PumpTrace(e, window, 0, bs);
    var last, i := trace[|trace| - 1], |trace| - 1;
    if !failed && |r.inflight| < window {
      var room := Lesser(window - |last.inflight|, PUBLISH_BATCH);
      var s, us, ids :| Fills(last, s, ids, window, us, bs(i)) && ids == [] && r == s;
      ShortBatch(last, r, ids, room, us, bs(i).faults, bs(i).clock);
      var u, j := us[|us| - 1], |ids|;
      assert UD.NothingToSend(u, r.up, bs(i).faults(j));
    }
  }

  // ---- Confirms and the sweep ----

  /** A negative confirm brings an ordinary frame back at once: it is the first message of
      the next batch, under the id it had. */
  lemma NegativeConfirmLeads(e: Edge, id: nat, inject: bool, room: nat, faults: nat -> Faults, now: nat -> nat)
    requires IdsOk(e) && id in e.inflight && !e.inflight[id].dup && room >= 1
    ensures var r := Resolve(e, id, false, inject);
            var (s, ids) := Staged(r, room, faults, now);
            && id !in r.inflight && r.settled == e.settled && r.up == e.up
            && ids != [] && ids[0] == id
            && id in s.inflight && s.inflight[id] == Slot(e.inflight[id].frame, false, now(0))
  {
    SC.ResolveKeeps(e, id, false, inject);
    hide IdsOk, Staged;
    var r := Resolve(e, id, false, inject);
    IdsWait(r);
    var us := StagedIsABatch(r, room, faults, now);
    var (s, ids) := Staged(r, room, faults, now);
    assert FromTop(r, 0) == (e.inflight[id].frame, id);
    assert Again(r, s, ids, Lesser(room, |r.retryIds|), 0, now);
  }

  /** A positive confirm takes the id off the window for good; with the duplicate fault it
      queues one copy of an ordinary frame. */
  lemma PositiveConfirmLeads(e: Edge, id: nat, inject: bool, flt: Faults)
    requires IdsOk(e) && id in e.inflight
    ensures var r := Resolve(e, id, true, inject);
            var s := e.inflight[id];
            && r.inflight == e.inflight - {id} && r.retryIds == e.retryIds
            && (!s.dup ==> r.settled == e.settled + {id})
            && r.up.dupQueue == e.up.dupQueue + (if inject && !s.dup then [s.frame] else [])
            && (inject && !s.dup && e.up.dupQueue == [] ==> Next(r.up, flt).1 == Some((s.frame, true)))
  {
    hide Complete, Distinct;
  }

  /** A confirm for an id that is not in flight changes nothing. */
  lemma LateConfirm(e: Edge, id: nat, ok: bool, inject: bool)
    requires id !in e.inflight
    ensures Resolve(e, id, ok, inject) == e
  {
  }

  /** The `j`-th message of a batch, still unconfirmed, is stale exactly when more than ten
      seconds have passed since the clock was read for it. */
  lemma StaleIff(e: Edge, room: nat, faults: nat -> Faults, now: nat -> nat, j: nat, later: nat)
    requires IdsOk(e) && j < |Staged(e, room, faults, now).1|
    ensures var (r, ids) := Staged(e, room, faults, now);
            ids[j] in Stale(r, later) <==> later > now(j) + 10_000
  {
    IdsWait(e);
    hide IdsOk, Staged;
    var us := StagedIsABatch(e, room, faults, now);
    var (r, ids) := Staged(e, room, faults, now);
    var n := Lesser(room, |e.retryIds|);
    if j < n {
      assert Again(e, r, ids, n, 0, now);
    } else {
      assert Fresh(e, r, ids, n, us, 0, faults, now);
    }
  }
}

/** The stream publisher as the loop keeps it: the id counter and the retransmit stack
    that survive reconnects, and the window of frames in flight. */
module StreamPublisher {
  import opened Folds
  import opened Frames
  import opened UplinkModel
  import opened UplinkState
  import opened StreamModel
  import opened StreamCustody
  import opened StreamStaging
  import opened UplinkDrain

  /** The proof's side of the publisher: what each id was given to, and the books. */
  datatype Ledger = Ledger(
    bound: seq<(Frame, bool)>, received: multiset<Frame>, dropped: multiset<Frame>,
    injected: multiset<Frame>, settled: set<nat>)

  ghost function Joined(staged: seq<nat>, r: (Edge, seq<nat>)): (Edge, seq<nat>) {
    (r.0, staged + r.1)
  }

  lemma JoinedStep(staged: seq<nat>, id: nat, r: (Edge, seq<nat>))
    ensures Joined(staged + [id], r) == Joined(staged, (r.0, [id] + r.1))
  {
    assert (staged + [id]) + r.1 == staged + ([id] + r.1);
  }

  /** Every message carries the frame that its id was given to. */
  ghost predicate Carried(messages: seq<(Frame, nat)>, staged: seq<nat>, bound: seq<(Frame, bool)>) {
    && |messages| == |staged|
    && forall i :: 0 <= i < |staged| ==>
         staged[i] < |bound| && messages[i] == (bound[staged[i]].0, staged[i])
  }

  /** Some retransmits are staged, and staging the rest leads to the goal. */
  ghost predicate Popped(messages: seq<(Frame, nat)>, staged: seq<nat>, e: Edge, room: nat, now: nat -> nat,
                         from: Edge) {
    && |messages| == |staged| <= room && e.retryIds <= from.retryIds
    && (forall i :: 0 <= i < |messages| ==> messages[i].1 == staged[i] && messages[i] in from.retryIds)
    && Joined(staged, TakeRetries(e, room - |messages|, |messages|, now)) == TakeRetries(from, room, 0, now)
  }

  lemma PoppedStarts(e: Edge, room: nat, now: nat -> nat)
    ensures Popped([], [], e, room, now, e)
  {
    hide TakeRetries;
    assert [] + TakeRetries(e, room, 0, now).1 == TakeRetries(e, room, 0, now).1;
  }

  lemma PoppedMore(messages: seq<(Frame, nat)>, staged: seq<nat>, e: Edge, room: nat, now: nat -> nat, from: Edge)
    requires Popped(messages, staged, e, room, now, from) && |messages| < room && e.retryIds != []
    ensures var p := e.retryIds[|e.retryIds| - 1];
            Popped(messages + [p], staged + [p.1], PopRetry(e, now(|messages|)), room, now, from)
  {
    hide Joined;
    var n := |messages|;
    JoinedStep(staged, e.retryIds[|e.retryIds| - 1].1, TakeRetries(PopRetry(e, now(n)), room - n - 1, n + 1, now));
  }

  lemma PoppedEnds(messages: seq<(Frame, nat)>, staged: seq<nat>, e: Edge, room: nat, now: nat -> nat, from: Edge)
    requires Popped(messages, staged, e, room, now, from)
    ensures |messages| == |staged| <= room
    ensures forall i :: 0 <= i < |messages| ==> messages[i].1 == staged[i] && messages[i] in from.retryIds
    ensures |messages| == room || e.retryIds == [] ==> TakeRetries(from, room, 0, now) == (e, staged)
  {
    assert staged + [] == staged;
  }

  /** Part of a batch is staged, and staging the rest leads to the goal. */
  ghost predicate Under(messages: seq<(Frame, nat)>, staged: seq<nat>, e: Edge, room: nat, base: nat,
                        faults: nat -> Faults, now: nat -> nat, from: Edge) {
    && |messages| <= room && Carried(messages, staged, e.bound) && from.bound <= e.bound
    && Joined(staged, TakeFresh(e, room - |messages|, base + |messages|, faults, now)) ==
       TakeFresh(from, room, base, faults, now)
  }

  lemma UnderStarts(e: Edge, room: nat, base: nat, faults: nat -> Faults, now: nat -> nat)
    ensures Under([], [], e, room, base, faults, now, e)
  {
    hide TakeFresh;
    assert [] + TakeFresh(e, room, base, faults, now).1 == TakeFresh(e, room, base, faults, now).1;
  }

  lemma UnderMore(messages: seq<(Frame, nat)>, staged: seq<nat>, e: Edge, room: nat, base: nat,
                  faults: nat -> Faults, now: nat -> nat, from: Edge, v: Uplink, p: (Frame, bool))
    requires Under(messages, staged, e, room, base, faults, now, from) && |messages| < room
    requires Next(e.up, faults(base + |messages|)) == (v, Some(p))
    ensures Under(messages + [(p.0, |e.bound|)], staged + [|e.bound|],
                  Bind(e, v, p, now(base + |messages|)), room, base, faults, now, from)
  {
    hide Next, Joined, Carried;
    var n := base + |messages|;
    var b := Bind(e, v, p, now(n));
    CarriedOne(messages, staged, e.bound, p);
    JoinedStep(staged, |e.bound|, TakeFresh(b, room - |messages| - 1, n + 1, faults, now));
  }

  lemma UnderEnds(messages: seq<(Frame, nat)>, staged: seq<nat>, e: Edge, room: nat, base: nat,
                  faults: nat -> Faults, now: nat -> nat, from: Edge)
    requires Under(messages, staged, e, room, base, faults, now, from)
    ensures Carried(messages, staged, e.bound) && from.bound <= e.bound && |messages| <= room
    ensures |messages| == room ==> TakeFresh(from, room, base, faults, now) == (e, staged)
    ensures |messages| < room && Next(e.up, faults(base + |messages|)).1.None? ==>
              TakeFresh(from, room, base, faults, now) ==
              (e.(up := Next(e.up, faults(base + |messages|)).0), staged)
  {
    hide Next;
    assert staged + [] == staged;
  }

  class StreamPublisher {
    const st: UplinkState
    const confirmWindow: nat
    /** The id that the next fresh frame will get. */
    var nextId: nat
    /** Frames to send again, each under the id it was first given. */
    var retryIds: seq<(Frame, nat)>
    /** What each unconfirmed id carries, and since when. */
    var inflight: map<nat, Slot>
    ghost var ledger: Ledger

    ghost function View(): Edge
      reads this, st
    {
      Edge(st.View(), retryIds, inflight,
           ledger.bound, ledger.received, ledger.dropped, ledger.injected, ledger.settled)
    }

    ghost predicate Valid()
      reads this, st
    {
      nextId == |ledger.bound| && |inflight| <= confirmWindow
    }

    constructor (pads: nat, cap: nat, window: nat)
      ensures Valid() && fresh(st) && View() == Boot(pads, cap) && confirmWindow == window
    {
      st := new UplinkState(pads, cap);
      confirmWindow := window;
      nextId, retryIds, inflight := 0, [], map[];
      ledger := Ledger([], multiset{}, multiset{}, multiset{}, {});
    }

    method OnReceive(frame: Frame)
      requires Valid()
      modifies this, st
      ensures Valid() && View() == Receive(old(View()), frame)
    {
      hide Victims, UplinkModel.BufferFrame;
      ledger := ledger.(received := ledger.received + multiset{frame},
                        dropped := ledger.dropped + multiset(Victims(st.View(), frame)));
      st.BufferFrame(frame);
    }

    /** Retransmits first, newest returned first, under their own ids. */
    method StageRetries(room: nat, now: nat -> nat) returns (messages: seq<(Frame, nat)>, staged: seq<nat>)
      modifies this`inflight, this`retryIds
      ensures (View(), staged) == TakeRetries(old(View()), room, 0, now)
      ensures |messages| == |staged| <= room
      ensures forall i :: 0 <= i < |messages| ==> messages[i].1 == staged[i] && messages[i] in old(retryIds)
    {
      hide Popped, TakeRetries;
      ghost var start := View();
      PoppedStarts(start, room, now);
      messages, staged := [], [];
      while |messages| < room && retryIds != []
        invariant Popped(messages, staged, View(), room, now, start)
        decreases room - |messages|
      {
        PoppedMore(messages, staged, View(), room, now, start);
        var (frame, id) := retryIds[|retryIds| - 1];
        retryIds := retryIds[..|retryIds| - 1];
        inflight := inflight[id := Slot(frame, false, now(|messages|))];
        messages, staged := messages + [(frame, id)], staged + [id];
      }
      PoppedEnds(messages, staged, View(), room, now, start);
    }

    /** The next frame to publish takes the next id. */
    method BindNext(flt: Faults, now: nat) returns (message: Option<(Frame, nat)>)
      requires nextId == |ledger.bound|
      modifies this, st
      ensures nextId == |ledger.bound|
      ensures var (v, r) := Next(old(st.View()), flt);
              if r.None? then message == None && View() == old(View()).(up := v)
              else message == Some((r.value.0, old(nextId))) && View() == Bind(old(View()), v, r.value, now)
    {
      hide Next;
      var next := st.NextPublishable(flt);
      if next.None? {
        return None;
      }
      var (frame, isDup) := next.value;
      var id := nextId;
      nextId := nextId + 1;
      ledger := ledger.(bound := ledger.bound + [(frame, isDup)]);
      inflight := inflight[id := Slot(frame, isDup, now)];
      message := Some((frame, id));
    }

    /** Fresh frames, each under the next id. */
    method StageFresh(room: nat, base: nat, faults: nat -> Faults, now: nat -> nat)
      returns (messages: seq<(Frame, nat)>, staged: seq<nat>)
      requires nextId == |ledger.bound|
      modifies this, st
      ensures nextId == |ledger.bound| && (View(), staged) == TakeFresh(old(View()), room, base, faults, now)
      ensures Carried(messages, staged, ledger.bound) && old(ledger.bound) <= ledger.bound
    {
      hide Under, Next, Carried, TakeFresh;
      ghost var start := View();
      UnderStarts(start, room, base, faults, now);
      messages, staged := [], [];
      while |messages| < room
        invariant nextId == |ledger.bound|
        invariant Under(messages, staged, View(), room, base, faults, now, start)
        decreases room - |messages|
      {
        ghost var e := View();
        UnderEnds(messages, staged, e, room, base, faults, now, start);
        var n := base + |messages|;
        var message := BindNext(faults(n), now(n));
        if message.None? {
          return;
        }
        UnderMore(messages, staged, e, room, base, faults, now, start,
                  Next(e.up, faults(n)).0, Next(e.up, faults(n)).1.value);
        messages, staged := messages + [message.value], staged + [message.value.1];
      }
      UnderEnds(messages, staged, View(), room, base, faults, now, start);
    }

    /** One batch: every message carries the frame its id was first given to. */
    method StageBatch(faults: nat -> Faults, now: nat -> nat) returns (messages: seq<(Frame, nat)>, staged: seq<nat>)
      requires Valid() && Custody(View(), confirmWindow)
      modifies this, st
      ensures Valid() && Custody(View(), confirmWindow)
      ensures (View(), staged) == Staged(old(View()), Room(old(View()), confirmWindow), faults, now)
      ensures exists us :: IsBatch(old(View()), View(), staged, Room(old(View()), confirmWindow), us, faults, now)
      ensures Carried(messages, staged, ledger.bound)
    {
      hide IdsOk, BooksOk, Custody, Staged, Carried, IsBatch;
      var free := confirmWindow - |inflight|;
      var room := if free <= PUBLISH_BATCH then free else PUBLISH_BATCH;
      StagedCustody(View(), confirmWindow, faults, now);
      CustodyIds(View(), confirmWindow);
      BatchCarries(View(), room, faults, now);
      messages, staged := Stage(room, faults, now);
    }

    method Stage(room: nat, faults: nat -> Faults, now: nat -> nat)
      returns (messages: seq<(Frame, nat)>, staged: seq<nat>)
      requires nextId == |ledger.bound| && IdsOk(View())
      modifies this, st
      ensures nextId == |ledger.bound| && (View(), staged) == Staged(old(View()), room, faults, now)
      ensures Carried(messages, staged, ledger.bound)
    {
      ghost var e := View();
      hide IdsOk, TakeRetries, TakeFresh, Carried;
      messages, staged := StageRetries(room, now);
      RetriesCarry(e, messages, staged);
      var more, ids := StageFresh(room - |messages|, |messages|, faults, now);
      CarriedBoth(messages, staged, e.bound, more, ids, ledger.bound);
      messages, staged := messages + more, staged + ids;
    }

    /** Fill the window batch by batch; true when a send failed, after which nothing is
        in flight. */
    method Pump(batches: nat -> Batch) returns (failed: bool, ghost order: seq<nat>)
      requires Valid() && Custody(View(), confirmWindow)
      modifies this, st
      ensures Valid() && Custody(View(), confirmWindow)
      ensures var (s, bad) := PumpAll(old(View()), confirmWindow, 0, batches);
              failed == bad &&
              if bad then Enumerates(order, s.inflight.Keys) && View() == GiveBack(s, order) && inflight == map[]
              else View() == s
      ensures !failed && |inflight| < confirmWindow ==>
                retryIds == [] && exists u, i, j :: NothingToSend(u, st.View(), batches(i).faults(j))
    {
      hide IdsOk, BooksOk, Staged, Enumerates, GiveBack, NothingToSend;
      CustodyIds(View(), confirmWindow);
      PumpLeavesNothing(View(), confirmWindow, batches);
      failed, order := false, [];
      var n: nat := 0;
      ghost var start := View();
      while |inflight| < confirmWindow
        invariant Valid() && Custody(View(), confirmWindow)
        invariant PumpAll(View(), confirmWindow, n, batches) == PumpAll(start, confirmWindow, 0, batches)
        decreases confirmWindow - |inflight|
      {
        var b := batches(n);
        StagedGrows(View(), Room(View(), confirmWindow), b.faults, b.clock);
        var messages, staged := StageBatch(b.faults, b.clock);
        if messages == [] {
          return;
        }
        if !b.sent {
          GiveBackCustody(View(), confirmWindow, staged);
          Return(staged);
          ghost var back := View();
          order := DrainInflightToRetry();
          GiveBackCustody(back, confirmWindow, order);
          failed := true;
          return;
        }
        n := n + 1;
      }
    }

    /** A confirmation arrived; one for an unknown id is late and ignored. */
    method OnConfirm(id: nat, ok: bool, inject: bool)
      requires Valid()
      modifies this, st
      ensures Valid() && View() == Resolve(old(View()), id, ok, inject)
    {
      if id in inflight {
        var slot := inflight[id];
        inflight := inflight - {id};
        if ok {
          if !slot.dup {
            ledger := ledger.(settled := ledger.settled + {id});
            if inject {
              st.dupQueue := st.dupQueue + [slot.frame];
              ledger := ledger.(injected := ledger.injected + multiset{slot.frame});
            }
          }
        } else if !slot.dup {
          retryIds := retryIds + [(slot.frame, id)];
        }
      }
    }

    /** Give back the frames of some ids, one by one. */
    method Return(ids: seq<nat>)
      requires Valid()
      modifies this`inflight, this`retryIds
      ensures Valid() && View() == GiveBack(old(View()), ids)
    {
      GiveBackShape(View(), ids);
      for i := 0 to |ids|
        invariant View() == GiveBack(old(View()), ids[..i])
      {
        assert ids[..i + 1][..i] == ids[..i];
        var id := ids[i];
        if id in inflight {
          var slot := inflight[id];
          inflight := inflight - {id};
          if !slot.dup {
            retryIds := retryIds + [(slot.frame, id)];
          }
        }
      }
      assert ids[..|ids|] == ids;
    }

    /** An arbitrary enumeration of some keys of the window. */
    static method Enumerate(keys: set<nat>) returns (ids: seq<nat>)
      ensures Enumerates(ids, keys)
    {
      ids := [];
      var rest := keys;
      while rest != {}
        invariant rest <= keys && Enumerates(ids, keys - rest)
        decreases rest
      {
        var id :| id in rest;
        ids, rest := ids + [id], rest - {id};
      }
    }

    /** Everything in flight goes back, in the order the hash map yields it. */
    method DrainInflightToRetry() returns (ghost order: seq<nat>)
      requires Valid()
      modifies this`inflight, this`retryIds
      ensures Valid() && Enumerates(order, old(inflight).Keys)
      ensures View() == GiveBack(old(View()), order) && inflight == map[]
    {
      var ids := Enumerate(inflight.Keys);
      GiveBackShape(View(), ids);
      hide GiveBack;
      order := ids;
      Return(ids);
      assert inflight.Keys == {};
    }

    /** Retransmit under the same ids what was not confirmed in time. */
    method Sweep(now: nat) returns (ghost order: seq<nat>)
      requires Valid()
      modifies this`inflight, this`retryIds
      ensures Valid() && Enumerates(order, Stale(old(View()), now))
      ensures View() == GiveBack(old(View()), order) && Stale(View(), now) == {}
    {
      var stale := Enumerate(set id | id in inflight && now > inflight[id].sentAt + CONFIRM_TIMEOUT_MS);
      GiveBackShape(View(), stale);
      hide GiveBack;
      order := stale;
      assert Enumerates(stale, Stale(View(), now));
      Return(stale);
    }
  }

  lemma {:induction false} GiveBackShape(e: Edge, ids: seq<nat>)
    ensures var r := GiveBack(e, ids);
            && |r.inflight| <= |e.inflight|
            && (forall id :: id in r.inflight <==> id in e.inflight && id !in ids)
            && (forall id :: id in r.inflight ==> r.inflight[id] == e.inflight[id])
  {
    if ids != [] {
      GiveBackShape(e, ids[..|ids| - 1]);
      assert ids == ids[..|ids| - 1] + [ids[|ids| - 1]];
    }
  }

  lemma RetriesCarry(e: Edge, messages: seq<(Frame, nat)>, staged: seq<nat>)
    requires IdsOk(e) && |messages| == |staged|
    requires forall i :: 0 <= i < |messages| ==> messages[i].1 == staged[i] && messages[i] in e.retryIds
    ensures Carried(messages, staged, e.bound)
  {
  }

  lemma CarriedBoth(m: seq<(Frame, nat)>, s: seq<nat>, bound: seq<(Frame, bool)>,
                    m': seq<(Frame, nat)>, s': seq<nat>, bound': seq<(Frame, bool)>)
    requires Carried(m, s, bound) && Carried(m', s', bound') && bound <= bound'
    ensures Carried(m + m', s + s', bound')
  {
  }

  lemma CarriedOne(m: seq<(Frame, nat)>, s: seq<nat>, bound: seq<(Frame, bool)>, p: (Frame, bool))
    requires Carried(m, s, bound)
    ensures Carried(m + [(p.0, |bound|)], s + [|bound|], bound + [p])
  {
  }

  lemma CustodyIds(e: Edge, window: nat)
    requires Custody(e, window)
    ensures IdsOk(e)
  {
  }
}

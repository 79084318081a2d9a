/** Classic custody: every accepted frame is accounted for, and every confirm is
    applied to the publish it belongs to. */
module ClassicCustody {
  import opened Frames
  import opened UplinkModel
  import opened ClassicModel

  /** Frames awaiting a confirm: ordinary ones, or duplicates. */
  ghost function Wire(pending: seq<(Frame, bool)>, dup: bool): multiset<Frame> {
    if pending == [] then multiset{}
    else (if pending[0].1 == dup then multiset{pending[0].0} else multiset{}) + Wire(pending[1..], dup)
  }

  lemma {:induction false} WireAppend(pending: seq<(Frame, bool)>, p: (Frame, bool), dup: bool)
    ensures Wire(pending + [p], dup) == Wire(pending, dup) + if p.1 == dup then multiset{p.0} else multiset{}
  {
    if pending == [] {
      assert ([] + [p])[1..] == [];
    } else {
      WireAppend(pending[1..], p, dup);
      assert (pending + [p])[1..] == pending[1..] + [p];
    }
  }

  /** Conservation: accepted and promoted frames are dropped, held, on the wire or
      confirmed; injected duplicates are queued, on the wire, promoted or spent. */
  ghost predicate Balanced(e: Edge) {
    && e.books.received + e.books.promoted ==
       e.books.dropped + Held(e.up) + Wire(e.pending, false) + e.books.confirmed
    && e.books.injected ==
       multiset(e.up.dupQueue) + Wire(e.pending, true) + e.books.promoted + e.books.spentDups
  }

  /** Position by position, what is pending is what was published under the id whose
      confirm comes next. */
  ghost predicate InStep(e: Edge) {
    && Paired(e)
    && (forall i :: 0 <= i < |e.inflight| ==>
          e.inflight[i] < |e.published| && e.published[e.inflight[i]] == e.pending[i].0)
    && (forall i, j :: 0 <= i < j < |e.inflight| ==> e.inflight[i] < e.inflight[j])
  }

  ghost predicate WasAcked(e: Edge, f: Frame) {
    exists id :: id in e.acked && id < |e.published| && e.published[id] == f
  }

  /** Confirmed frames were published under an acked id. */
  ghost predicate Vouched(e: Edge) {
    && (forall id :: id in e.acked ==> id < |e.published|)
    && (forall f :: f in e.books.confirmed ==> WasAcked(e, f))
  }

  ghost predicate Matched(e: Edge) {
    InStep(e) && Vouched(e)
  }

  // ---- Requeue, settle, reap ----

  lemma PopBalance(e: Edge)
    requires e.pending != []
    ensures Wire(e.pending, false) ==
            Wire(e.pending[1..], false) + if e.pending[0].1 then multiset{} else multiset{e.pending[0].0}
    ensures Wire(e.pending, true) ==
            Wire(e.pending[1..], true) + if e.pending[0].1 then multiset{e.pending[0].0} else multiset{}
  {
  }

  lemma RetryMore(u: Uplink, f: Frame)
    ensures Held(u.(retry := u.retry + [f])) == Held(u) + multiset{f}
    ensures Held(u.(retry := [f] + u.retry)) == Held(u) + multiset{f}
  {
    hide Flat;
  }

  lemma RequeueBalances(e: Edge, f: Edge)
    requires Balanced(e) && e.pending != []
    requires f.up == e.up && f.books == e.books && f.pending == e.pending[1..]
    ensures Balanced(Requeue(f, e.pending[0]))
  {
    hide Held, Wire;
    PopBalance(e);
    RetryMore(e.up, e.pending[0].0);
    DupQueueOnly(e.up, e.pending[0].0);
  }

  lemma SettleBalances(e: Edge, f: Edge)
    requires Balanced(e) && e.pending != []
    requires f.up == e.up && f.books == e.books && f.pending == e.pending[1..]
    ensures Balanced(Settle(f, e.pending[0]))
  {
    hide Held, Wire;
    PopBalance(e);
  }

  /** Acknowledging one more id, and confirming at most its frame, stays vouched. */
  lemma VouchMore(e: Edge, r: Edge, id: nat)
    requires Vouched(e) && id < |e.published| && r.published == e.published
    requires r.acked == e.acked + {id}
    requires r.books.confirmed <= e.books.confirmed + multiset{e.published[id]}
    ensures Vouched(r)
  {
    forall f | f in r.books.confirmed ensures WasAcked(r, f) {
      if f in e.books.confirmed {
        assert WasAcked(e, f);
      } else {
        assert id in r.acked && r.published[id] == f;
      }
    }
  }

  lemma VouchSame(e: Edge, r: Edge)
    requires Vouched(e) && e.published <= r.published
    requires r.acked == e.acked && r.books.confirmed == e.books.confirmed
    ensures Vouched(r)
  {
    forall f | f in r.books.confirmed ensures WasAcked(r, f) {
      assert WasAcked(e, f);
      var id :| id in e.acked && id < |e.published| && e.published[id] == f;
      assert r.published[id] == f;
    }
  }

  /** What one resolved confirm does besides the books. */
  ghost predicate ReapedOne(e: Edge, o: Outcome, r: Edge) {
    && e.inflight != []
    && r.inflight == e.inflight[1..] && r.published == e.published
    && r.books.received == e.books.received && r.books.dropped == e.books.dropped
    && r.acked == e.acked + if o == Ack then {e.inflight[0]} else {}
  }

  lemma ReapOneVouched(e: Edge, o: Outcome)
    requires InStep(e) && Vouched(e) && e.inflight != []
    ensures Vouched(ReapOne(e, o))
  {
    ReapOneInStep(e, o);
    hide InStep, Vouched;
    if o == Ack {
      VouchMore(e, ReapOne(e, o), e.inflight[0]);
    } else {
      VouchSame(e, ReapOne(e, o));
    }
  }

  lemma ReapOneMatches(e: Edge, o: Outcome)
    requires Matched(e) && Paired(e) && e.inflight != []
    ensures Matched(ReapOne(e, o)) && ReapedOne(e, o, ReapOne(e, o))
  {
    hide InStep, Vouched;
    ReapOneInStep(e, o);
    ReapOneVouched(e, o);
  }

  lemma ReapOneInStep(e: Edge, o: Outcome)
    requires InStep(e) && e.inflight != []
    ensures InStep(ReapOne(e, o)) && e.inflight[0] < |e.published| && e.published[e.inflight[0]] == e.pending[0].0
  {
  }

  lemma ReapOneBalances(e: Edge, o: Outcome)
    requires Paired(e) && Balanced(e) && e.inflight != []
    ensures Balanced(ReapOne(e, o))
  {
    hide Balanced;
    if o == Ack {
      SettleBalances(e, PopFront(e).(acked := e.acked + {e.inflight[0]}));
    } else {
      RequeueBalances(e, PopFront(e));
    }
  }

  lemma ReapOneKeeps(e: Edge, o: Outcome)
    requires Matched(e) && Balanced(e) && e.inflight != []
    ensures Matched(ReapOne(e, o)) && Balanced(ReapOne(e, o)) && ReapedOne(e, o, ReapOne(e, o))
  {
    PairedFrom(e);
    hide Matched, Balanced, ReapedOne, ReapOne;
    ReapOneMatches(e, o);
    ReapOneBalances(e, o);
  }

  ghost predicate SameLogs(e: Edge, f: Edge) {
    && f.published == e.published && f.books.received == e.books.received
    && f.books.dropped == e.books.dropped && f.books.confirmed == e.books.confirmed && f.acked == e.acked
  }

  lemma {:induction false} AbandonKeeps(e: Edge)
    requires Balanced(e)
    ensures Balanced(Abandon(e)) && SameLogs(e, Abandon(e))
    ensures Abandon(e).pending == [] && Abandon(e).inflight == []
    decreases e.pending
  {
    hide Held, Wire;
    if e.pending != [] {
      var f := e.(pending := e.pending[1..]);
      RequeueBalances(e, f);
      hide Balanced;
      AbandonKeeps(Requeue(f, e.pending[0]));
    }
  }

  /** Ids that a reap acknowledges. */
  function ReapAcks(inflight: seq<nat>, outcomes: seq<Outcome>): set<nat> {
    set i | 0 <= i < |inflight| && i < |outcomes| && outcomes[i] == Ack :: inflight[i]
  }

  lemma ReapAcksHead(inflight: seq<nat>, outcomes: seq<Outcome>)
    requires inflight != [] && outcomes != []
    ensures ReapAcks(inflight, outcomes) ==
            (if outcomes[0] == Ack then {inflight[0]} else {}) + ReapAcks(inflight[1..], outcomes[1..])
  {
    forall i | 0 <= i < |inflight| && i < |outcomes| && outcomes[i] == Ack
      ensures i == 0 || inflight[i] in ReapAcks(inflight[1..], outcomes[1..])
    {
      if i > 0 { assert inflight[1..][i - 1] == inflight[i] && outcomes[1..][i - 1] == outcomes[i]; }
    }
  }

  /** A reap left nothing awaited and acknowledged exactly the ids it should. */
  ghost predicate ReapedAll(e: Edge, outcomes: seq<Outcome>, r: Edge) {
    && r.pending == [] && r.inflight == [] && r.published == e.published
    && r.acked == e.acked + ReapAcks(e.inflight, outcomes)
    && r.books.received == e.books.received && r.books.dropped == e.books.dropped
  }

  /** However many confirms never resolve, a reap leaves nothing awaited, loses no
      frame, and acknowledges exactly the ids whose confirm resolved as an ack. */
  lemma {:induction false} ReapKeeps(e: Edge, outcomes: seq<Outcome>)
    requires Matched(e) && Balanced(e)
    ensures Paired(e) && Matched(Reap(e, outcomes)) && Balanced(Reap(e, outcomes))
    ensures ReapedAll(e, outcomes, Reap(e, outcomes))
    decreases outcomes
  {
    PairedFrom(e);
    hide Matched, Balanced, ReapOne, Abandon, ReapedAll, ReapedOne;
    if e.inflight == [] || outcomes == [] {
      AbandonMatches(e);
      AbandonKeeps(e);
      AbandonedAll(e, outcomes);
    } else {
      var m := ReapOne(e, outcomes[0]);
      ReapOneKeeps(e, outcomes[0]);
      PairedFrom(m);
      ReapKeeps(m, outcomes[1..]);
      ReapedBoth(e, outcomes, m, Reap(m, outcomes[1..]));
    }
  }

  lemma AbandonedAll(e: Edge, outcomes: seq<Outcome>)
    requires Balanced(e) && (e.inflight == [] || outcomes == [])
    ensures ReapedAll(e, outcomes, Abandon(e))
  {
    AbandonKeeps(e);
    hide Balanced, Abandon;
  }

  lemma ReapedBoth(e: Edge, outcomes: seq<Outcome>, m: Edge, r: Edge)
    requires outcomes != [] && ReapedOne(e, outcomes[0], m) && ReapedAll(m, outcomes[1..], r)
    ensures ReapedAll(e, outcomes, r)
  {
    ReapAcksHead(e.inflight, outcomes);
    hide ReapAcks;
  }

  lemma AbandonMatches(e: Edge)
    requires Matched(e) && Balanced(e)
    ensures Matched(Abandon(e))
  {
    AbandonKeeps(e);
    hide Balanced, Abandon;
    VouchSame(e, Abandon(e));
  }

  lemma PairedFrom(e: Edge)
    requires Matched(e)
    ensures Paired(e)
  {
  }

  // ---- The steps ----

  lemma ReceiveBalances(e: Edge, f: Frame)
    requires Balanced(e)
    ensures Balanced(Receive(e, f))
  {
    BufferKeeps(e.up, f);
    BufferTouches(e.up, f);
    hide Held, Wire, Victims, BufferFrame;
    var b := e.books;
    BothGrow(b.received, b.promoted, b.dropped, Held(e.up), Wire(e.pending, false) + b.confirmed,
             multiset{f}, multiset(Victims(e.up, f)), Held(BufferFrame(e.up, f)));
  }

  lemma ReceiveKeeps(e: Edge, f: Frame)
    requires Matched(e) && Balanced(e)
    ensures Matched(Receive(e, f)) && Balanced(Receive(e, f))
  {
    ReceiveBalances(e, f);
    hide Balanced, Victims, BufferFrame;
    VouchSame(e, Receive(e, f));
    hide Vouched;
  }

  /** One more accepted, some of it given up, the rest held. */
  lemma BothGrow<T>(r: multiset<T>, p: multiset<T>, d: multiset<T>, h: multiset<T>, w: multiset<T>,
                    more: multiset<T>, gone: multiset<T>, h': multiset<T>)
    requires r + p == d + h + w && h' + gone == h + more
    ensures (r + more) + p == (d + gone) + h' + w
  {
    assert (r + more) + p == (r + p) + more;
    assert d + (h + more) + w == (d + h + w) + more;
    assert (d + gone) + h' + w == d + (h' + gone) + w;
  }

  lemma PublishKeeps(e: Edge, flt: Faults)
    requires Matched(e) && Balanced(e)
    ensures Matched(Publish(e, flt)) && Balanced(Publish(e, flt))
  {
    NextKeeps(e.up, flt);
    hide Held, Next, Wire;
    var r := Next(e.up, flt).1;
    if r.Some? {
      WireAppend(e.pending, r.value, false);
      WireAppend(e.pending, r.value, true);
      PublishMatches(e, flt);
      hide Matched;
    }
  }

  lemma PublishMatches(e: Edge, flt: Faults)
    requires Matched(e)
    ensures Matched(Publish(e, flt))
  {
    hide Next;
    VouchSame(e, Publish(e, flt));
    hide Vouched;
  }

  /** The state in which a failed publish starts its teardown. */
  function Returned(e: Edge, v: Uplink, f: Frame, dup: bool): Edge {
    e.(up := v.(retry := [f] + v.retry), published := e.published + [f],
       books := if dup then e.books.(promoted := e.books.promoted + multiset{f}) else e.books)
  }

  lemma ReturnedBalances(e: Edge, v: Uplink, f: Frame, dup: bool)
    requires Balanced(e)
    requires dup ==> Held(v) == Held(e.up) && e.up.dupQueue == [f] + v.dupQueue
    requires !dup ==> Held(e.up) == Held(v) + multiset{f} && v.dupQueue == e.up.dupQueue
    ensures Balanced(Returned(e, v, f, dup))
  {
    hide Held, Wire;
    RetryMore(v, f);
    var b, one := e.books, multiset{f};
    if dup {
      assert b.received + (b.promoted + one) == (b.received + b.promoted) + one;
      assert multiset(e.up.dupQueue) == one + multiset(v.dupQueue);
    }
  }

  lemma ReturnedMatches(e: Edge, v: Uplink, f: Frame, dup: bool)
    requires Matched(e)
    ensures Matched(Returned(e, v, f, dup))
  {
    VouchSame(e, Returned(e, v, f, dup));
    hide Vouched;
  }

  lemma ReturnedKeeps(e: Edge, flt: Faults)
    requires Matched(e) && Balanced(e) && Next(e.up, flt).1.Some?
    ensures var (v, r) := Next(e.up, flt);
            Matched(Returned(e, v, r.value.0, r.value.1)) && Balanced(Returned(e, v, r.value.0, r.value.1))
  {
    hide Next, Balanced, Matched, Held, Returned;
    NextKeeps(e.up, flt);
    var (v, r) := Next(e.up, flt);
    ReturnedBalances(e, v, r.value.0, r.value.1);
    ReturnedMatches(e, v, r.value.0, r.value.1);
  }

  lemma NoneKeeps(e: Edge, flt: Faults)
    requires Matched(e) && Balanced(e) && Next(e.up, flt).1.None?
    ensures Matched(e.(up := Next(e.up, flt).0)) && Balanced(e.(up := Next(e.up, flt).0))
  {
    NextKeeps(e.up, flt);
    hide Held, Next, Wire;
  }

  lemma PublishFailedKeeps(e: Edge, flt: Faults, outcomes: seq<Outcome>)
    requires Matched(e) && Balanced(e)
    ensures Matched(PublishFailed(e, flt, outcomes)) && Balanced(PublishFailed(e, flt, outcomes))
    ensures Next(e.up, flt).1.Some? ==> PublishFailed(e, flt, outcomes).inflight == []
  {
    hide Next;
    var (v, r) := Next(e.up, flt);
    if r.Some? {
      ReturnedKeeps(e, flt);
      hide Balanced;
      ReapKeeps(Returned(e, v, r.value.0, r.value.1), outcomes);
      hide Matched, Reap;
    } else {
      NoneKeeps(e, flt);
    }
  }

  lemma InjectKeeps(e: Edge, f: Frame)
    requires Matched(e) && Balanced(e)
    ensures var r := e.(up := e.up.(dupQueue := e.up.dupQueue + [f]),
                        books := e.books.(injected := e.books.injected + multiset{f}));
            Matched(r) && Balanced(r)
  {
    DupQueueOnly(e.up, f);
    hide Held, Wire;
  }

  lemma ConfirmKeeps(e: Edge, o: Outcome, inject: bool, outcomes: seq<Outcome>)
    requires Matched(e) && Balanced(e) && e.inflight != []
    ensures Matched(Confirm(e, o, inject, outcomes)) && Balanced(Confirm(e, o, inject, outcomes))
    ensures |Confirm(e, o, inject, outcomes).inflight| < |e.inflight|
  {
    ReapOneKeeps(e, o);
    PairedFrom(e);
    var p, r := e.pending[0], ReapOne(e, o);
    PairedFrom(r);
    hide Matched, Balanced, ReapOne;
    match o
    case Ack => InjectKeeps(r, p.0);
    case Nack =>
    case Broken => ReapKeeps(r, outcomes);
  }

  /** Custody over every step: the books balance, pending and awaited confirms match
      position by position, and the window is never exceeded. */
  lemma StepKeeps(e: Edge, window: nat, ev: Event)
    requires Matched(e) && Balanced(e) && |e.inflight| <= window && Enabled(e, window, ev)
    ensures Matched(Step(e, ev)) && Balanced(Step(e, ev)) && |Step(e, ev).inflight| <= window
  {
    PairedFrom(e);
    hide Matched, Balanced, Reap, Confirm, PublishFailed;
    match ev
    case Arrive(f) => ReceiveKeeps(e, f);
    case Pump(flt) => PublishKeeps(e, flt);
    case PumpFails(flt, outcomes) =>
      PublishFailedKeeps(e, flt, outcomes);
      FailedWindow(e, flt, outcomes);
    case Resolve(o, inject, outcomes) => ConfirmKeeps(e, o, inject, outcomes);
    case Teardown(outcomes) => ReapKeeps(e, outcomes);
  }

  lemma FailedWindow(e: Edge, flt: Faults, outcomes: seq<Outcome>)
    requires Paired(e)
    requires Next(e.up, flt).1.Some? ==> PublishFailed(e, flt, outcomes).inflight == []
    ensures |PublishFailed(e, flt, outcomes).inflight| <= |e.inflight|
  {
    hide Next, Reap;
  }

  /** The pump, however many turns it takes, keeps custody and fills no more than
      the window; a failed publish leaves nothing awaited. */
  lemma {:induction false} PumpAllKeeps(e: Edge, window: nat, n: nat, turns: nat -> Turn)
    requires Matched(e) && Balanced(e) && Paired(e) && |e.inflight| <= window
    ensures var (r, failed) := PumpAll(e, window, n, turns);
            Matched(r) && Balanced(r) && |r.inflight| <= window && (failed ==> r.inflight == [])
    decreases window - |e.inflight|
  {
    hide Matched, Balanced, Next, PublishFailed;
    if |e.inflight| < window {
      var t := turns(n);
      PublishKeeps(e, t.faults);
      if Next(e.up, t.faults).1.Some? {
        if t.sent {
          PumpAllKeeps(Publish(e, t.faults), window, n + 1, turns);
        } else {
          PublishFailedKeeps(e, t.faults, t.outcomes);
        }
      }
    }
  }

  // ---- Nothing is made up ----

  /** Only accepted frames are ever injected, promoted or published. */
  ghost predicate Closed(e: Edge) {
    && (forall f :: f in e.books.injected ==> f in e.books.received)
    && (forall f :: f in e.books.promoted ==> f in e.books.received)
    && (forall f :: f in e.published ==> f in e.books.received)
  }

  /** What the publisher pulls next was accepted. */
  lemma NextWasReceived(e: Edge, flt: Faults)
    requires Balanced(e) && Closed(e) && Next(e.up, flt).1.Some?
    ensures Next(e.up, flt).1.value.0 in e.books.received
  {
    NextKeeps(e.up, flt);
    hide Next, Held, Wire;
    var f := Next(e.up, flt).1.value.0;
    if Next(e.up, flt).1.value.1 {
      assert f in multiset(e.up.dupQueue);
      assert f in e.books.injected;
    } else {
      assert f in Held(e.up);
      assert f in e.books.received + e.books.promoted;
    }
  }

  lemma PendingWasReceived(e: Edge)
    requires Matched(e) && Closed(e) && e.pending != []
    ensures e.pending[0].0 in e.books.received
  {
    assert e.published[e.inflight[0]] == e.pending[0].0;
    assert e.pending[0].0 in e.published;
  }

  ghost predicate SameClosure(e: Edge, f: Edge) {
    && f.books.received == e.books.received && f.books.injected == e.books.injected
    && f.books.promoted == e.books.promoted && f.published == e.published
  }

  lemma {:induction false} AbandonCloses(e: Edge)
    ensures SameClosure(e, Abandon(e))
    decreases e.pending
  {
    if e.pending != [] {
      AbandonCloses(Requeue(e.(pending := e.pending[1..]), e.pending[0]));
    }
  }

  lemma {:induction false} ReapCloses(e: Edge, outcomes: seq<Outcome>)
    requires Paired(e)
    ensures SameClosure(e, Reap(e, outcomes))
    decreases outcomes
  {
    AbandonCloses(e);
    hide Abandon;
    if e.inflight != [] && outcomes != [] {
      ReapCloses(ReapOne(e, outcomes[0]), outcomes[1..]);
    }
  }

  lemma ClosedSame(e: Edge, f: Edge)
    requires Closed(e) && SameClosure(e, f)
    ensures Closed(f)
  {
  }

  /** Publishing, promoting or injecting accepted frames stays closed. */
  lemma ClosedMore(e: Edge, r: Edge, f: Frame)
    requires Closed(e) && f in e.books.received && e.books.received <= r.books.received
    requires r.published == e.published || r.published == e.published + [f]
    requires r.books.injected <= e.books.injected + multiset{f}
    requires r.books.promoted <= e.books.promoted + multiset{f}
    ensures Closed(r)
  {
    forall g | g in r.books.injected ensures g in r.books.received {
      assert g in e.books.injected || g == f;
    }
    forall g | g in r.books.promoted ensures g in r.books.received {
      assert g in e.books.promoted || g == f;
    }
  }

  lemma PumpCloses(e: Edge, flt: Faults, outcomes: seq<Outcome>)
    requires Balanced(e) && Closed(e) && Paired(e)
    ensures Closed(Publish(e, flt)) && Closed(PublishFailed(e, flt, outcomes))
  {
    hide Balanced, Next, Closed, Reap;
    var (v, r) := Next(e.up, flt);
    if r.Some? {
      NextWasReceived(e, flt);
      ClosedMore(e, Publish(e, flt), r.value.0);
      var back := Returned(e, v, r.value.0, r.value.1);
      ClosedMore(e, back, r.value.0);
      ReapCloses(back, outcomes);
      ClosedSame(back, Reap(back, outcomes));
    } else {
      ClosedSame(e, Publish(e, flt));
    }
  }

  lemma ConfirmCloses(e: Edge, o: Outcome, inject: bool, outcomes: seq<Outcome>)
    requires Matched(e) && Closed(e) && Paired(e) && e.inflight != []
    ensures Closed(Confirm(e, o, inject, outcomes))
  {
    hide Matched, Closed, Reap;
    PendingWasReceived(e);
    var r := ReapOne(e, o);
    ClosedSame(e, r);
    if o == Broken {
      ReapCloses(r, outcomes);
      ClosedSame(r, Reap(r, outcomes));
    } else {
      ClosedMore(e, Confirm(e, o, inject, outcomes), e.pending[0].0);
    }
  }

  lemma StepCloses(e: Edge, ev: Event)
    requires Matched(e) && Balanced(e) && Closed(e) && Paired(e) && (ev.Resolve? ==> e.inflight != [])
    ensures Closed(Step(e, ev))
  {
    hide Balanced, Matched, Confirm, Publish, PublishFailed, Reap;
    match ev
    case Arrive(f) => ReceiveCloses(e, f);
    case Pump(flt) => PumpCloses(e, flt, []);
    case PumpFails(flt, outcomes) => PumpCloses(e, flt, outcomes);
    case Resolve(o, inject, outcomes) => ConfirmCloses(e, o, inject, outcomes);
    case Teardown(outcomes) =>
      ReapCloses(e, outcomes);
      ClosedSame(e, Reap(e, outcomes));
  }

  lemma PumpLogs(e: Edge, flt: Faults, outcomes: seq<Outcome>)
    requires Paired(e)
    ensures Publish(e, flt).books.received == e.books.received && e.published <= Publish(e, flt).published
    ensures PublishFailed(e, flt, outcomes).books.received == e.books.received
    ensures e.published <= PublishFailed(e, flt, outcomes).published
  {
    hide Reap, Next;
    var (v, r) := Next(e.up, flt);
    if r.Some? { ReapCloses(Returned(e, v, r.value.0, r.value.1), outcomes); }
  }

  lemma ConfirmLogs(e: Edge, o: Outcome, inject: bool, outcomes: seq<Outcome>)
    requires Paired(e) && e.inflight != []
    ensures Confirm(e, o, inject, outcomes).books.received == e.books.received
    ensures Confirm(e, o, inject, outcomes).published == e.published
  {
    hide Reap;
    ReapCloses(ReapOne(e, o), outcomes);
  }

  /** Only an arrival is accepted, and the log of publish attempts only grows. */
  lemma StepLogs(e: Edge, ev: Event)
    requires Paired(e) && (ev.Resolve? ==> e.inflight != [])
    ensures Step(e, ev).books.received == e.books.received + if ev.Arrive? then multiset{ev.frame} else multiset{}
    ensures e.published <= Step(e, ev).published
  {
    hide Reap, BufferFrame, Victims, Confirm, Publish, PublishFailed;
    match ev
    case Arrive(f) =>
    case Pump(flt) => PumpLogs(e, flt, []);
    case PumpFails(flt, outcomes) => PumpLogs(e, flt, outcomes);
    case Resolve(o, inject, outcomes) => ConfirmLogs(e, o, inject, outcomes);
    case Teardown(outcomes) => ReapCloses(e, outcomes);
  }

  lemma ReceiveCloses(e: Edge, f: Frame)
    requires Closed(e)
    ensures Closed(Receive(e, f))
  {
    hide Victims, BufferFrame;
  }

  // ---- One duplicate for one confirm ----

  lemma {:induction false} AbandonConfirms(e: Edge)
    ensures Abandon(e).books.confirmed == e.books.confirmed && Abandon(e).books.injected == e.books.injected
    decreases e.pending
  {
    if e.pending != [] {
      AbandonConfirms(Requeue(e.(pending := e.pending[1..]), e.pending[0]));
    }
  }

  lemma {:induction false} ReapConfirms(e: Edge, outcomes: seq<Outcome>)
    requires Paired(e)
    ensures e.books.confirmed <= Reap(e, outcomes).books.confirmed
    ensures Reap(e, outcomes).books.injected == e.books.injected
    decreases outcomes
  {
    hide Abandon;
    AbandonConfirms(e);
    if e.inflight != [] && outcomes != [] {
      ReapConfirms(ReapOne(e, outcomes[0]), outcomes[1..]);
    }
  }

  lemma PumpInjects(e: Edge, flt: Faults, outcomes: seq<Outcome>)
    requires Paired(e) && e.books.injected <= e.books.confirmed
    ensures Publish(e, flt).books.injected <= Publish(e, flt).books.confirmed
    ensures PublishFailed(e, flt, outcomes).books.injected <= PublishFailed(e, flt, outcomes).books.confirmed
  {
    hide Reap, Next;
    var (v, r) := Next(e.up, flt);
    if r.Some? { ReapConfirms(Returned(e, v, r.value.0, r.value.1), outcomes); }
  }

  lemma ConfirmInjects(e: Edge, o: Outcome, inject: bool, outcomes: seq<Outcome>)
    requires Paired(e) && e.inflight != [] && e.books.injected <= e.books.confirmed
    ensures Confirm(e, o, inject, outcomes).books.injected <= Confirm(e, o, inject, outcomes).books.confirmed
  {
    hide Reap;
    if o == Broken { ReapConfirms(ReapOne(e, o), outcomes); }
  }

  /** Each injected duplicate answers a confirm of an ordinary frame of its own, so a
      confirmed duplicate never injects again. */
  lemma StepInjects(e: Edge, ev: Event)
    requires Paired(e) && (ev.Resolve? ==> e.inflight != []) && e.books.injected <= e.books.confirmed
    ensures Step(e, ev).books.injected <= Step(e, ev).books.confirmed
  {
    hide Reap, BufferFrame, Victims, Confirm, Publish, PublishFailed;
    match ev
    case Arrive(f) =>
    case Pump(flt) => PumpInjects(e, flt, []);
    case PumpFails(flt, outcomes) => PumpInjects(e, flt, outcomes);
    case Resolve(o, inject, outcomes) => ConfirmInjects(e, o, inject, outcomes);
    case Teardown(outcomes) => ReapConfirms(e, outcomes);
  }

  // ---- Runs ----

  /** The states a run of events passes through, if each event is enabled. */
  ghost predicate Reaches(start: Edge, window: nat, evs: seq<Event>, end: Edge)
    decreases |evs|
  {
    if evs == [] then end == start
    else exists mid :: Reaches(start, window, evs[..|evs| - 1], mid) && Paired(mid)
                       && Enabled(mid, window, evs[|evs| - 1]) && end == Step(mid, evs[|evs| - 1])
  }

  lemma BootKeeps(pads: nat, cap: nat)
    ensures Matched(Boot(pads, cap)) && Balanced(Boot(pads, cap))
  {
    EmptyPadsHoldNothing(pads);
  }

  /** Over every run of the classic publisher, custody is conserved. */
  lemma {:induction false} CustodyConserved(pads: nat, cap: nat, window: nat, evs: seq<Event>, end: Edge)
    requires Reaches(Boot(pads, cap), window, evs, end)
    ensures Matched(end) && Balanced(end) && |end.inflight| <= window
    ensures end.books.injected <= end.books.confirmed
    decreases |evs|
  {
    hide Matched, Balanced, Step;
    if evs == [] {
      BootKeeps(pads, cap);
    } else {
      var init := evs[..|evs| - 1];
      var mid :| Reaches(Boot(pads, cap), window, init, mid) && Paired(mid)
                 && Enabled(mid, window, evs[|evs| - 1]) && end == Step(mid, evs[|evs| - 1]);
      CustodyConserved(pads, cap, window, init, mid);
      StepKeeps(mid, window, evs[|evs| - 1]);
      StepInjects(mid, evs[|evs| - 1]);
    }
  }

  lemma ReachesNext(start: Edge, window: nat, evs: seq<Event>, e: Edge, ev: Event)
    requires Reaches(start, window, evs, e) && Paired(e) && Enabled(e, window, ev)
    ensures Reaches(start, window, evs + [ev], Step(e, ev))
  {
    hide Step;
    assert (evs + [ev])[..|evs|] == evs;
  }

  /** The events that a pump's loop adds to a run: publishes, and a failed one at most at
      the end. */
  ghost predicate PumpedOn(evs: seq<Event>, more: seq<Event>, failed: bool) {
    && evs <= more && (failed ==> |evs| < |more|)
    && forall i :: |evs| <= i < |more| ==>
         if failed && i == |more| - 1 then more[i].PumpFails? else more[i].Pump?
  }

  /** The pump's whole loop is a run of single publishes, so whatever holds over every
      run holds for it. */
  lemma {:induction false} PumpAllIsARun(start: Edge, window: nat, evs: seq<Event>, e: Edge, n: nat, turns: nat -> Turn)
    returns (more: seq<Event>)
    requires Reaches(start, window, evs, e) && Paired(e) && |e.inflight| <= window
    ensures var (r, failed) := PumpAll(e, window, n, turns);
            Reaches(start, window, more, r) && PumpedOn(evs, more, failed)
    decreases window - |e.inflight|
  {
    hide Next, Reaches, PublishFailed;
    more := evs;
    if |e.inflight| < window {
      var t := turns(n);
      var ev := if Next(e.up, t.faults).1.None? || t.sent then Pump(t.faults) else PumpFails(t.faults, t.outcomes);
      ReachesNext(start, window, evs, e, ev);
      more := evs + [ev];
      if Next(e.up, t.faults).1.Some? && t.sent {
        more := PumpAllIsARun(start, window, evs + [ev], Publish(e, t.faults), n + 1, turns);
      }
    }
  }
}

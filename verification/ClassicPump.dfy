/** What the classic pump gets done, and what each confirm leads to. */
module ClassicPump {
  import opened Folds
  import opened Frames
  import opened UplinkModel
  import opened ClassicModel
  import UD = UplinkDrain

  // ---- The pump ----

  /** One turn whose publish was accepted: exactly the frame that the uplink gave went on
      the wire, behind what is pending. */
  ghost predicate Sent(e: Edge, r: Edge, turn: Turn) {
    var (v, p) := Next(e.up, turn.faults);
    && turn.sent && p.Some? && r.up == v
    && r.pending == e.pending + [p.value] && r.published == e.published + [p.value.0]
    && r.inflight == e.inflight + [|e.published|] && r.acked == e.acked
  }

  /** The states of a pump's turns, each below the window when it is left. */
  ghost predicate Turns(trace: seq<Edge>, window: nat, n: nat, turns: nat -> Turn) {
    forall i :: 0 <= i < |trace| - 1 ==>
      |trace[i].inflight| < window && Sent(trace[i], trace[i + 1], turns(n + i))
  }

  /** Why the pump stops: the window is full; or the uplink has nothing to give; or the
      publish failed, and then its frame waits in front and nothing is on the wire. */
  ghost predicate Stops(e: Edge, window: nat, turn: Turn, r: Edge, failed: bool) {
    var (v, p) := Next(e.up, turn.faults);
    if |e.inflight| >= window then r == e && !failed
    else if p.None? then r == e.(up := v) && !failed
    else
      && !turn.sent && failed
      && r.pending == [] && r.inflight == [] && r.published == e.published + [p.value.0]
      && r.up.retry != [] && r.up.retry[0] == p.value.0
  }

  ghost predicate Pumps(e: Edge, window: nat, n: nat, turns: nat -> Turn, r: Edge, failed: bool, trace: seq<Edge>) {
    && trace != [] && trace[0] == e && Turns(trace, window, n, turns)
    && Stops(trace[|trace| - 1], window, turns(n + |trace| - 1), r, failed)
  }

  lemma {:induction false} ReapLeavesNothing(e: Edge, outcomes: seq<Outcome>)
    requires Paired(e)
    ensures var r := Reap(e, outcomes);
            r.pending == [] && r.inflight == [] && r.published == e.published && e.up.retry <= r.up.retry
    decreases outcomes
  {
    hide Abandon;
    AbandonLeavesNothing(e);
    if e.inflight != [] && outcomes != [] {
      ReapLeavesNothing(ReapOne(e, outcomes[0]), outcomes[1..]);
    }
  }

  lemma {:induction false} AbandonLeavesNothing(e: Edge)
    ensures var r := Abandon(e);
            r.pending == [] && r.inflight == [] && r.published == e.published && e.up.retry <= r.up.retry
    decreases e.pending
  {
    if e.pending != [] {
      AbandonLeavesNothing(Requeue(e.(pending := e.pending[1..]), e.pending[0]));
    }
  }

  lemma FailureStops(e: Edge, window: nat, turn: Turn)
    requires Paired(e) && |e.inflight| < window && !turn.sent && Next(e.up, turn.faults).1.Some?
    ensures Stops(e, window, turn, PublishFailed(e, turn.faults, turn.outcomes), true)
  {
    hide Next, Reap;
    var (v, r) := Next(e.up, turn.faults);
    var (f, dup) := r.value;
    var w := e.(up := v.(retry := [f] + v.retry), published := e.published + [f],
                books := if dup then e.books.(promoted := e.books.promoted + multiset{f}) else e.books);
    ReapLeavesNothing(w, turn.outcomes);
    assert PublishFailed(e, turn.faults, turn.outcomes) == Reap(w, turn.outcomes);
    assert w.up.retry[0] == f;
  }

  lemma SentOne(e: Edge, turn: Turn)
    requires turn.sent && Next(e.up, turn.faults).1.Some?
    ensures Sent(e, Publish(e, turn.faults), turn)
  {
    hide Next;
  }

  lemma TurnsMore(e: Edge, window: nat, n: nat, turns: nat -> Turn, rest: seq<Edge>)
    requires rest != [] && Turns(rest, window, n + 1, turns) && |e.inflight| < window && Sent(e, rest[0], turns(n))
    ensures Turns([e] + rest, window, n, turns)
  {
    hide Sent;
    var trace := [e] + rest;
    forall i | 0 <= i < |trace| - 1
      ensures |trace[i].inflight| < window && Sent(trace[i], trace[i + 1], turns(n + i))
    {
      if i > 0 {
        assert trace[i] == rest[i - 1] && trace[i + 1] == rest[i];
        assert Sent(rest[i - 1], rest[i], turns(n + 1 + (i - 1)));
      }
    }
  }

  /** The pump sends what the uplink gives, frame by frame, until the window is full,
      nothing is left to give, or a publish fails. */
  lemma {:induction false} PumpTrace(e: Edge, window: nat, n: nat, turns: nat -> Turn) returns (trace: seq<Edge>)
    requires Paired(e)
    ensures var (r, failed) := PumpAll(e, window, n, turns);
            Pumps(e, window, n, turns, r, failed, trace)
    decreases window - |e.inflight|
  {
    hide Next, Publish, PublishFailed, Sent, Stops, Turns;
    trace := [e];
    OneState(e, window, n, turns);
    if |e.inflight| >= window {
      FullStops(e, window, turns(n));
    } else {
      var t := turns(n);
      if Next(e.up, t.faults).1.None? {
        EmptyStops(e, window, t);
      } else if t.sent {
        SentOne(e, t);
        Publishes(e, t.faults);
        var rest := PumpTrace(Publish(e, t.faults), window, n + 1, turns);
        TurnsMore(e, window, n, turns, rest);
        trace := [e] + rest;
        assert trace[|trace| - 1] == rest[|rest| - 1] && n + |trace| - 1 == n + 1 + |rest| - 1;
      } else {
        FailureStops(e, window, t);
      }
    }
  }

  lemma Publishes(e: Edge, flt: Faults)
    requires Paired(e) && Next(e.up, flt).1.Some?
    ensures Paired(Publish(e, flt)) && |Publish(e, flt).inflight| == |e.inflight| + 1
  {
    hide Next;
  }

  lemma OneState(e: Edge, window: nat, n: nat, turns: nat -> Turn)
    ensures Turns([e], window, n, turns)
  {
  }

  lemma FullStops(e: Edge, window: nat, turn: Turn)
    requires |e.inflight| >= window
    ensures Stops(e, window, turn, e, false)
  {
  }

  lemma EmptyStops(e: Edge, window: nat, turn: Turn)
    requires |e.inflight| < window && Next(e.up, turn.faults).1.None?
    ensures Stops(e, window, turn, Publish(e, turn.faults), false)
  {
    hide Next;
  }

  /** Over any links, faults and publishes: the pump's work and the reason it stops. */
  lemma PumpDoesItsWork(e: Edge, window: nat, turns: nat -> Turn)
    requires Paired(e)
    ensures var (r, failed) := PumpAll(e, window, 0, turns);
            exists trace :: Pumps(e, window, 0, turns, r, failed, trace)
  {
    hide PumpAll, Pumps;
    var trace := PumpTrace(e, window, 0, turns);
  }

  /** A pump that ends short of the window without a failure has left nothing that could
      go out. */
  lemma PumpLeavesNothing(e: Edge, window: nat, turns: nat -> Turn)
    requires Paired(e)
    ensures var (r, failed) := PumpAll(e, window, 0, turns);
            !failed && |r.inflight| < window ==>
              exists u, i :: UD.NothingToSend(u, r.up, turns(i).faults)
  {
    hide PumpAll, Turns;
    var (r, failed) := PumpAll(e, window, 0, turns);
    var trace := PumpTrace(e, window, 0, turns);
    var last, i := trace[|trace| - 1], |trace| - 1;
    if !failed && |r.inflight| < window {
      UD.NothingToSendWhen(last.up, turns(i).faults);
    }
  }

  // ---- Confirms ----

  /** An ack takes the oldest frame off the window for good; with the duplicate fault it
      queues one copy of an ordinary frame, which is the next to go out when nothing
      waits for retransmission. */
  lemma AckLeads(e: Edge, inject: bool, flt: Faults)
    requires Paired(e) && e.inflight != []
    ensures var r := Confirm(e, Ack, inject, []);
            && r.pending == e.pending[1..] && r.inflight == e.inflight[1..]
            && r.acked == e.acked + {e.inflight[0]} && r.up.retry == e.up.retry
            && r.up.dupQueue == e.up.dupQueue + (if inject && !e.pending[0].1 then [e.pending[0].0] else [])
            && (inject && !e.pending[0].1 && e.up.retry == [] && e.up.dupQueue == [] ==>
                  Next(r.up, flt).1 == Some((e.pending[0].0, true)))
  {
  }

  /** A nack brings an ordinary frame back, behind what already waits; when nothing does
      it is the very next to go out. A copy is let go. */
  lemma NackLeads(e: Edge, inject: bool, flt: Faults)
    requires Paired(e) && e.inflight != []
    ensures var r := Confirm(e, Nack, inject, []);
            && r.pending == e.pending[1..] && r.inflight == e.inflight[1..]
            && r.acked == e.acked && r.up.dupQueue == e.up.dupQueue
            && r.up.retry == e.up.retry + (if e.pending[0].1 then [] else [e.pending[0].0])
            && (!e.pending[0].1 && e.up.retry == [] ==> Next(r.up, flt).1 == Some((e.pending[0].0, false)))
  {
  }

  /** A confirm that breaks ends the session: nothing stays on the wire. */
  lemma BrokenLeads(e: Edge, inject: bool, outcomes: seq<Outcome>)
    requires Paired(e) && e.inflight != []
    ensures var r := Confirm(e, Broken, inject, outcomes);
            r.pending == [] && r.inflight == [] && e.up.retry <= r.up.retry
  {
    hide Reap;
    ReapLeavesNothing(ReapOne(e, Broken), outcomes);
  }
}

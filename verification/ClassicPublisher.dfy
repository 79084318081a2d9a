/** The classic publisher as the loop keeps it: pending frames beside the ordered
    confirm futures, over the custody state it shares with reconnects. */
module ClassicPublisher {
  import opened Frames
  import opened UplinkModel
  import opened UplinkState
  import opened ClassicModel
  import opened ClassicPump
  import opened UplinkDrain

  class ClassicPublisher {
    const st: UplinkState
    /** Custody of the frames on the wire, oldest first. */
    var pending: seq<(Frame, bool)>
    /** The confirm futures, named by publish attempt, in push order. */
    var inflight: seq<nat>
    var attempts: nat
    ghost var published: seq<Frame>
    ghost var acked: set<nat>
    ghost var books: Books

    ghost function View(): Edge
      reads this, st
    {
      Edge(st.View(), pending, inflight, published, acked, books)
    }

    ghost predicate Valid()
      reads this, st
    {
      Paired(View()) && attempts == |published|
    }

    constructor (pads: nat, cap: nat)
      ensures Valid() && fresh(st) && View() == Boot(pads, cap)
    {
      st := new UplinkState(pads, cap);
      pending, inflight, attempts := [], [], 0;
      published, acked := [], {};
      books := Books(multiset{}, multiset{}, multiset{}, multiset{}, multiset{}, multiset{});
    }

    method OnReceive(frame: Frame)
      requires Valid()
      modifies this, st
      ensures Valid() && View() == Receive(old(View()), frame)
    {
      books := books.(received := books.received + multiset{frame},
                      dropped := books.dropped + multiset(Victims(st.View(), frame)));
      st.BufferFrame(frame);
    }

    /** A frame whose confirm will not come. */
    method PutBack(p: (Frame, bool))
      modifies this`books, st
      ensures View() == Requeue(old(View()), p) && st.bufferDropped == old(st.bufferDropped)
    {
      if !p.1 {
        st.retry := st.retry + [p.0];
      } else {
        books := books.(spentDups := books.spentDups + multiset{p.0});
      }
    }

    /** Apply one resolved confirm to the oldest pending frame. */
    method ApplyOldest(o: Outcome) returns (p: (Frame, bool))
      requires Valid() && inflight != []
      modifies this, st
      ensures Valid() && p == old(pending)[0] && View() == ReapOne(old(View()), o)
    {
      assert pending != [];
      p := pending[0];
      ghost var id := inflight[0];
      pending, inflight := pending[1..], inflight[1..];
      if o == Ack {
        acked := acked + {id};
        books := if p.1 then books.(spentDups := books.spentDups + multiset{p.0})
                 else books.(confirmed := books.confirmed + multiset{p.0});
      } else {
        PutBack(p);
      }
    }

    /** Teardown: apply the confirms that still resolve, requeue the rest. */
    method ReapAll(outcomes: seq<Outcome>)
      requires Valid()
      modifies this, st
      ensures Valid() && View() == Reap(old(View()), outcomes)
    {
      var i := 0;
      while inflight != [] && i < |outcomes|
        invariant i <= |outcomes| && Valid()
        invariant Reap(View(), outcomes[i..]) == Reap(old(View()), outcomes)
        decreases |outcomes| - i
      {
        assert outcomes[i..][0] == outcomes[i] && outcomes[i..][1..] == outcomes[i + 1..];
        var p := ApplyOldest(outcomes[i]);
        i := i + 1;
      }
      assert Reap(View(), outcomes[i..]) == Abandon(View());
      while pending != []
        invariant attempts == |published|
        invariant Abandon(View()) == Reap(old(View()), outcomes)
        decreases |pending|
      {
        var p := pending[0];
        pending := pending[1..];
        PutBack(p);
      }
      inflight := [];
    }

    /** Publish until the window of unconfirmed frames is full or nothing is left. */
    method Pump(window: nat, turns: nat -> Turn) returns (failed: bool)
      requires Valid()
      modifies this, st
      ensures Valid() && (View(), failed) == PumpAll(old(View()), window, 0, turns)
      ensures exists trace :: Pumps(old(View()), window, 0, turns, View(), failed, trace)
      ensures !failed && |inflight| < window ==> exists u, i :: NothingToSend(u, st.View(), turns(i).faults)
    {
      hide Pumps, NothingToSend;
      PumpDoesItsWork(View(), window, turns);
      PumpLeavesNothing(View(), window, turns);
      failed := false;
      var n: nat := 0;
      while |inflight| < window
        invariant Valid()
        invariant PumpAll(View(), window, n, turns) == PumpAll(old(View()), window, 0, turns)
        decreases window - |inflight|
      {
        ghost var e := View();
        var turn := turns(n);
        var next := st.NextPublishable(turn.faults);
        if next.None? {
          assert View() == Publish(e, turn.faults);
          return;
        }
        var (frame, isDup) := next.value;
        published := published + [frame];
        attempts := attempts + 1;
        if turn.sent {
          pending, inflight := pending + [(frame, isDup)], inflight + [attempts - 1];
          assert View() == Publish(e, turn.faults);
        } else {
          st.retry := [frame] + st.retry;
          if isDup { books := books.(promoted := books.promoted + multiset{frame}); }
          ReapAll(turn.outcomes);
          assert View() == PublishFailed(e, turn.faults, turn.outcomes);
          return true;
        }
        n := n + 1;
      }
    }

    /** The next confirm resolved; true when it broke the session. */
    method OnConfirm(o: Outcome, inject: bool, outcomes: seq<Outcome>) returns (failed: bool)
      requires Valid() && inflight != []
      modifies this, st
      ensures Valid() && View() == Confirm(old(View()), o, inject, outcomes) && failed == (o == Broken)
    {
      var p := ApplyOldest(o);
      failed := false;
      if o == Ack {
        if !p.1 && inject {
          st.dupQueue := st.dupQueue + [p.0];
          books := books.(injected := books.injected + multiset{p.0});
        }
      } else if o == Broken {
        ReapAll(outcomes);
        failed := true;
      }
    }
  }
}

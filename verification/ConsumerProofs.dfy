/** Ack-after-commit under multiple-ack: what every consume step keeps, that no
    usable frame is ever lost, and exactly when that holds. */
module ConsumerProofs {
  import opened Folds
  import opened Frames
  import opened Sink
  import opened ConsumerModel

  // ---- Each step keeps the session good ----

  lemma DeliverPlaced(s: Side, p: Payload, t: nat)
    requires TagsOrdered(s) && Placed(s, t)
    ensures Placed(Step(s, Deliver(p)), t)
  {
    var r := Step(s, Deliver(p));
    if t == s.nextTag {
      assert r.inbox[|s.inbox|].tag == t;
    } else if InInbox(s, t) {
      var i :| 0 <= i < |s.inbox| && s.inbox[i].tag == t;
      assert r.inbox[i].tag == t;
    }
  }

  lemma DeliverTags(s: Side, p: Payload)
    requires TagsOrdered(s) && TagsTrue(s)
    ensures TagsOrdered(Step(s, Deliver(p))) && TagsTrue(Step(s, Deliver(p)))
  {
  }

  lemma DeliverKeeps(s: Side, p: Payload)
    requires Good(s)
    ensures Good(Step(s, Deliver(p)))
  {
    hide TagsOrdered, TagsTrue, Placed;
    DeliverTags(s, p);
    forall t: nat ensures Placed(Step(s, Deliver(p)), t) {
      DeliverPlaced(s, p, t);
    }
  }

  lemma TakeUsable(s: Side, works: bool)
    requires TagsOrdered(s) && TagsTrue(s) && s.inbox != [] && Usable(s.inbox[0].payload)
    ensures TagsOrdered(TakeOne(s, works)) && TagsTrue(TakeOne(s, works))
  {
  }

  lemma TakePoisonOrdered(s: Side, works: bool)
    requires TagsOrdered(s) && s.inbox != [] && !Usable(s.inbox[0].payload)
    ensures TagsOrdered(TakeOne(s, works))
  {
  }

  lemma TakePoisonTrue(s: Side, works: bool)
    requires TagsOrdered(s) && TagsTrue(s) && s.inbox != [] && !Usable(s.inbox[0].payload)
    ensures TagsTrue(TakeOne(s, works))
  {
    var tag := s.inbox[0].tag;
    assert forall i :: 1 <= i < |s.inbox| ==> s.inbox[i].tag != tag;
    assert forall i :: 0 <= i < |s.held| ==> s.held[i] != tag;
  }

  lemma TakePlaced(s: Side, works: bool, t: nat)
    requires TagsOrdered(s) && TagsTrue(s) && s.inbox != [] && Placed(s, t)
    ensures Placed(TakeOne(s, works), t)
  {
    var r, d := TakeOne(s, works), s.inbox[0];
    if InInbox(s, t) && t != d.tag {
      var i :| 0 <= i < |s.inbox| && s.inbox[i].tag == t;
      assert r.inbox[i - 1].tag == t;
    }
    if t == d.tag && Usable(d.payload) {
      assert r.held[|s.held|] == t;
    }
    if t in s.held {
      assert Usable(d.payload) ==> t in r.held;
    }
  }

  lemma TakeKeeps(s: Side, works: bool)
    requires Good(s) && s.inbox != [] && !s.committed
    ensures Good(Step(s, Take(works)))
  {
    if Usable(s.inbox[0].payload) {
      TakeUsable(s, works);
    } else {
      TakePoisonOrdered(s, works);
      TakePoisonTrue(s, works);
    }
    hide TagsOrdered, TagsTrue, Placed;
    forall t: nat ensures Placed(TakeOne(s, works), t) {
      TakePlaced(s, works, t);
    }
  }

  lemma DroppedGood(s: Side)
    ensures Good(Dropped(s))
  {
  }

  lemma StoreKeeps(s: Side)
    requires Good(s) && s.batch != []
    ensures Good(s.(table := InsertAll(s.table, s.batch), committed := true))
  {
    InsertKeeps(s.table, s.batch);
    hide InsertAll;
    var r := s.(table := InsertAll(s.table, s.batch), committed := true);
    forall t: nat ensures Placed(r, t) {
      assert Placed(s, t);
    }
    assert TagsOrdered(r) && TagsTrue(r);
    hide TagsOrdered, TagsTrue, Placed;
    assert forall f :: f in s.batch ==> KeyOf(f) in KeysOf(s.batch);
  }

  lemma CommitKeeps(s: Side, batchMax: nat, outcome: TxOutcome)
    requires Good(s) && Enabled(s, batchMax, Commit(outcome)) && batchMax >= 1
    ensures Good(Step(s, Commit(outcome)))
  {
    hide Good, Dropped, InsertAll;
    StoreKeeps(s);
    DroppedGood(s);
    DroppedGood(s.(table := InsertAll(s.table, s.batch)));
  }

  /** The ack names the newest frame of a committed batch, so everything it covers is
      stored. */
  lemma SendAckPlaced(s: Side, t: nat)
    requires Good(s) && s.committed
    ensures Placed(Step(s, SendAck), t)
  {
    var r := Step(s, SendAck);
    assert Placed(s, t);
    if t in s.unacked && Usable(s.unacked[t]) {
      if t in s.held {
        var i :| 0 <= i < |s.held| && s.held[i] == t;
        assert s.batch[i] in s.batch;
      }
    }
  }

  lemma SendAckKeeps(s: Side)
    requires Good(s) && s.committed
    ensures Good(Step(s, SendAck))
  {
    var r := Step(s, SendAck);
    assert |s.held| >= 1 && s.held[|s.held| - 1] == s.highestTag;
    forall t: nat ensures Placed(r, t) {
      SendAckPlaced(s, t);
    }
  }

  lemma BrokerAckKeeps(s: Side)
    requires Good(s) && s.acks != []
    ensures Good(Step(s, BrokerAck))
  {
    var r := Step(s, BrokerAck);
    forall t: nat ensures Placed(r, t) {
      assert Placed(s, t);
    }
  }

  lemma StepKeeps(s: Side, batchMax: nat, e: Event)
    requires Good(s) && batchMax >= 1 && Enabled(s, batchMax, e)
    ensures Good(Step(s, e))
  {
    hide Good;
    match e
    case Deliver(p) => DeliverKeeps(s, p);
    case Take(works) => TakeKeeps(s, works);
    case Commit(outcome) => CommitKeeps(s, batchMax, outcome);
    case SendAck => SendAckKeeps(s);
    case BrokerAck => BrokerAckKeeps(s);
    case Disconnect => DroppedGood(s);
    case TimeOut => DroppedGood(s.(doubt := s.doubt + [s.batch]));
    case Land(i) => GrownGood(s, s.doubt[i], Without(s.doubt, i));
    case Vanish(i) => GrownGood(s, [], Without(s.doubt, i));
  }

  /** Rows that appear late, or do not, spoil nothing. */
  lemma GrownGood(s: Side, fs: seq<Frame>, doubt: seq<seq<Frame>>)
    requires Good(s)
    ensures Good(s.(table := InsertAll(s.table, fs), doubt := doubt))
  {
    InsertKeeps(s.table, fs);
    hide InsertAll;
    var r := s.(table := InsertAll(s.table, fs), doubt := doubt);
    assert TagsOrdered(r) && TagsTrue(r);
    forall t: nat ensures Placed(r, t) {
      assert Placed(s, t);
    }
  }

  /** In every good state the unsettled usable deliveries that the loop has taken and
      no ack covers are exactly the batch, and the newest of them is the tag the next
      ack will carry. */
  lemma UnsettledIsTheBatch(s: Side)
    requires Good(s)
    ensures forall t :: t in s.held <==>
              t in s.unacked && Usable(s.unacked[t]) && t > s.lastAck && !InInbox(s, t)
    ensures s.batch != [] ==> s.held[|s.held| - 1] == s.highestTag
    ensures forall t :: t in s.held ==> t <= s.highestTag
  {
    forall t: nat
      ensures t in s.held <==> t in s.unacked && Usable(s.unacked[t]) && t > s.lastAck && !InInbox(s, t)
    {
      assert Placed(s, t);
    }
  }

  /** A multiple-ack settles only frames already in the table, and poison. */
  lemma AcksSettleOnlyStored(s: Side, t: nat)
    requires Good(s) && s.acks != []
    requires t in s.unacked && t !in Step(s, BrokerAck).unacked && Usable(s.unacked[t])
    ensures Stored(s, s.unacked[t])
  {
    assert Placed(s, t);
  }

  // ---- Nothing usable is lost ----

  lemma ValuesHas(unacked: map<nat, Payload>, t: nat)
    requires t in unacked
    ensures unacked[t] in Values(unacked)
  {
    GatherSplit(unacked, (p: Payload) => multiset{p}, t);
  }

  lemma DroppedSafe(s: Side, p: Payload)
    requires Safe(s, p)
    ensures Safe(Dropped(s), p)
  {
    if t :| t in s.unacked && s.unacked[t] == p {
      ValuesHas(s.unacked, t);
    }
    hide Values;
  }

  lemma BrokerAckSafe(s: Side, p: Payload)
    requires Good(s) && s.acks != [] && Usable(p) && Safe(s, p)
    ensures Safe(Step(s, BrokerAck), p)
  {
    var r := Step(s, BrokerAck);
    if t :| t in s.unacked && s.unacked[t] == p {
      if t in r.unacked {
        assert r.unacked[t] == p;
      } else {
        AcksSettleOnlyStored(s, t);
      }
    }
  }

  lemma DeliverSafe(s: Side, q: Payload, p: Payload)
    requires TagsOrdered(s) && Safe(s, p)
    ensures Safe(Step(s, Deliver(q)), p)
  {
    var r := Step(s, Deliver(q));
    if p == q {
      assert r.unacked[s.nextTag] == p;
    } else if t :| t in s.unacked && s.unacked[t] == p {
      assert r.unacked[t] == p;
    }
  }

  lemma TakeSafe(s: Side, works: bool, p: Payload)
    requires TagsTrue(s) && s.inbox != [] && Usable(p) && Safe(s, p)
    ensures Safe(TakeOne(s, works), p)
  {
    var r := TakeOne(s, works);
    if t :| t in s.unacked && s.unacked[t] == p {
      assert t in r.unacked && r.unacked[t] == p;
    }
  }

  lemma StoreSafe(s: Side, p: Payload, r: Side)
    requires Safe(s, p) && r == s.(table := InsertAll(s.table, s.batch))
    ensures Safe(r, p) && Safe(r.(committed := true), p)
  {
    InsertKeeps(s.table, s.batch);
  }

  /** A usable payload the pipeline answers for stays answered for, over every step:
      crashes, lost acks, lost commits and redelivery included. */
  lemma StepSafe(s: Side, batchMax: nat, e: Event, p: Payload)
    requires Good(s) && batchMax >= 1 && Enabled(s, batchMax, e) && Usable(p) && Safe(s, p)
    ensures Safe(Step(s, e), p)
  {
    assert TagsOrdered(s) && TagsTrue(s);
    hide Good, Safe, TagsOrdered, TagsTrue, TakeOne, Dropped, Usable;
    match e
    case Deliver(q) => DeliverSafe(s, q, p);
    case Take(works) => TakeSafe(s, works, p);
    case Commit(outcome) =>
      var t := s.(table := InsertAll(s.table, s.batch));
      StoreSafe(s, p, t);
      DroppedSafe(s, p);
      DroppedSafe(t, p);
    case SendAck => SendAckSafe(s, p);
    case BrokerAck => BrokerAckSafe(s, p);
    case Disconnect => DroppedSafe(s, p);
    case TimeOut =>
      GrownSafe(s, [], s.doubt + [s.batch], p);
      DroppedSafe(s.(doubt := s.doubt + [s.batch]), p);
    case Land(i) => GrownSafe(s, s.doubt[i], Without(s.doubt, i), p);
    case Vanish(i) => GrownSafe(s, [], Without(s.doubt, i), p);
  }

  lemma GrownSafe(s: Side, fs: seq<Frame>, doubt: seq<seq<Frame>>, p: Payload)
    requires Safe(s, p)
    ensures Safe(s.(table := InsertAll(s.table, fs), doubt := doubt), p)
  {
    InsertKeeps(s.table, fs);
    hide InsertAll;
  }

  lemma SendAckSafe(s: Side, p: Payload)
    requires Safe(s, p)
    ensures Safe(Step(s, SendAck), p)
  {
  }

  // ---- Runs, and when the guarantee holds ----

  /** States and events of a run, in step. */
  ghost predicate Path(batchMax: nat, ss: seq<Side>, es: seq<Event>) {
    && |ss| == |es| + 1
    && forall i :: 0 <= i < |es| ==> Enabled(ss[i], batchMax, es[i]) && ss[i + 1] == Step(ss[i], es[i])
  }

  lemma {:induction false} PathSafe(batchMax: nat, ss: seq<Side>, es: seq<Event>, p: Payload)
    requires batchMax >= 1 && Path(batchMax, ss, es) && Good(ss[0]) && Usable(p) && Safe(ss[0], p)
    ensures Good(ss[|es|]) && Safe(ss[|es|], p)
    decreases |es|
  {
    if es != [] {
      var n := |es| - 1;
      assert Path(batchMax, ss[..n + 1], es[..n]) by {
        assert forall i :: 0 <= i < n ==> es[..n][i] == es[i];
      }
      PathSafe(batchMax, ss[..n + 1], es[..n], p);
      assert ss[n + 1] == Step(ss[n], es[n]);
      hide Good, Safe, Step, Enabled;
      StepKeeps(ss[n], batchMax, es[n]);
      StepSafe(ss[n], batchMax, es[n], p);
    }
  }

  /** From an idle side, whatever its queue and table, no run loses a queued frame. */
  ghost predicate NeverLoses(batchMax: nat) {
    forall ss: seq<Side>, es: seq<Event>, p: Payload ::
      Path(batchMax, ss, es) && Idle(ss[0]) && p in ss[0].ready && Usable(p) ==> Safe(ss[|es|], p)
  }

  /** No session is open yet: everything that was accepted is queued or stored. */
  ghost predicate Idle(s: Side) {
    s == Empty().(ready := s.ready, table := s.table, doubt := s.doubt)
  }

  function Sample(): Frame {
    Frame(FRAME_VERSION, 1, 1, 1, 1, 1, Finite(0.0), Finite(0.0), Finite(0.0), Finite(0.0))
  }

  /** The run that loses a frame, state by state. */
  ghost function Zero(i: nat): Side
    requires i <= 6
  {
    var p := Json(Sample());
    var two := map[1 := Garbage, 2 := p];
    var last := [Delivery(2, p)];
    if i == 0 then Empty().(ready := multiset{Garbage, p})
    else if i == 1 then
      Empty().(ready := multiset{p}, unacked := map[1 := Garbage], nextTag := 2, inbox := [Delivery(1, Garbage)])
    else if i == 2 then Empty().(unacked := two, nextTag := 3, inbox := [Delivery(1, Garbage)] + last)
    else
      var s := Empty().(unacked := map[2 := p], nextTag := 3, inbox := last, deadLetters := multiset{Garbage});
      if i == 3 then s.(due := true)
      else if i == 4 then s.(due := true, committed := true)
      else if i == 5 then s.(acks := [0])
      else s.(unacked := map[])
  }

  function ZeroEvents(): seq<Event> {
    [Deliver(Garbage), Deliver(Json(Sample())), Take(true), Commit(Committed), SendAck, BrokerAck]
  }

  lemma ZeroDelivers()
    ensures Step(Zero(0), ZeroEvents()[0]) == Zero(1) && Step(Zero(1), ZeroEvents()[1]) == Zero(2)
  {
    assert multiset{Garbage, Json(Sample())} - multiset{Garbage} == multiset{Json(Sample())};
  }

  lemma ZeroTakes()
    ensures Step(Zero(2), ZeroEvents()[2]) == Zero(3)
  {
    assert Zero(2).unacked - {1} == map[2 := Json(Sample())];
  }

  /** Inserting an empty batch changes nothing. */
  lemma ZeroCommits()
    ensures Step(Zero(3), ZeroEvents()[3]) == Zero(4)
  {
    hide Dropped, TakeOne, Settled, Sample;
  }

  lemma ZeroSends()
    ensures Step(Zero(4), ZeroEvents()[4]) == Zero(5)
  {
    hide Dropped, TakeOne, Settled, Sample, InsertAll;
  }

  lemma ZeroSettles()
    ensures Step(Zero(5), ZeroEvents()[5]) == Zero(6)
  {
    hide Dropped, TakeOne, Sample, InsertAll;
  }

  lemma ZeroStep(i: nat)
    requires i < 6
    ensures Enabled(Zero(i), 0, ZeroEvents()[i]) && Zero(i + 1) == Step(Zero(i), ZeroEvents()[i])
  {
    ZeroDelivers();
    ZeroTakes();
    ZeroCommits();
    ZeroSends();
    ZeroSettles();
    hide Step;
  }

  lemma ZeroLost()
    ensures Usable(Json(Sample())) && !Safe(Zero(6), Json(Sample()))
    ensures Idle(Zero(0)) && Json(Sample()) in Zero(0).ready
  {
  }

  /** With a maximum of zero, a poison delivery triggers a flush of an empty batch
      whose ack carries tag zero and settles everything outstanding. */
  lemma ZeroBatchLoses()
    ensures !NeverLoses(0)
  {
    hide Step, Zero, Safe, Usable;
    var ss := seq(7, i requires 0 <= i < 7 => Zero(i));
    forall i | 0 <= i < 6
      ensures Enabled(ss[i], 0, ZeroEvents()[i]) && ss[i + 1] == Step(ss[i], ZeroEvents()[i])
    {
      ZeroStep(i);
    }
    ZeroLost();
    assert Path(0, ss, ZeroEvents());
    assert ss[0] == Zero(0) && ss[|ZeroEvents()|] == Zero(6);
  }

  lemma IdleGood(s: Side)
    requires Idle(s)
    ensures Good(s)
  {
  }

  /** Ack-after-commit keeps every frame exactly when the batch maximum is at least
      one. */
  lemma NeverLosesIff(batchMax: nat)
    ensures NeverLoses(batchMax) <==> batchMax >= 1
  {
    if batchMax == 0 {
      ZeroBatchLoses();
    } else {
      forall ss: seq<Side>, es: seq<Event>, p: Payload
        | Path(batchMax, ss, es) && Idle(ss[0]) && p in ss[0].ready && Usable(p)
        ensures Safe(ss[|es|], p)
      {
        IdleGood(ss[0]);
        hide Path, Good;
        PathSafe(batchMax, ss, es, p);
      }
    }
  }
}

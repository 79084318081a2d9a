/** Where every message of the classic queue ends up: what deliveries, rejects, acks and
    lost sessions do to it, and that an acked batch is settled for good. */
module ConsumerSettles {
  import opened Folds
  import opened Frames
  import opened Sink
  import opened ConsumerModel
  import CP = ConsumerProofs

  /** Queued, delivered and not settled, or dead-lettered. */
  ghost function Everywhere(s: Side): multiset<Payload> {
    s.ready + Values(s.unacked) + s.deadLetters
  }

  /** What a multiple-ack covers: everything up to its tag, and for tag zero everything. */
  function CoveredBy(unacked: map<nat, Payload>, tag: nat): map<nat, Payload> {
    map t | t in unacked && (tag == 0 || t <= tag) :: unacked[t]
  }

  /** The messages that an event settles. */
  ghost function SettledBy(s: Side, e: Event): multiset<Payload> {
    if e.BrokerAck? && s.acks != [] then Values(CoveredBy(s.unacked, s.acks[0])) else multiset{}
  }

  /** Tags are new when given out, and a taken delivery is what its tag stands for. */
  ghost predicate Tagged(s: Side) {
    && (forall t :: t in s.unacked ==> t < s.nextTag)
    && (forall i :: 0 <= i < |s.inbox| ==>
          s.inbox[i].tag < s.nextTag
          && (s.inbox[i].tag in s.unacked ==> s.unacked[s.inbox[i].tag] == s.inbox[i].payload))
  }

  // ---- Conservation ----

  lemma ValuesNew(m: map<nat, Payload>, t: nat, p: Payload)
    requires t !in m
    ensures Values(m[t := p]) == Values(m) + multiset{p}
  {
    GatherUpdate(m, (q: Payload) => multiset{q}, t, p);
    assert m - {t} == m;
  }

  lemma ValuesGone(m: map<nat, Payload>, t: nat)
    requires t in m
    ensures Values(m) == Values(m - {t}) + multiset{m[t]}
  {
    GatherSplit(m, (p: Payload) => multiset{p}, t);
  }

  lemma NoValues()
    ensures Values(map[]) == multiset{}
  {
  }

  lemma LessOne(m: map<nat, Payload>, a: map<nat, Payload>, b: map<nat, Payload>, k: nat)
    requires a.Keys !! b.Keys && m == a + b && k in a
    ensures k in m && m[k] == a[k] && m - {k} == (a - {k}) + b
    ensures (a - {k}).Keys !! b.Keys && |a - {k}| < |a|
  {
    assert (a - {k}).Keys == a.Keys - {k};
    assert |(a - {k}).Keys| == |a - {k}| && |a.Keys| == |a|;
  }

  lemma {:induction false} ValuesSplit(m: map<nat, Payload>, a: map<nat, Payload>, b: map<nat, Payload>)
    requires a.Keys !! b.Keys && m == a + b
    ensures Values(m) == Values(a) + Values(b)
    decreases |a|
  {
    NoValues();
    hide Values;
    if a == map[] {
      assert m == b;
    } else {
      var k :| k in a;
      LessOne(m, a, b, k);
      ValuesGone(a, k);
      ValuesGone(m, k);
      ValuesSplit(m - {k}, a - {k}, b);
    }
  }

  lemma StepTagged(s: Side, batchMax: nat, e: Event)
    requires Tagged(s) && Enabled(s, batchMax, e)
    ensures Tagged(Step(s, e))
  {
    hide InsertAll, Values;
  }

  lemma DeliverConserves(s: Side, p: Payload)
    requires Tagged(s) && p in s.ready
    ensures Everywhere(Step(s, Deliver(p))) == Everywhere(s)
  {
    hide Values;
    ValuesNew(s.unacked, s.nextTag, p);
  }

  lemma TakeConserves(s: Side, works: bool)
    requires Tagged(s) && s.inbox != []
    ensures Everywhere(TakeOne(s, works)) == Everywhere(s)
  {
    hide Values;
    var d := s.inbox[0];
    if !Usable(d.payload) && works && d.tag in s.unacked {
      ValuesGone(s.unacked, d.tag);
    }
  }

  lemma DroppedConserves(s: Side)
    ensures Everywhere(Dropped(s)) == Everywhere(s)
  {
    NoValues();
    hide Values;
  }

  lemma BrokerAckConserves(s: Side)
    requires s.acks != []
    ensures Everywhere(Step(s, BrokerAck)) + SettledBy(s, BrokerAck) == Everywhere(s)
  {
    var a, b := CoveredBy(s.unacked, s.acks[0]), Settled(s.unacked, s.acks[0]);
    assert s.unacked == a + b;
    ValuesSplit(s.unacked, a, b);
    hide Values, CoveredBy, Settled;
  }

  /** No step makes a message appear or vanish: what an ack settles is all that leaves. */
  lemma StepConserves(s: Side, batchMax: nat, e: Event)
    requires Tagged(s) && Enabled(s, batchMax, e)
    ensures Everywhere(Step(s, e)) + SettledBy(s, e) == Everywhere(s)
  {
    hide Values, Dropped, TakeOne, InsertAll, Flushes, MustFlush, CoveredBy, Settled;
    match e
    case Deliver(p) => DeliverConserves(s, p);
    case Take(works) => TakeConserves(s, works);
    case Commit(outcome) =>
      DroppedConserves(s);
      DroppedConserves(s.(table := InsertAll(s.table, s.batch)));
    case SendAck =>
    case BrokerAck => BrokerAckConserves(s);
    case Disconnect => DroppedConserves(s);
    case TimeOut => DroppedConserves(s.(doubt := s.doubt + [s.batch]));
    case Land(_) =>
    case Vanish(_) =>
  }

  /** All that a run settles. */
  ghost function SettledOver(ss: seq<Side>, es: seq<Event>): multiset<Payload>
    requires |ss| == |es| + 1
  {
    if es == [] then multiset{}
    else
      var n := |es| - 1;
      SettledOver(ss[..n + 1], es[..n]) + SettledBy(ss[n], es[n])
  }

  /** Over every run from an idle side, whatever the batch maximum: each message that was
      queued is queued, delivered, dead-lettered or settled, in as many copies as there
      were. */
  lemma {:induction false} MessagesAreConserved(batchMax: nat, ss: seq<Side>, es: seq<Event>)
    requires CP.Path(batchMax, ss, es) && CP.Idle(ss[0])
    ensures Tagged(ss[|es|])
    ensures Everywhere(ss[|es|]) + SettledOver(ss, es) == ss[0].ready
    decreases |es|
  {
    hide Everywhere, SettledBy, Step, Flushes, MustFlush, Tagged;
    if es == [] {
      IdleEverywhere(ss[0]);
    } else {
      var n := |es| - 1;
      assert CP.Path(batchMax, ss[..n + 1], es[..n]) by {
        assert forall i :: 0 <= i < n ==> es[..n][i] == es[i];
      }
      MessagesAreConserved(batchMax, ss[..n + 1], es[..n]);
      assert Enabled(ss[n], batchMax, es[n]) && ss[n + 1] == Step(ss[n], es[n]);
      StepTagged(ss[n], batchMax, es[n]);
      StepConserves(ss[n], batchMax, es[n]);
    }
  }

  lemma IdleEverywhere(s: Side)
    requires CP.Idle(s)
    ensures Tagged(s) && Everywhere(s) == s.ready
  {
    NoValues();
  }

  /** With a batch maximum of at least one, what a run settles and could have been stored
      is stored. */
  lemma {:induction false} SettledIsStored(batchMax: nat, ss: seq<Side>, es: seq<Event>, p: Payload)
    requires batchMax >= 1 && CP.Path(batchMax, ss, es) && CP.Idle(ss[0])
    requires p in SettledOver(ss, es) && Usable(p)
    ensures Stored(ss[|es|], p)
    decreases |es|
  {
    var n := |es| - 1;
    assert CP.Path(batchMax, ss[..n + 1], es[..n]) by {
      assert forall i :: 0 <= i < n ==> es[..n][i] == es[i];
    }
    assert Enabled(ss[n], batchMax, es[n]) && ss[n + 1] == Step(ss[n], es[n]);
    hide Step, Flushes, MustFlush, Usable, Stored, SettledBy;
    if p in SettledOver(ss[..n + 1], es[..n]) {
      SettledIsStored(batchMax, ss[..n + 1], es[..n], p);
    } else {
      RunGood(batchMax, ss[..n + 1], es[..n]);
      SettledNow(ss[n], es[n], p);
    }
    StoredStays(ss[n], batchMax, es[n], p);
  }

  lemma {:induction false} RunGood(batchMax: nat, ss: seq<Side>, es: seq<Event>)
    requires batchMax >= 1 && CP.Path(batchMax, ss, es) && CP.Idle(ss[0])
    ensures Good(ss[|es|])
    decreases |es|
  {
    hide Good, Step, Flushes, MustFlush;
    if es == [] {
      CP.IdleGood(ss[0]);
    } else {
      var n := |es| - 1;
      assert CP.Path(batchMax, ss[..n + 1], es[..n]) by {
        assert forall i :: 0 <= i < n ==> es[..n][i] == es[i];
      }
      RunGood(batchMax, ss[..n + 1], es[..n]);
      assert Enabled(ss[n], batchMax, es[n]) && ss[n + 1] == Step(ss[n], es[n]);
      CP.StepKeeps(ss[n], batchMax, es[n]);
    }
  }

  lemma {:induction false} ValuesHold(m: map<nat, Payload>, p: Payload)
    requires p in Values(m)
    ensures exists t :: t in m && m[t] == p
    decreases |m|
  {
    if k :| k in m {
      GatherSplit(m, (q: Payload) => multiset{q}, k);
      if m[k] != p {
        ValuesHold(m - {k}, p);
        var t :| t in m - {k} && (m - {k})[t] == p;
        assert t in m && m[t] == p;
      }
    }
  }

  lemma SettledNow(s: Side, e: Event, p: Payload)
    requires Good(s) && p in SettledBy(s, e) && Usable(p)
    ensures Stored(s, p)
  {
    ValuesHold(CoveredBy(s.unacked, s.acks[0]), p);
    var t :| t in CoveredBy(s.unacked, s.acks[0]) && s.unacked[t] == p;
    hide Stored, Usable, Good;
    CP.AcksSettleOnlyStored(s, t);
  }

  lemma StoredStays(s: Side, batchMax: nat, e: Event, p: Payload)
    requires Enabled(s, batchMax, e)
    ensures Stored(s, p) ==> Stored(Step(s, e), p)
  {
    hide Values, Settled, Without;
    if e.Commit? { InsertKeeps(s.table, s.batch); }
    if e.Land? { InsertKeeps(s.table, s.doubt[e.i]); }
    hide InsertAll;
  }

  // ---- An acked batch is settled ----

  /** The broker hears every ack that is under way. */
  function AcksHeard(s: Side): Side
    decreases |s.acks|
  {
    if s.acks == [] then s
    else AcksHeard(s.(unacked := Settled(s.unacked, s.acks[0]), acks := s.acks[1..]))
  }

  ghost predicate Beyond(t: nat, acks: seq<nat>) {
    forall i :: 0 <= i < |acks| ==> t > acks[i]
  }

  lemma BeyondFirst(t: nat, acks: seq<nat>)
    requires acks != []
    ensures Beyond(t, acks) <==> t > acks[0] && Beyond(t, acks[1..])
  {
    assert forall i :: 1 <= i < |acks| ==> acks[i] == acks[1..][i - 1];
  }

  lemma {:induction false} AcksHeardAre(s: Side)
    requires forall i :: 0 <= i < |s.acks| ==> s.acks[i] >= 1
    ensures var r := AcksHeard(s);
            && r == s.(unacked := r.unacked, acks := [])
            && (forall t :: t in r.unacked <==> t in s.unacked && Beyond(t, s.acks))
            && (forall t :: t in r.unacked ==> r.unacked[t] == s.unacked[t])
    decreases |s.acks|
  {
    if s.acks != [] {
      hide Beyond;
      AcksHeardAre(s.(unacked := Settled(s.unacked, s.acks[0]), acks := s.acks[1..]));
      forall t: nat ensures Beyond(t, s.acks) <==> t > s.acks[0] && Beyond(t, s.acks[1..]) {
        BeyondFirst(t, s.acks);
      }
    }
  }

  lemma BeyondLast(t: nat, acks: seq<nat>, top: nat)
    requires acks != [] && acks[|acks| - 1] == top && forall i :: 0 <= i < |acks| ==> acks[i] <= top
    ensures Beyond(t, acks) <==> t > top
  {
  }

  /** After a committed batch is acked and the broker has heard it: everything taken so far
      is settled and, where it could be, stored; what the loop has not taken is not. */
  lemma AckedIsSettled(s: Side)
    requires Good(s) && s.committed
    ensures var r := AcksHeard(Step(s, SendAck));
            && r.batch == [] && r.acks == []
            && (forall t :: t in r.unacked <==> t in s.unacked && t > s.highestTag)
            && (forall i :: 0 <= i < |s.inbox| ==> s.inbox[i].tag in r.unacked)
            && (forall t :: t in s.unacked && t <= s.highestTag && Usable(s.unacked[t]) ==> Stored(s, s.unacked[t]))
  {
    var m := Step(s, SendAck);
    assert |s.held| >= 1 && s.held[|s.held| - 1] == s.highestTag;
    AcksHeardAre(m);
    assert m.acks[|s.acks|] == s.highestTag;
    forall t: nat ensures Beyond(t, m.acks) <==> t > s.highestTag {
      BeyondLast(t, m.acks, s.highestTag);
    }
    hide Stored, Beyond;
    forall t: nat | t in s.unacked && t <= s.highestTag && Usable(s.unacked[t]) ensures Stored(s, s.unacked[t]) {
      CP.SendAckPlaced(s, t);
      SameTable(s, m, s.unacked[t]);
    }
  }

  lemma SameTable(s: Side, m: Side, p: Payload)
    requires m.table == s.table
    ensures Stored(m, p) <==> Stored(s, p)
  {
  }

  /** Poison is dead-lettered: off the window, out of the batch, and in the dead-letter
      queue once more than before. */
  lemma PoisonIsDeadLettered(s: Side)
    requires Good(s) && s.inbox != [] && !Usable(s.inbox[0].payload)
    ensures var r := Step(s, Take(true));
            && r.deadLetters == s.deadLetters + multiset{s.inbox[0].payload}
            && s.inbox[0].tag !in r.unacked && r.inbox == s.inbox[1..]
            && r.batch == s.batch && r.highestTag == s.highestTag && r.table == s.table
  {
  }

  /** A valid frame joins the end of the batch, and its tag is what the next ack names. */
  lemma FrameJoinsTheBatch(s: Side, works: bool)
    requires Good(s) && s.inbox != [] && Usable(s.inbox[0].payload)
    ensures var r := Step(s, Take(works));
            && r.batch == s.batch + [s.inbox[0].payload.frame] && r.highestTag == s.inbox[0].tag
            && r.inbox == s.inbox[1..] && r.unacked == s.unacked && r.deadLetters == s.deadLetters
  {
  }

  // ---- How much a batch holds ----

  function Most(batchMax: nat): nat {
    if batchMax == 0 then 1 else batchMax
  }

  ghost predicate Limited(s: Side, batchMax: nat) {
    |s.batch| <= Most(batchMax) && (!s.due ==> s.batch == [])
  }

  lemma StepLimited(s: Side, batchMax: nat, e: Event)
    requires Limited(s, batchMax) && Enabled(s, batchMax, e)
    ensures Limited(Step(s, e), batchMax)
  {
    hide InsertAll, Values, Settled, Without;
  }

  /** A batch never grows past its maximum, or past one frame when the maximum is zero. */
  lemma {:induction false} BatchIsLimited(batchMax: nat, ss: seq<Side>, es: seq<Event>)
    requires CP.Path(batchMax, ss, es) && CP.Idle(ss[0])
    ensures Limited(ss[|es|], batchMax)
    decreases |es|
  {
    if es != [] {
      hide Limited, Step, Flushes, MustFlush;
      var n := |es| - 1;
      assert CP.Path(batchMax, ss[..n + 1], es[..n]) by {
        assert forall i :: 0 <= i < n ==> es[..n][i] == es[i];
      }
      BatchIsLimited(batchMax, ss[..n + 1], es[..n]);
      assert Enabled(ss[n], batchMax, es[n]) && ss[n + 1] == Step(ss[n], es[n]);
      StepLimited(ss[n], batchMax, es[n]);
    }
  }
}

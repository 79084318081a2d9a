/** The classic consume side: the durable queue, one channel's unsettled deliveries,
    the consume loop's batch, and the table. Crashes and disconnects may fall
    between any two steps. */
module ConsumerModel {
  import opened Folds
  import opened Frames
  import opened Sink

  datatype Delivery = Delivery(tag: nat, payload: Payload)

  /** `inbox` holds deliveries the client has and the loop has not yet taken; `held`
      names the tags of the batch's frames; `acks` are multiple-acks under way to the
      broker; `lastAck` is the newest one sent on this channel; `due` says that the
      loop has just taken a delivery and looks at the batch size; `doubt` holds the inserts
      that timed out and may still take effect. */
  datatype Side = Side(
    ready: multiset<Payload>, deadLetters: multiset<Payload>,
    unacked: map<nat, Payload>, nextTag: nat, inbox: seq<Delivery>,
    batch: seq<Frame>, held: seq<nat>, highestTag: nat, due: bool, committed: bool,
    acks: seq<nat>, lastAck: nat, table: Table, doubt: seq<seq<Frame>>)

  function Empty(): Side {
    Side(multiset{}, multiset{}, map[], 1, [], [], [], 0, false, false, [], 0, map[], [])
  }

  datatype Event =
    | Deliver(payload: Payload)
    | Take(rejectWorks: bool)
    | Commit(outcome: TxOutcome)
    | SendAck
    | BrokerAck
    | Disconnect
    | TimeOut
    | Land(i: nat)
    | Vanish(i: nat)

  /** After a delivery that leaves the batch at its configured maximum the loop flushes
      before it takes the next one. */
  predicate MustFlush(s: Side, batchMax: nat) {
    s.due && |s.batch| >= batchMax
  }

  /** A tick flushes a batch that has frames. */
  predicate Flushes(s: Side, batchMax: nat) {
    s.batch != [] || MustFlush(s, batchMax)
  }

  ghost predicate Enabled(s: Side, batchMax: nat, e: Event) {
    match e
    case Deliver(p) => p in s.ready
    case Take(_) => s.inbox != [] && !s.committed && !MustFlush(s, batchMax)
    case Commit(_) => !s.committed && Flushes(s, batchMax)
    case SendAck => s.committed
    case BrokerAck => s.acks != []
    case Disconnect => true
    case TimeOut => !s.committed && Flushes(s, batchMax)
    case Land(i) => i < |s.doubt|
    case Vanish(i) => i < |s.doubt|
  }

  ghost function Values(unacked: map<nat, Payload>): multiset<Payload> {
    Gather(unacked, (p: Payload) => multiset{p})
  }

  /** Session end: the broker requeues what is unsettled, the loop drops its batch. */
  ghost function Dropped(s: Side): Side {
    s.(ready := s.ready + Values(s.unacked), unacked := map[], nextTag := 1, inbox := [],
       batch := [], held := [], highestTag := 0, due := false, committed := false, acks := [], lastAck := 0)
  }

  /** A frame joins the batch; poison is rejected and does not; a reject
      that fails leaves it unsettled. */
  function TakeOne(s: Side, rejectWorks: bool): Side
    requires s.inbox != []
  {
    var d, t := s.inbox[0], s.(inbox := s.inbox[1..], due := true);
    if Usable(d.payload) then
      t.(batch := s.batch + [d.payload.frame], held := s.held + [d.tag], highestTag := d.tag)
    else if rejectWorks && d.tag in s.unacked then
      t.(unacked := s.unacked - {d.tag}, deadLetters := s.deadLetters + multiset{d.payload})
    else t
  }

  /** Settlement up to a tag; tag zero means everything outstanding. */
  function Settled(unacked: map<nat, Payload>, tag: nat): map<nat, Payload> {
    map t | t in unacked && tag != 0 && t > tag :: unacked[t]
  }

  ghost function Step(s: Side, e: Event): Side
    requires e.Take? ==> s.inbox != []
    requires e.BrokerAck? ==> s.acks != []
    requires e.Land? ==> e.i < |s.doubt|
    requires e.Vanish? ==> e.i < |s.doubt|
  {
    match e
    case Deliver(p) =>
      s.(ready := s.ready - multiset{p}, unacked := s.unacked[s.nextTag := p],
         inbox := s.inbox + [Delivery(s.nextTag, p)], nextTag := s.nextTag + 1)
    case Take(works) => TakeOne(s, works)
    case Commit(outcome) =>
      var t := if outcome == RolledBack then s else s.(table := InsertAll(s.table, s.batch));
      if outcome == Committed then t.(committed := true) else Dropped(t)
    case SendAck =>
      s.(acks := s.acks + [s.highestTag], lastAck := s.highestTag,
         batch := [], held := [], due := false, committed := false)
    case BrokerAck => s.(unacked := Settled(s.unacked, s.acks[0]), acks := s.acks[1..])
    case Disconnect => Dropped(s)
    case TimeOut => Dropped(s.(doubt := s.doubt + [s.batch]))
    case Land(i) => s.(table := InsertAll(s.table, s.doubt[i]), doubt := Without(s.doubt, i))
    case Vanish(i) => s.(doubt := Without(s.doubt, i))
  }

  // ---- Ack after commit ----

  ghost predicate Stored(s: Side, p: Payload) {
    p.Json? && KeyOf(p.frame) in s.table
  }

  ghost predicate InInbox(s: Side, t: nat) {
    exists i :: 0 <= i < |s.inbox| && s.inbox[i].tag == t
  }

  /** Tags only grow: acks sent, then the batch's, then the inbox's. */
  ghost predicate TagsOrdered(s: Side) {
    && s.lastAck <= s.highestTag < s.nextTag
    && (forall i :: 0 <= i < |s.acks| ==> 1 <= s.acks[i] <= s.lastAck)
    && (forall i :: 0 <= i < |s.held| ==> s.lastAck < s.held[i] <= s.highestTag)
    && (forall i, j :: 0 <= i < j < |s.held| ==> s.held[i] < s.held[j])
    && (s.held != [] ==> s.highestTag == s.held[|s.held| - 1])
    && (forall i :: 0 <= i < |s.inbox| ==> s.highestTag < s.inbox[i].tag < s.nextTag)
    && (forall i, j :: 0 <= i < j < |s.inbox| ==> s.inbox[i].tag < s.inbox[j].tag)
    && (forall t :: t in s.unacked ==> 1 <= t < s.nextTag)
  }

  /** The batch and the inbox are unsettled deliveries, with their own payloads. */
  ghost predicate TagsTrue(s: Side) {
    && |s.held| == |s.batch|
    && (forall i :: 0 <= i < |s.held| ==>
          s.held[i] in s.unacked && s.unacked[s.held[i]] == Json(s.batch[i]) && IsValid(s.batch[i]))
    && (forall i :: 0 <= i < |s.inbox| ==>
          s.inbox[i].tag in s.unacked && s.unacked[s.inbox[i].tag] == s.inbox[i].payload)
  }

  /** An unsettled usable delivery is stored if an ack covers it, and otherwise is in
      the inbox or in the batch. */
  ghost predicate Placed(s: Side, t: nat) {
    t in s.unacked && Usable(s.unacked[t]) ==>
      if t <= s.lastAck then Stored(s, s.unacked[t]) else t in s.held || InInbox(s, t)
  }

  ghost predicate Good(s: Side) {
    && TagsOrdered(s) && TagsTrue(s)
    && (forall t :: Placed(s, t))
    && (s.committed ==> s.batch != [] && forall f :: f in s.batch ==> KeyOf(f) in s.table)
  }

  /** A usable payload the pipeline is still answerable for: queued, unsettled, or in
      the table. */
  ghost predicate Safe(s: Side, p: Payload) {
    p in s.ready || (exists t :: t in s.unacked && s.unacked[t] == p) || Stored(s, p)
  }
}

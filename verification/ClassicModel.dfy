/** The classic publisher as values: the confirm window, teardown reaping, and the
    books that say where every accepted frame is. */
module ClassicModel {
  import opened Frames
  import opened UplinkModel

  /** How one confirm resolves. */
  datatype Outcome = Ack | Nack | Broken

  /** Where frames went: accepted, dropped by a full buffer, settled by an ack, and
      duplicates that were injected, settled or turned into ordinary frames. */
  datatype Books = Books(
    received: multiset<Frame>, dropped: multiset<Frame>, confirmed: multiset<Frame>,
    promoted: multiset<Frame>, injected: multiset<Frame>, spentDups: multiset<Frame>)

  /** `published` logs every publish attempt; `inflight` names attempts whose confirm
      is awaited, and `acked` those that were confirmed. */
  datatype Edge = Edge(
    up: Uplink, pending: seq<(Frame, bool)>, inflight: seq<nat>,
    published: seq<Frame>, acked: set<nat>, books: Books)

  function Boot(pads: nat, cap: nat): Edge {
    Edge(Start(pads, cap), [], [], [], {},
         Books(multiset{}, multiset{}, multiset{}, multiset{}, multiset{}, multiset{}))
  }

  function Receive(e: Edge, f: Frame): Edge {
    e.(up := BufferFrame(e.up, f),
       books := e.books.(received := e.books.received + multiset{f},
                         dropped := e.books.dropped + multiset(Victims(e.up, f))))
  }

  /** One turn of the pump whose publish is accepted by the client. */
  function Publish(e: Edge, flt: Faults): Edge {
    var (v, r) := Next(e.up, flt);
    if r.None? then e.(up := v)
    else e.(up := v, pending := e.pending + [r.value], inflight := e.inflight + [|e.published|],
            published := e.published + [r.value.0])
  }

  /** A frame whose confirm will not come goes back in line; a duplicate is let go. */
  function Requeue(e: Edge, p: (Frame, bool)): Edge {
    if p.1 then e.(books := e.books.(spentDups := e.books.spentDups + multiset{p.0}))
    else e.(up := e.up.(retry := e.up.retry + [p.0]))
  }

  function Settle(e: Edge, p: (Frame, bool)): Edge {
    if p.1 then e.(books := e.books.(spentDups := e.books.spentDups + multiset{p.0}))
    else e.(books := e.books.(confirmed := e.books.confirmed + multiset{p.0}))
  }

  ghost predicate Paired(e: Edge) {
    |e.pending| == |e.inflight|
  }

  /** Take the oldest publish off the window. */
  function PopFront(e: Edge): Edge
    requires e.pending != [] && e.inflight != []
  {
    e.(pending := e.pending[1..], inflight := e.inflight[1..])
  }

  function ReapOne(e: Edge, o: Outcome): Edge
    requires e.pending != [] && e.inflight != []
  {
    var p, f := e.pending[0], PopFront(e);
    if o == Ack then Settle(f.(acked := f.acked + {e.inflight[0]}), p) else Requeue(f, p)
  }

  /** Frames whose confirm did not resolve in time. */
  function Abandon(e: Edge): Edge
    decreases e.pending
  {
    if e.pending == [] then e.(inflight := [])
    else Abandon(Requeue(e.(pending := e.pending[1..]), e.pending[0]))
  }

  /** Collect the confirms that still resolve, then give up on the rest; the
      outcomes end where the deadline strikes. */
  function Reap(e: Edge, outcomes: seq<Outcome>): Edge
    requires Paired(e)
    decreases outcomes
  {
    if e.inflight == [] || outcomes == [] then Abandon(e)
    else Reap(ReapOne(e, outcomes[0]), outcomes[1..])
  }

  /** A publish that errors or times out: the frame goes to the front of the line as
      an ordinary frame, and the session is torn down. It may have been sent. */
  function PublishFailed(e: Edge, flt: Faults, outcomes: seq<Outcome>): Edge
    requires Paired(e)
  {
    var (v, r) := Next(e.up, flt);
    if r.None? then e.(up := v)
    else
      var (f, dup) := r.value;
      Reap(e.(up := v.(retry := [f] + v.retry), published := e.published + [f],
              books := if dup then e.books.(promoted := e.books.promoted + multiset{f}) else e.books),
           outcomes)
  }

  /** The next confirm in order; an ack of an ordinary frame may inject a duplicate,
      a broken confirm tears the session down. */
  function Confirm(e: Edge, o: Outcome, inject: bool, outcomes: seq<Outcome>): Edge
    requires Paired(e) && e.inflight != []
  {
    var p, r := e.pending[0], ReapOne(e, o);
    match o
    case Ack =>
      if inject && !p.1 then
        r.(up := r.up.(dupQueue := r.up.dupQueue + [p.0]),
           books := r.books.(injected := r.books.injected + multiset{p.0}))
      else r
    case Nack => r
    case Broken => Reap(r, outcomes)
  }

  /** What one turn of the pump meets: the faults as read, whether the publish call
      succeeds, and how the teardown's confirms resolve if it does not. */
  datatype Turn = Turn(faults: Faults, sent: bool, outcomes: seq<Outcome>)

  /** Fill the confirm window; true when a failed publish ended the session. */
  function PumpAll(e: Edge, window: nat, n: nat, turns: nat -> Turn): (Edge, bool)
    requires Paired(e)
    decreases window - |e.inflight|
  {
    if |e.inflight| >= window then (e, false)
    else
      var t := turns(n);
      if Next(e.up, t.faults).1.None? then (Publish(e, t.faults), false)
      else if t.sent then PumpAll(Publish(e, t.faults), window, n + 1, turns)
      else (PublishFailed(e, t.faults, t.outcomes), true)
  }

  datatype Event =
    | Arrive(frame: Frame)
    | Pump(faults: Faults)
    | PumpFails(faults: Faults, outcomes: seq<Outcome>)
    | Resolve(outcome: Outcome, inject: bool, outcomes: seq<Outcome>)
    | Teardown(outcomes: seq<Outcome>)

  /** The pump respects the confirm window; a confirm resolves only what is awaited. */
  ghost predicate Enabled(e: Edge, window: nat, ev: Event) {
    match ev
    case Arrive(_) => true
    case Pump(_) => |e.inflight| < window
    case PumpFails(_, _) => |e.inflight| < window
    case Resolve(_, _, _) => e.inflight != []
    case Teardown(_) => true
  }

  function Step(e: Edge, ev: Event): Edge
    requires Paired(e) && (ev.Resolve? ==> e.inflight != [])
  {
    match ev
    case Arrive(f) => Receive(e, f)
    case Pump(flt) => Publish(e, flt)
    case PumpFails(flt, outcomes) => PublishFailed(e, flt, outcomes)
    case Resolve(o, inject, outcomes) => Confirm(e, o, inject, outcomes)
    case Teardown(outcomes) => Reap(e, outcomes)
  }
}

/**
 The behaviour of a node: commands for peers that are not connected wait, others are queued for the
 connection of the peer; everything queued is handed out in order.
 */
module Behaviours {
  import opened Bytes
  import opened Streams

  type ConnectionId = nat

  datatype Command = SendBytes(stream: StreamId, bytes: seq<Byte>) | OpenStream(number: nat)

  datatype Report = ConnectionEstablished | ConnectionClosed | StreamReport(stream: StreamId)

  datatype ToSwarm =
    | NotifyHandler(peer: PeerId, connection: ConnectionId, command: Command)
    | GenerateEvent(peer: PeerId, report: Report)

  datatype BehaviourState = BehaviourState(
    peers: map<PeerId, ConnectionId>,
    queue: seq<ToSwarm>,
    pending: map<PeerId, seq<Command>>)

  function PendingOf(b: BehaviourState, peer: PeerId): seq<Command> {
    if peer in b.pending then b.pending[peer] else []
  }

  function Dispatch(b: BehaviourState, peer: PeerId, command: Command): BehaviourState {
    if peer in b.peers then
      b.(queue := b.queue + [NotifyHandler(peer, b.peers[peer], command)])
    else
      b.(pending := b.pending[peer := PendingOf(b, peer) + [command]])
  }

  function Notifications(peer: PeerId, connection: ConnectionId, commands: seq<Command>): seq<ToSwarm> {
    seq(|commands|, i requires 0 <= i < |commands| => NotifyHandler(peer, connection, commands[i]))
  }

  /** A connection was set up; the swarm has yet to report it. */
  function Accept(b: BehaviourState, peer: PeerId, connection: ConnectionId): BehaviourState {
    b.(peers := b.peers[peer := connection])
  }

  function Established(b: BehaviourState, peer: PeerId, connection: ConnectionId): BehaviourState {
    BehaviourState(
      b.peers[peer := connection],
      b.queue + [GenerateEvent(peer, ConnectionEstablished)] + Notifications(peer, connection, PendingOf(b, peer)),
      b.pending - {peer})
  }

  function Closed(b: BehaviourState, peer: PeerId, connection: ConnectionId): BehaviourState {
    BehaviourState(
      if peer in b.peers && b.peers[peer] == connection then b.peers - {peer} else b.peers,
      b.queue + [GenerateEvent(peer, ConnectionClosed)],
      b.pending)
  }

  function FromHandler(b: BehaviourState, peer: PeerId, connection: ConnectionId, report: Report): BehaviourState {
    b.(peers := b.peers[peer := connection], queue := b.queue + [GenerateEvent(peer, report)])
  }

  /** What can happen to a behaviour; `Polled` hands out the first thing queued. */
  datatype NodeEvent =
    | Dispatched(peer: PeerId, command: Command)
    | Accepted(peer: PeerId, connection: ConnectionId)
    | WasEstablished(peer: PeerId, connection: ConnectionId)
    | WasClosed(peer: PeerId, connection: ConnectionId)
    | Handled(peer: PeerId, connection: ConnectionId, report: Report)
    | Polled

  /** A behaviour with what was dispatched to it and what it has handed out. */
  datatype Node = Node(behaviour: BehaviourState, dispatched: seq<(PeerId, Command)>, emitted: seq<ToSwarm>)

  function Proceed(n: Node, event: NodeEvent): Node {
    match event
    case Dispatched(peer, command) =>
      Node(Dispatch(n.behaviour, peer, command), n.dispatched + [(peer, command)], n.emitted)
    case Accepted(peer, connection) => n.(behaviour := Accept(n.behaviour, peer, connection))
    case WasEstablished(peer, connection) => n.(behaviour := Established(n.behaviour, peer, connection))
    case WasClosed(peer, connection) => n.(behaviour := Closed(n.behaviour, peer, connection))
    case Handled(peer, connection, report) => n.(behaviour := FromHandler(n.behaviour, peer, connection, report))
    case Polled =>
      if n.behaviour.queue == [] then n
      else Node(n.behaviour.(queue := n.behaviour.queue[1..]), n.dispatched, n.emitted + [n.behaviour.queue[0]])
  }

  const NEW_NODE: Node := Node(BehaviourState(map[], [], map[]), [], [])

  /** The commands for a peer among things queued or handed out. */
  function CommandsFor(peer: PeerId, items: seq<ToSwarm>): seq<Command> {
    if items == [] then []
    else
      (if items[0].NotifyHandler? && items[0].peer == peer then [items[0].command] else [])
      + CommandsFor(peer, items[1..])
  }

  function DispatchedFirst(peer: PeerId, dispatched: seq<(PeerId, Command)>): seq<Command>
    requires dispatched != []
  {
    if dispatched[0].0 == peer then [dispatched[0].1] else []
  }

  function DispatchedTo(peer: PeerId, dispatched: seq<(PeerId, Command)>): seq<Command> {
    if dispatched == [] then [] else DispatchedFirst(peer, dispatched) + DispatchedTo(peer, dispatched[1..])
  }

  /** Where the commands for a peer are: handed out, queued, or pending, in this order. */
  function Whereabouts(n: Node, peer: PeerId): seq<Command> {
    CommandsFor(peer, n.emitted) + CommandsFor(peer, n.behaviour.queue) + PendingOf(n.behaviour, peer)
  }

  /** Every dispatched command is in exactly one place. */
  ghost predicate Conserved(n: Node) {
    forall peer :: multiset(Whereabouts(n, peer)) == multiset(DispatchedTo(peer, n.dispatched))
  }

  /** And the commands for each peer are in the order in which they were dispatched. */
  ghost predicate InOrder(n: Node) {
    forall peer :: Whereabouts(n, peer) == DispatchedTo(peer, n.dispatched)
  }

  lemma {:induction false} CommandsJoined(peer: PeerId, a: seq<ToSwarm>, b: seq<ToSwarm>)
    ensures CommandsFor(peer, a + b) == CommandsFor(peer, a) + CommandsFor(peer, b)
    decreases |a|
  {
    if a == [] {
      assert a + b == b;
    } else {
      assert (a + b)[1..] == a[1..] + b;
      CommandsJoined(peer, a[1..], b);
    }
  }

  lemma {:induction false} DispatchedJoined(peer: PeerId, a: seq<(PeerId, Command)>, b: seq<(PeerId, Command)>)
    ensures DispatchedTo(peer, a + b) == DispatchedTo(peer, a) + DispatchedTo(peer, b)
    decreases |a|
  {
    if a == [] {
      assert a + b == b;
    } else {
      var first := DispatchedFirst(peer, a);
      assert (a + b)[1..] == a[1..] + b;
      assert DispatchedFirst(peer, a + b) == first;
      DispatchedJoined(peer, a[1..], b);
      assert first + (DispatchedTo(peer, a[1..]) + DispatchedTo(peer, b)) == first + DispatchedTo(peer, a[1..])
          + DispatchedTo(peer, b);
    }
  }

  lemma CommandsOfOne(peer: PeerId, item: ToSwarm)
    ensures CommandsFor(peer, [item]) == if item.NotifyHandler? && item.peer == peer then [item.command] else []
  {
    var one := [item];
    assert one[1..] == [];
  }

  lemma {:induction false} CommandsOfNotifications(peer: PeerId, other: PeerId, connection: ConnectionId,
      commands: seq<Command>)
    ensures CommandsFor(peer, Notifications(other, connection, commands)) == if peer == other then commands else []
    decreases |commands|
  {
    if commands != [] {
      assert Notifications(other, connection, commands)[1..] == Notifications(other, connection, commands[1..]);
      CommandsOfNotifications(peer, other, connection, commands[1..]);
    }
  }

  /** Nothing but a dispatch changes where the commands of a peer are, or their order. */
  lemma OthersMoveNothing(n: Node, event: NodeEvent, peer: PeerId)
    requires !event.Dispatched?
    ensures Whereabouts(Proceed(n, event), peer) == Whereabouts(n, peer)
    ensures Proceed(n, event).dispatched == n.dispatched
  {
    hide CommandsFor, Notifications;
    var b := n.behaviour;
    match event
    case Accepted(p, connection) =>
    case WasEstablished(p, connection) =>
      QueuedWith(peer, b.queue, GenerateEvent(p, ConnectionEstablished), p, connection, PendingOf(b, p));
    case WasClosed(p, connection) => QueuedReport(peer, b.queue, GenerateEvent(p, ConnectionClosed));
    case Handled(p, connection, report) => QueuedReport(peer, b.queue, GenerateEvent(p, report));
    case Polled =>
      if b.queue != [] {
        HandedOut(peer, n.emitted, b.queue);
      }
  }

  /** A report queued is no command. */
  lemma QueuedReport(peer: PeerId, queue: seq<ToSwarm>, report: ToSwarm)
    requires report.GenerateEvent?
    ensures CommandsFor(peer, queue + [report]) == CommandsFor(peer, queue)
  {
    CommandsJoined(peer, queue, [report]);
    CommandsOfOne(peer, report);
  }

  /** A report and the commands that waited for it are queued. */
  lemma QueuedWith(peer: PeerId, queue: seq<ToSwarm>, report: ToSwarm, to: PeerId,
      connection: ConnectionId, commands: seq<Command>)
    requires report.GenerateEvent?
    ensures CommandsFor(peer, queue + [report] + Notifications(to, connection, commands))
         == CommandsFor(peer, queue) + if peer == to then commands else []
  {
    CommandsJoined(peer, queue + [report], Notifications(to, connection, commands));
    QueuedReport(peer, queue, report);
    CommandsOfNotifications(peer, to, connection, commands);
  }

  /** The first thing queued is handed out. */
  lemma HandedOut(peer: PeerId, emitted: seq<ToSwarm>, queue: seq<ToSwarm>)
    requires queue != []
    ensures CommandsFor(peer, emitted + [queue[0]]) + CommandsFor(peer, queue[1..])
        == CommandsFor(peer, emitted) + CommandsFor(peer, queue)
  {
    assert queue == [queue[0]] + queue[1..];
    CommandsJoined(peer, emitted, [queue[0]]);
    CommandsJoined(peer, [queue[0]], queue[1..]);
  }

  /** Where a dispatched command goes. */
  lemma DispatchAdds(n: Node, to: PeerId, command: Command, peer: PeerId)
    ensures var after := Proceed(n, Dispatched(to, command));
            && DispatchedTo(peer, after.dispatched)
               == DispatchedTo(peer, n.dispatched) + (if peer == to then [command] else [])
            && Whereabouts(after, peer)
               == if peer != to then Whereabouts(n, peer)
                  else if to in n.behaviour.peers then
                    CommandsFor(peer, n.emitted) + CommandsFor(peer, n.behaviour.queue)
                        + ([command] + PendingOf(n.behaviour, peer))
                  else Whereabouts(n, peer) + [command]
  {
    hide CommandsFor, DispatchedTo;
    DispatchedJoined(peer, n.dispatched, [(to, command)]);
    DispatchedOne(peer, to, command);
    if to in n.behaviour.peers {
      var item := NotifyHandler(to, n.behaviour.peers[to], command);
      CommandsJoined(peer, n.behaviour.queue, [item]);
      CommandsOfOne(peer, item);
    }
  }

  lemma DispatchedOne(peer: PeerId, to: PeerId, command: Command)
    ensures DispatchedTo(peer, [(to, command)]) == if peer == to then [command] else []
  {
    var one := [(to, command)];
    assert one[1..] == [];
  }

  /** In every run, whatever happens, no command is lost or duplicated. */
  lemma ConservedAlways(n: Node, event: NodeEvent)
    requires Conserved(n)
    ensures Conserved(Proceed(n, event))
  {
    hide CommandsFor, DispatchedTo, Proceed;
    var after := Proceed(n, event);
    forall peer
      ensures multiset(Whereabouts(after, peer)) == multiset(DispatchedTo(peer, after.dispatched))
    {
      if event.Dispatched? {
        DispatchAdds(n, event.peer, event.command, peer);
      } else {
        OthersMoveNothing(n, event, peer);
      }
    }
  }

  /** No dispatch overtakes other commands: the peer is not known yet, or none but equal ones are pending. */
  predicate KeepsOrder(n: Node, event: NodeEvent) {
    event.Dispatched? && event.peer in n.behaviour.peers ==>
      forall waiting :: waiting in PendingOf(n.behaviour, event.peer) ==> waiting == event.command
  }

  lemma Rotates(c: Command, pending: seq<Command>)
    ensures [c] + pending == pending + [c] <==> forall waiting :: waiting in pending ==> waiting == c
  {
    if forall waiting :: waiting in pending ==> waiting == c {
      assert forall i :: 0 <= i < |pending| ==> pending[i] in pending;
      assert forall i :: 0 <= i < |pending| + 1 ==> ([c] + pending)[i] == (pending + [c])[i];
    } else {
      if [c] + pending == pending + [c] {
        AllEqual(c, pending, |pending|);
        assert false;
      }
    }
  }

  lemma {:induction false} AllEqual(c: Command, pending: seq<Command>, k: nat)
    requires [c] + pending == pending + [c] && k <= |pending|
    ensures forall i :: 0 <= i < k ==> pending[i] == c
  {
    if k > 0 {
      AllEqual(c, pending, k - 1);
      assert ([c] + pending)[k - 1] == (pending + [c])[k - 1];
    }
  }

  /**
   The order of dispatch survives an event exactly when the event is not a dispatch to a known peer
   for which other commands are still pending.
   */
  lemma OrderExactly(n: Node, event: NodeEvent)
    requires InOrder(n)
    ensures InOrder(Proceed(n, event)) <==> KeepsOrder(n, event)
  {
    hide CommandsFor, DispatchedTo, Proceed;
    var after := Proceed(n, event);
    if event.Dispatched? {
      forall peer
        ensures peer != event.peer ==> Whereabouts(after, peer) == DispatchedTo(peer, after.dispatched)
      {
        DispatchAdds(n, event.peer, event.command, peer);
      }
      DispatchOrder(n, event.peer, event.command);
    } else {
      forall peer
        ensures Whereabouts(after, peer) == DispatchedTo(peer, after.dispatched)
      {
        OthersMoveNothing(n, event, peer);
      }
    }
  }

  lemma DispatchOrder(n: Node, to: PeerId, command: Command)
    requires Whereabouts(n, to) == DispatchedTo(to, n.dispatched)
    ensures var after := Proceed(n, Dispatched(to, command));
            Whereabouts(after, to) == DispatchedTo(to, after.dispatched) <==> KeepsOrder(n, Dispatched(to, command))
  {
    hide CommandsFor, DispatchedTo, Proceed;
    DispatchAdds(n, to, command, to);
    var ahead, pending := CommandsFor(to, n.emitted) + CommandsFor(to, n.behaviour.queue), PendingOf(n.behaviour, to);
    assert ahead + pending + [command] == ahead + (pending + [command]);
    Rotates(command, pending);
    SamePrefix(ahead, [command] + pending, pending + [command]);
  }

  lemma SamePrefix(ahead: seq<Command>, a: seq<Command>, b: seq<Command>)
    ensures ahead + a == ahead + b <==> a == b
  {
    if ahead + a == ahead + b {
      assert (ahead + a)[|ahead|..] == a;
      assert (ahead + b)[|ahead|..] == b;
    }
  }

  predicate OrderlyRun(n: Node, events: seq<NodeEvent>)
    decreases |events|
  {
    events == [] || (KeepsOrder(n, events[0]) && OrderlyRun(Proceed(n, events[0]), events[1..]))
  }

  function ProceedAll(n: Node, events: seq<NodeEvent>): Node
    decreases |events|
  {
    if events == [] then n else ProceedAll(Proceed(n, events[0]), events[1..])
  }

  /**
   In every run without overtaking, the commands handed out for a peer are the first ones dispatched to
   it, in order.
   */
  lemma {:induction false} OrderInRun(n: Node, events: seq<NodeEvent>, peer: PeerId)
    requires InOrder(n) && OrderlyRun(n, events)
    ensures InOrder(ProceedAll(n, events))
    ensures CommandsFor(peer, ProceedAll(n, events).emitted) <= DispatchedTo(peer, ProceedAll(n, events).dispatched)
    decreases |events|
  {
    hide Proceed, CommandsFor, DispatchedTo, KeepsOrder;
    if events != [] {
      OrderExactly(n, events[0]);
      OrderInRun(Proceed(n, events[0]), events[1..], peer);
    } else {
      assert Whereabouts(n, peer) == DispatchedTo(peer, n.dispatched);
    }
  }

  lemma {:induction false} ConservedInRun(n: Node, events: seq<NodeEvent>)
    requires Conserved(n)
    ensures Conserved(ProceedAll(n, events))
    decreases |events|
  {
    hide Proceed, Conserved;
    if events != [] {
      ConservedAlways(n, events[0]);
      ConservedInRun(Proceed(n, events[0]), events[1..]);
    }
  }

  /**
   One connection per peer, reported before anything else happens to the peer: whatever is set up is
   reported next, and handlers report only over known connections.
   */
  predicate WellReported(n: Node, events: seq<NodeEvent>)
    decreases |events|
  {
    events == [] ||
    (var event, rest := events[0], events[1..];
     && (event.Accepted? ==> rest != [] && rest[0] == WasEstablished(event.peer, event.connection))
     && (event.Handled? ==> event.peer in n.behaviour.peers)
     && WellReported(Proceed(n, event), rest))
  }

  /** No known peer has commands pending. */
  ghost predicate Tidy(n: Node) {
    forall peer :: peer in n.behaviour.peers ==> PendingOf(n.behaviour, peer) == []
  }

  /** With well-reported connections no dispatch ever overtakes another. */
  lemma {:induction false} WellReportedIsOrderly(n: Node, events: seq<NodeEvent>)
    requires WellReported(n, events)
    requires Tidy(n) || (events != [] && events[0].WasEstablished? && TidyBut(n, events[0].peer))
    ensures OrderlyRun(n, events)
    decreases |events|
  {
    hide KeepsOrder;
    if events != [] {
      var event, rest := events[0], events[1..];
      TidyStep(n, event);
      WellReportedIsOrderly(Proceed(n, event), rest);
    }
  }

  /** Only the given peer may have commands pending while known. */
  ghost predicate TidyBut(n: Node, but: PeerId) {
    forall peer :: peer in n.behaviour.peers && peer != but ==> PendingOf(n.behaviour, peer) == []
  }

  lemma TidyStep(n: Node, event: NodeEvent)
    requires Tidy(n) || (event.WasEstablished? && TidyBut(n, event.peer))
    requires event.Handled? ==> event.peer in n.behaviour.peers
    ensures KeepsOrder(n, event)
    ensures if event.Accepted? then TidyBut(Proceed(n, event), event.peer) else Tidy(Proceed(n, event))
  {
  }

  /**
   From the start and with well-reported connections, every command dispatched is in exactly one place,
   and the commands handed out for a peer are the first ones dispatched to it, in order.
   */
  lemma FromStart(events: seq<NodeEvent>, peer: PeerId)
    requires WellReported(NEW_NODE, events)
    ensures Conserved(ProceedAll(NEW_NODE, events))
    ensures CommandsFor(peer, ProceedAll(NEW_NODE, events).emitted)
         <= DispatchedTo(peer, ProceedAll(NEW_NODE, events).dispatched)
  {
    hide ProceedAll, WellReported, OrderlyRun;
    assert Conserved(NEW_NODE) && InOrder(NEW_NODE) && Tidy(NEW_NODE);
    ConservedInRun(NEW_NODE, events);
    WellReportedIsOrderly(NEW_NODE, events);
    OrderInRun(NEW_NODE, events, peer);
  }

  /** The peer is known while commands for it are pending, which only a report of a new connection hands out. */
  predicate Stranded(n: Node, peer: PeerId) {
    peer in n.behaviour.peers && PendingOf(n.behaviour, peer) != []
  }

  /**
   An event strands commands exactly when it makes a peer known, before the connection is reported or
   by something that comes over another one, while commands for the peer are pending.
   */
  lemma StrandsExactly(n: Node, event: NodeEvent, peer: PeerId)
    requires !Stranded(n, peer)
    ensures Stranded(Proceed(n, event), peer)
        <==> (event.Accepted? || event.Handled?) && event.peer == peer && PendingOf(n.behaviour, peer) != []
  {
  }

  /** Commands stay stranded exactly until a connection is reported or the last known one is closed. */
  lemma StrandedUntil(n: Node, event: NodeEvent, peer: PeerId)
    requires Stranded(n, peer)
    ensures Stranded(Proceed(n, event), peer)
        <==> !(event.WasEstablished? && event.peer == peer) && event != WasClosed(peer, n.behaviour.peers[peer])
  {
  }

  /** Without a report of a connection to the peer, what is pending for it stays so and none of it is handed out. */
  lemma {:induction false} PendingUntilReported(n: Node, events: seq<NodeEvent>, peer: PeerId)
    requires forall event :: event in events && event.WasEstablished? ==> event.peer != peer
    ensures PendingOf(n.behaviour, peer) <= PendingOf(ProceedAll(n, events).behaviour, peer)
    decreases |events|
  {
    if events != [] {
      assert events[0] in events;
      assert forall event :: event in events[1..] ==> event in events;
      PendingUntilReported(Proceed(n, events[0]), events[1..], peer);
    }
  }

  /** No event of the run makes a peer known, but by a report of its connection, while commands for it are pending. */
  predicate NeverStrands(n: Node, events: seq<NodeEvent>)
    decreases |events|
  {
    events == [] ||
    (&& ((events[0].Accepted? || events[0].Handled?) ==> PendingOf(n.behaviour, events[0].peer) == [])
     && NeverStrands(Proceed(n, events[0]), events[1..]))
  }

  /** At some time in the run commands are stranded. */
  ghost predicate StrandsSomeone(n: Node, events: seq<NodeEvent>)
    decreases |events|
  {
    (exists peer :: Stranded(n, peer)) || (events != [] && StrandsSomeone(Proceed(n, events[0]), events[1..]))
  }

  /** Over a whole run: commands are stranded at no time if and only if no such event happens; then order is kept. */
  lemma {:induction false} StrandsInRun(n: Node, events: seq<NodeEvent>)
    requires forall peer :: !Stranded(n, peer)
    ensures StrandsSomeone(n, events) <==> !NeverStrands(n, events)
    ensures NeverStrands(n, events) ==> OrderlyRun(n, events)
    decreases |events|
  {
    hide Proceed, Stranded;
    if events != [] {
      forall peer
        ensures Stranded(Proceed(n, events[0]), peer)
            <==> (events[0].Accepted? || events[0].Handled?) && events[0].peer == peer
                 && PendingOf(n.behaviour, peer) != []
      {
        StrandsExactly(n, events[0], peer);
      }
      UnstrandedKeepsOrder(n, events[0]);
      if forall peer :: !Stranded(Proceed(n, events[0]), peer) {
        StrandsInRun(Proceed(n, events[0]), events[1..]);
      }
    }
  }

  lemma UnstrandedKeepsOrder(n: Node, event: NodeEvent)
    requires forall peer :: !Stranded(n, peer)
    ensures KeepsOrder(n, event)
  {
    if event.Dispatched? {
      assert !Stranded(n, event.peer);
    }
  }

  /**
   Two connections to one peer are set up, each reported at once; the second one closes, a command is
   dispatched, something comes over the first connection, another command is dispatched.
   */
  function OvertakingEvents(peer: PeerId, first: Command, second: Command): seq<NodeEvent> {
    [Accepted(peer, 1), WasEstablished(peer, 1), Accepted(peer, 2), WasEstablished(peer, 2), WasClosed(peer, 2),
     Dispatched(peer, first), Handled(peer, 1, StreamReport(Incoming(0))), Dispatched(peer, second),
     Polled, Polled, Polled, Polled, Polled]
  }

  /** The node before the polls. */
  function Overtaken(peer: PeerId, first: Command, second: Command): Node {
    var up, down := GenerateEvent(peer, ConnectionEstablished), GenerateEvent(peer, ConnectionClosed);
    var came := GenerateEvent(peer, StreamReport(Incoming(0)));
    Node(BehaviourState(map[peer := 1], [up, up, down, came] + [NotifyHandler(peer, 1, second)], map[peer := [first]]),
         [(peer, first), (peer, second)], [])
  }

  lemma OvertakesBeforePolls(peer: PeerId, first: Command, second: Command)
    ensures ProceedAll(NEW_NODE, OvertakingEvents(peer, first, second))
         == ProceedAll(Overtaken(peer, first, second), [Polled, Polled, Polled, Polled, Polled])
  {
    hide ProceedAll;
    var events := OvertakingEvents(peer, first, second);
    var up, down := GenerateEvent(peer, ConnectionEstablished), GenerateEvent(peer, ConnectionClosed);
    var n2 := Node(BehaviourState(map[peer := 1], [] + [up], map[]), [], []);
    var n4 := Node(BehaviourState(map[peer := 1][peer := 2], [] + [up] + [up], map[]), [], []);
    var n6 := Node(BehaviourState(map[], [] + [up] + [up] + [down], map[peer := [first]]), [] + [(peer, first)], []);
    SetUp(map[], [], peer, 1);
    TwoEvents(NEW_NODE, events, n2);
    SetUp(map[peer := 1], [] + [up], peer, 2);
    TwoEvents(n2, events[2..], n4);
    ClosedThenDispatched(n4, peer, first);
    TwoEvents(n4, events[4..], n6);
    ReportThenDispatch(n6, peer, first, second);
    TwoEvents(n6, events[6..], Overtaken(peer, first, second));
    assert events[2..][2..] == events[4..] && events[4..][2..] == events[6..];
    assert events[6..][2..] == [Polled, Polled, Polled, Polled, Polled];
  }

  lemma ReportThenDispatch(n: Node, peer: PeerId, first: Command, second: Command)
    requires n.behaviour.peers == map[] && n.behaviour.pending == map[peer := [first]]
    requires n.behaviour.queue == Overtaken(peer, first, second).behaviour.queue[..3]
    requires n.dispatched == [(peer, first)] && n.emitted == []
    ensures Proceed(Proceed(n, Handled(peer, 1, StreamReport(Incoming(0)))), Dispatched(peer, second))
         == Overtaken(peer, first, second)
  {
    assert n.behaviour.peers[peer := 1] == map[peer := 1];
  }

  /** The second command is then handed out, while the first stays pending though the peer is known. */
  lemma SecondOvertakesFirst(peer: PeerId, first: Command, second: Command)
    ensures var after := ProceedAll(NEW_NODE, OvertakingEvents(peer, first, second));
            && DispatchedTo(peer, after.dispatched) == [first, second]
            && CommandsFor(peer, after.emitted) == [second]
            && after.behaviour == BehaviourState(map[peer := 1], [], map[peer := [first]])
  {
    hide DispatchedTo, CommandsFor, ProceedAll;
    var n, polls := Overtaken(peer, first, second), [Polled, Polled, Polled, Polled, Polled];
    OvertakesBeforePolls(peer, first, second);
    PollsAll(n, polls);
    assert [] + n.behaviour.queue == n.behaviour.queue[..4] + [NotifyHandler(peer, 1, second)];
    CommandsOfReports(peer, n.behaviour.queue[..4], NotifyHandler(peer, 1, second));
    DispatchedOfTwo(peer, first, second);
  }

  lemma SetUp(peers: map<PeerId, ConnectionId>, queue: seq<ToSwarm>, peer: PeerId, connection: ConnectionId)
    ensures Proceed(Proceed(Node(BehaviourState(peers, queue, map[]), [], []), Accepted(peer, connection)),
                    WasEstablished(peer, connection))
         == Node(BehaviourState(peers[peer := connection], queue + [GenerateEvent(peer, ConnectionEstablished)], map[]),
                 [], [])
  {
    assert peers[peer := connection][peer := connection] == peers[peer := connection];
  }

  lemma ClosedThenDispatched(n: Node, peer: PeerId, command: Command)
    requires n.behaviour.peers == map[peer := 2] && n.behaviour.pending == map[]
    ensures Proceed(Proceed(n, WasClosed(peer, 2)), Dispatched(peer, command))
         == Node(BehaviourState(map[], n.behaviour.queue + [GenerateEvent(peer, ConnectionClosed)],
                                map[peer := [command]]),
                 n.dispatched + [(peer, command)], n.emitted)
  {
    var closed := Proceed(n, WasClosed(peer, 2)).behaviour;
    assert closed.peers == map[] && PendingOf(closed, peer) + [command] == [command];
    assert closed.pending[peer := [command]] == map[peer := [command]];
  }

  lemma TwoEvents(n: Node, events: seq<NodeEvent>, after: Node)
    requires 2 <= |events| && Proceed(Proceed(n, events[0]), events[1]) == after
    ensures ProceedAll(n, events) == ProceedAll(after, events[2..])
  {
    assert events[1..][1..] == events[2..];
    NextEvents(n, events);
    NextEvents(Proceed(n, events[0]), events[1..]);
  }

  lemma NextEvents(n: Node, events: seq<NodeEvent>)
    requires events != []
    ensures ProceedAll(n, events) == ProceedAll(Proceed(n, events[0]), events[1..])
  {
  }

  /** As many polls as things are queued hand all of them out. */
  lemma {:induction false} PollsAll(n: Node, polls: seq<NodeEvent>)
    requires |polls| == |n.behaviour.queue| && forall event :: event in polls ==> event == Polled
    ensures ProceedAll(n, polls)
        == n.(behaviour := n.behaviour.(queue := []), emitted := n.emitted + n.behaviour.queue)
    decreases |polls|
  {
    if polls != [] {
      assert polls[0] in polls;
      assert forall event :: event in polls[1..] ==> event in polls;
      var queue := n.behaviour.queue;
      PollsAll(Proceed(n, polls[0]), polls[1..]);
      assert n.emitted + [queue[0]] + queue[1..] == n.emitted + queue;
    } else {
      assert n.emitted + n.behaviour.queue == n.emitted;
    }
  }

  lemma {:induction false} CommandsOfReports(peer: PeerId, reports: seq<ToSwarm>, sent: ToSwarm)
    requires sent.NotifyHandler? && sent.peer == peer && forall report :: report in reports ==> report.GenerateEvent?
    ensures CommandsFor(peer, reports + [sent]) == [sent.command]
    decreases |reports|
  {
    if reports == [] {
      assert reports + [sent] == [sent];
      CommandsOfOne(peer, sent);
    } else {
      assert reports[0] in reports;
      assert forall report :: report in reports[1..] ==> report in reports;
      assert (reports + [sent])[1..] == reports[1..] + [sent];
      CommandsOfReports(peer, reports[1..], sent);
    }
  }

  lemma DispatchedOfTwo(peer: PeerId, first: Command, second: Command)
    ensures DispatchedTo(peer, [(peer, first), (peer, second)]) == [first, second]
  {
    hide DispatchedTo;
    assert [(peer, first), (peer, second)] == [(peer, first)] + [(peer, second)];
    DispatchedJoined(peer, [(peer, first)], [(peer, second)]);
    DispatchedOne(peer, peer, first);
    DispatchedOne(peer, peer, second);
  }

  class Behaviour {
    var peers: map<PeerId, ConnectionId>
    var queue: seq<ToSwarm>
    var pending: map<PeerId, seq<Command>>

    function State(): BehaviourState
      reads this
    {
      BehaviourState(peers, queue, pending)
    }

    constructor ()
      ensures State() == NEW_NODE.behaviour
    {
      peers, queue, pending := map[], [], map[];
    }

    method DispatchCommand(peer: PeerId, command: Command)
      modifies this
      ensures State() == Dispatch(old(State()), peer, command)
    {
      if peer in peers {
        queue := queue + [NotifyHandler(peer, peers[peer], command)];
      } else {
        var waiting := if peer in pending then pending[peer] else [];
        pending := pending[peer := waiting + [command]];
      }
    }

    method HandleEstablishedConnection(peer: PeerId, connection: ConnectionId)
      modifies this
      ensures State() == Accept(old(State()), peer, connection)
    {
      peers := peers[peer := connection];
    }

    method OnConnectionEstablished(peer: PeerId, connection: ConnectionId)
      modifies this
      ensures State() == Established(old(State()), peer, connection)
    {
      peers := peers[peer := connection];
      queue := queue + [GenerateEvent(peer, ConnectionEstablished)];
      if peer in pending {
        var commands := pending[peer];
        pending := pending - {peer};
        ghost var before := queue;
        var i := 0;
        while i < |commands|
          invariant i <= |commands|
          invariant queue == before + Notifications(peer, connection, commands[..i])
          invariant peers == old(peers)[peer := connection] && pending == old(pending) - {peer}
        {
          queue := queue + [NotifyHandler(peer, connection, commands[i])];
          i := i + 1;
        }
        assert commands[..i] == commands;
      } else {
        assert pending - {peer} == pending;
      }
    }

    method OnConnectionClosed(peer: PeerId, connection: ConnectionId)
      modifies this
      ensures State() == Closed(old(State()), peer, connection)
    {
      if peer in peers && peers[peer] == connection {
        peers := peers - {peer};
      }
      queue := queue + [GenerateEvent(peer, ConnectionClosed)];
    }

    method OnConnectionHandlerEvent(peer: PeerId, connection: ConnectionId, report: Report)
      modifies this
      ensures State() == FromHandler(old(State()), peer, connection, report)
    {
      peers := peers[peer := connection];
      queue := queue + [GenerateEvent(peer, report)];
    }

    method Poll() returns (ready: bool, item: ToSwarm)
      modifies this
      ensures ready <==> old(queue) != []
      ensures ready ==> old(queue) == [item] + queue && peers == old(peers) && pending == old(pending)
      ensures !ready ==> State() == old(State())
    {
      ready := queue != [];
      item := GenerateEvent(0, ConnectionClosed);
      if ready {
        item := queue[0];
        queue := queue[1..];
      }
    }
  }
}

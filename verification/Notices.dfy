/**
 What a node hands out besides the order of commands: every report of the swarm and of its handlers, and
 over which connection each command goes.
 */
module Notices {
  import opened Options
  import opened Streams
  import opened Behaviours

  /** Everything ever queued, in order. */
  function Everything(n: Node): seq<ToSwarm> {
    n.emitted + n.behaviour.queue
  }

  function ReportsIn(items: seq<ToSwarm>): seq<(PeerId, Report)> {
    if items == [] then []
    else
      (if items[0].GenerateEvent? then [(items[0].peer, items[0].report)] else []) + ReportsIn(items[1..])
  }

  /** What an event has the node report. */
  function ReportOf(event: NodeEvent): seq<(PeerId, Report)> {
    match event
    case WasEstablished(peer, _) => [(peer, ConnectionEstablished)]
    case WasClosed(peer, _) => [(peer, ConnectionClosed)]
    case Handled(peer, _, report) => [(peer, report)]
    case _ => []
  }

  function AllReports(events: seq<NodeEvent>): seq<(PeerId, Report)> {
    if events == [] then [] else ReportOf(events[0]) + AllReports(events[1..])
  }

  /** The connection a peer is known by: the last one set up, reported or heard from, unless it was closed since. */
  function KnownBy(events: seq<NodeEvent>, peer: PeerId): Option<ConnectionId> {
    if events == [] then None
    else
      var last, before := events[|events| - 1], KnownBy(events[..|events| - 1], peer);
      match last
      case Accepted(p, connection) => if p == peer then Some(connection) else before
      case WasEstablished(p, connection) => if p == peer then Some(connection) else before
      case Handled(p, connection, _) => if p == peer then Some(connection) else before
      case WasClosed(p, connection) => if p == peer && before == Some(connection) then None else before
      case _ => before
  }

  lemma {:induction false} ReportsJoined(a: seq<ToSwarm>, b: seq<ToSwarm>)
    ensures ReportsIn(a + b) == ReportsIn(a) + ReportsIn(b)
    decreases |a|
  {
    if a == [] {
      assert a + b == b;
    } else {
      assert (a + b)[1..] == a[1..] + b;
      ReportsJoined(a[1..], b);
      var first := if a[0].GenerateEvent? then [(a[0].peer, a[0].report)] else [];
      assert first + (ReportsIn(a[1..]) + ReportsIn(b)) == first + ReportsIn(a[1..]) + ReportsIn(b);
    }
  }

  lemma {:induction false} NotificationsReportNothing(items: seq<ToSwarm>)
    requires forall item :: item in items ==> item.NotifyHandler?
    ensures ReportsIn(items) == []
    decreases |items|
  {
    if items != [] {
      assert items[0] in items && forall item :: item in items[1..] ==> item in items;
      NotificationsReportNothing(items[1..]);
    }
  }

  /** What an event adds to what was queued. */
  function Added(n: Node, event: NodeEvent): seq<ToSwarm> {
    var before, after := Everything(n), Everything(Proceed(n, event));
    if |before| <= |after| then after[|before|..] else []
  }

  /**
   An event adds to what was queued its report, if it has one, and then commands, each over the connection
   by which its peer is then known.
   */
  lemma AddsReportsAndCommands(n: Node, event: NodeEvent)
    ensures Everything(Proceed(n, event)) == Everything(n) + Added(n, event)
    ensures ReportsIn(Added(n, event)) == ReportOf(event)
    ensures var peers := Proceed(n, event).behaviour.peers;
            forall i :: 0 <= i < |Added(n, event)| ==>
                          var item := Added(n, event)[i];
                          if item.GenerateEvent? then i == 0
                          else item.peer in peers && peers[item.peer] == item.connection
  {
    var before, after, b := Everything(n), Everything(Proceed(n, event)), n.behaviour;
    match event
    case Polled =>
      assert after == before;
    case Accepted(_, _) =>
      assert after == before;
    case Dispatched(peer, command) =>
      if peer in b.peers {
        var item := NotifyHandler(peer, b.peers[peer], command);
        assert after == before + [item] && [item][1..] == [];
      } else {
        assert after == before;
      }
    case WasClosed(peer, _) => OneReport(before, after, GenerateEvent(peer, ConnectionClosed));
    case Handled(peer, _, report) => OneReport(before, after, GenerateEvent(peer, report));
    case WasEstablished(peer, connection) =>
      var item := GenerateEvent(peer, ConnectionEstablished);
      var commands := Notifications(peer, connection, PendingOf(b, peer));
      assert after == before + ([item] + commands);
      NotificationsReportNothing(commands);
      ReportsJoined([item], commands);
      assert [item][1..] == [];
  }

  lemma OneReport(before: seq<ToSwarm>, after: seq<ToSwarm>, item: ToSwarm)
    requires item.GenerateEvent? && after == before + [item]
    ensures after[|before|..] == [item] && ReportsIn([item]) == [(item.peer, item.report)]
  {
    assert [item][1..] == [];
  }

  /** In every run, reports are handed out and queued once each, in order, and there are no others. */
  lemma {:induction false} ReportsInRun(n: Node, events: seq<NodeEvent>)
    ensures ReportsIn(Everything(ProceedAll(n, events))) == ReportsIn(Everything(n)) + AllReports(events)
    decreases |events|
  {
    hide Proceed, Everything, Added, ReportsIn;
    if events == [] {
      assert ReportsIn(Everything(n)) + [] == ReportsIn(Everything(n));
    } else {
      var next := Proceed(n, events[0]);
      AddsReportsAndCommands(n, events[0]);
      ReportsJoined(Everything(n), Added(n, events[0]));
      ReportsInRun(next, events[1..]);
      assert ReportsIn(Everything(n)) + ReportOf(events[0]) + AllReports(events[1..])
          == ReportsIn(Everything(n)) + (ReportOf(events[0]) + AllReports(events[1..]));
    }
  }

  /** The table of peers says by which connection each is known. */
  ghost predicate KnowsPeers(n: Node, events: seq<NodeEvent>) {
    forall peer :: KnownBy(events, peer) == if peer in n.behaviour.peers then Some(n.behaviour.peers[peer]) else None
  }

  lemma KnowsMore(n: Node, events: seq<NodeEvent>, event: NodeEvent)
    requires KnowsPeers(n, events)
    ensures KnowsPeers(Proceed(n, event), events + [event])
  {
    assert (events + [event])[..|events|] == events;
  }

  lemma {:induction false} KnowsInRun(n: Node, before: seq<NodeEvent>, events: seq<NodeEvent>)
    requires KnowsPeers(n, before)
    ensures KnowsPeers(ProceedAll(n, events), before + events)
    decreases |events|
  {
    hide Proceed, KnowsPeers;
    if events == [] {
      assert before + [] == before;
    } else {
      KnowsMore(n, before, events[0]);
      KnowsInRun(Proceed(n, events[0]), before + [events[0]], events[1..]);
      assert before + [events[0]] + events[1..] == before + events;
    }
  }

  /**
   After any run from the start, whatever an event queues for a handler goes over the connection by which
   the peer is known after that event, told by the events alone.
   */
  lemma CommandsGoOver(events: seq<NodeEvent>, event: NodeEvent, i: nat)
    requires i < |Added(ProceedAll(NEW_NODE, events), event)|
    requires Added(ProceedAll(NEW_NODE, events), event)[i].NotifyHandler?
    ensures var item := Added(ProceedAll(NEW_NODE, events), event)[i];
            KnownBy(events + [event], item.peer) == Some(item.connection)
  {
    hide Proceed, ProceedAll, KnownBy, Added;
    var n := ProceedAll(NEW_NODE, events);
    StartKnows();
    KnowsInRun(NEW_NODE, [], events);
    assert [] + events == events;
    KnowsMore(n, events, event);
    AddsReportsAndCommands(n, event);
  }

  lemma StartKnows()
    ensures KnowsPeers(NEW_NODE, [])
  {
  }
}

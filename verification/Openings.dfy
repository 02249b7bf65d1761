/**
 What becomes of a command to open a stream: whether the stream lives to be requested.
 */
module Openings {
  import opened Frames
  import opened StreamIo
  import opened Buffers
  import opened Receive
  import opened Send
  import opened Inners
  import opened Streams
  import opened Handlers

  /** The stream is in the table, has yet to be requested, and will neither be removed nor be handed a substream. */
  predicate Fresh(h: HandlerState, n: nat) {
    var id := Outgoing(n);
    id in h.streams && h.streams[id].opening.Unopened? && id !in h.failed && n !in h.lastOutgoing
  }

  /** A poll that comes to such a stream requests it; one that does not leaves it as it was. */
  lemma {:induction false} VisitFresh(h: HandlerState, order: seq<StreamId>, scripts: map<StreamId, Script>, n: nat)
    requires AliveIn(h, order) && Distinct(order) && Fresh(h, n)
    ensures var (answer, after) := Visit(h, order, scripts);
            && (Fresh(after, n) || answer == OutboundRequest(n))
            && (Outgoing(n) in order ==> answer != HandlerPending)
    decreases |order|
  {
    hide PollInner, HasRoom;
    if order != [] {
      assert Distinct(order[1..]);
      assert order == [order[0]] + order[1..];
      if order[0] !in h.streams {
        VisitFresh(h, order[1..], scripts, n);
      } else if order[0] != Outgoing(n) {
        hide PollOnce;
        var id := order[0];
        var script := if id in scripts then scripts[id] else Script([], []);
        var (event, s) := PollOnce(id, h.streams[id], script);
        RequestsItself(id, h.streams[id], script);
        var after := h.(streams := h.streams[id := s]);
        if event.StreamPending? {
          VisitFresh(after, order[1..], scripts, n);
        } else if event.Failed? {
          VisitFresh(after.(failed := after.failed + [id]), order[1..], scripts, n);
        }
      }
    }
  }

  /** What was requested from `c` to `after`. */
  function RequestedSince(c: Connection, after: Connection): seq<nat> {
    if |c.requested| <= |after.requested| then after.requested[|c.requested|..] else []
  }

  lemma FreshAfter(c: Connection, event: HandlerEvent, n: nat)
    requires Orderly(c) && CanHappen(c, event) && Fresh(c.handler, n)
    ensures var after := Happen(c, event);
            && c.requested <= after.requested
            && (Fresh(after.handler, n) || n in RequestedSince(c, after))
  {
    hide Visit, HasRoom, NewInner;
    match event
    case Polled(order, scripts) =>
      RemovedAreAlive(c.handler, order);
      VisitFresh(RemoveFailed(c.handler), order, scripts, n);
    case NegotiatedOutbound =>
      assert c.handler.lastOutgoing != [] ==>
        c.handler.lastOutgoing[0] in c.handler.lastOutgoing
        && forall m :: m in c.handler.lastOutgoing[1..] ==> m in c.handler.lastOutgoing;
    case _ =>
  }

  /** In every run a fresh stream stays fresh until it is requested. */
  lemma {:induction false} FreshUntilRequested(c: Connection, events: seq<HandlerEvent>, n: nat)
    requires Orderly(c) && CanRun(c, events) && Fresh(c.handler, n)
    ensures var after := RunAll(c, events);
            Fresh(after.handler, n) || n in RequestedSince(c, after)
    decreases |events|
  {
    hide Happen, CanHappen, Fresh, Orderly;
    if events != [] {
      FreshAfter(c, events[0], n);
      var next := Happen(c, events[0]);
      RequestedGrows(next, events[1..]);
      if Fresh(next.handler, n) {
        FreshUntilRequested(next, events[1..], n);
      }
    }
  }

  lemma {:induction false} RequestedGrows(c: Connection, events: seq<HandlerEvent>)
    requires Orderly(c) && CanRun(c, events)
    ensures c.requested <= RunAll(c, events).requested
    decreases |events|
  {
    if events != [] {
      hide Visit, HasRoom, NewInner, Orderly;
      RequestedGrows(Happen(c, events[0]), events[1..]);
    }
  }

  /** Between polls. */
  predicate NoPolls(events: seq<HandlerEvent>) {
    forall event :: event in events ==> !event.Polled?
  }

  /** Between polls nothing is requested, no stream is listed for removal or taken off the list, and none is removed. */
  lemma {:induction false} BetweenPolls(c: Connection, events: seq<HandlerEvent>)
    requires Orderly(c) && CanRun(c, events) && NoPolls(events)
    ensures var after := RunAll(c, events);
            && after.requested == c.requested && after.handler.failed == c.handler.failed
            && c.handler.streams.Keys <= after.handler.streams.Keys
    decreases |events|
  {
    if events != [] {
      hide HasRoom, NewInner, Orderly;
      assert events[0] in events;
      assert forall event :: event in events[1..] ==> event in events;
      BetweenPolls(Happen(c, events[0]), events[1..]);
    }
  }

  /** No event of the run opens the stream or sends to it. */
  predicate LeavesAlone(events: seq<HandlerEvent>, n: nat) {
    forall event :: event in events ==>
                      event != OpenCommand(n) && !(event.SendCommand? && event.id == Outgoing(n))
  }

  /** A stream that is gone, and is neither opened nor sent to, is not requested. */
  lemma {:induction false} GoneStaysGone(c: Connection, events: seq<HandlerEvent>, n: nat)
    requires Orderly(c) && CanRun(c, events) && Outgoing(n) !in c.handler.streams && LeavesAlone(events, n)
    ensures var after := RunAll(c, events);
            && Outgoing(n) !in after.handler.streams
            && c.requested <= after.requested && n !in RequestedSince(c, after)
    decreases |events|
  {
    hide Happen, CanHappen, Orderly;
    if events != [] {
      assert events[0] in events;
      assert forall event :: event in events[1..] ==> event in events;
      GoneAfter(c, events[0], n);
      GoneStaysGone(Happen(c, events[0]), events[1..], n);
    }
  }

  lemma GoneAfter(c: Connection, event: HandlerEvent, n: nat)
    requires Orderly(c) && CanHappen(c, event) && Outgoing(n) !in c.handler.streams && LeavesAlone([event], n)
    ensures var after := Happen(c, event);
            && Outgoing(n) !in after.handler.streams
            && c.requested <= after.requested && n !in RequestedSince(c, after)
  {
    hide Visit, HasRoom, NewInner;
    assert event in [event];
    match event
    case Polled(order, scripts) =>
      RemovedAreAlive(c.handler, order);
      VisitFrame(RemoveFailed(c.handler), order, scripts);
    case _ =>
  }

  /** A stream is opened, some time later comes the next poll, and then anything that does not address the stream. */
  predicate OpeningRun(c: Connection, n: nat, before: seq<HandlerEvent>, poll: HandlerEvent, later: seq<HandlerEvent>)
    requires Orderly(c)
  {
    && NoPolls(before) && poll.Polled? && LeavesAlone(later, n)
    && CanRun(c, [OpenCommand(n)] + before + [poll] + later)
  }

  /**
   A stream that is opened, and does not wait for a substream already, has been requested or can still be
   by any later poll, if and only if no stream of the same number was listed for removal when it was
   opened; if one was, the next poll removes the new stream in its place, and it is never requested.
   */
  lemma OpenedSurvivesExactly(c: Connection, n: nat, before: seq<HandlerEvent>, poll: HandlerEvent,
      later: seq<HandlerEvent>)
    requires Orderly(c) && n !in c.handler.lastOutgoing && OpeningRun(c, n, before, poll, later)
    ensures var after := RunAll(c, [OpenCommand(n)] + before + [poll] + later);
            (Fresh(after.handler, n) || n in RequestedSince(c, after)) <==> Outgoing(n) !in c.handler.failed
  {
    hide Happen, CanHappen, RunAll, CanRun, Orderly, Fresh;
    CommandsCanCome(c, OpenCommand(n));
    var start := Happen(c, OpenCommand(n));
    var rest := before + ([poll] + later);
    assert [OpenCommand(n)] + before + [poll] + later == [OpenCommand(n)] + rest;
    RunInTwo(c, [OpenCommand(n)], rest);
    RunOne(c, OpenCommand(n));
    JustOpened(c, n);
    if Outgoing(n) !in c.handler.failed {
      FreshUntilRequested(start, rest, n);
    } else {
      RunInTwo(start, before, [poll] + later);
      var polled := RunAll(start, before);
      RunInTwo(polled, [poll], later);
      RunOne(polled, poll);
      BetweenPolls(start, before);
      RemovedInstead(polled, poll, n);
      GoneStaysGone(Happen(polled, poll), later, n);
      GoneIsNotFresh(RunAll(Happen(polled, poll), later).handler, n);
    }
  }

  lemma GoneIsNotFresh(h: HandlerState, n: nat)
    requires Outgoing(n) !in h.streams
    ensures !Fresh(h, n)
  {
  }

  /** A run in two parts. */
  lemma {:induction false} RunInTwo(c: Connection, a: seq<HandlerEvent>, b: seq<HandlerEvent>)
    requires Orderly(c) && CanRun(c, a + b)
    ensures CanRun(c, a) && Orderly(RunAll(c, a)) && CanRun(RunAll(c, a), b)
    ensures RunAll(c, a + b) == RunAll(RunAll(c, a), b)
    decreases |a|
  {
    hide Happen, CanHappen, Orderly;
    if a == [] {
      assert a + b == b;
    } else {
      assert (a + b)[1..] == a[1..] + b;
      RunInTwo(Happen(c, a[0]), a[1..], b);
    }
  }

  lemma RunOne(c: Connection, event: HandlerEvent)
    requires Orderly(c) && CanRun(c, [event])
    ensures CanHappen(c, event) && RunAll(c, [event]) == Happen(c, event)
  {
    hide Happen, CanHappen, Orderly;
    var one := [event];
    assert one[1..] == [];
  }

  lemma JustOpened(c: Connection, n: nat)
    requires Orderly(c)
    ensures var start := Happen(c, OpenCommand(n));
            && start.requested == c.requested && start.handler.failed == c.handler.failed
            && (Outgoing(n) !in c.handler.failed && n !in c.handler.lastOutgoing ==> Fresh(start.handler, n))
  {
    hide HasRoom, NewInner;
  }

  lemma RemovedInstead(c: Connection, poll: HandlerEvent, n: nat)
    requires Orderly(c) && CanHappen(c, poll) && poll.Polled? && Outgoing(n) in c.handler.failed
    ensures var after := Happen(c, poll);
            && Outgoing(n) !in after.handler.streams
            && c.requested <= after.requested && n !in RequestedSince(c, after)
  {
    hide Visit, HasRoom;
    RemovedAreAlive(c.handler, poll.order);
    VisitFrame(RemoveFailed(c.handler), poll.order, poll.scripts);
  }

  /** A stream is opened and negotiated, reading from it fails, and it is opened again before the next poll. */
  function ReopeningEvents(n: nat): seq<HandlerEvent> {
    var id := Outgoing(n);
    [OpenCommand(n), Polled([id], map[]), NegotiatedOutbound,
     Polled([id], map[id := Script([Break(OtherError)], [])]), OpenCommand(n), Polled([id], map[])]
  }

  /** A negotiated stream whose first read fails. */
  lemma FirstReadFails(id: StreamId, codec: Codec)
    ensures var s := NewOutgoing(codec, true).(opening := Negotiated);
            var (event, after) := PollOnce(id, s, Script([Break(OtherError)], []));
            event == Failed && after.dead
  {
    hide SendAll, Recv;
    var inner := NewInner(Config(codec, [], true));
    SendEnds(inner.queue, []);
    RecvEnds(inner.config, UntilRoom, EMPTY_BUFFER, [Break(OtherError)]);
    FillEnds(EMPTY_BUFFER, [Break(OtherError)]);
  }

  /** A connection whose handler knows no stream but `n`. */
  function OneStream(codec: Codec, menu: Menu, n: nat, s: StreamState, waiting: seq<nat>, failed: seq<StreamId>,
      landed: seq<nat>): Connection
  {
    Connection(HandlerState(codec, menu, map[Outgoing(n) := s], waiting, 0, failed), |waiting|, [n], landed)
  }

  /** A handler that knows one stream, which has yet to be requested. */
  function OneUnopened(codec: Codec, menu: Menu, n: nat, s: StreamState): Connection {
    Connection(HandlerState(codec, menu, map[Outgoing(n) := s], [], 0, []), 0, [], [])
  }

  lemma {:induction false} PollRequests(codec: Codec, menu: Menu, n: nat, s: StreamState)
    requires HasRoom(s) && s.opening.Unopened? && !s.dead
    ensures Orderly(OneUnopened(codec, menu, n, s))
    ensures Happen(OneUnopened(codec, menu, n, s), Polled([Outgoing(n)], map[]))
         == OneStream(codec, menu, n, s.(opening := Requested), [n], [], [])
  {
    hide PollInner, HasRoom;
    var c, order := OneUnopened(codec, menu, n, s), [Outgoing(n)];
    var removed := RemoveFailed(c.handler);
    assert removed.streams == c.handler.streams;
    assert Visit(removed, order, map[]).0 == OutboundRequest(n);
    assert map[Outgoing(n) := s][Outgoing(n) := s.(opening := Requested)]
        == map[Outgoing(n) := s.(opening := Requested)];
    assert [] + [n] == [n];
  }

  lemma {:induction false} SubstreamComes(codec: Codec, menu: Menu, n: nat, s: StreamState)
    requires Orderly(OneStream(codec, menu, n, s, [n], [], []))
    ensures Happen(OneStream(codec, menu, n, s, [n], [], []), NegotiatedOutbound)
         == OneStream(codec, menu, n, s.(opening := Negotiated), [], [], [n])
  {
    hide HasRoom;
    assert map[Outgoing(n) := s][Outgoing(n) := s.(opening := Negotiated)]
        == map[Outgoing(n) := s.(opening := Negotiated)];
    assert [n][1..] == [] && [] + [n] == [n];
  }

  /** Opened, requested, negotiated. */
  lemma {:induction false} OpenedAndNegotiated(codec: Codec, menu: Menu, n: nat)
    ensures var c0, s := NewConnection(codec, menu), NewOutgoing(codec, true);
            var c3 := OneStream(codec, menu, n, s.(opening := Negotiated), [], [], [n]);
            && var c1 := Happen(c0, OpenCommand(n));
            && CanHappen(c1, Polled([Outgoing(n)], map[]))
            && var c2 := Happen(c1, Polled([Outgoing(n)], map[]));
            && CanHappen(c2, NegotiatedOutbound) && Happen(c2, NegotiatedOutbound) == c3
            && Orderly(c3)
  {
    hide Happen, Visit, NewInner, HasRoom, Orderly;
    var s := NewOutgoing(codec, true);
    NewHasRoom(codec, true);
    JustOne(codec, menu, n);
    PollRequests(codec, menu, n, s);
    SubstreamComes(codec, menu, n, s.(opening := Requested));
  }

  lemma {:induction false} JustOne(codec: Codec, menu: Menu, n: nat)
    ensures Orderly(NewConnection(codec, menu))
    ensures Happen(NewConnection(codec, menu), OpenCommand(n))
         == OneUnopened(codec, menu, n, NewOutgoing(codec, true))
  {
    hide NewOutgoing, HasRoom;
  }

  /** The read fails; the stream is listed for removal and stays in the table until the next poll. */
  lemma ListedForRemoval(codec: Codec, menu: Menu, n: nat)
    ensures var id, s := Outgoing(n), NewOutgoing(codec, true).(opening := Negotiated);
            var script := Script([Break(OtherError)], []);
            var c3 := OneStream(codec, menu, n, s, [], [], [n]);
            && HasRoom(s) && Orderly(c3)
            && var poll := Polled([id], map[id := script]);
            && CanHappen(c3, poll)
            && Happen(c3, poll) == OneStream(codec, menu, n, PollOnce(id, s, script).1, [], [id], [n])
  {
    hide NewInner, PollOnce;
    var id, s := Outgoing(n), NewOutgoing(codec, true).(opening := Negotiated);
    var script := Script([Break(OtherError)], []);
    var order, scripts := [id], map[id := script];
    NewHasRoom(codec, true);
    FirstReadFails(id, codec);
    var c3 := OneStream(codec, menu, n, s, [], [], [n]);
    var removed := RemoveFailed(c3.handler);
    assert removed.streams == map[id := s];
    var listed := removed.(streams := map[id := s][id := PollOnce(id, s, script).1], failed := [] + [id]);
    assert order[1..] == [];
    assert Visit(listed, order[1..], scripts) == (HandlerPending, listed);
    assert Visit(removed, order, scripts) == (HandlerPending, listed);
  }

  /** Opened again, and removed. */
  lemma OpenedAndRemoved(codec: Codec, menu: Menu, n: nat, s: StreamState)
    requires Orderly(OneStream(codec, menu, n, s, [], [Outgoing(n)], [n]))
    ensures var c4 := OneStream(codec, menu, n, s, [], [Outgoing(n)], [n]);
            var c5 := Happen(c4, OpenCommand(n));
            && CanHappen(c5, Polled([Outgoing(n)], map[]))
            && var c6 := Happen(c5, Polled([Outgoing(n)], map[]));
               c6.handler.streams == map[] && c6.requested == [n]
  {
    hide NewInner, HasRoom;
    var c5 := Happen(OneStream(codec, menu, n, s, [], [Outgoing(n)], [n]), OpenCommand(n));
    var removed := RemoveFailed(c5.handler);
    assert removed.streams == map[];
    assert [Outgoing(n)][1..] == [];
    assert Visit(removed, [Outgoing(n)], map[]) == (HandlerPending, removed);
  }

  /** The stream opened second is removed in place of the first, unrequested. */
  lemma OpenedTooSoon(codec: Codec, menu: Menu, n: nat) returns (last: Connection)
    ensures Leads(NewConnection(codec, menu), ReopeningEvents(n), last)
    ensures last.handler.streams == map[] && last.requested == [n]
  {
    hide Happen, CanHappen, NewOutgoing, PollOnce, Leads;
    var c0, events := NewConnection(codec, menu), ReopeningEvents(n);
    CommandsCanCome(c0, events[0]);
    OpenedAndNegotiated(codec, menu, n);
    ListedForRemoval(codec, menu, n);
    var c1 := Happen(c0, events[0]);
    var c2 := Happen(c1, events[1]);
    var c3 := Happen(c2, events[2]);
    var c4 := Happen(c3, events[3]);
    OpenedAndRemoved(codec, menu, n, c4.handler.streams[Outgoing(n)]);
    CommandsCanCome(c4, events[4]);
    var c5 := Happen(c4, events[4]);
    last := Happen(c5, events[5]);
    LastEvent(c5, events[5], last, events[5..]);
    NextEvent(c4, events[4..], last);
    NextEvent(c3, events[3..], last);
    NextEvent(c2, events[2..], last);
    NextEvent(c1, events[1..], last);
    NextEvent(c0, events, last);
  }
}

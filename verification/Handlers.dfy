/**
 The handler of one connection: a table of streams, the queue of outbound streams waiting for a
 substream, and the streams that failed.
 */
module Handlers {
  import opened Bytes
  import opened Frames
  import opened Addresses
  import opened Inners
  import opened Send
  import opened Streams

  datatype HandlerState = HandlerState(
    codec: Codec,
    menu: Menu,
    streams: map<StreamId, StreamState>,
    lastOutgoing: seq<nat>,
    lastIncoming: nat,
    failed: seq<StreamId>)

  /** What a handler's poll answers; `HandlerSpins` stands for never returning. */
  datatype Answer =
    | HandlerPending
    | OutboundRequest(number: nat)
    | Custom(id: StreamId, received: Received)
    | HandlerPanicked
    | HandlerSpins

  function NewHandler(codec: Codec, menu: Menu): HandlerState {
    HandlerState(codec, menu, map[], [], 0, [])
  }

  /** The command to open an outgoing stream. */
  function Open(h: HandlerState, n: nat): HandlerState {
    h.(streams := h.streams[Outgoing(n) := NewOutgoing(h.codec, true)])
  }

  /** The command to send: a missing outgoing stream is opened implicitly, a missing incoming one ignored. */
  function SendTo(h: HandlerState, id: StreamId, bytes: seq<Byte>): HandlerState {
    if id in h.streams then
      h.(streams := h.streams[id := AddTo(h.streams[id], bytes)])
    else if id.Outgoing? then
      h.(streams := h.streams[id := AddTo(NewOutgoing(h.codec, false), bytes)],
         lastOutgoing := h.lastOutgoing + [id.number])
    else
      h
  }

  function AddInbound(h: HandlerState): HandlerState {
    h.(streams := h.streams[Incoming(h.lastIncoming) := NewIncoming(h.codec, h.menu).(opening := Negotiated)],
       lastIncoming := Wrap32(h.lastIncoming + 1))
  }

  /** A negotiated outbound substream goes to the stream that has waited longest. */
  function AddOutbound(h: HandlerState): HandlerState {
    if h.lastOutgoing == [] then h
    else
      var id, rest := Outgoing(h.lastOutgoing[0]), h.(lastOutgoing := h.lastOutgoing[1..]);
      if id in h.streams then rest.(streams := h.streams[id := h.streams[id].(opening := Negotiated)]) else rest
  }

  function Without(streams: map<StreamId, StreamState>, failed: seq<StreamId>): map<StreamId, StreamState> {
    map id | id in streams && id !in failed :: streams[id]
  }

  function RemoveFailed(h: HandlerState): HandlerState {
    h.(streams := Without(h.streams, h.failed), failed := [])
  }

  /** Every stream not yet handed an error can be polled. */
  ghost predicate Pollable(h: HandlerState) {
    forall id :: id in h.streams ==> HasRoom(h.streams[id])
  }

  /** Streams whose error was handed on are listed for removal. */
  ghost predicate DeadAreListed(h: HandlerState) {
    forall id :: id in h.streams && h.streams[id].dead ==> id in h.failed
  }

  /** The listed streams still to be visited are alive. */
  ghost predicate AliveIn(h: HandlerState, order: seq<StreamId>) {
    && Pollable(h)
    && forall id :: id in order && id in h.streams ==> !h.streams[id].dead
  }

  predicate Distinct(order: seq<StreamId>) {
    forall i, j :: 0 <= i < j < |order| ==> order[i] != order[j]
  }

  /**
   Polls the streams of `order` one after the other until one has something to say.  A stream is
   polled only while alive: the precondition is the obligation never to poll after an error.
   */
  function Visit(h: HandlerState, order: seq<StreamId>, scripts: map<StreamId, Script>): (Answer, HandlerState)
    requires AliveIn(h, order) && Distinct(order)
    decreases |order|
  {
    if order == [] then (HandlerPending, h)
    else if order[0] !in h.streams then Visit(h, order[1..], scripts)
    else
      var id := order[0];
      var (event, s) := PollOnce(id, h.streams[id], if id in scripts then scripts[id] else Script([], []));
      var after := h.(streams := h.streams[id := s]);
      match event
      case StreamPending => Visit(after, order[1..], scripts)
      case Request(n) => (OutboundRequest(n), after.(lastOutgoing := after.lastOutgoing + [n]))
      case Event(received) => (Custom(id, received), after)
      case Failed => Visit(after.(failed := after.failed + [id]), order[1..], scripts)
      case Panicked => (HandlerPanicked, after)
      case Spins => (HandlerSpins, after)
  }

  lemma RemovedAreAlive(h: HandlerState, order: seq<StreamId>)
    requires Pollable(h) && DeadAreListed(h)
    ensures AliveIn(RemoveFailed(h), order)
  {
  }

  /** A poll.  `order` lists the table's keys; the source visits them in ascending order. */
  function PollAll(h: HandlerState, order: seq<StreamId>, scripts: map<StreamId, Script>): (Answer, HandlerState)
    requires Pollable(h) && DeadAreListed(h) && Distinct(order)
  {
    RemovedAreAlive(h, order);
    Visit(RemoveFailed(h), order, scripts)
  }

  /** What can happen to a handler. */
  datatype HandlerEvent =
    | OpenCommand(number: nat)
    | SendCommand(id: StreamId, bytes: seq<Byte>)
    | NegotiatedInbound
    | NegotiatedOutbound
    | NegotiationFailed
    | Polled(order: seq<StreamId>, scripts: map<StreamId, Script>)

  /**
   A handler in its connection: `outstanding` counts the requested substreams not yet reported;
   `requested` and `landed` list the streams that asked for one and those handed one, in order.
   */
  datatype Connection = Connection(handler: HandlerState, outstanding: nat, requested: seq<nat>, landed: seq<nat>)

  function NewConnection(codec: Codec, menu: Menu): Connection {
    Connection(NewHandler(codec, menu), 0, [], [])
  }

  predicate Waiting(h: HandlerState, n: nat) {
    Outgoing(n) in h.streams && h.streams[Outgoing(n)].opening.Requested?
  }

  ghost predicate NoRepeats(ids: seq<nat>) {
    forall i, j :: 0 <= i < j < |ids| ==> ids[i] != ids[j]
  }

  /** The queue holds exactly the waiting streams, once each, and no waiting stream is to be removed. */
  ghost predicate PairedTable(h: HandlerState) {
    && (forall n: nat :: n in h.lastOutgoing <==> Waiting(h, n))
    && NoRepeats(h.lastOutgoing)
    && (forall id :: id in h.failed && id in h.streams ==> !h.streams[id].opening.Requested?)
  }

  /**
   Outbound pairing: the queue holds exactly the waiting streams, once each, in the order in which they
   asked, and as many substreams are outstanding.
   */
  ghost predicate Paired(c: Connection) {
    && PairedTable(c.handler)
    && c.outstanding == |c.handler.lastOutgoing|
    && c.requested == c.landed + c.handler.lastOutgoing
  }

  /** Kept by every event: streams can be polled, and dead ones are listed. */
  ghost predicate Orderly(c: Connection) {
    Pollable(c.handler) && DeadAreListed(c.handler)
  }

  lemma {:induction false} VisitKeepsOrderly(h: HandlerState, order: seq<StreamId>, scripts: map<StreamId, Script>)
    requires AliveIn(h, order) && Distinct(order) && DeadAreListed(h)
    ensures var after := Visit(h, order, scripts).1; Pollable(after) && DeadAreListed(after)
    decreases |order|
  {
    hide PollOnce, HasRoom;
    if order != [] {
      assert Distinct(order[1..]);
      if order[0] !in h.streams {
        VisitKeepsOrderly(h, order[1..], scripts);
      } else {
        var id := order[0];
        var (event, s) := PollOnce(id, h.streams[id], if id in scripts then scripts[id] else Script([], []));
        var after := h.(streams := h.streams[id := s]);
        if event.StreamPending? {
          VisitKeepsOrderly(after, order[1..], scripts);
        } else if event.Failed? {
          VisitKeepsOrderly(after.(failed := after.failed + [id]), order[1..], scripts);
        }
      }
    }
  }

  lemma RequestsItself(id: StreamId, s: StreamState, script: Script)
    requires HasRoom(s) && !s.dead
    ensures var event := PollOnce(id, s, script).0; event.Request? ==> id == Outgoing(event.number)
  {
    hide PollInner;
  }

  /** A poll requests only streams of the table, and keeps its keys and what the handler is set up with. */
  lemma {:induction false} VisitFrame(h: HandlerState, order: seq<StreamId>, scripts: map<StreamId, Script>)
    requires AliveIn(h, order) && Distinct(order)
    ensures var (answer, after) := Visit(h, order, scripts);
            && (answer.OutboundRequest? ==> Outgoing(answer.number) in h.streams)
            && after.streams.Keys == h.streams.Keys
            && after.codec == h.codec && after.menu == h.menu && after.lastIncoming == h.lastIncoming
    decreases |order|
  {
    hide PollOnce, HasRoom;
    if order != [] {
      assert Distinct(order[1..]);
      if order[0] !in h.streams {
        VisitFrame(h, order[1..], scripts);
      } else {
        var id := order[0];
        var script := if id in scripts then scripts[id] else Script([], []);
        var (event, s) := PollOnce(id, h.streams[id], script);
        RequestsItself(id, h.streams[id], script);
        var after := h.(streams := h.streams[id := s]);
        if event.StreamPending? {
          VisitFrame(after, order[1..], scripts);
        } else if event.Failed? {
          VisitFrame(after.(failed := after.failed + [id]), order[1..], scripts);
        }
      }
    }
  }

  /** The connection reports only substreams that were requested, and a poll visits no stream twice. */
  predicate CanHappen(c: Connection, event: HandlerEvent) {
    && ((event.NegotiatedOutbound? || event.NegotiationFailed?) ==> 0 < c.outstanding)
    && (event.Polled? ==> Distinct(event.order))
  }

  function Happen(c: Connection, event: HandlerEvent): (after: Connection)
    requires Orderly(c) && CanHappen(c, event)
    ensures Orderly(after)
  {
    match event
    case OpenCommand(n) => c.(handler := Open(c.handler, n))
    case SendCommand(id, bytes) => c.(handler := SendTo(c.handler, id, bytes))
    case NegotiatedInbound => c.(handler := AddInbound(c.handler))
    case NegotiatedOutbound =>
      Connection(AddOutbound(c.handler), c.outstanding - 1, c.requested,
                 c.landed + if c.handler.lastOutgoing == [] then [] else [c.handler.lastOutgoing[0]])
    case NegotiationFailed => c.(outstanding := c.outstanding - 1)
    case Polled(order, scripts) =>
      RemovedAreAlive(c.handler, order);
      VisitKeepsOrderly(RemoveFailed(c.handler), order, scripts);
      var (answer, h) := PollAll(c.handler, order, scripts);
      if answer.OutboundRequest? then
        Connection(h, c.outstanding + 1, c.requested + [answer.number], c.landed)
      else
        c.(handler := h)
  }

  /** Commands can always come. */
  lemma CommandsCanCome(c: Connection, event: HandlerEvent)
    requires event.OpenCommand? || event.SendCommand?
    ensures CanHappen(c, event)
  {
  }

  /** The events can happen one after the other. */
  predicate CanRun(c: Connection, events: seq<HandlerEvent>)
    requires Orderly(c)
    decreases |events|
  {
    events == [] || (CanHappen(c, events[0]) && CanRun(Happen(c, events[0]), events[1..]))
  }

  function RunAll(c: Connection, events: seq<HandlerEvent>): Connection
    requires Orderly(c) && CanRun(c, events)
    decreases |events|
  {
    if events == [] then c else RunAll(Happen(c, events[0]), events[1..])
  }

  /** The events can happen one after the other and end in `last`. */
  ghost predicate Leads(c: Connection, events: seq<HandlerEvent>, last: Connection)
    requires Orderly(c)
  {
    CanRun(c, events) && RunAll(c, events) == last
  }

  lemma NextEvent(c: Connection, events: seq<HandlerEvent>, last: Connection)
    requires Orderly(c) && events != []
    requires CanHappen(c, events[0]) && Leads(Happen(c, events[0]), events[1..], last)
    ensures Leads(c, events, last)
  {
  }

  lemma LastEvent(c: Connection, event: HandlerEvent, last: Connection, events: seq<HandlerEvent>)
    requires Orderly(c) && events == [event] && CanHappen(c, event) && last == Happen(c, event)
    ensures Leads(c, events, last)
  {
    assert Leads(last, events[1..], last);
  }

  /**
   A stream whose error reached the handler is never polled again: at the end of any run, from a new
   connection for one, the streams that a poll would visit are alive, whichever they are.
   */
  lemma {:induction false} NoDeadVisited(c: Connection, events: seq<HandlerEvent>, order: seq<StreamId>)
    requires Orderly(c) && CanRun(c, events)
    ensures var after := RunAll(c, events); Orderly(after) && AliveIn(RemoveFailed(after.handler), order)
    decreases |events|
  {
    hide Happen, CanHappen;
    if events == [] {
      RemovedAreAlive(c.handler, order);
    } else {
      NoDeadVisited(Happen(c, events[0]), events[1..], order);
    }
  }

  /** The messages queued on every stream are unfinished. */
  ghost predicate Unfinished(h: HandlerState) {
    forall id :: id in h.streams ==> WellQueued(h.streams[id].inner.queue)
  }

  lemma {:induction false} VisitReturns(h: HandlerState, order: seq<StreamId>, scripts: map<StreamId, Script>)
    requires AliveIn(h, order) && Distinct(order) && Unfinished(h)
    ensures var (answer, after) := Visit(h, order, scripts); !answer.HandlerSpins? && Unfinished(after)
    decreases |order|
  {
    hide PollOnce, HasRoom, WellQueued;
    if order != [] {
      assert Distinct(order[1..]);
      if order[0] !in h.streams {
        VisitReturns(h, order[1..], scripts);
      } else {
        var id := order[0];
        var script := if id in scripts then scripts[id] else Script([], []);
        PollReturns(id, h.streams[id], script);
        var (event, s) := PollOnce(id, h.streams[id], script);
        var after := h.(streams := h.streams[id := s]);
        if event.StreamPending? {
          VisitReturns(after, order[1..], scripts);
        } else if event.Failed? {
          VisitReturns(after.(failed := after.failed + [id]), order[1..], scripts);
        }
      }
    }
  }

  /** A poll of a handler with unfinished messages returns. */
  lemma PollAllReturns(h: HandlerState, order: seq<StreamId>, scripts: map<StreamId, Script>)
    requires Pollable(h) && DeadAreListed(h) && Distinct(order) && Unfinished(h)
    ensures var (answer, after) := PollAll(h, order, scripts); !answer.HandlerSpins? && Unfinished(after)
  {
    RemovedAreAlive(h, order);
    VisitReturns(RemoveFailed(h), order, scripts);
  }

  /** Framed messages are never empty: their length alone takes eight bytes. */
  predicate SendsSomething(event: HandlerEvent) {
    event.SendCommand? ==> event.bytes != []
  }

  lemma StaysUnfinished(c: Connection, event: HandlerEvent)
    requires Orderly(c) && CanHappen(c, event) && Unfinished(c.handler) && SendsSomething(event)
    ensures Unfinished(Happen(c, event).handler)
  {
    hide PollAll;
    match event
    case Polled(order, scripts) => PollAllReturns(c.handler, order, scripts);
    case OpenCommand(n) => NewIsUnfinished(Config(c.handler.codec, [], true));
    case SendCommand(id, bytes) => NewIsUnfinished(Config(c.handler.codec, [], false));
    case NegotiatedInbound => NewIsUnfinished(Config(c.handler.codec, c.handler.menu, false));
    case _ =>
  }

  lemma NewIsUnfinished(config: Config)
    ensures WellQueued(NewInner(config).queue)
  {
  }

  lemma {:induction false} UnfinishedInRun(c: Connection, events: seq<HandlerEvent>)
    requires Orderly(c) && CanRun(c, events) && Unfinished(c.handler)
    requires forall event :: event in events ==> SendsSomething(event)
    ensures Unfinished(RunAll(c, events).handler)
    decreases |events|
  {
    hide Happen, Orderly, Unfinished, CanHappen;
    if events != [] {
      assert events[0] in events;
      assert forall event :: event in events[1..] ==> event in events;
      StaysUnfinished(c, events[0]);
      UnfinishedInRun(Happen(c, events[0]), events[1..]);
    }
  }

  /** In any run in which no empty message is sent, every poll returns. */
  lemma PollsReturn(codec: Codec, menu: Menu, events: seq<HandlerEvent>, order: seq<StreamId>,
      scripts: map<StreamId, Script>)
    requires CanRun(NewConnection(codec, menu), events) && Distinct(order)
    requires forall event :: event in events ==> SendsSomething(event)
    ensures var after := RunAll(NewConnection(codec, menu), events);
            Orderly(after) && !PollAll(after.handler, order, scripts).0.HandlerSpins?
  {
    hide PollAll;
    NoDeadVisited(NewConnection(codec, menu), events, order);
    UnfinishedInRun(NewConnection(codec, menu), events);
    PollAllReturns(RunAll(NewConnection(codec, menu), events).handler, order, scripts);
  }

  /** Leaving out one more id. */
  lemma WithoutOneMore(streams: map<StreamId, StreamState>, failed: seq<StreamId>, i: nat)
    requires i < |failed|
    ensures Without(streams, failed[..i + 1]) == Without(streams, failed[..i]) - {failed[i]}
  {
    assert failed[..i + 1] == failed[..i] + [failed[i]];
  }

  /** The visit of one stream, and of those behind it. */
  lemma VisitOne(h: HandlerState, order: seq<StreamId>, i: nat, scripts: map<StreamId, Script>)
    requires i < |order| && AliveIn(h, order[i..]) && Distinct(order[i..])
    ensures Distinct(order[i + 1..])
    ensures var id := order[i];
            if id !in h.streams then
              AliveIn(h, order[i + 1..]) && Visit(h, order[i..], scripts) == Visit(h, order[i + 1..], scripts)
            else
              && HasRoom(h.streams[id]) && !h.streams[id].dead
              && var (event, s) := PollOnce(id, h.streams[id], if id in scripts then scripts[id] else Script([], []));
              var after := h.(streams := h.streams[id := s]);
              match event
              case StreamPending =>
                AliveIn(after, order[i + 1..]) && Visit(h, order[i..], scripts) == Visit(after, order[i + 1..], scripts)
              case Failed =>
                var listed := after.(failed := after.failed + [id]);
                && AliveIn(listed, order[i + 1..])
                && Visit(h, order[i..], scripts) == Visit(listed, order[i + 1..], scripts)
              case Request(n) =>
                Visit(h, order[i..], scripts) == (OutboundRequest(n), after.(lastOutgoing := after.lastOutgoing + [n]))
              case Event(received) => Visit(h, order[i..], scripts) == (Custom(id, received), after)
              case Panicked => Visit(h, order[i..], scripts) == (HandlerPanicked, after)
              case Spins => Visit(h, order[i..], scripts) == (HandlerSpins, after)
  {
    hide PollOnce, HasRoom;
    var id, left, rest := order[i], order[i..], order[i + 1..];
    assert left[0] == id && left[1..] == rest;
    forall later | later in rest
      ensures later in left && later != id
    {
      var j :| 0 <= j < |rest| && rest[j] == later;
      assert left[j + 1] == later;
    }
  }

  lemma VisitNone(h: HandlerState, order: seq<StreamId>, scripts: map<StreamId, Script>)
    requires order == [] && AliveIn(h, order) && Distinct(order)
    ensures Visit(h, order, scripts) == (HandlerPending, h)
  {
  }

  class Handler {
    const codec: Codec
    const menu: Menu
    var streams: map<StreamId, StreamState>
    var lastOutgoing: seq<nat>
    var lastIncoming: nat
    var failed: seq<StreamId>

    function State(): HandlerState
      reads this
    {
      HandlerState(codec, menu, streams, lastOutgoing, lastIncoming, failed)
    }

    /** Streams can be polled, and those whose error was handed on are listed for removal. */
    ghost predicate Valid()
      reads this
    {
      Pollable(State()) && DeadAreListed(State())
    }

    constructor (codec: Codec, menu: Menu)
      ensures Valid() && State() == NewHandler(codec, menu)
    {
      this.codec, this.menu := codec, menu;
      streams, lastOutgoing, lastIncoming, failed := map[], [], 0, [];
    }

    method OnOpen(n: nat)
      requires Valid()
      modifies this
      ensures Valid() && State() == Open(old(State()), n)
    {
      streams := streams[Outgoing(n) := NewOutgoing(codec, true)];
    }

    method OnSend(id: StreamId, bytes: seq<Byte>)
      requires Valid()
      modifies this
      ensures Valid() && State() == SendTo(old(State()), id, bytes)
    {
      if id in streams {
        streams := streams[id := AddTo(streams[id], bytes)];
      } else if id.Outgoing? {
        lastOutgoing := lastOutgoing + [id.number];
        var stream := AddTo(NewOutgoing(codec, false), bytes);
        streams := streams[id := stream];
      }
    }

    method AddStream(incoming: bool)
      requires Valid()
      modifies this
      ensures Valid()
      ensures State() == if incoming then AddInbound(old(State())) else AddOutbound(old(State()))
    {
      if incoming {
        var id := lastIncoming;
        lastIncoming := Wrap32(lastIncoming + 1);
        streams := streams[Incoming(id) := NewIncoming(codec, menu).(opening := Negotiated)];
      } else if lastOutgoing != [] {
        var id := Outgoing(lastOutgoing[0]);
        lastOutgoing := lastOutgoing[1..];
        if id in streams {
          streams := streams[id := streams[id].(opening := Negotiated)];
        }
      }
    }

    method ClearFailed()
      modifies this`streams, this`failed
      ensures State() == RemoveFailed(old(State()))
    {
      var i := 0;
      while i < |failed|
        invariant i <= |failed| && failed == old(failed)
        invariant streams == Without(old(streams), failed[..i])
      {
        WithoutOneMore(old(streams), failed, i);
        streams := streams - {failed[i]};
        i := i + 1;
      }
      assert failed[..i] == failed;
      failed := [];
    }

    method Poll(order: seq<StreamId>, scripts: map<StreamId, Script>) returns (answer: Answer)
      requires Valid() && Distinct(order)
      modifies this
      ensures Valid()
      ensures (answer, State()) == PollAll(old(State()), order, scripts)
    {
      hide PollOnce, HasRoom, Distinct, Visit, AliveIn;
      ClearFailed();
      ghost var start := State();
      RemovedAreAlive(old(State()), order);
      VisitKeepsOrderly(start, order, scripts);
      var i := 0;
      assert order[0..] == order;
      while i < |order|
        invariant i <= |order|
        invariant AliveIn(State(), order[i..]) && Distinct(order[i..])
        invariant Visit(start, order, scripts) == Visit(State(), order[i..], scripts)
      {
        var id := order[i];
        VisitOne(State(), order, i, scripts);
        i := i + 1;
        if id in streams {
          var (event, s) := PollOnce(id, streams[id], if id in scripts then scripts[id] else Script([], []));
          streams := streams[id := s];
          match event {
            case StreamPending =>
            case Request(n) =>
              lastOutgoing := lastOutgoing + [n];
              return OutboundRequest(n);
            case Event(received) =>
              return Custom(id, received);
            case Failed =>
              failed := failed + [id];
            case Panicked =>
              return HandlerPanicked;
            case Spins =>
              return HandlerSpins;
          }
        }
      }
      VisitNone(State(), order[i..], scripts);
      return HandlerPending;
    }
  }
}

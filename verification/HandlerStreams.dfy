/**
 The streams of a handler over its whole life: each is one end of a stream in its own right, under an id
 of its own, and what the handler hands out under the id is what that end has met for its caller.
 */
module HandlerStreams {
  import opened Bytes
  import opened Addresses
  import opened Frames
  import opened Buffers
  import opened Send
  import opened Inners
  import opened Endpoints
  import opened Substreams
  import opened Streams
  import opened Handlers

  /**
   A connection with its history: for every id, what was handed out since a stream was last put under it
   and whether that stream was opened by command; the ids put in line for a substream; how many inbound
   substreams came; and whether a poll panicked.
   */
  datatype Watched = Watched(
    c: Connection,
    handed: map<StreamId, seq<Received>>,
    asks: map<StreamId, bool>,
    waited: seq<nat>,
    arrived: nat,
    crashed: bool)

  function NewWatched(codec: Codec, menu: Menu): Watched {
    Watched(NewConnection(codec, menu), map[], map[], [], 0, false)
  }

  /** A stream was put under the id. */
  function Begin(w: Watched, c: Connection, id: StreamId, asks: bool): Watched {
    w.(c := c, handed := w.handed[id := []], asks := w.asks[id := asks])
  }

  function HandedTo(w: Watched, id: StreamId): seq<Received> {
    if id in w.handed then w.handed[id] else []
  }

  /** An event, with the numbers of inbound substreams counted and the answers of polls noted. */
  function Watch(w: Watched, event: HandlerEvent): (after: Watched)
    requires Orderly(w.c) && CanHappen(w.c, event)
    ensures Orderly(after.c)
  {
    var c := Happen(w.c, event);
    match event
    case OpenCommand(n) => Begin(w, c, Outgoing(n), true)
    case SendCommand(id, _) =>
      if id.Outgoing? && id !in w.c.handler.streams then
        Begin(w, c, id, false).(waited := w.waited + [id.number])
      else
        w.(c := c)
    case NegotiatedInbound => Begin(w, c, Incoming(w.arrived % U32), false).(arrived := w.arrived + 1)
    case NegotiatedOutbound => w.(c := c)
    case NegotiationFailed => w.(c := c)
    case Polled(order, scripts) =>
      match PollAll(w.c.handler, order, scripts).0
      case Custom(id, received) => w.(c := c, handed := w.handed[id := HandedTo(w, id) + [received]])
      case OutboundRequest(n) => w.(c := c, waited := w.waited + [n])
      case HandlerPanicked => w.(c := c, crashed := true)
      case HandlerSpins => w.(c := c, crashed := true)
      case _ => w.(c := c)
  }

  function WatchAll(w: Watched, events: seq<HandlerEvent>): Watched
    requires Orderly(w.c) && CanRun(w.c, events)
    decreases |events|
  {
    if events == [] then w else WatchAll(Watch(w, events[0]), events[1..])
  }

  /** What the end of a stream is set up with: the handler's own menu on inbound streams, none on others. */
  function ConfigFor(w: Watched, id: StreamId): Config {
    Config(w.c.handler.codec, if id.Incoming? then w.c.handler.menu else [], id in w.asks && w.asks[id])
  }

  /** What an end can come to by queueing messages and being polled. */
  ghost predicate Reachable(e: End, config: Config, outgoing: bool) {
    exists actions :: CanDoAll(NewEnd(config, outgoing), actions) && e == DoAll(NewEnd(config, outgoing), actions)
  }

  /** The stream is such an end, and what was handed out under its id is what the end has answered with. */
  ghost predicate IsEnd(w: Watched, id: StreamId, e: End)
    requires id in w.c.handler.streams
  {
    && Reachable(e, ConfigFor(w, id), id.Outgoing?)
    && e.inner == w.c.handler.streams[id].inner
    && (e.over ==> w.c.handler.streams[id].dead)
    && e.handed == HandedTo(w, id)
  }

  /** Everyone put in line for a substream was handed one, in order, or is still in line. */
  predicate InLine(w: Watched) {
    w.waited == w.c.landed + w.c.handler.lastOutgoing
  }

  /** Inbound streams are numbered by arrival, in 32 bits; a number is new as long as these suffice. */
  ghost predicate ByArrival(w: Watched) {
    && w.c.handler.lastIncoming == w.arrived % U32
    && (w.arrived <= U32 ==> forall j: nat :: Incoming(j) in w.c.handler.streams ==> j < w.arrived)
  }

  ghost predicate AllEnds(w: Watched) {
    w.crashed || forall id :: id in w.c.handler.streams ==> exists e :: IsEnd(w, id, e)
  }

  lemma {:induction false} DoOneMore(e: End, actions: seq<Action>, action: Action)
    requires |e.inner.buffer.data| < e.inner.buffer.cap && e.outputs != []
    requires CanDoAll(e, actions) && CanDo(DoAll(e, actions), action)
    ensures CanDoAll(e, actions + [action])
    ensures DoAll(e, actions + [action]) == Do(DoAll(e, actions), action)
    decreases |actions|
  {
    hide CanDo;
    if actions == [] {
      assert actions + [action] == [action] && [action][1..] == [];
    } else {
      hide Do;
      assert (actions + [action])[1..] == actions[1..] + [action];
      DoOneMore(Do(e, actions[0]), actions[1..], action);
    }
  }

  lemma ReachableTracks(e: End, config: Config, outgoing: bool)
    requires Reachable(e, config, outgoing)
    ensures Tracks(e) && (e.over || Reads(e)) && e.outgoing == outgoing
  {
    hide Tracks, Reads, CanDoAll, DoAll;
    var actions :| CanDoAll(NewEnd(config, outgoing), actions) && e == DoAll(NewEnd(config, outgoing), actions);
    TracksAtStart(config, outgoing);
    ReadsAtStart(config, outgoing);
    RunKeepsTracks(NewEnd(config, outgoing), actions);
    StaysOutgoing(NewEnd(config, outgoing), actions);
  }

  lemma ReachableMore(e: End, config: Config, outgoing: bool, action: Action)
    requires Reachable(e, config, outgoing) && |e.inner.buffer.data| < e.inner.buffer.cap && e.outputs != []
    requires CanDo(e, action)
    ensures Reachable(Do(e, action), config, outgoing)
  {
    hide Tracks, Reads, CanDoAll, DoAll, Do, CanDo;
    var actions :| CanDoAll(NewEnd(config, outgoing), actions) && e == DoAll(NewEnd(config, outgoing), actions);
    DoOneMore(NewEnd(config, outgoing), actions, action);
  }

  lemma ReachableNew(config: Config, outgoing: bool)
    ensures Reachable(NewEnd(config, outgoing), config, outgoing)
  {
    assert CanDoAll(NewEnd(config, outgoing), []);
  }

  /** What a poll of a handler tells of one of its streams, by what a poll of the stream alone gives. */
  ghost predicate Told(id: StreamId, before: StreamState, script: Script, answer: Answer, after: HandlerState)
    requires HasRoom(before) && !before.dead
  {
    var (event, s) := PollOnce(id, before, script);
    && id in after.streams && after.streams[id] == s
    && (event.Event? <==> answer.Custom? && answer.id == id)
    && (event.Event? ==> answer == Custom(id, event.received))
    && (event.Panicked? ==> answer == HandlerPanicked)
    && (event.Spins? ==> answer == HandlerSpins)
    && (event.Failed? ==> id in after.failed)
    && (event.Request? ==> answer == OutboundRequest(event.number))
  }

  function ScriptFor(id: StreamId, scripts: map<StreamId, Script>): Script {
    if id in scripts then scripts[id] else Script([], [])
  }

  lemma StaysListed(failed: seq<StreamId>, later: seq<StreamId>, k: nat)
    requires failed <= later && k < |failed|
    ensures failed[k] in later
  {
    assert later[k] == failed[k];
  }

  /** The poll of a handler has left the stream as it was, and answers nothing under its id. */
  ghost predicate Untouched(id: StreamId, before: StreamState, answer: Answer, after: HandlerState) {
    id in after.streams && after.streams[id] == before && !(answer.Custom? && answer.id == id)
  }

  /**
   A poll of a handler leaves each stream as it was, and answers nothing under its id, or polls it once
   and answers accordingly; if it has nothing to answer, it has polled all of them.
   */
  lemma {:induction false} VisitTells(h: HandlerState, order: seq<StreamId>, scripts: map<StreamId, Script>,
      id: StreamId)
    requires AliveIn(h, order) && Distinct(order) && id in h.streams
    ensures var (answer, after) := Visit(h, order, scripts);
            && h.failed <= after.failed
            && (|| (id in order && Told(id, h.streams[id], ScriptFor(id, scripts), answer, after))
                || (Untouched(id, h.streams[id], answer, after) && !(id in order && answer == HandlerPending)))
    decreases |order|
  {
    hide PollOnce, Visit, AliveIn, HasRoom, Told;
    if order == [] {
      VisitNone(h, order, scripts);
    } else {
      var first, rest, script := order[0], order[1..], ScriptFor(order[0], scripts);
      VisitOne(h, order, 0, scripts);
      assert order[0..] == order && order == [first] + rest;
      assert Distinct(order) ==> first !in rest;
      var (answer, later) := Visit(h, order, scripts);
      if first !in h.streams {
        VisitTells(h, rest, scripts, id);
      } else {
        var (event, s) := PollOnce(first, h.streams[first], script);
        var after := h.(streams := h.streams[first := s]);
        if event.StreamPending? {
          VisitTells(after, rest, scripts, id);
        } else if event.Failed? {
          var listed := after.(failed := after.failed + [first]);
          VisitTells(listed, rest, scripts, id);
          StaysListed(listed.failed, later.failed, |h.failed|);
        }
        if first == id {
          PolledIsTold(id, h.streams[id], script, answer, later);
        }
      }
    }
  }

  /** How a handler's poll goes on once it has polled the stream. */
  lemma PolledIsTold(id: StreamId, before: StreamState, script: Script, answer: Answer, after: HandlerState)
    requires HasRoom(before) && !before.dead
    requires var (event, s) := PollOnce(id, before, script);
             && id in after.streams && after.streams[id] == s
             && match event
                case StreamPending => !(answer.Custom? && answer.id == id)
                case Failed => !(answer.Custom? && answer.id == id) && id in after.failed
                case Request(n) => answer == OutboundRequest(n)
                case Event(received) => answer == Custom(id, received)
                case Panicked => answer == HandlerPanicked
                case Spins => answer == HandlerSpins
    ensures Told(id, before, script, answer, after)
  {
    hide PollOnce, HasRoom;
  }

  /** Polling a negotiated stream is polling the end. */
  lemma PollIsDo(id: StreamId, s: StreamState, script: Script, e: End)
    requires HasRoom(s) && !s.dead && s.opening.Negotiated?
    requires e.inner == s.inner && e.outputs != [] && e.outgoing == id.Outgoing? && WellQueued(s.inner.queue)
    ensures var (event, after) := PollOnce(id, s, script);
            var next := Do(e, Poll(script.incoming, script.outgoing));
            && next.inner == after.inner
            && next.handed == e.handed + (if event.Event? then [event.received] else [])
            && (next.over ==> event.Failed? || event.Panicked?)
            && (event.Failed? ==> after.dead)
  {
    hide PollInner, RepliesIn, WellQueued;
    Endpoints.PollConserves(s.inner, script.incoming, script.outgoing);
  }

  /** A stream that is not negotiated answers nothing but a request, and reads and writes nothing. */
  lemma NotPolledYet(id: StreamId, s: StreamState, script: Script)
    requires HasRoom(s) && !s.dead && !s.opening.Negotiated?
    ensures var (event, after) := PollOnce(id, s, script);
            after.inner == s.inner && (event.StreamPending? || event.Request?) && !after.dead
  {
  }

  /** The end is the same end when neither the stream nor what was handed out changes. */
  lemma StillEnd(w: Watched, after: Watched, id: StreamId, e: End)
    requires id in w.c.handler.streams && IsEnd(w, id, e) && id in after.c.handler.streams
    requires after.c.handler.streams[id].inner == w.c.handler.streams[id].inner
    requires w.c.handler.streams[id].dead ==> after.c.handler.streams[id].dead
    requires HandedTo(after, id) == HandedTo(w, id) && ConfigFor(after, id) == ConfigFor(w, id)
    ensures IsEnd(after, id, e)
  {
    hide Reachable;
  }

  lemma NewIsEnd(w: Watched, id: StreamId)
    requires id in w.c.handler.streams && !w.c.handler.streams[id].dead && HandedTo(w, id) == []
    requires w.c.handler.streams[id].inner == NewInner(ConfigFor(w, id))
    ensures IsEnd(w, id, NewEnd(ConfigFor(w, id), id.Outgoing?))
  {
    hide Reachable, NewInner, FirstFrames;
    ReachableNew(ConfigFor(w, id), id.Outgoing?);
  }

  /** What is noted of a poll. */
  lemma PollNoted(w: Watched, order: seq<StreamId>, scripts: map<StreamId, Script>, id: StreamId)
    requires Orderly(w.c) && Distinct(order)
    ensures AliveIn(RemoveFailed(w.c.handler), order)
    ensures var after := Watch(w, Polled(order, scripts));
            var (answer, h) := Visit(RemoveFailed(w.c.handler), order, scripts);
            && after.c.handler == h && h.streams.Keys == RemoveFailed(w.c.handler).streams.Keys
            && h.lastIncoming == w.c.handler.lastIncoming && after.arrived == w.arrived
            && ConfigFor(after, id) == ConfigFor(w, id)
            && HandedTo(after, id)
               == HandedTo(w, id) + (if answer.Custom? && answer.id == id then [answer.received] else [])
            && (after.crashed <==> w.crashed || answer.HandlerPanicked? || answer.HandlerSpins?)
  {
    hide Visit, Happen, PollAll, Pollable, DeadAreListed, AliveIn;
    PollHappens(w.c, order, scripts);
    PollAnswered(w, order, scripts, id);
  }

  lemma PollHappens(c: Connection, order: seq<StreamId>, scripts: map<StreamId, Script>)
    requires Orderly(c) && Distinct(order)
    ensures AliveIn(RemoveFailed(c.handler), order)
    ensures var after, (answer, h) := Happen(c, Polled(order, scripts)), Visit(RemoveFailed(c.handler), order, scripts);
            && PollAll(c.handler, order, scripts) == (answer, h) && after.handler == h && after.landed == c.landed
            && h.streams.Keys == RemoveFailed(c.handler).streams.Keys && h.lastIncoming == c.handler.lastIncoming
            && h.codec == c.handler.codec && h.menu == c.handler.menu
            && h.lastOutgoing == c.handler.lastOutgoing + if answer.OutboundRequest? then [answer.number] else []
  {
    hide Visit, Pollable, DeadAreListed, AliveIn;
    RemovedAreAlive(c.handler, order);
    VisitFrame(RemoveFailed(c.handler), order, scripts);
    VisitLine(RemoveFailed(c.handler), order, scripts);
  }

  lemma PollAnswered(w: Watched, order: seq<StreamId>, scripts: map<StreamId, Script>, id: StreamId)
    requires Orderly(w.c) && Distinct(order)
    ensures var after, answer := Watch(w, Polled(order, scripts)), PollAll(w.c.handler, order, scripts).0;
            && after.c == Happen(w.c, Polled(order, scripts)) && after.arrived == w.arrived && after.asks == w.asks
            && HandedTo(after, id)
               == HandedTo(w, id) + (if answer.Custom? && answer.id == id then [answer.received] else [])
            && (after.crashed <==> w.crashed || answer.HandlerPanicked? || answer.HandlerSpins?)
            && after.waited == w.waited + if answer.OutboundRequest? then [answer.number] else []
  {
    hide Happen, PollAll;
  }

  /** What the stream's end becomes when the handler's poll has polled it. */
  lemma ToldEnd(w: Watched, after: Watched, id: StreamId, script: Script, answer: Answer, e: End)
    requires id in w.c.handler.streams && IsEnd(w, id, e)
    requires var s := w.c.handler.streams[id];
             !s.dead && HasRoom(s) && Told(id, s, script, answer, after.c.handler)
    requires ConfigFor(after, id) == ConfigFor(w, id)
    requires HandedTo(after, id)
          == HandedTo(w, id) + (if answer.Custom? && answer.id == id then [answer.received] else [])
    requires answer.HandlerPanicked? ==> after.crashed
    ensures after.crashed || exists next :: IsEnd(after, id, next)
  {
    hide PollOnce, HasRoom, Reachable, CanDo, Tracks, Reads, ConfigFor, HandedTo, Do;
    var s, config := w.c.handler.streams[id], ConfigFor(w, id);
    ReachableTracks(e, config, id.Outgoing?);
    TracksLive(e);
    if s.opening.Negotiated? {
      PollIsDo(id, s, script, e);
      var action := Poll(script.incoming, script.outgoing);
      PollCanBeDone(e, action);
      ReachableMore(e, config, id.Outgoing?, action);
      if !after.crashed {
        assert IsEnd(after, id, Do(e, action));
      }
    } else {
      NotPolledYet(id, s, script);
      assert HandedTo(w, id) + [] == HandedTo(w, id);
      StillEnd(w, after, id, e);
    }
  }

  lemma TracksLive(e: End)
    requires Tracks(e)
    ensures WellQueued(e.inner.queue) && |e.inner.buffer.data| < e.inner.buffer.cap && e.outputs != []
  {
  }

  lemma PollCanBeDone(e: End, action: Action)
    requires action.Poll? && !e.over
    ensures CanDo(e, action)
  {
  }

  /** Whatever a handler's poll tells of a stream, the end lives on; it is gone if it was listed for removal. */
  lemma PollKeepsEnd(w: Watched, order: seq<StreamId>, scripts: map<StreamId, Script>, id: StreamId, e: End)
    requires Orderly(w.c) && Distinct(order) && id in w.c.handler.streams && IsEnd(w, id, e)
    ensures var after := Watch(w, Polled(order, scripts));
            && (id in after.c.handler.streams <==> id !in w.c.handler.failed)
            && (id in after.c.handler.streams && !after.crashed ==> exists next :: IsEnd(after, id, next))
  {
    hide Visit, PollOnce, HasRoom, IsEnd, Told, Watch, HandedTo, ConfigFor;
    var h, after, removed := w.c.handler, Watch(w, Polled(order, scripts)), RemoveFailed(w.c.handler);
    PollNoted(w, order, scripts, id);
    if id !in h.failed {
      VisitTells(removed, order, scripts, id);
      var (answer, later) := Visit(removed, order, scripts);
      if Untouched(id, h.streams[id], answer, later) {
        assert HandedTo(w, id) + [] == HandedTo(w, id);
        StillEnd(w, after, id, e);
      } else {
        ToldEnd(w, after, id, ScriptFor(id, scripts), answer, e);
      }
    }
  }

  /**
   What happens to a stream: nothing, unless it is sent to, handed a substream, polled, or replaced by a
   stream newly opened under its id; and it leaves the table only when it is listed for removal.
   */
  lemma OnlyAddressedChange(c: Connection, event: HandlerEvent, id: StreamId)
    requires Orderly(c) && CanHappen(c, event) && id in c.handler.streams
    ensures var s, after := c.handler.streams[id], Happen(c, event).handler;
            match event
            case OpenCommand(n) => id in after.streams && (id != Outgoing(n) ==> after.streams[id] == s)
            case SendCommand(to, bytes) =>
              && id in after.streams
              && after.streams[id]
                 == if id == to then s.(inner := s.inner.(queue := s.inner.queue + [Message(0, bytes)])) else s
            case NegotiatedInbound =>
              && id in after.streams
              && (id != Incoming(c.handler.lastIncoming) ==> after.streams[id] == s)
            case NegotiatedOutbound =>
              && id in after.streams
              && after.streams[id]
                 == if c.handler.lastOutgoing != [] && id == Outgoing(c.handler.lastOutgoing[0])
                    then s.(opening := Negotiated) else s
            case NegotiationFailed => after == c.handler
            case Polled(order, scripts) =>
              && (id in after.streams <==> id !in c.handler.failed)
              && (id in after.streams ==>
                    && HasRoom(s) && !s.dead
                    && (after.streams[id] == s
                        || (id in order && after.streams[id] == PollOnce(id, s, ScriptFor(id, scripts)).1)))
  {
    hide Visit, PollOnce, HasRoom, NewInner;
    if event.Polled? {
      var removed := RemoveFailed(c.handler);
      RemovedAreAlive(c.handler, event.order);
      VisitFrame(removed, event.order, event.scripts);
      if id !in c.handler.failed {
        VisitTells(removed, event.order, event.scripts, id);
      }
    }
  }

  lemma SetupStays(c: Connection, event: HandlerEvent)
    requires Orderly(c) && CanHappen(c, event)
    ensures var after := Happen(c, event).handler; after.codec == c.handler.codec && after.menu == c.handler.menu
  {
    hide Visit, HasRoom, NewInner;
    if event.Polled? {
      RemovedAreAlive(c.handler, event.order);
      VisitFrame(RemoveFailed(c.handler), event.order, event.scripts);
    }
  }

  /** A stream that nothing is sent to, and that is not polled or replaced, is still the same end. */
  lemma OthersKeepEnd(w: Watched, event: HandlerEvent, id: StreamId, e: End)
    requires Orderly(w.c) && CanHappen(w.c, event) && !event.Polled? && ByArrival(w)
    requires id in w.c.handler.streams && IsEnd(w, id, e)
    requires event != OpenCommand(if id.Outgoing? then id.number else 0) || id.Incoming?
    requires !(event.SendCommand? && event.id == id)
    requires !(event.NegotiatedInbound? && id == Incoming(w.arrived % U32))
    ensures id in Watch(w, event).c.handler.streams && IsEnd(Watch(w, event), id, e)
  {
    hide Happen, Watch, IsEnd, HasRoom, PollAll, Orderly, CanHappen;
    SetupStays(w.c, event);
    OnlyAddressedChange(w.c, event, id);
    OthersNoted(w, event, id);
    StillEnd(w, Watch(w, event), id, e);
  }

  lemma OthersNoted(w: Watched, event: HandlerEvent, id: StreamId)
    requires Orderly(w.c) && CanHappen(w.c, event) && !event.Polled?
    requires event != OpenCommand(if id.Outgoing? then id.number else 0) || id.Incoming?
    requires !(event.SendCommand? && event.id == id)
    requires !(event.NegotiatedInbound? && id == Incoming(w.arrived % U32))
    ensures var after := Watch(w, event);
            && after.c == Happen(w.c, event) && HandedTo(after, id) == HandedTo(w, id)
            && (id in after.asks <==> id in w.asks) && (id in w.asks ==> after.asks[id] == w.asks[id])
  {
    hide Happen, PollAll;
  }

  /** A message queued on a stream is queued on the end. */
  lemma AddKeepsEnd(w: Watched, after: Watched, id: StreamId, e: End, bytes: seq<Byte>)
    requires id in w.c.handler.streams && IsEnd(w, id, e) && bytes != [] && id in after.c.handler.streams
    requires after.c.handler.streams[id] == AddTo(w.c.handler.streams[id], bytes)
    requires HandedTo(after, id) == HandedTo(w, id) && ConfigFor(after, id) == ConfigFor(w, id)
    ensures |e.inner.buffer.data| < e.inner.buffer.cap && e.outputs != []
    ensures IsEnd(after, id, Do(e, Add(bytes)))
  {
    hide Reachable, Tracks, Reads;
    var config := ConfigFor(w, id);
    ReachableTracks(e, config, id.Outgoing?);
    TracksLive(e);
    ReachableMore(e, config, id.Outgoing?, Add(bytes));
  }

  /** Numbers of inbound substreams stay right, and what is put under a new number is a fresh stream. */
  lemma NumbersStay(w: Watched, event: HandlerEvent)
    requires Orderly(w.c) && CanHappen(w.c, event) && ByArrival(w)
    ensures ByArrival(Watch(w, event))
  {
    hide Visit, HasRoom, NewInner, ConfigFor, HandedTo;
    if event.Polled? {
      PollNoted(w, event.order, event.scripts, Incoming(0));
      hide Watch;
    }
  }

  lemma LineStays(w: Watched, event: HandlerEvent)
    requires Orderly(w.c) && CanHappen(w.c, event) && InLine(w)
    ensures InLine(Watch(w, event))
  {
    if event.Polled? {
      hide Happen, Watch, PollAll, Visit, Orderly;
      PollHappens(w.c, event.order, event.scripts);
      PollAnswered(w, event.order, event.scripts, Incoming(0));
    } else {
      hide Happen, Watch, Orderly;
      HappenLine(w.c, event);
      WaitedNoted(w, event);
    }
  }

  /** Whom an event, other than a poll, puts in line. */
  function PutInLine(c: Connection, event: HandlerEvent): seq<nat> {
    if event.SendCommand? && event.id.Outgoing? && event.id !in c.handler.streams then [event.id.number] else []
  }

  lemma HappenLine(c: Connection, event: HandlerEvent)
    requires Orderly(c) && CanHappen(c, event) && !event.Polled?
    ensures var after := Happen(c, event);
            after.landed + after.handler.lastOutgoing == c.landed + c.handler.lastOutgoing + PutInLine(c, event)
  {
    hide PollAll, Pollable, DeadAreListed, NewInner;
    if event.NegotiatedOutbound? && c.handler.lastOutgoing != [] {
      assert c.handler.lastOutgoing == [c.handler.lastOutgoing[0]] + c.handler.lastOutgoing[1..];
    }
  }

  lemma WaitedNoted(w: Watched, event: HandlerEvent)
    requires Orderly(w.c) && CanHappen(w.c, event) && !event.Polled?
    ensures Watch(w, event).waited == w.waited + PutInLine(w.c, event) && Watch(w, event).c == Happen(w.c, event)
  {
    hide Happen, PollAll;
  }

  /** A poll puts in line the stream it requests a substream for, and no other. */
  lemma {:induction false} VisitLine(h: HandlerState, order: seq<StreamId>, scripts: map<StreamId, Script>)
    requires AliveIn(h, order) && Distinct(order)
    ensures var (answer, after) := Visit(h, order, scripts);
            after.lastOutgoing == h.lastOutgoing + if answer.OutboundRequest? then [answer.number] else []
    decreases |order|
  {
    hide PollOnce, HasRoom, Visit, AliveIn;
    if order == [] {
      VisitNone(h, order, scripts);
    } else {
      var first, rest := order[0], order[1..];
      VisitOne(h, order, 0, scripts);
      assert order[0..] == order;
      if first !in h.streams {
        VisitLine(h, rest, scripts);
      } else {
        var (event, s) := PollOnce(first, h.streams[first], ScriptFor(first, scripts));
        var after := h.(streams := h.streams[first := s]);
        if event.StreamPending? {
          VisitLine(after, rest, scripts);
        } else if event.Failed? {
          VisitLine(after.(failed := after.failed + [first]), rest, scripts);
        }
      }
    }
  }

  /** A new stream is a new end. */
  lemma BegunIsEnd(w: Watched, event: HandlerEvent, id: StreamId) returns (e: End)
    requires Orderly(w.c) && CanHappen(w.c, event) && ByArrival(w) && SendsSomething(event)
    requires || (event.OpenCommand? && id == Outgoing(event.number))
             || (event.NegotiatedInbound? && id == Incoming(w.arrived % U32))
             || (event.SendCommand? && id.Outgoing? && event.id == id && id !in w.c.handler.streams)
    ensures id in Watch(w, event).c.handler.streams && IsEnd(Watch(w, event), id, e)
  {
    hide Reachable, HasRoom, NewInner, Visit;
    var after := Watch(w, event);
    if event.SendCommand? {
      var h := w.c.handler.(streams := w.c.handler.streams[id := NewOutgoing(w.c.handler.codec, false)]);
      var before := after.(c := after.c.(handler := h));
      NewIsEnd(before, id);
      AddKeepsEnd(before, after, id, NewEnd(ConfigFor(before, id), true), event.bytes);
      e := Do(NewEnd(ConfigFor(before, id), true), Add(event.bytes));
    } else {
      NewIsEnd(after, id);
      e := NewEnd(ConfigFor(after, id), id.Outgoing?);
    }
  }

  lemma KeepsEnds(w: Watched, event: HandlerEvent, id: StreamId)
    requires Orderly(w.c) && CanHappen(w.c, event) && ByArrival(w) && AllEnds(w) && SendsSomething(event)
    requires id in Watch(w, event).c.handler.streams && !Watch(w, event).crashed
    ensures exists e :: IsEnd(Watch(w, event), id, e)
  {
    hide IsEnd, HasRoom, NewInner, Visit, HandedTo, ConfigFor;
    var after := Watch(w, event);
    if || (event.OpenCommand? && id == Outgoing(event.number))
       || (event.NegotiatedInbound? && id == Incoming(w.arrived % U32))
       || (event.SendCommand? && id.Outgoing? && event.id == id && id !in w.c.handler.streams)
    {
      var e := BegunIsEnd(w, event, id);
    } else if event.Polled? {
      PollNoted(w, event.order, event.scripts, id);
      var e :| IsEnd(w, id, e);
      PollKeepsEnd(w, event.order, event.scripts, id, e);
    } else {
      var e :| IsEnd(w, id, e);
      if event.SendCommand? && event.id == id {
        OnlyAddressedChange(w.c, event, id);
        SentKeepsEnd(w, event, id, e);
      } else {
        OthersKeepEnd(w, event, id, e);
      }
    }
  }

  lemma SentKeepsEnd(w: Watched, event: HandlerEvent, id: StreamId, e: End)
    requires Orderly(w.c) && CanHappen(w.c, event) && event.SendCommand? && event.id == id && event.bytes != []
    requires id in w.c.handler.streams && IsEnd(w, id, e)
    ensures id in Watch(w, event).c.handler.streams && exists next :: IsEnd(Watch(w, event), id, next)
  {
    hide Reachable, HasRoom, NewInner;
    AddKeepsEnd(w, Watch(w, event), id, e, event.bytes);
    assert IsEnd(Watch(w, event), id, Do(e, Add(event.bytes)));
  }

  /**
   Over every run of a handler, until a poll panics: each of its streams is one end of a stream, set up with the
   handler's own menu if inbound, and asking for the peer's exactly if it was opened by command; and what
   was handed out under its id since is what the end's polls have answered with, hence what the items it
   has met have for the caller.  Inbound streams are numbered by arrival, and substreams handed out in line.
   */
  lemma {:induction false} StreamsAreEnds(w: Watched, events: seq<HandlerEvent>)
    requires Orderly(w.c) && CanRun(w.c, events) && ByArrival(w) && AllEnds(w)
    requires forall event :: event in events ==> SendsSomething(event)
    ensures ByArrival(WatchAll(w, events)) && AllEnds(WatchAll(w, events))
    ensures InLine(w) ==> InLine(WatchAll(w, events))
    decreases |events|
  {
    hide Watch, CanHappen, IsEnd, ByArrival, InLine, SendsSomething;
    if events != [] {
      assert events[0] in events && forall event :: event in events[1..] ==> event in events;
      var next := Watch(w, events[0]);
      NumbersStay(w, events[0]);
      if InLine(w) {
        LineStays(w, events[0]);
      }
      if !next.crashed {
        forall id | id in next.c.handler.streams
          ensures exists e :: IsEnd(next, id, e)
        {
          KeepsEnds(w, events[0], id);
        }
      }
      WatchedHappens(w, events[0]);
      StreamsAreEnds(next, events[1..]);
    }
  }

  lemma WatchedHappens(w: Watched, event: HandlerEvent)
    requires Orderly(w.c) && CanHappen(w.c, event)
    ensures Watch(w, event).c == Happen(w.c, event)
  {
    hide Happen, PollAll;
  }

  /** How many inbound substreams came. */
  function Arrivals(events: seq<HandlerEvent>): nat {
    if events == [] then 0 else (if events[0].NegotiatedInbound? then 1 else 0) + Arrivals(events[1..])
  }

  lemma {:induction false} ArrivalsNoted(w: Watched, events: seq<HandlerEvent>)
    requires Orderly(w.c) && CanRun(w.c, events)
    ensures WatchAll(w, events).arrived == w.arrived + Arrivals(events)
    ensures WatchAll(w, events).c == RunAll(w.c, events)
    decreases |events|
  {
    hide Watch, CanHappen, Happen;
    if events != [] {
      WatchedHappens(w, events[0]);
      ArrivalNoted(w, events[0]);
      ArrivalsNoted(Watch(w, events[0]), events[1..]);
    }
  }

  lemma ArrivalNoted(w: Watched, event: HandlerEvent)
    requires Orderly(w.c) && CanHappen(w.c, event)
    ensures Watch(w, event).arrived == w.arrived + if event.NegotiatedInbound? then 1 else 0
  {
    hide Happen, PollAll;
  }

  lemma StartIsRight(codec: Codec, menu: Menu)
    ensures ByArrival(NewWatched(codec, menu)) && AllEnds(NewWatched(codec, menu)) && InLine(NewWatched(codec, menu))
    ensures Orderly(NewConnection(codec, menu))
  {
  }

  /**
   From a new handler on, and until a poll panics: every stream is an end, and was handed on what that
   end has met for the caller on all its substreams.
   */
  lemma HandedOutIsMet(codec: Codec, menu: Menu, events: seq<HandlerEvent>)
    requires CanRun(NewConnection(codec, menu), events)
    requires forall event :: event in events ==> SendsSomething(event)
    ensures var w := WatchAll(NewWatched(codec, menu), events);
            && w.c == RunAll(NewConnection(codec, menu), events) && InLine(w)
            && (w.crashed || forall id :: id in w.c.handler.streams ==>
                               exists e :: IsEnd(w, id, e) && HandedTo(w, id) == HandedOn(e.past + e.items))
  {
    hide WatchAll, RunAll, CanRun, Tracks, Reads, Reachable, HandedTo, ConfigFor;
    var w := WatchAll(NewWatched(codec, menu), events);
    StreamsAreEnds(NewWatched(codec, menu), events);
    ArrivalsNoted(NewWatched(codec, menu), events);
    if !w.crashed {
      forall id | id in w.c.handler.streams
        ensures exists e :: IsEnd(w, id, e) && HandedTo(w, id) == HandedOn(e.past + e.items)
      {
        var e :| IsEnd(w, id, e);
        ReachableTracks(e, ConfigFor(w, id), id.Outgoing?);
        TracksHanded(e);
      }
    }
  }

  lemma TracksHanded(e: End)
    requires Tracks(e)
    ensures e.handed == HandedOn(e.past + e.items)
  {
  }

  /**
   After any run from a new handler, the next inbound substream gets the number of those that came
   before, in 32 bits; while these suffice no stream has that number, and no other stream is touched.  It
   begins negotiated, with the handshake queued, with the handler's menu, and without asking for one.
   */
  lemma NextInbound(codec: Codec, menu: Menu, events: seq<HandlerEvent>)
    requires CanRun(NewConnection(codec, menu), events)
    requires forall event :: event in events ==> SendsSomething(event)
    ensures var c, id := RunAll(NewConnection(codec, menu), events), Incoming(Arrivals(events) % U32);
            && Orderly(c)
            && (Arrivals(events) < U32 ==> id !in c.handler.streams)
            && var after := Happen(c, NegotiatedInbound).handler.streams;
               && id in after
               && after[id].opening == Negotiated && !after[id].dead
               && after[id].inner
                  == InnerState(Config(codec, menu, false), [Message(0, HANDSHAKE_FRAME)], BufferState([], 0x1000))
               && after.Keys == c.handler.streams.Keys + {id}
               && (forall other :: other in c.handler.streams && other != id ==>
                     after[other] == c.handler.streams[other])
  {
    hide WatchAll, RunAll, CanRun, AllEnds, Pollable, DeadAreListed, HasRoom;
    StartIsRight(codec, menu);
    NoDeadVisited(NewConnection(codec, menu), events, []);
    StreamsAreEnds(NewWatched(codec, menu), events);
    ArrivalsNoted(NewWatched(codec, menu), events);
    SetupStaysInRun(NewConnection(codec, menu), events);
  }

  /**
   What a command puts into the table: a stream yet to be requested, with the handshake queued and, if it was
   opened by command, the query for the peer's menu; if by sending, the message behind the handshake.
   */
  lemma NewOutbound(c: Connection, n: nat, bytes: seq<Byte>)
    requires Orderly(c)
    ensures CanHappen(c, OpenCommand(n)) && CanHappen(c, SendCommand(Outgoing(n), bytes))
    ensures var s := Happen(c, OpenCommand(n)).handler.streams;
            var codec := c.handler.codec;
            && Outgoing(n) in s && s[Outgoing(n)].opening == Unopened && !s[Outgoing(n)].dead
            && s[Outgoing(n)].inner
               == InnerState(Config(codec, [], true),
                             [Message(0, HANDSHAKE_FRAME), Message(0, FrameOf(codec.menuQuery))],
                             BufferState([], 0x1000))
    ensures var s := Happen(c, SendCommand(Outgoing(n), bytes)).handler.streams;
            Outgoing(n) !in c.handler.streams ==>
              && Outgoing(n) in s && s[Outgoing(n)].opening == Unopened && !s[Outgoing(n)].dead
              && s[Outgoing(n)].inner
                 == InnerState(Config(c.handler.codec, [], false), [Message(0, HANDSHAKE_FRAME), Message(0, bytes)],
                               BufferState([], 0x1000))
  {
    hide HasRoom, HANDSHAKE_FRAME, FrameOf;
  }

  lemma {:induction false} SetupStaysInRun(c: Connection, events: seq<HandlerEvent>)
    requires Orderly(c) && CanRun(c, events)
    ensures var h := RunAll(c, events).handler; h.codec == c.handler.codec && h.menu == c.handler.menu
    decreases |events|
  {
    hide Happen, CanHappen;
    if events != [] {
      SetupStays(c, events[0]);
      SetupStaysInRun(Happen(c, events[0]), events[1..]);
    }
  }
}

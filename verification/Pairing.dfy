/**
 Which stream a negotiated outbound substream goes to: exactly when the queue of waiting streams stays
 right, and what an implicitly opened stream does to it.
 */
module Pairing {
  import opened Bytes
  import opened Frames
  import opened Buffers
  import opened Receive
  import opened Send
  import opened Inners
  import opened Streams
  import opened Handlers

  lemma NoRepeatsGrows(ids: seq<nat>, n: nat)
    requires NoRepeats(ids) && n !in ids
    ensures NoRepeats(ids + [n])
  {
  }

  /** What a poll of one stream can do to its opening. */
  lemma PollOpening(id: StreamId, s: StreamState, script: Script)
    requires HasRoom(s) && !s.dead
    ensures var (event, after) := PollOnce(id, s, script);
            && (event.Request? ==> id == Outgoing(event.number) && !s.opening.Requested? && after.opening.Requested?)
            && (!event.Request? ==> after.opening == s.opening)
            && (event.Failed? ==> s.opening.Negotiated?)
  {
    hide PollInner;
  }

  /** Polling the streams adds to the queue the one stream that asks, if one does, and nothing else. */
  lemma {:induction false} VisitKeepsTable(h: HandlerState, order: seq<StreamId>, scripts: map<StreamId, Script>)
    requires AliveIn(h, order) && Distinct(order) && PairedTable(h)
    requires forall id :: id in order ==> id !in h.failed
    ensures var (answer, after) := Visit(h, order, scripts);
            && PairedTable(after)
            && after.lastOutgoing == h.lastOutgoing + if answer.OutboundRequest? then [answer.number] else []
    decreases |order|
  {
    hide PollOnce, HasRoom;
    if order != [] {
      assert Distinct(order[1..]);
      assert order[0] in order && forall id :: id in order[1..] ==> id in order && id != order[0];
      if order[0] !in h.streams {
        VisitKeepsTable(h, order[1..], scripts);
      } else {
        var id := order[0];
        var script := if id in scripts then scripts[id] else Script([], []);
        var (event, s) := PollOnce(id, h.streams[id], script);
        PollOpening(id, h.streams[id], script);
        var after := h.(streams := h.streams[id := s]);
        if event.Request? {
          TableAfterRequest(h, event.number, s);
        } else {
          TableAfterQuiet(h, id, s);
          if event.StreamPending? {
            VisitKeepsTable(after, order[1..], scripts);
          } else if event.Failed? {
            VisitKeepsTable(after.(failed := after.failed + [id]), order[1..], scripts);
          }
        }
      }
    }
  }

  lemma TableAfterRequest(h: HandlerState, n: nat, s: StreamState)
    requires PairedTable(h) && Outgoing(n) in h.streams
    requires !h.streams[Outgoing(n)].opening.Requested? && s.opening.Requested?
    requires Outgoing(n) !in h.failed
    ensures PairedTable(h.(streams := h.streams[Outgoing(n) := s], lastOutgoing := h.lastOutgoing + [n]))
  {
    var after := h.(streams := h.streams[Outgoing(n) := s], lastOutgoing := h.lastOutgoing + [n]);
    NoRepeatsGrows(h.lastOutgoing, n);
    assert forall m: nat :: m != n ==> (Waiting(after, m) <==> Waiting(h, m));
  }

  lemma TableAfterQuiet(h: HandlerState, id: StreamId, s: StreamState)
    requires PairedTable(h) && id in h.streams && s.opening == h.streams[id].opening
    ensures PairedTable(h.(streams := h.streams[id := s]))
    ensures !s.opening.Requested? ==> PairedTable(h.(streams := h.streams[id := s], failed := h.failed + [id]))
  {
    var after := h.(streams := h.streams[id := s]);
    assert forall m: nat :: Waiting(after, m) <==> Waiting(h, m);
    var listed := after.(failed := h.failed + [id]);
    assert forall m: nat :: Waiting(listed, m) <==> Waiting(h, m);
  }

  /** The events that leave the queue right, judged before they happen. */
  predicate KeepsPairing(c: Connection, event: HandlerEvent) {
    match event
    case OpenCommand(n) => !Waiting(c.handler, n)
    case SendCommand(id, bytes) => id.Incoming? || id in c.handler.streams
    case NegotiationFailed => false
    case _ => true
  }

  /**
   The pairing survives an event exactly when the event is none of these: opening a stream that waits
   already, sending to an outgoing stream that is missing, and a negotiation that fails.
   */
  lemma PairingExactly(c: Connection, event: HandlerEvent)
    requires Orderly(c) && Paired(c) && CanHappen(c, event)
    ensures Paired(Happen(c, event)) <==> KeepsPairing(c, event)
  {
    hide Visit, HasRoom, NewOutgoing, NewIncoming;
    match event
    case OpenCommand(n) => OpenExactly(c, n);
    case SendCommand(id, bytes) => SendExactly(c, id, bytes);
    case NegotiatedInbound => InboundKeeps(c);
    case NegotiatedOutbound => Lands(c);
    case NegotiationFailed =>
    case Polled(order, scripts) => PollKeeps(c, order, scripts);
  }

  lemma OpenExactly(c: Connection, n: nat)
    requires Orderly(c) && Paired(c)
    ensures Paired(Happen(c, OpenCommand(n))) <==> !Waiting(c.handler, n)
  {
    hide NewInner;
    var after := Open(c.handler, n);
    assert !Waiting(after, n);
    assert forall m: nat :: m != n ==> (Waiting(after, m) <==> Waiting(c.handler, m));
    assert n in c.handler.lastOutgoing <==> Waiting(c.handler, n);
  }

  lemma SendExactly(c: Connection, id: StreamId, bytes: seq<Byte>)
    requires Orderly(c) && Paired(c)
    ensures Paired(Happen(c, SendCommand(id, bytes))) <==> id.Incoming? || id in c.handler.streams
  {
    hide NewInner;
    var h, after := c.handler, SendTo(c.handler, id, bytes);
    if id in h.streams {
      TableAfterQuiet(h, id, AddTo(h.streams[id], bytes));
    } else if id.Outgoing? {
      assert id.number in after.lastOutgoing by { assert after.lastOutgoing[|h.lastOutgoing|] == id.number; }
      assert !Waiting(after, id.number);
    }
  }

  lemma InboundKeeps(c: Connection)
    requires Orderly(c) && Paired(c)
    ensures Paired(Happen(c, NegotiatedInbound))
  {
    hide NewInner;
    var after := AddInbound(c.handler);
    assert forall m: nat :: Waiting(after, m) <==> Waiting(c.handler, m);
  }

  /**
   While the queue is right, every negotiated outbound substream is handed to a stream that waits for
   one, the one that has waited longest; no other stream is touched, and the queue stays right.
   */
  lemma Lands(c: Connection)
    requires Orderly(c) && Paired(c) && 0 < c.outstanding
    ensures c.handler.lastOutgoing != [] && Waiting(c.handler, c.handler.lastOutgoing[0])
    ensures var n, after := c.handler.lastOutgoing[0], Happen(c, NegotiatedOutbound);
            && Paired(after)
            && after.handler.streams[Outgoing(n)].opening.Negotiated?
            && after.handler.streams.Keys == c.handler.streams.Keys
            && (forall id :: id in c.handler.streams && id != Outgoing(n) ==>
                  after.handler.streams[id] == c.handler.streams[id])
            && after.landed == c.landed + [n]
            && c.landed + [n] <= c.requested
  {
    var h, n, after := c.handler, c.handler.lastOutgoing[0], AddOutbound(c.handler);
    assert n in h.lastOutgoing;
    assert h.lastOutgoing == [n] + h.lastOutgoing[1..];
    assert c.requested == c.landed + [n] + h.lastOutgoing[1..];
    assert n !in h.lastOutgoing[1..];
    forall m: nat
      ensures m in after.lastOutgoing <==> Waiting(after, m)
    {
      assert m != n ==> (m in after.lastOutgoing <==> m in h.lastOutgoing);
      assert m != n ==> (Waiting(after, m) <==> Waiting(h, m));
    }
  }

  lemma PollKeeps(c: Connection, order: seq<StreamId>, scripts: map<StreamId, Script>)
    requires Orderly(c) && Paired(c) && CanHappen(c, Polled(order, scripts))
    ensures Paired(Happen(c, Polled(order, scripts)))
  {
    hide Visit, HasRoom;
    var removed := RemoveFailed(c.handler);
    assert PairedTable(removed) by {
      assert forall m: nat :: Waiting(removed, m) <==> Waiting(c.handler, m);
    }
    RemovedAreAlive(c.handler, order);
    VisitKeepsTable(removed, order, scripts);
    var answer := Visit(removed, order, scripts).0;
    if answer.OutboundRequest? {
      assert c.landed + (c.handler.lastOutgoing + [answer.number]) == c.requested + [answer.number];
    }
  }

  /** Every event of the run keeps the pairing. */
  predicate GoodRun(c: Connection, events: seq<HandlerEvent>)
    requires Orderly(c) && CanRun(c, events)
    decreases |events|
  {
    events == [] || (KeepsPairing(c, events[0]) && GoodRun(Happen(c, events[0]), events[1..]))
  }

  /** Over every run of such events, the pairing holds and substreams land in request order. */
  lemma {:induction false} PairedInRun(c: Connection, events: seq<HandlerEvent>)
    requires Orderly(c) && Paired(c) && CanRun(c, events) && GoodRun(c, events)
    ensures Paired(RunAll(c, events))
    ensures RunAll(c, events).landed <= RunAll(c, events).requested
    decreases |events|
  {
    hide Happen, Paired, Orderly, CanHappen, KeepsPairing;
    if events != [] {
      PairingExactly(c, events[0]);
      PairedInRun(Happen(c, events[0]), events[1..]);
    } else {
      LandedIsPrefix(c);
    }
  }

  lemma LandedIsPrefix(c: Connection)
    requires Paired(c)
    ensures c.landed <= c.requested
  {
  }

  lemma PairedAtStart(codec: Codec, menu: Menu)
    ensures Orderly(NewConnection(codec, menu)) && Paired(NewConnection(codec, menu))
  {
  }

  /** So from a new connection on, until one of those other events happens. */
  lemma PairedFromStart(codec: Codec, menu: Menu, events: seq<HandlerEvent>)
    requires CanRun(NewConnection(codec, menu), events) && GoodRun(NewConnection(codec, menu), events)
    ensures var after := RunAll(NewConnection(codec, menu), events); Paired(after) && after.landed <= after.requested
  {
    hide GoodRun, CanRun, RunAll, Happen;
    PairedAtStart(codec, menu);
    PairedInRun(NewConnection(codec, menu), events);
  }

  /** A stream on which nothing can be read or written yet. */
  lemma NothingYet(id: StreamId, s: StreamState)
    requires HasRoom(s) && !s.dead && s.opening.Negotiated?
    requires s.inner.buffer == EMPTY_BUFFER && WellQueued(s.inner.queue)
    ensures PollOnce(id, s, Script([], [])) == (StreamPending, s)
  {
    hide SendAll;
    SendConserves(s.inner.queue, []);
    SendEnds(s.inner.queue, []);
    RecvEnds(s.inner.config, UntilRoom, EMPTY_BUFFER, []);
    FillEnds(EMPTY_BUFFER, []);
    assert s.inner.queue + Queued([]) == s.inner.queue;
    if s.inner.queue != [] {
      assert s.inner.queue[0] in s.inner.queue;
    }
  }

  /** Sending to a missing stream `n`, then opening `m`: the connection's events, with quiet substreams. */
  function ImplicitOpenEvents(n: nat, m: nat, bytes: seq<Byte>): seq<HandlerEvent> {
    [SendCommand(Outgoing(n), bytes), Polled([Outgoing(n)], map[]), NegotiatedOutbound,
     OpenCommand(m), Polled([Outgoing(n), Outgoing(m)], map[]), NegotiatedOutbound]
  }

  /** The first half: the implicitly opened stream is queued twice and asks once. */
  lemma QueuedTwice(codec: Codec, menu: Menu, n: nat, bytes: seq<Byte>) returns (c: Connection)
    requires bytes != []
    ensures var c1 := Happen(NewConnection(codec, menu), SendCommand(Outgoing(n), bytes));
            && CanHappen(c1, Polled([Outgoing(n)], map[]))
            && var c2 := Happen(c1, Polled([Outgoing(n)], map[]));
               CanHappen(c2, NegotiatedOutbound) && c == Happen(c2, NegotiatedOutbound)
    ensures c.handler.lastOutgoing == [n] && c.outstanding == 0 && c.requested == [n] == c.landed
    ensures c.handler.failed == [] && c.handler.streams.Keys == {Outgoing(n)}
    ensures c.handler.streams[Outgoing(n)] == AddTo(NewOutgoing(codec, false), bytes).(opening := Negotiated)
    ensures c.handler.codec == codec && Orderly(c)
  {
    hide NewInner, AddTo, PollInner, WellQueued;
    var id, s := Outgoing(n), AddTo(NewOutgoing(codec, false), bytes);
    AddedIsFresh(codec, bytes);
    var c1 := Happen(NewConnection(codec, menu), SendCommand(id, bytes));
    assert c1.handler.streams == map[id := s] && c1.handler.lastOutgoing == [n];
    var removed := RemoveFailed(c1.handler);
    assert removed.streams == map[id := s];
    var c2 := Happen(c1, Polled([id], map[]));
    assert c2.handler.lastOutgoing == [n, n];
    c := Happen(c2, NegotiatedOutbound);
  }

  lemma AddedIsFresh(codec: Codec, bytes: seq<Byte>)
    requires bytes != []
    ensures var s := AddTo(NewOutgoing(codec, false), bytes);
            && s.opening.Unopened? && !s.dead && HasRoom(s)
            && s.inner.buffer == EMPTY_BUFFER && WellQueued(s.inner.queue)
  {
  }

  /** The second half: the other stream is opened, asks, and its substream goes to the first one. */
  lemma Misdelivered(c3: Connection, n: nat, m: nat) returns (c: Connection)
    requires Orderly(c3) && n != m && c3.handler.failed == [] && c3.handler.lastOutgoing == [n] && c3.outstanding == 0
    requires c3.requested == [n] == c3.landed && c3.handler.streams.Keys == {Outgoing(n)}
    requires var s := c3.handler.streams[Outgoing(n)];
             s.opening.Negotiated? && !s.dead && HasRoom(s) && s.inner.buffer == EMPTY_BUFFER
                 && WellQueued(s.inner.queue)
    ensures var c4 := Happen(c3, OpenCommand(m));
            && CanHappen(c4, Polled([Outgoing(n), Outgoing(m)], map[]))
            && var c5 := Happen(c4, Polled([Outgoing(n), Outgoing(m)], map[]));
               CanHappen(c5, NegotiatedOutbound) && c == Happen(c5, NegotiatedOutbound)
    ensures Waiting(c.handler, m) && c.outstanding == 0 && c.requested == [n, m] && c.landed == [n, n]
  {
    hide NewInner, Visit;
    var c4 := Happen(c3, OpenCommand(m));
    NewHasRoom(c3.handler.codec, true);
    SecondVisit(c4.handler, n, m);
    c := Happen(Happen(c4, Polled([Outgoing(n), Outgoing(m)], map[])), NegotiatedOutbound);
  }

  /**
   What an implicit open leads to: the substream requested for `m` is handed to `n`, which had one
   already, and `m` waits for good with no request outstanding.
   */
  lemma ImplicitOpenStrands(codec: Codec, menu: Menu, n: nat, m: nat, bytes: seq<Byte>)
      returns (c: Connection)
    requires n != m && bytes != []
    ensures Waiting(c.handler, m) && c.outstanding == 0
    ensures c.requested == [n, m] && c.landed == [n, n]
    ensures Leads(NewConnection(codec, menu), ImplicitOpenEvents(n, m, bytes), c)
  {
    hide NewInner, AddTo, Happen, CanHappen;
    AddedIsFresh(codec, bytes);
    var c3 := QueuedTwice(codec, menu, n, bytes);
    c := Misdelivered(c3, n, m);
    var c0, events := NewConnection(codec, menu), ImplicitOpenEvents(n, m, bytes);
    CommandsCanCome(c0, events[0]);
    CommandsCanCome(c3, events[3]);
    var c1 := Happen(c0, events[0]);
    var c2 := Happen(c1, events[1]);
    var c4 := Happen(c3, events[3]);
    var c5 := Happen(c4, events[4]);
    LastEvent(c5, NegotiatedOutbound, c, events[5..]);
    NextEvent(c4, events[4..], c);
    NextEvent(c3, events[3..], c);
    NextEvent(c2, events[2..], c);
    NextEvent(c1, events[1..], c);
    NextEvent(c0, events, c);
  }

  lemma SecondVisit(h: HandlerState, n: nat, m: nat)
    requires n != m && h.failed == [] && h.lastOutgoing == [n]
    requires h.streams.Keys == {Outgoing(n), Outgoing(m)}
    requires var s := h.streams[Outgoing(n)];
             s.opening.Negotiated? && !s.dead && HasRoom(s) && s.inner.buffer == EMPTY_BUFFER
                 && WellQueued(s.inner.queue)
    requires var s := h.streams[Outgoing(m)]; s.opening.Unopened? && !s.dead && HasRoom(s)
    ensures Pollable(h) && DeadAreListed(h) && Distinct([Outgoing(n), Outgoing(m)])
    ensures var (answer, after) := PollAll(h, [Outgoing(n), Outgoing(m)], map[]);
            && answer == OutboundRequest(m)
            && after.lastOutgoing == [n, m] && after.streams.Keys == h.streams.Keys
            && after.streams[Outgoing(m)].opening.Requested?
  {
    hide HasRoom, PollInner;
    var order, removed := [Outgoing(n), Outgoing(m)], RemoveFailed(h);
    assert forall id :: id in h.streams <==> id in h.streams.Keys;
    assert removed.streams == h.streams;
    NothingYet(Outgoing(n), h.streams[Outgoing(n)]);
    assert h.streams[Outgoing(n) := h.streams[Outgoing(n)]] == h.streams;
    assert order[1..] == [Outgoing(m)];
    assert removed == h;
    assert Visit(h, order, map[]) == Visit(h, order[1..], map[]);
  }
}

/**
 What the calls of a client have the node do, told by the reports that came: to whom and on which stream
 each query is sent, and what else is ordered.
 */
module ClientOrders {
  import opened Options
  import opened Streams
  import opened Clients

  /** The peer of the last report of a connection, unless its end was reported since. */
  function KnownPeer(events: seq<ClientEvent>): Option<PeerId> {
    var n := |events|;
    if n == 0 then None
    else
      match events[n - 1]
      case PeerUp(peer) => Some(peer)
      case PeerDown(peer) => if KnownPeer(events[..n - 1]) == Some(peer) then None else KnownPeer(events[..n - 1])
      case _ => KnownPeer(events[..n - 1])
  }

  /** The stream of the first handshake ever reported. */
  function FirstStream(events: seq<ClientEvent>): Option<StreamId> {
    if events == [] then None
    else if events[0].HandshakeSeen? then Some(events[0].stream)
    else FirstStream(events[1..])
  }

  lemma {:induction false} KnownPeerMeans(events: seq<ClientEvent>, peer: PeerId)
    ensures KnownPeer(events) == Some(peer)
       <==> exists i :: 0 <= i < |events| && events[i] == PeerUp(peer)
                        && forall j :: i < j < |events| ==> !events[j].PeerUp? && events[j] != PeerDown(peer)
  {
    var n := |events|;
    if n > 0 {
      var rest, last := events[..n - 1], events[n - 1];
      KnownPeerMeans(rest, peer);
      if last == PeerUp(peer) {
        assert events[n - 1] == PeerUp(peer);
      } else if KnownPeer(events) == Some(peer) {
        var i :| 0 <= i < |rest| && rest[i] == PeerUp(peer)
                 && forall j :: i < j < |rest| ==> !rest[j].PeerUp? && rest[j] != PeerDown(peer);
        assert events[i] == PeerUp(peer);
        assert forall j :: i < j < n - 1 ==> events[j] == rest[j];
      }
      forall i | 0 <= i < n - 1 && events[i] == PeerUp(peer)
                 && forall j :: i < j < n ==> !events[j].PeerUp? && events[j] != PeerDown(peer)
        ensures KnownPeer(events) == Some(peer)
      {
        assert rest[i] == PeerUp(peer);
        assert forall j :: i < j < n - 1 ==> rest[j] == events[j];
        assert !last.PeerUp? && last != PeerDown(peer);
      }
    }
  }

  lemma {:induction false} FirstStreamJoined(a: seq<ClientEvent>, b: seq<ClientEvent>)
    ensures FirstStream(a + b) == if FirstStream(a).Some? then FirstStream(a) else FirstStream(b)
    decreases |a|
  {
    if a == [] {
      assert a + b == b;
    } else {
      assert (a + b)[1..] == a[1..] + b;
      FirstStreamJoined(a[1..], b);
    }
  }

  /** The peers whose connections were reported, in order. */
  function PeersUp(events: seq<ClientEvent>): seq<PeerId> {
    if events == [] then []
    else
      var last := events[|events| - 1];
      PeersUp(events[..|events| - 1]) + if last.PeerUp? then [last.peer] else []
  }

  /** The queries for the best tip that were reported, in order. */
  function BestTips(events: seq<ClientEvent>): seq<(PeerId, StreamId, int)> {
    if events == [] then []
    else
      var last := events[|events| - 1];
      BestTips(events[..|events| - 1])
      + if last.QuerySeen? && last.isBestTip then [(last.peer, last.stream, last.id)] else []
  }

  function OpensIn(orders: seq<Order>): seq<PeerId> {
    if orders == [] then []
    else
      var last := orders[|orders| - 1];
      OpensIn(orders[..|orders| - 1]) + if last.OpenStream? then [last.peer] else []
  }

  function RespondsIn(orders: seq<Order>): seq<(PeerId, StreamId, int)> {
    if orders == [] then []
    else
      var last := orders[|orders| - 1];
      RespondsIn(orders[..|orders| - 1]) + if last.RespondNone? then [(last.peer, last.stream, last.id)] else []
  }

  function SendsIn(orders: seq<Order>): seq<Order> {
    if orders == [] then []
    else
      var last := orders[|orders| - 1];
      SendsIn(orders[..|orders| - 1]) + if last.SendQuery? then [last] else []
  }

  /**
   After `before` and the first `k` events of a call a query can be sent: a peer and a stream are known,
   and either the call begins with this or a handshake was just reported.
   */
  predicate CanSend(before: seq<ClientEvent>, seen: seq<ClientEvent>, k: nat) {
    && k <= |seen|
    && KnownPeer(before + seen[..k]).Some? && FirstStream(before + seen[..k]).Some?
    && (k == 0 || seen[k - 1].HandshakeSeen?)
  }

  /** The query went out at the first chance, to the peer and on the stream known then. */
  ghost predicate SentAt(before: seq<ClientEvent>, seen: seq<ClientEvent>, k: nat, orders: seq<Order>, id: int,
      query: Query)
  {
    && CanSend(before, seen, k) && (forall j: nat :: j < k ==> !CanSend(before, seen, j))
    && SendsIn(orders)
       == [SendQuery(KnownPeer(before + seen[..k]).value, FirstStream(before + seen[..k]).value, id, query)]
  }

  /** A call that has seen these events, after the client saw those before. */
  ghost predicate GoesBy(call: Call, before: seq<ClientEvent>, seen: seq<ClientEvent>, id: int, query: Query) {
    && call.client.peer == KnownPeer(before + seen) && call.client.stream == FirstStream(before + seen)
    && OpensIn(call.orders) == PeersUp(seen) && RespondsIn(call.orders) == BestTips(seen)
    && (if call.waiting.Some? then
          && call.waiting == Some(query) && call.client.id == id
          && SendsIn(call.orders) == [] && forall k: nat :: !CanSend(before, seen, k)
        else
          exists k: nat :: SentAt(before, seen, k, call.orders, id, query))
  }

  lemma CanSendEarlier(before: seq<ClientEvent>, seen: seq<ClientEvent>, event: ClientEvent)
    ensures forall k: nat :: k <= |seen| ==> (CanSend(before, seen + [event], k) <==> CanSend(before, seen, k))
    ensures forall k: nat :: k <= |seen| ==> (seen + [event])[..k] == seen[..k]
    ensures CanSend(before, seen + [event], |seen| + 1)
       <==> && event.HandshakeSeen?
            && KnownPeer(before + seen + [event]).Some? && FirstStream(before + seen + [event]).Some?
  {
    var more := seen + [event];
    forall k: nat | k <= |seen|
      ensures more[..k] == seen[..k] && (CanSend(before, more, k) <==> CanSend(before, seen, k))
    {
    }
    assert more[..|seen| + 1] == more;
    assert before + more == before + seen + [event];
  }

  /** The client's peer and stream after one more event. */
  lemma KnownMore(before: seq<ClientEvent>, event: ClientEvent)
    ensures var more, known := before + [event], KnownPeer(before);
            && KnownPeer(more) == (match event
                                   case PeerUp(peer) => Some(peer)
                                   case PeerDown(peer) => if known == Some(peer) then None else known
                                   case _ => known)
            && FirstStream(more) == if FirstStream(before).None? && event.HandshakeSeen? then Some(event.stream)
                                    else FirstStream(before)
  {
    assert (before + [event])[..|before|] == before;
    FirstStreamJoined(before, [event]);
    assert [event][1..] == [];
  }

  lemma OrderedMore(orders: seq<Order>, order: Order)
    ensures OpensIn(orders + [order]) == OpensIn(orders) + if order.OpenStream? then [order.peer] else []
    ensures RespondsIn(orders + [order])
         == RespondsIn(orders) + if order.RespondNone? then [(order.peer, order.stream, order.id)] else []
    ensures SendsIn(orders + [order]) == SendsIn(orders) + if order.SendQuery? then [order] else []
  {
    assert (orders + [order])[..|orders|] == orders;
  }

  lemma SeenMore(seen: seq<ClientEvent>, event: ClientEvent)
    ensures PeersUp(seen + [event]) == PeersUp(seen) + if event.PeerUp? then [event.peer] else []
    ensures BestTips(seen + [event])
         == BestTips(seen) + if event.QuerySeen? && event.isBestTip then [(event.peer, event.stream, event.id)] else []
  {
    assert (seen + [event])[..|seen|] == seen;
  }

  lemma SentStays(before: seq<ClientEvent>, seen: seq<ClientEvent>, event: ClientEvent, k: nat, orders: seq<Order>,
      more: seq<Order>, id: int, query: Query)
    requires SentAt(before, seen, k, orders, id, query) && SendsIn(more) == SendsIn(orders)
    ensures SentAt(before, seen + [event], k, more, id, query)
  {
    SendInTime(before, seen, k);
    hide CanSend;
    CanSendEarlier(before, seen, event);
  }

  /** The query waits on, or stays sent. */
  lemma NothingSent(call: Call, next: Call, before: seq<ClientEvent>, seen: seq<ClientEvent>, event: ClientEvent,
      id: int, query: Query)
    requires GoesBy(call, before, seen, id, query)
    requires next.waiting == call.waiting && next.client.id == call.client.id
    requires SendsIn(next.orders) == SendsIn(call.orders)
    requires next.client.peer == KnownPeer(before + (seen + [event]))
    requires next.client.stream == FirstStream(before + (seen + [event]))
    requires OpensIn(next.orders) == PeersUp(seen + [event]) && RespondsIn(next.orders) == BestTips(seen + [event])
    requires call.waiting.Some? ==> !CanSend(before, seen + [event], |seen| + 1)
    ensures GoesBy(next, before, seen + [event], id, query)
  {
    hide CanSend;
    CanSendEarlier(before, seen, event);
    if call.waiting.Some? {
      forall k: nat
        ensures !CanSend(before, seen + [event], k)
      {
        SendInTime(before, seen + [event], k);
      }
    } else {
      var k: nat :| SentAt(before, seen, k, call.orders, id, query);
      SentStays(before, seen, event, k, call.orders, next.orders, id, query);
    }
  }

  lemma SendInTime(before: seq<ClientEvent>, seen: seq<ClientEvent>, k: nat)
    ensures CanSend(before, seen, k) ==> k <= |seen|
  {
  }

  /** A handshake lets a waiting query go, if a peer is known. */
  lemma SentNow(call: Call, before: seq<ClientEvent>, seen: seq<ClientEvent>, stream: StreamId, id: int, query: Query)
    requires GoesBy(call, before, seen, id, query) && call.waiting.Some?
    requires KnownPeer(before + seen).Some?
    ensures GoesBy(Step(call, HandshakeSeen(stream)), before, seen + [HandshakeSeen(stream)], id, query)
  {
    hide CanSend, KnownPeer, FirstStream, PeersUp, BestTips, OpensIn, RespondsIn, SendsIn;
    var event := HandshakeSeen(stream);
    var next, more := Step(call, event), seen + [event];
    CanSendEarlier(before, seen, event);
    KnownMore(before + seen, event);
    SeenMore(seen, event);
    assert before + more == before + seen + [event];
    assert more[..|more|] == more;
    var order := SendQuery(KnownPeer(before + more).value, FirstStream(before + more).value, id, query);
    assert next.orders == call.orders + [order];
    OrderedMore(call.orders, order);
    assert SentAt(before, more, |more|, next.orders, id, query);
  }

  lemma StepGoesBy(call: Call, before: seq<ClientEvent>, seen: seq<ClientEvent>, event: ClientEvent, id: int,
      query: Query)
    requires GoesBy(call, before, seen, id, query)
    ensures GoesBy(Step(call, event), before, seen + [event], id, query)
  {
    hide CanSend, GoesBy;
    CanSendEarlier(before, seen, event);
    KnownMore(before + seen, event);
    SeenMore(seen, event);
    assert before + (seen + [event]) == before + seen + [event];
    GoesByKnows(call, before, seen, id, query);
    if event.HandshakeSeen? && call.waiting.Some? && KnownPeer(before + seen).Some? {
      SentNow(call, before, seen, event.stream, id, query);
    } else {
      if event.PeerUp? {
        OrderedMore(call.orders, OpenStream(event.peer));
      } else if event.QuerySeen? {
        OrderedMore(call.orders, RespondNone(event.peer, event.stream, event.id));
      }
      NothingSent(call, Step(call, event), before, seen, event, id, query);
    }
  }

  lemma GoesByKnows(call: Call, before: seq<ClientEvent>, seen: seq<ClientEvent>, id: int, query: Query)
    requires GoesBy(call, before, seen, id, query)
    ensures call.client.peer == KnownPeer(before + seen) && call.client.stream == FirstStream(before + seen)
    ensures OpensIn(call.orders) == PeersUp(seen) && RespondsIn(call.orders) == BestTips(seen)
  {
  }

  lemma {:induction false} StartGoesBy(client: ClientState, before: seq<ClientEvent>, query: Query)
    requires client.peer == KnownPeer(before) && client.stream == FirstStream(before)
    ensures GoesBy(Start(client, query), before, [], client.id, query)
  {
    var nothing: seq<ClientEvent> := [];
    assert before + nothing == before && nothing[..0] == nothing;
    var call := Start(client, query);
    if call.waiting.None? {
      OrderedMore([], call.orders[0]);
      assert call.orders == [] + [call.orders[0]];
      assert SentAt(before, [], 0, call.orders, client.id, query);
    }
  }

  /** The reports a call sees: all up to the response it takes. */
  function Seen(call: Call, events: seq<ClientEvent>): seq<ClientEvent>
    decreases |events|
  {
    if call.answer.Some? || events == [] then [] else [events[0]] + Seen(Step(call, events[0]), events[1..])
  }

  lemma {:induction false} SeenIsPrefix(call: Call, events: seq<ClientEvent>)
    requires call.answer.None?
    ensures var seen, done := Seen(call, events), Follow(call, events);
            && seen <= events
            && (done.answer.None? ==> seen == events)
            && (done.answer.Some? ==>
                  seen != [] && seen[|seen| - 1] == ResponseSeen(done.answer.value.0, done.answer.value.1))
    decreases |events|
  {
    hide Step;
    if events != [] {
      var next := Step(call, events[0]);
      if next.answer.None? {
        SeenIsPrefix(next, events[1..]);
      } else {
        AnswerIs(call, events[0]);
      }
    }
  }

  lemma {:induction false} FollowGoesBy(call: Call, before: seq<ClientEvent>, seen: seq<ClientEvent>,
      events: seq<ClientEvent>, id: int, query: Query)
    requires GoesBy(call, before, seen, id, query)
    ensures GoesBy(Follow(call, events), before, seen + Seen(call, events), id, query)
    decreases |events|
  {
    hide GoesBy, Step;
    if call.answer.Some? || events == [] {
      assert seen + [] == seen;
    } else {
      StepGoesBy(call, before, seen, events[0], id, query);
      FollowGoesBy(Step(call, events[0]), before, seen + [events[0]], events[1..], id, query);
      var more := Seen(Step(call, events[0]), events[1..]);
      assert seen + [events[0]] + more == seen + ([events[0]] + more);
    }
  }

  /** What the client saw during its first `k` calls. */
  function SeenBefore(client: ClientState, episodes: seq<Episode>, k: nat): seq<ClientEvent>
    requires k <= |episodes|
    decreases k
  {
    if k == 0 then []
    else
      var call := Start(client, episodes[0].query);
      Seen(call, episodes[0].events)
      + SeenBefore(Follow(call, episodes[0].events).client, episodes[1..], k - 1)
  }

  /**
   Over all calls of a client, the `k`-th for one, told by the reports alone: its query goes out at most
   once and at the first chance, to the peer then known, on the stream of the first handshake ever; a stream is
   opened for every connection reported during the call, and every query for the best tip is answered,
   each in order; and nothing else is ordered.
   */
  lemma {:induction false} OrdersInCalls(client: ClientState, before: seq<ClientEvent>, episodes: seq<Episode>, k: nat)
    requires client.peer == KnownPeer(before) && client.stream == FirstStream(before) && k < |episodes|
    ensures var done, seen := Outcomes(client, episodes)[k], before + SeenBefore(client, episodes, k);
            var caller, query := CallerOf(client, episodes, k), episodes[k].query;
            GoesBy(done, seen, Seen(Start(caller, query), episodes[k].events), caller.id, query)
    decreases k
  {
    hide GoesBy, Follow, Start, Seen;
    var call := Start(client, episodes[0].query);
    StartGoesBy(client, before, episodes[0].query);
    var seen := Seen(call, episodes[0].events);
    FollowGoesBy(call, before, [], episodes[0].events, client.id, episodes[0].query);
    assert [] + seen == seen;
    if k == 0 {
      assert before + [] == before;
    } else {
      var done, later := Follow(call, episodes[0].events), episodes[1..];
      GoesByKnows(done, before, seen, client.id, episodes[0].query);
      OrdersInCalls(done.client, before + seen, later, k - 1);
      InThree(before, seen, SeenBefore(done.client, later, k - 1));
      assert later[k - 1] == episodes[k];
    }
  }

  lemma InThree(a: seq<ClientEvent>, b: seq<ClientEvent>, c: seq<ClientEvent>)
    ensures a + (b + c) == a + b + c
  {
  }

  /** The client as it makes its `k`-th call. */
  function CallerOf(client: ClientState, episodes: seq<Episode>, k: nat): ClientState
    requires k <= |episodes|
    decreases k
  {
    if k == 0 then client
    else CallerOf(Follow(Start(client, episodes[0].query), episodes[0].events).client, episodes[1..], k - 1)
  }

  /** In particular over all calls of a new client, numbered from 1 by the queries sent. */
  lemma OrdersFromStart(episodes: seq<Episode>, k: nat)
    requires k < |episodes|
    ensures var caller, query := CallerOf(NEW_CLIENT, episodes, k), episodes[k].query;
            GoesBy(Outcomes(NEW_CLIENT, episodes)[k], SeenBefore(NEW_CLIENT, episodes, k),
                    Seen(Start(caller, query), episodes[k].events), caller.id, query)
  {
    hide GoesBy, Follow, Start, Seen, Outcomes, SeenBefore, CallerOf;
    OrdersInCalls(NEW_CLIENT, [], episodes, k);
    assert [] + SeenBefore(NEW_CLIENT, episodes, k) == SeenBefore(NEW_CLIENT, episodes, k);
  }
}

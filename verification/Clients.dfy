/**
 The client's call: queries are numbered, and a response is matched to a call by its number alone.
 */
module Clients {
  import opened Bytes
  import opened Options
  import opened Frames
  import opened Streams

  type Query = seq<Byte>

  datatype ClientState = ClientState(peer: Option<PeerId>, stream: Option<StreamId>, id: int)

  /** What the node reports while a call waits. */
  datatype ClientEvent =
    | PeerUp(peer: PeerId)
    | PeerDown(peer: PeerId)
    | HandshakeSeen(stream: StreamId)
    | QuerySeen(peer: PeerId, stream: StreamId, id: int, isBestTip: bool)
    | ResponseSeen(id: int, bytes: seq<Byte>)
    | OtherSeen

  /** What a call has the node do. */
  datatype Order =
    | SendQuery(peer: PeerId, stream: StreamId, id: int, query: Query)
    | OpenStream(peer: PeerId)
    | RespondNone(peer: PeerId, stream: StreamId, id: int)

  /** A call under way: `waiting` is its query until it is sent, `answer` the response once it came. */
  datatype Call = Call(client: ClientState, waiting: Option<Query>, orders: seq<Order>,
      answer: Option<(int, seq<Byte>)>)

  /** Sends the query if it still waits and a peer and a stream are known. */
  function TrySend(call: Call): Call {
    if call.client.peer.Some? && call.client.stream.Some? && call.waiting.Some? then
      call.(client := call.client.(id := call.client.id + 1),
            waiting := None,
            orders := call.orders
                + [SendQuery(call.client.peer.value, call.client.stream.value, call.client.id, call.waiting.value)])
    else
      call
  }

  function Start(client: ClientState, query: Query): Call {
    TrySend(Call(client, Some(query), [], None))
  }

  function Step(call: Call, event: ClientEvent): Call {
    match event
    case PeerUp(peer) => call.(client := call.client.(peer := Some(peer)), orders := call.orders + [OpenStream(peer)])
    case PeerDown(peer) => if call.client.peer == Some(peer) then call.(client := call.client.(peer := None)) else call
    case HandshakeSeen(stream) =>
      TrySend(if call.client.stream.None? then call.(client := call.client.(stream := Some(stream))) else call)
    case QuerySeen(peer, stream, id, isBestTip) =>
      if isBestTip then call.(orders := call.orders + [RespondNone(peer, stream, id)]) else call
    case ResponseSeen(id, bytes) => if id + 1 == call.client.id then call.(answer := Some((id, bytes))) else call
    case OtherSeen => call
  }

  /** The call after the events, or as soon as it has its answer. */
  function Follow(call: Call, events: seq<ClientEvent>): Call
    decreases |events|
  {
    if call.answer.Some? || events == [] then call else Follow(Step(call, events[0]), events[1..])
  }

  const NEW_CLIENT: ClientState := ClientState(None, None, 1)

  /** The queries sent among the orders, with their ids. */
  function SentIn(orders: seq<Order>): seq<(int, Query)> {
    if orders == [] then []
    else (if orders[0].SendQuery? then [(orders[0].id, orders[0].query)] else []) + SentIn(orders[1..])
  }

  /** The ids of the responses among the events. */
  function ResponseIds(events: seq<ClientEvent>): seq<int> {
    if events == [] then []
    else (if events[0].ResponseSeen? then [events[0].id] else []) + ResponseIds(events[1..])
  }

  lemma {:induction false} SentJoined(a: seq<Order>, b: seq<Order>)
    ensures SentIn(a + b) == SentIn(a) + SentIn(b)
    decreases |a|
  {
    if a == [] {
      assert a + b == b;
    } else {
      var first := if a[0].SendQuery? then [(a[0].id, a[0].query)] else [];
      assert (a + b)[1..] == a[1..] + b;
      SentJoined(a[1..], b);
      assert first + (SentIn(a[1..]) + SentIn(b)) == first + SentIn(a[1..]) + SentIn(b);
    }
  }

  lemma SentOfOne(order: Order)
    ensures SentIn([order]) == if order.SendQuery? then [(order.id, order.query)] else []
  {
    var one := [order];
    assert one[1..] == [];
  }

  /** A call's query waits, unsent, or was sent once under the number the client had at the start. */
  predicate Numbered(call: Call, query: Query, first: int) {
    if call.waiting.Some? then
      call.waiting.value == query && call.client.id == first && SentIn(call.orders) == []
    else
      call.client.id == first + 1 && SentIn(call.orders) == [(first, query)]
  }

  lemma TrySendKeepsNumbered(call: Call, query: Query, first: int)
    requires Numbered(call, query, first)
    ensures Numbered(TrySend(call), query, first)
    ensures TrySend(call).answer == call.answer
  {
    if call.client.peer.Some? && call.client.stream.Some? && call.waiting.Some? {
      var order := SendQuery(call.client.peer.value, call.client.stream.value, call.client.id, call.waiting.value);
      SentJoined(call.orders, [order]);
      SentOfOne(order);
    }
  }

  lemma StepKeepsNumbered(call: Call, event: ClientEvent, query: Query, first: int)
    requires Numbered(call, query, first)
    ensures Numbered(Step(call, event), query, first)
    ensures Step(call, event).answer != call.answer ==> event.ResponseSeen? && event.id + 1 == call.client.id
  {
    match event
    case PeerUp(peer) =>
      SentJoined(call.orders, [OpenStream(peer)]);
      SentOfOne(OpenStream(peer));
    case HandshakeSeen(stream) =>
      TrySendKeepsNumbered(if call.client.stream.None? then call.(client := call.client.(stream := Some(stream)))
          else call, query, first);
    case QuerySeen(peer, stream, id, isBestTip) =>
      SentJoined(call.orders, [RespondNone(peer, stream, id)]);
      SentOfOne(RespondNone(peer, stream, id));
    case _ =>
  }

  /**
   Whatever happens during a call, it sends its query at most once, under the client's number, and an
   answer it takes has that number, or, while the query is still unsent, the number before.
   */
  lemma {:induction false} FollowNumbers(call: Call, events: seq<ClientEvent>, query: Query, first: int)
    requires Numbered(call, query, first) && call.answer.None?
    ensures var done := Follow(call, events);
            && Numbered(done, query, first)
            && (done.answer.Some? ==>
                  && done.answer.value.0 == (if done.waiting.None? then first else first - 1)
                  && done.answer.value.0 in ResponseIds(events))
    decreases |events|
  {
    hide Step, SentIn;
    if events != [] {
      StepKeepsNumbered(call, events[0], query, first);
      var next := Step(call, events[0]);
      if next.answer.None? {
        FollowNumbers(next, events[1..], query, first);
      } else {
        AnswerIs(call, events[0]);
      }
    }
  }

  lemma AnswerIs(call: Call, event: ClientEvent)
    requires call.answer.None? && Step(call, event).answer.Some?
    ensures event.ResponseSeen? && Step(call, event).answer == Some((event.id, event.bytes))
    ensures event.id + 1 == call.client.id && Step(call, event).waiting == call.waiting
  {
  }

  lemma StartNumbers(client: ClientState, query: Query)
    ensures Numbered(Start(client, query), query, client.id) && Start(client, query).answer.None?
  {
    TrySendKeepsNumbered(Call(client, Some(query), [], None), query, client.id);
  }

  /** A call with what happens during it. */
  datatype Episode = Episode(query: Query, events: seq<ClientEvent>)

  /** The calls are made one after the other, and each gets an answer. */
  predicate AllAnswered(client: ClientState, episodes: seq<Episode>)
    decreases |episodes|
  {
    episodes == [] ||
    (var done := Follow(Start(client, episodes[0].query), episodes[0].events);
     done.answer.Some? && AllAnswered(done.client, episodes[1..]))
  }

  /** The calls in the order made, each as it ended. */
  function Outcomes(client: ClientState, episodes: seq<Episode>): (outcomes: seq<Call>)
    ensures |outcomes| == |episodes|
    decreases |episodes|
  {
    if episodes == [] then []
    else
      var done := Follow(Start(client, episodes[0].query), episodes[0].events);
      [done] + Outcomes(done.client, episodes[1..])
  }

  /** The ids of all responses that arrive during the calls. */
  function AllResponseIds(episodes: seq<Episode>): seq<int> {
    if episodes == [] then [] else ResponseIds(episodes[0].events) + AllResponseIds(episodes[1..])
  }

  /** No id is answered twice. */
  ghost predicate AnsweredOnce(ids: seq<int>) {
    forall i, j :: 0 <= i < j < |ids| ==> ids[i] != ids[j]
  }

  /**
   A response with the number before `id` comes while the query cannot be sent: that takes a handshake
   while a peer is known.
   */
  predicate ComesEarly(peer: Option<PeerId>, id: int, events: seq<ClientEvent>)
    decreases |events|
  {
    events != [] &&
    match events[0]
    case PeerUp(other) => ComesEarly(Some(other), id, events[1..])
    case PeerDown(other) => ComesEarly(if peer == Some(other) then None else peer, id, events[1..])
    case HandshakeSeen(_) => peer.None? && ComesEarly(peer, id, events[1..])
    case ResponseSeen(number, _) => number + 1 == id || ComesEarly(peer, id, events[1..])
    case _ => ComesEarly(peer, id, events[1..])
  }

  /** A response numbered one below the client's own number comes before the query of its next call is sent. */
  predicate Intruded(client: ClientState, events: seq<ClientEvent>) {
    !(client.peer.Some? && client.stream.Some?) && ComesEarly(client.peer, client.id, events)
  }

  lemma {:induction false} EarlyIsAmongIds(peer: Option<PeerId>, id: int, events: seq<ClientEvent>)
    requires ComesEarly(peer, id, events)
    ensures id - 1 in ResponseIds(events)
    decreases |events|
  {
    if !(events[0].ResponseSeen? && events[0].id + 1 == id) {
      var next := if events[0].PeerUp? then Some(events[0].peer)
                  else if events[0].PeerDown? && peer == Some(events[0].peer) then None
                  else peer;
      EarlyIsAmongIds(next, id, events[1..]);
    }
  }

  /** A completed call returns without having sent its query exactly when a response came early. */
  lemma {:induction false} EarlyExactly(call: Call, events: seq<ClientEvent>)
    requires call.answer.None? && Follow(call, events).answer.Some?
    ensures Follow(call, events).waiting.Some?
        <==> call.waiting.Some? && ComesEarly(call.client.peer, call.client.id, events)
    decreases |events|
  {
    if events != [] {
      var next := Step(call, events[0]);
      if next.answer.Some? {
        AnswerIs(call, events[0]);
      } else {
        EarlyExactly(next, events[1..]);
      }
    }
  }

  /** Call `k` sends its query once, with its place in the sequence as the id, and returns the response with that id. */
  predicate Own(client: ClientState, episodes: seq<Episode>, k: nat)
    requires k < |episodes|
  {
    var done := Outcomes(client, episodes)[k];
    && done.answer.Some? && done.answer.value.0 == client.id + k
    && SentIn(done.orders) == [(client.id + k, episodes[k].query)]
  }

  lemma NotAgain(here: seq<int>, later: seq<int>, id: int)
    requires AnsweredOnce(here + later) && id in here
    ensures AnsweredOnce(later) && id !in later
  {
    var ids := here + later;
    assert forall k :: 0 <= k < |later| ==> ids[|here| + k] == later[k];
    var i :| 0 <= i < |here| && here[i] == id;
    assert ids[i] == id;
  }

  /** The first of some completed calls. */
  lemma FirstCall(client: ClientState, episodes: seq<Episode>)
    requires AllAnswered(client, episodes) && episodes != []
    ensures Own(client, episodes, 0) <==> !Intruded(client, episodes[0].events)
    ensures var done := Outcomes(client, episodes)[0];
            Own(client, episodes, 0) ==> done.client.id == client.id + 1 && client.id in ResponseIds(episodes[0].events)
  {
    hide Follow, ResponseIds, Step, ComesEarly;
    var query, events := episodes[0].query, episodes[0].events;
    StartNumbers(client, query);
    FollowNumbers(Start(client, query), events, query, client.id);
    EarlyExactly(Start(client, query), events);
  }

  lemma NotIntruded(client: ClientState, episodes: seq<Episode>)
    requires episodes != [] && client.id - 1 !in AllResponseIds(episodes)
    ensures !Intruded(client, episodes[0].events)
  {
    if Intruded(client, episodes[0].events) {
      EarlyIsAmongIds(client.peer, client.id, episodes[0].events);
    }
  }

  /** After a call that returned its own response, no response to the next call comes early. */
  lemma {:induction false} LaterCalls(client: ClientState, episodes: seq<Episode>, k: nat)
    requires AllAnswered(client, episodes) && AnsweredOnce(AllResponseIds(episodes)) && k < |episodes|
    requires !Intruded(client, episodes[0].events)
    ensures Own(client, episodes, k)
    decreases |episodes|
  {
    hide Follow, SentIn, ResponseIds, Start, ComesEarly;
    FirstCall(client, episodes);
    if k > 0 {
      var done, rest := Outcomes(client, episodes)[0], episodes[1..];
      var here, later := ResponseIds(episodes[0].events), AllResponseIds(rest);
      NotAgain(here, later, client.id);
      NotIntruded(done.client, rest);
      LaterCalls(done.client, rest, k - 1);
      assert Outcomes(client, episodes)[k] == Outcomes(done.client, rest)[k - 1];
    }
  }

  /**
   Over completed calls, when no id is answered twice: every call sends its query once and returns the
   response to it, if and only if no response numbered one below the client's number comes before its
   first query is sent.
   */
  lemma CallsMatch(client: ClientState, episodes: seq<Episode>)
    requires AllAnswered(client, episodes) && AnsweredOnce(AllResponseIds(episodes))
    ensures (forall k :: 0 <= k < |episodes| ==> Own(client, episodes, k))
        <==> episodes == [] || !Intruded(client, episodes[0].events)
  {
    hide Own, Intruded, AllAnswered, AllResponseIds;
    if episodes != [] {
      FirstCall(client, episodes);
      if !Intruded(client, episodes[0].events) {
        forall k | 0 <= k < |episodes|
          ensures Own(client, episodes, k)
        {
          LaterCalls(client, episodes, k);
        }
      }
    }
  }

  /**
   A new client takes a response numbered 0 for the answer to a query it never sent; on a stream where
   the end did not ask for a menu, such a response is handed on.
   */
  lemma AnsweredUnsent(config: Config, query: Query, bytes: seq<Byte>)
    requires !config.askMenu
    ensures var episodes := [Episode(query, [ResponseSeen(0, bytes)])];
            var done := Outcomes(NEW_CLIENT, episodes)[0];
            && AllAnswered(NEW_CLIENT, episodes) && AnsweredOnce(AllResponseIds(episodes))
            && done.answer == Some((0, bytes)) && done.waiting == Some(query) && SentIn(done.orders) == []
    ensures React(config, ResponseHeader(0), bytes) == Deliver(ResponseIs(ResponseHeader(0), bytes))
  {
    var events := [ResponseSeen(0, bytes)];
    var episodes := [Episode(query, events)];
    assert events[1..] == [] && episodes[1..] == [];
    assert Start(NEW_CLIENT, query) == Call(NEW_CLIENT, Some(query), [], None);
    assert Follow(Start(NEW_CLIENT, query), events)
        == Follow(Step(Start(NEW_CLIENT, query), events[0]), events[1..]);
    assert ResponseIds(events) == [0] + ResponseIds(events[1..]);
    assert AllResponseIds(episodes) == ResponseIds(events) + AllResponseIds(episodes[1..]);
  }

  /**
   A stream hands the response to the `k`-th query of a new client on as a response exactly when its
   number is not the handshake's; no number is taken for a menu.
   */
  lemma ResponseIsHandedOn(config: Config, episodes: seq<Episode>, k: nat, bytes: seq<Byte>)
    requires AllAnswered(NEW_CLIENT, episodes) && AnsweredOnce(AllResponseIds(episodes)) && k < |episodes|
    requires !Intruded(NEW_CLIENT, episodes[0].events) && |episodes| < 0x8000_0000_0000_0000
    ensures var sent := SentIn(Outcomes(NEW_CLIENT, episodes)[k].orders);
            && |sent| == 1 && sent[0].0 == k + 1
            && var header := ResponseHeader(sent[0].0);
               && (React(config, header, bytes) == Deliver(ResponseIs(header, bytes)) <==> k + 1 != HANDSHAKE_ID)
               && (React(config, header, bytes) == Deliver(HandshakeDone) <==> k + 1 == HANDSHAKE_ID)
  {
    LaterCalls(NEW_CLIENT, episodes, k);
  }

  class Client {
    var state: ClientState

    constructor ()
      ensures state == NEW_CLIENT
    {
      state := NEW_CLIENT;
    }

    /** A call, given what is reported while it waits; `answered` is false if that was not enough. */
    method Rpc(query: Query, events: seq<ClientEvent>)
        returns (answered: bool, id: int, bytes: seq<Byte>, orders: seq<Order>)
      modifies this
      ensures var done := Follow(Start(old(state), query), events);
              && state == done.client && orders == done.orders
              && (answered <==> done.answer.Some?)
              && (answered ==> done.answer.value == (id, bytes))
    {
      var waiting := Some(query);
      orders, id, bytes := [], 0, [];
      if state.peer.Some? && state.stream.Some? {
        orders := [SendQuery(state.peer.value, state.stream.value, state.id, query)];
        state := state.(id := state.id + 1);
        waiting := None;
      }
      assert Start(old(state), query).orders == orders;
      assert events[0..] == events;
      var i := 0;
      while i < |events|
        invariant i <= |events|
        invariant Follow(Start(old(state), query), events) == Follow(Call(state, waiting, orders, None), events[i..])
      {
        ghost var before := Call(state, waiting, orders, None);
        var event := events[i];
        assert events[i..][0] == event && events[i..][1..] == events[i + 1..];
        i := i + 1;
        match event {
          case PeerUp(peer) =>
            state := state.(peer := Some(peer));
            orders := orders + [OpenStream(peer)];
          case PeerDown(peer) =>
            if state.peer == Some(peer) {
              state := state.(peer := None);
            }
          case HandshakeSeen(stream) =>
            if state.stream.None? {
              state := state.(stream := Some(stream));
            }
            if state.peer.Some? && state.stream.Some? && waiting.Some? {
              orders := orders + [SendQuery(state.peer.value, state.stream.value, state.id, waiting.value)];
              state := state.(id := state.id + 1);
              waiting := None;
            }
          case QuerySeen(peer, stream, queryId, isBestTip) =>
            if isBestTip {
              orders := orders + [RespondNone(peer, stream, queryId)];
            }
          case ResponseSeen(responseId, payload) =>
            if responseId + 1 == state.id {
              return true, responseId, payload, orders;
            }
          case OtherSeen =>
        }
        assert Call(state, waiting, orders, None) == Step(before, event);
      }
      answered := false;
    }
  }
}

/**
 A substream as its handler sees it: requested, negotiated, polled, and requested again when it ends.
 */
module Streams {
  import opened Bytes
  import opened Frames
  import opened StreamIo
  import opened Receive
  import opened Send
  import opened Inners
  import Endpoints

  type PeerId = nat

  datatype StreamId = Incoming(number: nat) | Outgoing(number: nat)

  datatype Opening = Unopened | Requested | Negotiated

  /** `dead` is set when an error is handed on; nothing in the source records it. */
  datatype StreamState = StreamState(opening: Opening, inner: InnerState, dead: bool)

  /** `Spins` stands for a poll that never returns. */
  datatype StreamEvent = StreamPending | Request(number: nat) | Event(received: Received) | Failed | Panicked | Spins

  /** What a stream will deliver and accept during one poll. */
  datatype Script = Script(incoming: seq<ReadStep>, outgoing: seq<WriteStep>)

  function NewOutgoing(codec: Codec, askMenu: bool): StreamState {
    StreamState(Unopened, NewInner(Config(codec, [], askMenu)), false)
  }

  function NewIncoming(codec: Codec, menu: Menu): StreamState {
    StreamState(Unopened, NewInner(Config(codec, menu, false)), false)
  }

  function AddTo(s: StreamState, bytes: seq<Byte>): StreamState {
    s.(inner := s.inner.(queue := s.inner.queue + [Message(0, bytes)]))
  }

  predicate HasRoom(s: StreamState) {
    |s.inner.buffer.data| < s.inner.buffer.cap
  }

  lemma NewHasRoom(codec: Codec, askMenu: bool)
    ensures HasRoom(NewOutgoing(codec, askMenu))
  {
  }

  /** One poll.  The caller must not poll a stream again once it has reported a failure. */
  function PollOnce(id: StreamId, s: StreamState, script: Script): (result: (StreamEvent, StreamState))
    requires HasRoom(s) && !s.dead
    ensures HasRoom(result.1)
    ensures result.1.dead <==> result.0.Failed?
  {
    match s.opening
    case Unopened =>
      if id.Outgoing? then (Request(id.number), s.(opening := Requested)) else (StreamPending, s)
    case Requested => (StreamPending, s)
    case Negotiated =>
      var run := PollInner(s.inner, script.incoming, script.outgoing);
      var after := s.(inner := run.inner);
      match run.outcome
      case Hung => (Spins, after)
      case Ended(Pending) => (StreamPending, after)
      case Ended(Ready(received)) => (Event(received), after)
      case Ended(EndOfStream) =>
        if id.Outgoing? then (Request(id.number), after.(opening := Requested)) else (Failed, after.(dead := true))
      case Ended(Broken(LengthOverflow)) => (Panicked, after)
      case Ended(_) => (Failed, after.(dead := true))
  }

  /** A stream whose queued messages are unfinished is polled without spinning, and they stay so. */
  lemma PollReturns(id: StreamId, s: StreamState, script: Script)
    requires HasRoom(s) && !s.dead && WellQueued(s.inner.queue)
    ensures !PollOnce(id, s, script).0.Spins?
    ensures WellQueued(PollOnce(id, s, script).1.inner.queue)
  {
    hide PollInner, WellQueued;
    Endpoints.PollConserves(s.inner, script.incoming, script.outgoing);
  }

  class Stream {
    var opening: Opening
    const inner: Inner
    var io: Io?
    ghost var dead: bool

    ghost predicate Valid()
      reads this, inner, inner.buffer
    {
      inner.Valid() && (opening.Negotiated? ==> io != null)
    }

    ghost function State(): StreamState
      requires Valid()
      reads this, inner, inner.buffer
    {
      StreamState(opening, inner.State(), dead)
    }

    constructor (config: Config)
      ensures Valid() && State() == StreamState(Unopened, NewInner(config), false)
    {
      opening := Unopened;
      inner := new Inner(config);
      io := null;
      dead := false;
    }

    method OnNegotiated(io: Io)
      requires Valid()
      modifies this
      ensures Valid() && State() == old(State()).(opening := Negotiated) && this.io == io
    {
      this.io := io;
      opening := Negotiated;
    }

    method Add(bytes: seq<Byte>)
      requires Valid()
      modifies inner
      ensures Valid() && State() == AddTo(old(State()), bytes)
    {
      inner.Add(bytes);
    }

    method PollStream(id: StreamId) returns (event: StreamEvent)
      requires Valid() && !dead
      modifies this, inner, inner.buffer, io
      ensures Valid()
      ensures var script := if old(io) == null then Script([], []) else Script(old(io.incoming), old(io.outgoing));
              (event, State()) == PollOnce(id, old(State()), script)
    {
      hide Recv, SendAll;
      match opening {
        case Unopened =>
          if id.Outgoing? {
            opening := Requested;
            return Request(id.number);
          }
          return StreamPending;
        case Requested => return StreamPending;
        case Negotiated =>
          var outcome := inner.Poll(io);
          match outcome {
            case Hung => return Spins;
            case Ended(Pending) => return StreamPending;
            case Ended(Ready(received)) => return Event(received);
            case Ended(EndOfStream) =>
              if id.Outgoing? {
                opening := Requested;
                return Request(id.number);
              }
              dead := true;
              return Failed;
            case Ended(Broken(LengthOverflow)) => return Panicked;
            case Ended(_) =>
              dead := true;
              return Failed;
          }
      }
    }
  }
}

/**
 One end of an RPC stream: a queue of messages to send, a receive buffer, and the poll that drives both.
 */
module Inners {
  import opened Bytes
  import opened Powers
  import opened Frames
  import opened StreamIo
  import opened Buffers
  import opened Receive
  import opened Send

  datatype InnerState = InnerState(config: Config, queue: seq<Message>, buffer: BufferState)

  /** The frames to send back, in the order of the items that call for them. */
  function RepliesIn(items: seq<Item>): seq<seq<Byte>> {
    if items == [] then []
    else (if items[0].Reply? then [items[0].frame] else []) + RepliesIn(items[1..])
  }

  /** What the items have for the caller, in order. */
  function HandedOn(items: seq<Item>): seq<Received> {
    if items == [] then []
    else (if items[0].Deliver? then [items[0].received] else []) + HandedOn(items[1..])
  }

  function Queued(frames: seq<seq<Byte>>): seq<Message> {
    seq(|frames|, i requires 0 <= i < |frames| => Message(0, frames[i]))
  }

  /** The first frames of every stream: the handshake, and on request the query for the peer's menu. */
  function FirstFrames(config: Config): seq<seq<Byte>> {
    [HANDSHAKE_FRAME] + if config.askMenu then [FrameOf(config.codec.menuQuery)] else []
  }

  function NewInner(config: Config): InnerState {
    InnerState(config, Queued(FirstFrames(config)), EMPTY_BUFFER)
  }

  /** How a poll ends; `Hung` stands for never returning. */
  datatype PollOutcome = Hung | Ended(outcome: Outcome)

  datatype PollRun = PollRun(
    outcome: PollOutcome,
    inner: InnerState,
    incoming: seq<ReadStep>,
    outgoing: seq<WriteStep>,
    written: seq<Byte>,
    items: seq<Item>,
    taken: seq<Byte>,
    most: nat,
    sendPended: bool,
    recvPended: bool)

  /** A poll: send what is queued, receive; if replies were queued and the stream is not full, send again. */
  function PollInner(inner: InnerState, incoming: seq<ReadStep>, outgoing: seq<WriteStep>): (run: PollRun)
    requires |inner.buffer.data| < inner.buffer.cap
    ensures |run.inner.buffer.data| < run.inner.buffer.cap
  {
    var sent := SendAll(inner.queue, outgoing);
    if sent.outcome.Spinning? || sent.outcome.SendFailed? then
      PollRun(if sent.outcome.Spinning? then Hung else Ended(Failure(sent.outcome.kind)), inner.(queue := sent.queue),
              incoming, sent.script, sent.written, [], [], |inner.buffer.data|, false, false)
    else
      var sendPended := sent.outcome.SendPending?;
      var recv := Recv(inner.config, UntilRoom, inner.buffer, incoming);
      var queue := sent.queue + Queued(RepliesIn(recv.items));
      var after := InnerState(inner.config, queue, recv.buffer);
      if !recv.outcome.Pending? || sendPended || queue == [] then
        PollRun(Ended(recv.outcome), after, recv.script, sent.script, sent.written, recv.items, recv.taken,
                recv.most, sendPended, recv.outcome.Pending?)
      else
        var again := SendAll(queue, sent.script);
        var outcome := match again.outcome
          case Spinning => Hung
          case SendFailed(kind) => Ended(Failure(kind))
          case _ => Ended(Pending);
        PollRun(outcome, after.(queue := again.queue), recv.script, again.script, sent.written + again.written,
                recv.items, recv.taken, recv.most, again.outcome.SendPending?, true)
  }

  /** A state between polls: unfinished messages only, and room in the buffer. */
  ghost predicate Live(inner: InnerState) {
    WellQueued(inner.queue) && |inner.buffer.data| < inner.buffer.cap
  }

  lemma {:induction false} RepliesJoined(a: seq<Item>, b: seq<Item>)
    ensures RepliesIn(a + b) == RepliesIn(a) + RepliesIn(b)
    decreases |a|
  {
    if a == [] {
      assert a + b == b;
    } else {
      assert (a + b)[1..] == a[1..] + b;
      RepliesJoined(a[1..], b);
      var first := if a[0].Reply? then [a[0].frame] else [];
      assert first + (RepliesIn(a[1..]) + RepliesIn(b)) == first + RepliesIn(a[1..]) + RepliesIn(b);
    }
  }

  lemma SingleReply(item: Item)
    ensures RepliesIn([item]) == if item.Reply? then [item.frame] else []
    ensures RepliesIn([]) == []
  {
  }

  /** The messages for the replies. */
  lemma RepliesQueued(a: seq<Item>, b: seq<Item>)
    ensures Queued(RepliesIn(a + b)) == Queued(RepliesIn(a)) + Queued(RepliesIn(b))
  {
    RepliesJoined(a, b);
  }

  lemma SingleQueued(item: Item)
    ensures Queued(RepliesIn([item])) == if item.Reply? then [Message(0, item.frame)] else []
    ensures Queued(RepliesIn([])) == []
  {
    SingleReply(item);
  }

  lemma {:induction false} HandedJoined(a: seq<Item>, b: seq<Item>)
    ensures HandedOn(a + b) == HandedOn(a) + HandedOn(b)
    decreases |a|
  {
    if a == [] {
      assert a + b == b;
    } else {
      assert (a + b)[1..] == a[1..] + b;
      HandedJoined(a[1..], b);
      var first := if a[0].Deliver? then [a[0].received] else [];
      assert first + (HandedOn(a[1..]) + HandedOn(b)) == first + HandedOn(a[1..]) + HandedOn(b);
    }
  }

  lemma {:induction false} RepliesAreKept(items: seq<Item>)
    requires AllReplies(items)
    ensures HandedOn(items) == []
    decreases |items|
  {
    if items != [] {
      assert items[0] in items && forall item :: item in items[1..] ==> item in items;
      RepliesAreKept(items[1..]);
    }
  }

  /** What a poll hands to its caller. */
  function HandedBy(outcome: PollOutcome): seq<Received> {
    if outcome.Ended? && outcome.outcome.Ready? then [outcome.outcome.received] else []
  }

  /**
   A poll answers with an event exactly when that is the last item it met, and with a fault likewise;
   all items before it were answered at once.  So what it hands on is what the items have for the caller.
   */
  lemma {:induction false} PollAnswers(inner: InnerState, incoming: seq<ReadStep>, outgoing: seq<WriteStep>)
    requires |inner.buffer.data| < inner.buffer.cap
    ensures var run := PollInner(inner, incoming, outgoing);
            var items := run.items;
            && (forall received :: run.outcome == Ended(Ready(received))
                  <==> items != [] && items[|items| - 1] == Deliver(received))
            && (forall fault :: run.outcome == Ended(Broken(fault))
                  <==> items != [] && items[|items| - 1] == Fatal(fault))
            && (items == [] || AllReplies(items[..|items| - 1]))
            && HandedOn(items) == HandedBy(run.outcome)
  {
    hide Recv, SendAll, RepliesIn, Queued, HandedOn, AllReplies, AnswersLast;
    var recv := Recv(inner.config, UntilRoom, inner.buffer, incoming);
    RecvAnswers(inner.config, UntilRoom, inner.buffer, incoming);
    AnswersAreLast(recv.outcome, recv.items);
  }

  lemma {:induction false} AnswersAreLast(outcome: Outcome, items: seq<Item>)
    requires AnswersLast(outcome, items)
    ensures forall received :: outcome == Ready(received) <==> items != [] && items[|items| - 1] == Deliver(received)
    ensures forall fault :: outcome == Broken(fault) <==> items != [] && items[|items| - 1] == Fatal(fault)
    ensures items == [] || AllReplies(items[..|items| - 1])
    ensures HandedOn(items) == if outcome.Ready? then [outcome.received] else []
    ensures HandedOn([]) == []
  {
    if items != [] {
      var n := |items| - 1;
      assert items[n] in items && items == items[..n] + [items[n]];
      HandedJoined(items[..n], [items[n]]);
      RepliesAreKept(items[..n]);
      assert [items[n]][1..] == [];
    }
  }

  /**
   What made a poll end: an item; the end of the stream or an error of its kind on either side; another
   error; or that there was nothing more to read, and nothing more to write or no room for it.  Nothing
   else goes wrong before.
   */
  ghost predicate PollCause(incoming: seq<ReadStep>, outgoing: seq<WriteStep>, run: PollRun) {
    && run.outcome.Ended?
    && match run.outcome.outcome
       case Pending =>
         && (ReadAll(incoming, run.incoming) || ReadUpTo(incoming, run.incoming, Stall))
         && WroteWell(outgoing, run.outgoing)
         && (run.inner.queue == [] || run.outgoing == [] || WroteUpTo(outgoing, run.outgoing, Block))
       case EndOfStream =>
         || (WroteWell(outgoing, run.outgoing)
             && (ReadUpTo(incoming, run.incoming, Chunk([]))
                 || ReadUpTo(incoming, run.incoming, Break(UnexpectedEof))))
         || WroteUpTo(outgoing, run.outgoing, Reject(UnexpectedEof))
       case IoError =>
         || (WroteWell(outgoing, run.outgoing) && ReadUpTo(incoming, run.incoming, Break(OtherError)))
         || WroteUpTo(outgoing, run.outgoing, Reject(OtherError))
       case _ => ReadSome(incoming, run.incoming) && WroteWell(outgoing, run.outgoing)
  }

  lemma PollEndsBecause(inner: InnerState, incoming: seq<ReadStep>, outgoing: seq<WriteStep>)
    requires |inner.buffer.data| < inner.buffer.cap && PollInner(inner, incoming, outgoing).outcome.Ended?
    ensures PollCause(incoming, outgoing, PollInner(inner, incoming, outgoing))
  {
    hide Recv, SendAll, RepliesIn, Queued, ReadUpTo, WroteUpTo, ReadAll, ReadSome, OnlyAccepted;
    var sent := SendAll(inner.queue, outgoing);
    var recv := Recv(inner.config, UntilRoom, inner.buffer, incoming);
    SendEndsBecause(inner.queue, outgoing);
    RecvEndsBecause(inner.config, inner.buffer, incoming);
    RecvAnswers(inner.config, UntilRoom, inner.buffer, incoming);
    DoneIsEmpty(inner.queue, outgoing);
    var queue := sent.queue + Queued(RepliesIn(recv.items));
    SendEndsBecause(queue, sent.script);
    DoneIsEmpty(queue, sent.script);
    if sent.outcome.SendDone? {
      SendPassesOn(outgoing, sent, SendAll(queue, sent.script));
    }
  }

  class Inner {
    const config: Config
    var commandQueue: seq<Message>
    const buffer: Buffer

    ghost predicate Valid()
      reads this, buffer
    {
      buffer.Valid()
    }

    function State(): InnerState
      requires buffer.offset <= |buffer.buf|
      reads this, buffer
    {
      InnerState(config, commandQueue, buffer.State())
    }

    constructor (config: Config)
      ensures Valid() && fresh(buffer) && State() == NewInner(config)
    {
      this.config := config;
      commandQueue := Queued(FirstFrames(config));
      buffer := new Buffer();
    }

    method Add(bytes: seq<Byte>)
      requires Valid()
      modifies this
      ensures Valid() && State() == old(State()).(queue := old(commandQueue) + [Message(0, bytes)])
    {
      commandQueue := commandQueue + [Message(0, bytes)];
    }

    method PollSend(io: Io) returns (outcome: SendOutcome)
      modifies this, io
      ensures io.incoming == old(io.incoming)
      ensures var run := SendAll(old(commandQueue), old(io.outgoing));
              && outcome == run.outcome && commandQueue == run.queue
              && io.outgoing == run.script && io.written == old(io.written) + run.written
    {
      hide SendAll, Portion, Advance;
      ghost var sent: seq<Byte> := [];
      while commandQueue != []
        invariant io.incoming == old(io.incoming)
        invariant io.written == old(io.written) + sent
        invariant After([], SendAll(old(commandQueue), old(io.outgoing)))
            == After(sent, SendAll(commandQueue, io.outgoing))
        decreases |io.outgoing|
      {
        var front := commandQueue[0];
        assert sent + [] == sent;
        SendEnds(commandQueue, io.outgoing);
        if |front.bytes| <= front.offset {
          return Spinning;
        }
        ghost var script := io.outgoing;
        var result := io.PollWrite(front.bytes[front.offset..]);
        match result {
          case WritePending => return SendPending;
          case WriteFailed(kind) => return SendFailed(kind);
          case Wrote(count) =>
            ghost var portion := Portion(front, script[0].count);
            PortionTaken(front, script[0].count);
            SendStep(sent, commandQueue, script);
            sent := sent + portion;
            commandQueue := Advance(commandQueue, count);
        }
      }
      SendEnds(commandQueue, io.outgoing);
      assert sent + [] == sent;
      return SendDone;
    }

    method PollRecv(io: Io) returns (outcome: Outcome)
      requires Valid()
      modifies this, buffer, io`incoming
      ensures Valid()
      ensures var run := Recv(config, UntilRoom, old(buffer.State()), old(io.incoming));
              && outcome == run.outcome && buffer.State() == run.buffer && io.incoming == run.script
              && commandQueue == old(commandQueue) + Queued(RepliesIn(run.items))
      decreases Weight(io.incoming) + buffer.offset, Weight(io.incoming)
    {
      hide Recv, React, Fill, CutBuffer, Weight, RepliesIn, HeadOf, Max, Queued;
      ghost var items: seq<Item>, held: nat := [], 0;
      SingleQueued(Fatal(LengthOverflow));
      while true
        invariant Valid()
        invariant io.incoming == old(io.incoming)
        invariant commandQueue == old(commandQueue) + Queued(RepliesIn(items))
        invariant buffer.offset <= old(buffer.offset)
        invariant Preceded([], 0, Recv(config, UntilRoom, old(buffer.State()), old(io.incoming)))
               == Preceded(items, held, Recv(config, UntilRoom, buffer.State(), io.incoming))
        decreases buffer.offset
      {
        ghost var before := buffer.State();
        ghost var rest := Recv(config, UntilRoom, buffer.State(), io.incoming);
        assert Recv(config, UntilRoom, old(buffer.State()), old(io.incoming)).items == items + rest.items;
        RepliesQueued(items, rest.items);
        RecvEnds(config, UntilRoom, before, io.incoming);
        CutCases(config, before);
        var cut := buffer.TryCut(config.codec);
        match cut {
          case NoFrame => break;
          case CutOverflow => return Broken(LengthOverflow);
          case CutBadHeader =>
            SingleQueued(Fatal(UnreadableHeader));
            return Broken(UnreadableHeader);
          case CutFrame(header, bytes) =>
            var item := React(config, header, bytes);
            SingleQueued(item);
            match item {
              case Deliver(received) => return Ready(received);
              case Fatal(fault) => return Broken(fault);
              case Reply(frame) =>
                RepliesQueued(items, [item]);
                RecvStep(items, held, config, UntilRoom, before, io.incoming);
                Add(frame);
                items, held := items + [item], Max(held, |before.data|);
            }
        }
      }
      FillByConserves(UntilRoom, buffer.State(), io.incoming);
      var fill := buffer.PollFill(io);
      match fill {
        case FillPending => return Pending;
        case FillFailed(kind) => return Failure(kind);
        case Filled(count) =>
          if count == 0 {
            return EndOfStream;
          }
          outcome := PollRecv(io);
      }
    }

    method Poll(io: Io) returns (outcome: PollOutcome)
      requires Valid()
      modifies this, buffer, io
      ensures Valid()
      ensures var run := PollInner(old(State()), old(io.incoming), old(io.outgoing));
              && outcome == run.outcome && State() == run.inner
              && io.incoming == run.incoming && io.outgoing == run.outgoing
              && io.written == old(io.written) + run.written
    {
      hide Recv, SendAll;
      var sendPended, recvPended := false, false;
      ghost var rounds := 0;
      ghost var start := State();
      while true
        invariant Valid() && rounds <= 1
        invariant rounds == 0 ==> !sendPended && !recvPended && State() == start
                                  && io.incoming == old(io.incoming) && io.outgoing == old(io.outgoing)
                                      && io.written == old(io.written)
        invariant rounds == 1 ==> recvPended && !sendPended && commandQueue != []
        invariant rounds == 1 ==> SecondRound(start, old(io.incoming), old(io.outgoing), old(io.written), io)
        decreases 2 - rounds
      {
        rounds := rounds + 1;
        SendEnds(commandQueue, io.outgoing);
        DoneIsEmpty(commandQueue, io.outgoing);
        if !sendPended && commandQueue != [] {
          var sent := PollSend(io);
          match sent {
            case Spinning => return Hung;
            case SendFailed(kind) => return Ended(Failure(kind));
            case SendPending => sendPended := true;
            case SendDone =>
          }
        }
        if !recvPended {
          var received := PollRecv(io);
          if !received.Pending? {
            return Ended(received);
          }
          recvPended := true;
          if commandQueue == [] {
            return Ended(Pending);
          }
        }
        if (sendPended || commandQueue == []) && recvPended {
          return Ended(Pending);
        }
      }
    }

    /** The state before the second round of a poll: all was sent, receiving has pended, replies were queued. */
    ghost predicate SecondRound(start: InnerState, incoming: seq<ReadStep>, outgoing: seq<WriteStep>,
        written: seq<Byte>, io: Io)
      requires Valid()
      requires |start.buffer.data| < start.buffer.cap
      reads this, buffer, io
    {
      var sent := SendAll(start.queue, outgoing);
      var recv := Recv(start.config, UntilRoom, start.buffer, incoming);
      && sent.outcome.SendDone?
      && recv.outcome.Pending?
      && State() == InnerState(start.config, sent.queue + Queued(RepliesIn(recv.items)), recv.buffer)
      && io.incoming == recv.script && io.outgoing == sent.script && io.written == written + sent.written
    }
  }
}

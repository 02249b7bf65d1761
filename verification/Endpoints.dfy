/**
 Two ends joined by byte streams in both directions.  Either end may queue a frame or be polled at any
 time, and a poll may read and write in any pieces; runs last up to the first end of stream or fault.
 */
module Endpoints {
  import opened Bytes
  import opened Frames
  import opened StreamIo
  import opened Buffers
  import opened Receive
  import opened Chunks
  import opened Send
  import opened Inners

  /** A frame an end has queued: on its own account, or as an automatic reply. */
  datatype Sent = Sent(auto: bool, frame: seq<Byte>)

  /**
   One end with its history: the frames it queued, the bytes it read, the items it met, what its polls
   answered with, and the bytes it wrote that the other end has not read.
   */
  datatype Side = Side(
    inner: InnerState,
    queued: seq<Sent>,
    received: seq<Byte>,
    items: seq<Item>,
    handed: seq<Received>,
    flight: seq<Byte>)

  datatype Action = Add(frame: seq<Byte>) | Poll(incoming: seq<ReadStep>, outgoing: seq<WriteStep>)

  function Marked(auto: bool, frames: seq<seq<Byte>>): seq<Sent> {
    seq(|frames|, i requires 0 <= i < |frames| => Sent(auto, frames[i]))
  }

  function FramesOf(queued: seq<Sent>): seq<seq<Byte>> {
    seq(|queued|, i requires 0 <= i < |queued| => queued[i].frame)
  }

  function AutoFrames(queued: seq<Sent>): seq<seq<Byte>> {
    if queued == [] then []
    else (if queued[0].auto then [queued[0].frame] else []) + AutoFrames(queued[1..])
  }

  function NewSide(config: Config): Side {
    Side(NewInner(config), Marked(false, FirstFrames(config)), [], [], [], [])
  }

  /** Whether `x` can act so while `y` has the other end: a poll can read only what is in flight. */
  predicate Enabled(x: Side, y: Side, action: Action) {
    match action
    case Add(frame) => frame != []
    case Poll(incoming, outgoing) =>
      && |x.inner.buffer.data| < x.inner.buffer.cap
      && BytesOf(incoming) <= y.flight
      && var run := PollInner(x.inner, incoming, outgoing);
         run.outcome.Ended? && (run.outcome.outcome.Pending? || run.outcome.outcome.Ready?)
  }

  /** The two ends after `x` has acted. */
  function Act(x: Side, y: Side, action: Action): (Side, Side)
    requires Enabled(x, y, action)
  {
    match action
    case Add(frame) =>
      (x.(inner := x.inner.(queue := x.inner.queue + [Message(0, frame)]),
          queued := x.queued + [Sent(false, frame)]),
       y)
    case Poll(incoming, outgoing) =>
      var run := PollInner(x.inner, incoming, outgoing);
      (Side(run.inner,
            x.queued + Marked(true, RepliesIn(run.items)),
            x.received + run.taken,
            x.items + run.items,
            x.handed + HandedBy(run.outcome),
            x.flight + run.written),
       y.(flight := if |run.taken| <= |y.flight| then y.flight[|run.taken|..] else []))
  }

  /** From `x` to `y` nothing is lost: what `x` queued is what `y` read, what is in flight, and what is unsent. */
  ghost predicate Accounted(x: Side, y: Side) {
    Concat(FramesOf(x.queued)) == y.received + x.flight + Unsent(x.inner.queue)
  }

  /** What an end has met and still holds is what the bytes it read amount to. */
  ghost predicate Coherent(x: Side) {
    && Live(x.inner)
    && Items(x.inner.config, x.received) == x.items + Items(x.inner.config, x.inner.buffer.data)
    && x.inner.buffer.data == AfterFrames(x.received, |x.items|)
    && NoFatal(x.items)
    && AutoFrames(x.queued) == RepliesIn(x.items)
    && x.handed == HandedOn(x.items)
  }

  ghost predicate Inv(x: Side, y: Side) {
    Accounted(x, y) && Accounted(y, x) && Coherent(x) && Coherent(y)
  }

  lemma {:induction false} AutoJoined(a: seq<Sent>, b: seq<Sent>)
    ensures AutoFrames(a + b) == AutoFrames(a) + AutoFrames(b)
    decreases |a|
  {
    if a == [] {
      assert a + b == b;
    } else {
      assert (a + b)[1..] == a[1..] + b;
      AutoJoined(a[1..], b);
    }
  }

  lemma {:induction false} AutoOfMarked(auto: bool, frames: seq<seq<Byte>>)
    ensures AutoFrames(Marked(auto, frames)) == if auto then frames else []
    ensures FramesOf(Marked(auto, frames)) == frames
    decreases |frames|
  {
    if frames != [] {
      assert Marked(auto, frames)[1..] == Marked(auto, frames[1..]);
      AutoOfMarked(auto, frames[1..]);
    }
  }

  /** Freshly queued frames are wholly unsent. */
  lemma {:induction false} UnsentOfQueued(frames: seq<seq<Byte>>)
    ensures Unsent(Queued(frames)) == Concat(frames)
    decreases |frames|
  {
    if frames != [] {
      assert Queued(frames)[1..] == Queued(frames[1..]);
      UnsentOfQueued(frames[1..]);
    }
  }

  lemma QueuedIsWell(frames: seq<seq<Byte>>)
    requires forall frame :: frame in frames ==> frame != []
    ensures WellQueued(Queued(frames))
  {
    forall message | message in Queued(frames)
      ensures message.offset < |message.bytes|
    {
      var i :| 0 <= i < |frames| && Queued(frames)[i] == message;
      assert frames[i] in frames;
    }
  }

  lemma WellQueuedJoined(a: seq<Message>, b: seq<Message>)
    requires WellQueued(a) && WellQueued(b)
    ensures WellQueued(a + b)
  {
  }

  /** Replies are never empty. */
  lemma {:induction false} RepliesNotEmpty(config: Config, data: seq<Byte>, n: nat)
    requires n <= |Items(config, data)|
    ensures forall frame :: frame in RepliesIn(Items(config, data)[..n]) ==> frame != []
    decreases |data|
  {
    var items := Items(config, data);
    if n > 0 && HeadOf(data).Whole? {
      var payload := HeadOf(data).payload;
      if !ItemOf(config, payload).Fatal? {
        RepliesNotEmpty(config, data[8 + |payload|..], n - 1);
        assert items[..n][1..] == Items(config, data[8 + |payload|..])[..n - 1];
      }
    }
  }

  /** A poll of a live end returns, keeps it live, and conserves bytes on both of its sides. */
  lemma PollConserves(inner: InnerState, incoming: seq<ReadStep>, outgoing: seq<WriteStep>)
    requires Live(inner)
    ensures var run := PollInner(inner, incoming, outgoing);
            && run.outcome.Ended?
            && Live(run.inner) && run.inner.config == inner.config
            && Unsent(inner.queue) + Concat(RepliesIn(run.items)) == run.written + Unsent(run.inner.queue)
            && (run.outcome.outcome == Pending ==> run.recvPended && (run.inner.queue == [] || run.sendPended))
            && BytesOf(incoming) == run.taken + BytesOf(run.incoming)
    ensures var run := PollInner(inner, incoming, outgoing);
            run.outcome.Ended? && !run.outcome.outcome.Broken? ==>
              && Items(inner.config, inner.buffer.data + run.taken)
                  == run.items + Items(inner.config, run.inner.buffer.data)
              && run.inner.buffer.data == AfterFrames(inner.buffer.data + run.taken, |run.items|)
              && NoFatal(run.items)
  {
    hide Recv, SendAll, Items, AfterFrames, Unsent, NoFatal, WellQueued, RepliesIn, BytesOf;
    var sent := SendAll(inner.queue, outgoing);
    var recv := Recv(inner.config, UntilRoom, inner.buffer, incoming);
    SendConserves(inner.queue, outgoing);
    RecvRefines(inner.config, UntilRoom, inner.buffer, incoming);
    SingleReply(Fatal(LengthOverflow));
    RecvReplies(inner.config, inner.buffer, incoming);
    var replies := RepliesIn(recv.items);
    UnsentOfQueued(replies);
    QueuedIsWell(replies);
    UnsentJoined(sent.queue, Queued(replies));
    WellQueuedJoined(sent.queue, Queued(replies));
    SendConserves(sent.queue + Queued(replies), sent.script);
    var again := SendAll(sent.queue + Queued(replies), sent.script);
    assert Unsent(inner.queue) + [] == Unsent(inner.queue);
    assert Unsent(inner.queue) + Concat(replies) == sent.written + (Unsent(sent.queue) + Concat(replies));
    assert sent.written + (again.written + Unsent(again.queue)) == sent.written + again.written + Unsent(again.queue);
    NothingMet(inner.config, inner.buffer.data);
  }

  lemma NothingMet(config: Config, data: seq<Byte>)
    ensures Items(config, data + []) == [] + Items(config, data)
    ensures AfterFrames(data + [], 0) == data && NoFatal([])
  {
    assert data + [] == data;
    assert [] + Items(config, data) == Items(config, data);
  }

  lemma RecvReplies(config: Config, b: BufferState, script: seq<ReadStep>)
    requires |b.data| < b.cap
    ensures forall frame :: frame in RepliesIn(Recv(config, UntilRoom, b, script).items) ==> frame != []
  {
    hide Recv, Items, AfterFrames, RepliesIn;
    var run := Recv(config, UntilRoom, b, script);
    RecvRefines(config, UntilRoom, b, script);
    var items := Items(config, b.data + run.taken);
    assert items[..|run.items|] == run.items;
    RepliesNotEmpty(config, b.data + run.taken, |run.items|);
  }

  /** At the start of a stream. */
  lemma InvAtStart(configA: Config, configB: Config)
    ensures Inv(NewSide(configA), NewSide(configB))
  {
    hide Coherent, Unsent, Concat, NewInner, FirstFrames;
    SideAtStart(configA);
    SideAtStart(configB);
  }

  lemma SideAtStart(config: Config)
    ensures Coherent(NewSide(config))
    ensures Concat(FramesOf(NewSide(config).queued)) == Unsent(NewSide(config).inner.queue)
  {
    var frames := FirstFrames(config);
    AutoOfMarked(false, frames);
    UnsentOfQueued(frames);
    QueuedIsWell(frames);
  }

  /** Queueing a frame keeps the invariant. */
  lemma AddKeepsInv(x: Side, y: Side, frame: seq<Byte>)
    requires Inv(x, y) && frame != []
    ensures var (x', y') := Act(x, y, Add(frame)); Inv(x', y')
  {
    hide Items, AfterFrames, NoFatal, PollInner, Unsent, AutoFrames, Concat, RepliesIn;
    var (x', y') := Act(x, y, Add(frame));
    AddOne(x, frame);
    assert y.received + x.flight + (Unsent(x.inner.queue) + frame) == y.received + x.flight
        + Unsent(x.inner.queue) + frame;
  }

  lemma AddOne(x: Side, frame: seq<Byte>)
    ensures Concat(FramesOf(x.queued + [Sent(false, frame)])) == Concat(FramesOf(x.queued)) + frame
    ensures Unsent(x.inner.queue + [Message(0, frame)]) == Unsent(x.inner.queue) + frame
    ensures AutoFrames(x.queued + [Sent(false, frame)]) == AutoFrames(x.queued)
  {
    assert FramesOf(x.queued + [Sent(false, frame)]) == FramesOf(x.queued) + [frame];
    ConcatJoined(FramesOf(x.queued), [frame]);
    assert Concat([frame]) == frame;
    UnsentJoined(x.inner.queue, [Message(0, frame)]);
    assert Unsent([Message(0, frame)]) == frame;
    AutoJoined(x.queued, [Sent(false, frame)]);
    assert AutoFrames([Sent(false, frame)]) == [];
  }

  /** A poll keeps what the polled end says about the bytes it read. */
  lemma PollKeepsCoherent(x: Side, y: Side, incoming: seq<ReadStep>, outgoing: seq<WriteStep>)
    requires Inv(x, y) && Enabled(x, y, Poll(incoming, outgoing))
    ensures Coherent(Act(x, y, Poll(incoming, outgoing)).0)
  {
    hide PollInner, Items, AfterFrames, NoFatal, RepliesIn, HandedOn, HandedBy, AutoFrames, Unsent, BytesOf, Accounted;
    var run := PollInner(x.inner, incoming, outgoing);
    PollConserves(x.inner, incoming, outgoing);
    PollAnswers(x.inner, incoming, outgoing);
    MeetsMore(x.inner.config, x.received, x.items, x.inner.buffer.data, run.taken, run.items, run.inner.buffer.data);
    HandedJoined(x.items, run.items);
    RepliesJoined(x.items, run.items);
    AutoJoined(x.queued, Marked(true, RepliesIn(run.items)));
    AutoOfMarked(true, RepliesIn(run.items));
  }

  /** What was met and is still held, and what a poll met and left, in one. */
  lemma {:induction false} MeetsMore(config: Config, received: seq<Byte>, items: seq<Item>, held: seq<Byte>,
      taken: seq<Byte>, met: seq<Item>, left: seq<Byte>)
    requires Items(config, received) == items + Items(config, held) && held == AfterFrames(received, |items|)
    requires Items(config, held + taken) == met + Items(config, left) && left == AfterFrames(held + taken, |met|)
    requires NoFatal(items) && NoFatal(met)
    ensures Items(config, received + taken) == items + met + Items(config, left)
    ensures left == AfterFrames(received + taken, |items + met|) && NoFatal(items + met)
  {
    hide Items, AfterFrames, NoFatal;
    assert Items(config, received)[..|items|] == items;
    AfterFramesInTwo(config, received, taken, |items|, |met|);
    assert items + (met + Items(config, left)) == items + met + Items(config, left);
    NoFatalJoined(items, met);
  }

  /** A poll loses no byte in either direction. */
  lemma PollKeepsAccounted(x: Side, y: Side, incoming: seq<ReadStep>, outgoing: seq<WriteStep>)
    requires Inv(x, y) && Enabled(x, y, Poll(incoming, outgoing))
    ensures var (x', y') := Act(x, y, Poll(incoming, outgoing)); Accounted(x', y') && Accounted(y', x')
  {
    hide PollInner, HandedBy, HandedOn, Items, AfterFrames, NoFatal, RepliesIn, AutoFrames, Unsent, BytesOf, Concat;
    var run := PollInner(x.inner, incoming, outgoing);
    var (x', y') := Act(x, y, Poll(incoming, outgoing));
    PollConserves(x.inner, incoming, outgoing);
    var replies := RepliesIn(run.items);
    AutoOfMarked(true, replies);
    assert FramesOf(x'.queued) == FramesOf(x.queued) + replies by {
      assert FramesOf(x'.queued) == FramesOf(x.queued) + FramesOf(Marked(true, replies));
    }
    ConcatJoined(FramesOf(x.queued), replies);
    assert y.received + x.flight + Unsent(x.inner.queue) + Concat(replies)
        == y.received + x.flight + (Unsent(x.inner.queue) + Concat(replies))
        == y.received + (x.flight + run.written) + Unsent(run.inner.queue);
    assert |run.taken| <= |y.flight| && y.flight == run.taken + y.flight[|run.taken|..];
    assert x.received + y.flight + Unsent(y.inner.queue)
        == x.received + run.taken + y.flight[|run.taken|..] + Unsent(y.inner.queue);
  }

  lemma ActKeepsInv(x: Side, y: Side, action: Action)
    requires Inv(x, y) && Enabled(x, y, action)
    ensures var (x', y') := Act(x, y, action); Inv(x', y')
  {
    hide Accounted, Coherent;
    match action
    case Add(frame) => AddKeepsInv(x, y, frame);
    case Poll(incoming, outgoing) =>
      PollKeepsCoherent(x, y, incoming, outgoing);
      PollKeepsAccounted(x, y, incoming, outgoing);
      OtherStaysCoherent(x, y, action);
  }

  lemma OtherStaysCoherent(x: Side, y: Side, action: Action)
    requires Coherent(y) && Enabled(x, y, action)
    ensures Coherent(Act(x, y, action).1)
  {
  }
}

/**
 One end of a stream on its own, against any peer and any streams: what it writes on its substreams,
 how large its buffer grows, and what a reopened substream starts with.
 */
module Substreams {
  import opened Bytes
  import opened Powers
  import opened Frames
  import opened StreamIo
  import opened Buffers
  import opened Receive
  import opened Chunks
  import opened Send
  import opened Inners
  import opened Endpoints

  /**
   An end with its history: the frames it queued; what it wrote on each substream so far, the current
   one last; what its buffer held when the current substream began, what it read on that substream, the
   items it met there and those it met on earlier ones; what all its polls answered with; and the most
   bytes its buffer ever held.  It is over once a poll has ended otherwise than by pending, by an event
   for the caller, or by a reopening.
   */
  datatype End = End(
    inner: InnerState,
    outgoing: bool,
    queued: seq<seq<Byte>>,
    outputs: seq<seq<Byte>>,
    kept: seq<Byte>,
    received: seq<Byte>,
    items: seq<Item>,
    past: seq<Item>,
    handed: seq<Received>,
    peak: nat,
    over: bool)

  function NewEnd(config: Config, outgoing: bool): End {
    End(NewInner(config), outgoing, FirstFrames(config), [[]], [], [], [], [], [], 0, false)
  }

  /** More was written on the current substream. */
  function Wrote(outputs: seq<seq<Byte>>, written: seq<Byte>): seq<seq<Byte>>
    requires outputs != []
  {
    outputs[..|outputs| - 1] + [outputs[|outputs| - 1] + written]
  }

  /** The end after an action; when the stream of an outgoing end is over, the next substream begins. */
  function Do(e: End, action: Action): (after: End)
    requires |e.inner.buffer.data| < e.inner.buffer.cap && e.outputs != []
    ensures |after.inner.buffer.data| < after.inner.buffer.cap && after.outputs != []
  {
    match action
    case Add(frame) =>
      e.(inner := e.inner.(queue := e.inner.queue + [Message(0, frame)]), queued := e.queued + [frame])
    case Poll(incoming, outgoing) =>
      var run := PollInner(e.inner, incoming, outgoing);
      var outputs, peak := Wrote(e.outputs, run.written), Max(e.peak, run.most);
      var queued, items := e.queued + RepliesIn(run.items), e.items + run.items;
      var handed := e.handed + HandedBy(run.outcome);
      if e.outgoing && run.outcome == Ended(EndOfStream) then
        End(run.inner, true, queued, outputs + [[]], run.inner.buffer.data, [], [], e.past + items, handed, peak,
            false)
      else
        End(run.inner, e.outgoing, queued, outputs, e.kept, e.received + run.taken, items, e.past, handed, peak,
            !(run.outcome.Ended? && (run.outcome.outcome.Pending? || run.outcome.outcome.Ready?)))
  }

  /** Frames are not empty, and an end that is over is not polled; nothing is asked of the streams. */
  predicate CanDo(e: End, action: Action) {
    match action
    case Add(frame) => frame != []
    case Poll(incoming, outgoing) => !e.over
  }

  /** The queue is the last of the frames queued, and only its front can be partly written. */
  ghost predicate Shaped(queue: seq<Message>, queued: seq<seq<Byte>>) {
    && |queue| <= |queued|
    && (forall i :: 0 <= i < |queue| ==> queue[i].bytes == queued[|queued| - |queue| + i])
    && (forall i :: 0 < i < |queue| ==> queue[i].offset == 0)
  }

  ghost predicate Tracks(e: End) {
    && Live(e.inner)
    && e.outputs != []
    && Shaped(e.inner.queue, e.queued)
    && (forall frame :: frame in e.queued ==> frame != [])
    && Concat(e.outputs) + Unsent(e.inner.queue) == Concat(e.queued)
    && e.queued != [] && e.queued[0] == HANDSHAKE_FRAME
    && Sound(e.inner.buffer, e.peak)
    && e.handed == HandedOn(e.past + e.items)
  }

  /** The items met on the current substream are those of what was kept, followed by what was read. */
  ghost predicate Reads(e: End) {
    && Items(e.inner.config, e.kept + e.received) == e.items + Items(e.inner.config, e.inner.buffer.data)
    && e.inner.buffer.data == AfterFrames(e.kept + e.received, |e.items|)
    && NoFatal(e.items)
  }

  lemma {:induction false} AdvanceKeepsShape(queue: seq<Message>, count: nat, queued: seq<seq<Byte>>)
    requires queue != [] && Shaped(queue, queued)
    ensures Shaped(Advance(queue, count), queued)
  {
    var next := Advance(queue, count);
    if |queue[0].bytes| <= queue[0].offset + count {
      assert forall i :: 0 <= i < |next| ==> next[i] == queue[i + 1];
    } else {
      assert forall i :: 0 < i < |next| ==> next[i] == queue[i];
    }
  }

  lemma {:induction false} SendKeepsShape(queue: seq<Message>, script: seq<WriteStep>, queued: seq<seq<Byte>>)
    requires Shaped(queue, queued)
    ensures Shaped(SendAll(queue, script).queue, queued)
    decreases |script|
  {
    hide Advance, Portion, Shaped;
    if queue == [] {
    } else if queue[0].offset < |queue[0].bytes| && script != [] && script[0].Accept? {
      var count := |Portion(queue[0], script[0].count)|;
      AdvanceKeepsShape(queue, count, queued);
      SendKeepsShape(Advance(queue, count), script[1..], queued);
    }
  }

  lemma AppendKeepsShape(queue: seq<Message>, queued: seq<seq<Byte>>, frames: seq<seq<Byte>>)
    requires Shaped(queue, queued)
    ensures Shaped(queue + Queued(frames), queued + frames)
  {
    var joined, all := queue + Queued(frames), queued + frames;
    forall i | 0 <= i < |joined|
      ensures joined[i].bytes == all[|all| - |joined| + i]
    {
      assert |queue| <= i ==> joined[i] == Queued(frames)[i - |queue|];
    }
  }

  lemma {:induction false} ConcatWrote(outputs: seq<seq<Byte>>, written: seq<Byte>)
    ensures Concat(outputs + [[]]) == Concat(outputs)
    ensures outputs != [] ==> Concat(Wrote(outputs, written)) == Concat(outputs) + written
  {
    ConcatJoined(outputs, [[]]);
    ConcatOne([]);
    if outputs == [] {
      return;
    }
    var done, last := outputs[..|outputs| - 1], outputs[|outputs| - 1];
    assert outputs == done + [last];
    ConcatJoined(done, [last]);
    ConcatJoined(done, [last + written]);
    ConcatOne(last);
    ConcatOne(last + written);
  }

  lemma ConcatOne(frame: seq<Byte>)
    ensures Concat([frame]) == frame && Concat([]) == []
  {
    var one := [frame];
    assert one[1..] == [];
  }

  /** The queue of a polled end is still the last of the frames it queued. */
  lemma PollKeepsShape(inner: InnerState, incoming: seq<ReadStep>, outgoing: seq<WriteStep>,
      queued: seq<seq<Byte>>)
    requires |inner.buffer.data| < inner.buffer.cap && Shaped(inner.queue, queued)
    ensures var run := PollInner(inner, incoming, outgoing);
            Shaped(run.inner.queue, queued + RepliesIn(run.items))
  {
    hide Recv, SendAll, RepliesIn, Queued, Shaped;
    var sent, recv := SendAll(inner.queue, outgoing), Recv(inner.config, UntilRoom, inner.buffer, incoming);
    var replies := RepliesIn(recv.items);
    SingleReply(Fatal(LengthOverflow));
    assert queued + [] == queued;
    SendKeepsShape(inner.queue, outgoing, queued);
    AppendKeepsShape(sent.queue, queued, replies);
    SendKeepsShape(sent.queue + Queued(replies), sent.script, queued + replies);
  }

  lemma PollKeepsSound(inner: InnerState, incoming: seq<ReadStep>, outgoing: seq<WriteStep>,
      peak: nat)
    requires Sound(inner.buffer, peak)
    ensures var run := PollInner(inner, incoming, outgoing); Sound(run.inner.buffer, Max(peak, run.most))
  {
    hide Recv, SendAll, RepliesIn, Queued, IsPow2;
    RecvKeepsSound(inner.config, inner.buffer, incoming, peak);
  }

  lemma PollRepliesWell(inner: InnerState, incoming: seq<ReadStep>, outgoing: seq<WriteStep>)
    requires |inner.buffer.data| < inner.buffer.cap
    ensures forall frame :: frame in RepliesIn(PollInner(inner, incoming, outgoing).items) ==> frame != []
  {
    hide Recv, SendAll, RepliesIn, Queued;
    SingleReply(Fatal(LengthOverflow));
    RecvReplies(inner.config, inner.buffer, incoming);
  }

  /** Every action keeps all of it, whatever the streams do and however a poll ends. */
  lemma DoKeepsTracks(e: End, action: Action)
    requires Tracks(e) && CanDo(e, action)
    ensures Tracks(Do(e, action))
  {
    hide PollInner, RepliesIn, HandedOn, HandedBy, Unsent, Concat, Shaped, Sound, WellQueued, Wrote;
    match action
    case Add(frame) => AddKeepsTracks(e, frame);
    case Poll(incoming, outgoing) =>
      assert |e.inner.buffer.data| < e.inner.buffer.cap;
      var run := PollInner(e.inner, incoming, outgoing);
      PollConserves(e.inner, incoming, outgoing);
      PollKeepsShape(e.inner, incoming, outgoing, e.queued);
      PollKeepsSound(e.inner, incoming, outgoing, e.peak);
      PollRepliesWell(e.inner, incoming, outgoing);
      HandsOnMore(e, incoming, outgoing);
      var replies, flat := RepliesIn(run.items), Concat(e.outputs);
      ConcatJoined(e.queued, replies);
      ConcatWrote(e.outputs, run.written);
      WroteNotEmpty(e.outputs, run.written);
      ConcatWrote(Wrote(e.outputs, run.written), []);
      assert flat + run.written + Unsent(run.inner.queue) == flat + (run.written + Unsent(run.inner.queue));
      assert flat + (Unsent(e.inner.queue) + Concat(replies)) == flat + Unsent(e.inner.queue) + Concat(replies);
  }

  lemma HandsOnMore(e: End, incoming: seq<ReadStep>, outgoing: seq<WriteStep>)
    requires |e.inner.buffer.data| < e.inner.buffer.cap && e.handed == HandedOn(e.past + e.items)
    ensures var run := PollInner(e.inner, incoming, outgoing);
            e.handed + HandedBy(run.outcome) == HandedOn(e.past + (e.items + run.items))
                                             == HandedOn(e.past + (e.items + run.items) + [])
  {
    hide PollInner, HandedBy;
    PollAnswers(e.inner, incoming, outgoing);
    var items := PollInner(e.inner, incoming, outgoing).items;
    HandedJoined(e.past + e.items, items);
    assert e.past + (e.items + items) == e.past + e.items + items;
    assert e.past + (e.items + items) + [] == e.past + (e.items + items);
  }

  lemma WroteNotEmpty(outputs: seq<seq<Byte>>, written: seq<Byte>)
    requires outputs != []
    ensures Wrote(outputs, written) != []
  {
  }

  lemma AddKeepsTracks(e: End, frame: seq<Byte>)
    requires Tracks(e) && frame != []
    ensures Tracks(Do(e, Add(frame)))
  {
    hide RepliesIn, Unsent, Concat, Shaped, Sound, WellQueued;
    var queue := e.inner.queue;
    AppendKeepsShape(queue, e.queued, [frame]);
    assert Queued([frame]) == [Message(0, frame)];
    UnsentJoined(queue, Queued([frame]));
    UnsentOfQueued([frame]);
    ConcatJoined(e.queued, [frame]);
    QueuedIsWell([frame]);
    WellQueuedJoined(queue, Queued([frame]));
    assert Concat(e.outputs) + (Unsent(queue) + Concat([frame])) == Concat(e.outputs) + Unsent(queue) + Concat([frame]);
  }

  lemma FirstFramesWell(config: Config)
    ensures forall frame :: frame in FirstFrames(config) ==> frame != []
  {
  }

  lemma TracksAtStart(config: Config, outgoing: bool)
    ensures Tracks(NewEnd(config, outgoing))
  {
    hide IsPow2, Queued, WellQueued, Unsent, Sound, HANDSHAKE_FRAME, FrameOf;
    var frames := FirstFrames(config);
    FirstFramesWell(config);
    UnsentOfQueued(frames);
    QueuedIsWell(frames);
    AppendKeepsShape([], [], frames);
    assert [] + frames == frames && [] + Queued(frames) == Queued(frames);
    ConcatOne([]);
    EmptyIsSound();
  }

  predicate CanDoAll(e: End, actions: seq<Action>)
    requires |e.inner.buffer.data| < e.inner.buffer.cap && e.outputs != []
    decreases |actions|
  {
    actions == [] || (CanDo(e, actions[0]) && CanDoAll(Do(e, actions[0]), actions[1..]))
  }

  function DoAll(e: End, actions: seq<Action>): (after: End)
    requires |e.inner.buffer.data| < e.inner.buffer.cap && e.outputs != []
    ensures |after.inner.buffer.data| < after.inner.buffer.cap && after.outputs != []
    decreases |actions|
  {
    if actions == [] then e else DoAll(Do(e, actions[0]), actions[1..])
  }

  lemma {:induction false} RunKeepsTracks(e: End, actions: seq<Action>)
    requires Tracks(e) && (e.over || Reads(e)) && CanDoAll(e, actions)
    ensures var after := DoAll(e, actions); Tracks(after) && (after.over || Reads(after))
    decreases |actions|
  {
    hide Do, Sound, Shaped, Unsent, Concat, WellQueued, Reads;
    if actions != [] {
      DoKeepsTracks(e, actions[0]);
      if e.over {
        StaysOver(e, actions[0]);
      } else {
        DoKeepsReads(e, actions[0]);
      }
      RunKeepsTracks(Do(e, actions[0]), actions[1..]);
    }
  }

  lemma DoKeepsReads(e: End, action: Action)
    requires Tracks(e) && Reads(e) && CanDo(e, action)
    ensures !Do(e, action).over ==> Reads(Do(e, action))
  {
    hide PollInner, Items, AfterFrames, NoFatal, RepliesIn, HandedBy, Wrote, WellQueued, Shaped, Sound, Unsent, Concat;
    match action
    case Add(_) =>
    case Poll(incoming, outgoing) =>
      var run := PollInner(e.inner, incoming, outgoing);
      PollConserves(e.inner, incoming, outgoing);
      if !Do(e, action).over {
        ReadsMore(e, run.taken, run.items, run.inner.buffer.data);
        NothingMet(e.inner.config, run.inner.buffer.data);
        assert run.inner.buffer.data + [] == run.inner.buffer.data;
      }
  }

  lemma ReadsMore(e: End, taken: seq<Byte>, items: seq<Item>, left: seq<Byte>)
    requires Reads(e) && NoFatal(items)
    requires Items(e.inner.config, e.inner.buffer.data + taken) == items + Items(e.inner.config, left)
    requires left == AfterFrames(e.inner.buffer.data + taken, |items|)
    ensures var config, data := e.inner.config, e.kept + (e.received + taken);
            && Items(config, data) == e.items + items + Items(config, left)
            && left == AfterFrames(data, |e.items| + |items|)
            && NoFatal(e.items + items)
  {
    hide Items, AfterFrames, NoFatal;
    assert e.kept + (e.received + taken) == e.kept + e.received + taken;
    MeetsMore(e.inner.config, e.kept + e.received, e.items, e.inner.buffer.data, taken, items, left);
  }

  lemma StaysOver(e: End, action: Action)
    requires Live(e.inner) && e.outputs != [] && e.over && CanDo(e, action)
    ensures Do(e, action).over
  {
  }

  lemma {:induction false} StaysOutgoing(e: End, actions: seq<Action>)
    requires |e.inner.buffer.data| < e.inner.buffer.cap && e.outputs != []
    ensures DoAll(e, actions).outgoing == e.outgoing
    decreases |actions|
  {
    hide PollInner, RepliesIn;
    if actions != [] {
      StaysOutgoing(Do(e, actions[0]), actions[1..]);
    }
  }

  lemma ReadsAtStart(config: Config, outgoing: bool)
    ensures Reads(NewEnd(config, outgoing))
  {
    NothingMet(config, []);
  }

  lemma CarriesTheQueue(e: End)
    requires Tracks(e)
    ensures e.queued != [] && Sound(e.inner.buffer, e.peak)
    ensures Concat(e.outputs) + Unsent(e.inner.queue) == HANDSHAKE_FRAME + Concat(e.queued[1..])
    ensures e.outputs[0] <= HANDSHAKE_FRAME + Concat(e.queued[1..])
  {
    hide Sound, Shaped, Unsent, WellQueued, HANDSHAKE_FRAME;
    var all := HANDSHAKE_FRAME + Concat(e.queued[1..]);
    assert Concat(e.queued) == all;
    var first, rest := e.outputs[0], Concat(e.outputs[1..]) + Unsent(e.inner.queue);
    assert first + Concat(e.outputs[1..]) + Unsent(e.inner.queue) == first + rest;
    assert all[..|first|] == first;
  }

  /**
   In every run from the start, against any peer and however its polls end: what the end has written on
   its substreams, and what it has still to write, make up the handshake followed by the other frames it
   queued, in order; so the first substream carries a prefix of them.  The buffer is bounded throughout.
   */
  lemma SubstreamsCarryTheQueue(config: Config, outgoing: bool, actions: seq<Action>)
    requires CanDoAll(NewEnd(config, outgoing), actions)
    ensures var e := DoAll(NewEnd(config, outgoing), actions);
            && e.queued != []
            && Concat(e.outputs) + Unsent(e.inner.queue) == HANDSHAKE_FRAME + Concat(e.queued[1..])
            && e.outputs[0] <= HANDSHAKE_FRAME + Concat(e.queued[1..])
            && Sound(e.inner.buffer, e.peak)
  {
    hide CanDoAll, DoAll, Tracks, Sound, Unsent, HANDSHAKE_FRAME, Reads, Concat;
    TracksAtStart(config, outgoing);
    ReadsAtStart(config, outgoing);
    RunKeepsTracks(NewEnd(config, outgoing), actions);
    CarriesTheQueue(DoAll(NewEnd(config, outgoing), actions));
  }

  /** How a run goes on from the current substream: what was done before it is not touched. */
  lemma {:induction false} OnlyGrows(e: End, actions: seq<Action>)
    requires |e.inner.buffer.data| < e.inner.buffer.cap && e.outputs != []
    ensures var after, k := DoAll(e, actions), |e.outputs| - 1;
            && k < |after.outputs|
            && after.outputs[..k] == e.outputs[..k]
            && e.queued <= after.queued
    decreases |actions|
  {
    hide PollInner, RepliesIn;
    if actions != [] {
      OnlyGrows(Do(e, actions[0]), actions[1..]);
      var next, after := Do(e, actions[0]), DoAll(e, actions);
      var k := |e.outputs| - 1;
      assert next.outputs[..k] == e.outputs[..k];
      assert after.outputs[..k] == after.outputs[..|next.outputs| - 1][..k];
    }
  }

  /** A substream that has just begun carries a prefix of what was unsent, followed by the frames queued since. */
  lemma NextSubstream(e: End, actions: seq<Action>)
    requires Tracks(e) && (e.over || Reads(e)) && CanDoAll(e, actions)
    requires e.outputs[|e.outputs| - 1] == []
    ensures |e.outputs| <= |DoAll(e, actions).outputs| && |e.queued| <= |DoAll(e, actions).queued|
    ensures var after, k := DoAll(e, actions), |e.outputs| - 1;
            var due := Unsent(e.inner.queue) + Concat(after.queued[|e.queued|..]);
            && after.outputs[k] <= due
            && (|after.outputs| == |e.outputs| ==> due == after.outputs[k] + Unsent(after.inner.queue))
  {
    hide CanDoAll, DoAll, Sound, Shaped, Unsent, WellQueued, Reads, Concat;
    RunKeepsTracks(e, actions);
    OnlyGrows(e, actions);
    var after, k := DoAll(e, actions), |e.outputs| - 1;
    var more := after.queued[|e.queued|..];
    assert after.queued == e.queued + more;
    ConcatJoined(e.queued, more);
    var before, later := after.outputs[..k], after.outputs[k + 1..];
    assert e.outputs == before + [[]];
    assert Concat(e.outputs) == Concat(before) by { ConcatWrote(before, []); }
    assert after.outputs == before + [after.outputs[k]] + later;
    ConcatJoined(before + [after.outputs[k]], later);
    ConcatJoined(before, [after.outputs[k]]);
    ConcatOne(after.outputs[k]);
    var unsent, left, tail := Unsent(e.inner.queue), Unsent(after.inner.queue), Concat(later);
    assert Concat(before) + unsent + Concat(more) == Concat(before) + (unsent + Concat(more));
    assert Concat(before) + after.outputs[k] + tail + left == Concat(before) + (after.outputs[k] + (tail + left));
    Cancel(Concat(before), after.outputs[k], Concat(later) + Unsent(after.inner.queue),
           Unsent(e.inner.queue) + Concat(more));
    if |after.outputs| == |e.outputs| {
      assert later == [];
      ConcatOne([]);
      assert after.outputs[k] + ([] + Unsent(after.inner.queue)) == after.outputs[k] + Unsent(after.inner.queue);
    }
  }

  lemma Cancel(front: seq<Byte>, a: seq<Byte>, b: seq<Byte>, c: seq<Byte>)
    requires front + (a + b) == front + c
    ensures c == a + b && a <= c
  {
    assert (front + (a + b))[|front|..] == a + b;
    assert (front + c)[|front|..] == c;
  }
}

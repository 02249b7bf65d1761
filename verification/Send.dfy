/**
 Sending: queued messages written in order, in whatever pieces the stream accepts.
 */
module Send {
  import opened Bytes
  import opened StreamIo

  /** A queued message and how many of its bytes were written. */
  datatype Message = Message(offset: nat, bytes: seq<Byte>)

  /** `Spinning` stands for never returning. */
  datatype SendOutcome = SendPending | SendFailed(kind: ErrorKind) | SendDone | Spinning

  datatype SendRun = SendRun(outcome: SendOutcome, queue: seq<Message>, script: seq<WriteStep>, written: seq<Byte>)

  /** Bytes of the front message that a write takes when the stream accepts `count`. */
  function Portion(front: Message, count: nat): seq<Byte>
    requires front.offset <= |front.bytes|
  {
    if count < |front.bytes| - front.offset then
      front.bytes[front.offset..front.offset + count]
    else
      front.bytes[front.offset..]
  }

  /** The queue after `count` more bytes of its front message were written. */
  function Advance(queue: seq<Message>, count: nat): seq<Message>
    requires queue != []
  {
    var offset := queue[0].offset + count;
    if |queue[0].bytes| <= offset then queue[1..] else [queue[0].(offset := offset)] + queue[1..]
  }

  function SendAll(queue: seq<Message>, script: seq<WriteStep>): SendRun
    decreases |script|
  {
    if queue == [] then
      SendRun(SendDone, [], script, [])
    else if |queue[0].bytes| <= queue[0].offset then
      SendRun(Spinning, queue, script, [])
    else if script == [] then
      SendRun(SendPending, queue, [], [])
    else
      match script[0]
      case Block => SendRun(SendPending, queue, script[1..], [])
      case Reject(kind) => SendRun(SendFailed(kind), queue, script[1..], [])
      case Accept(count) =>
        var portion := Portion(queue[0], count);
        var more := SendAll(Advance(queue, |portion|), script[1..]);
        more.(written := portion + more.written)
  }

  /** A run that first wrote `sent`. */
  function After(sent: seq<Byte>, run: SendRun): SendRun {
    run.(written := sent + run.written)
  }

  /** One accepted write, then the rest of the run. */
  lemma SendStep(sent: seq<Byte>, queue: seq<Message>, script: seq<WriteStep>)
    requires queue != [] && queue[0].offset < |queue[0].bytes|
    requires script != [] && script[0].Accept?
    ensures var portion := Portion(queue[0], script[0].count);
            After(sent, SendAll(queue, script))
                == After(sent + portion, SendAll(Advance(queue, |portion|), script[1..]))
  {
    hide Portion, Advance;
    var portion := Portion(queue[0], script[0].count);
    var more := SendAll(Advance(queue, |portion|), script[1..]);
    assert sent + (portion + more.written) == sent + portion + more.written;
  }

  /** The other ways a run can begin. */
  lemma SendEnds(queue: seq<Message>, script: seq<WriteStep>)
    ensures queue == [] ==> SendAll(queue, script) == SendRun(SendDone, [], script, [])
    ensures queue != [] && |queue[0].bytes| <= queue[0].offset
        ==> SendAll(queue, script) == SendRun(Spinning, queue, script, [])
    ensures queue != [] && queue[0].offset < |queue[0].bytes| ==>
              var (result, left) := WriteOnce(script, |queue[0].bytes| - queue[0].offset);
              match result
              case WritePending => SendAll(queue, script) == SendRun(SendPending, queue, left, [])
              case WriteFailed(kind) => SendAll(queue, script) == SendRun(SendFailed(kind), queue, left, [])
              case Wrote(count) => script != [] && script[0].Accept?
  {
  }

  lemma {:induction false} DoneIsEmpty(queue: seq<Message>, script: seq<WriteStep>)
    ensures SendAll(queue, script).outcome.SendDone? ==> SendAll(queue, script).queue == []
    decreases |script|
  {
    hide Portion, Advance;
    if queue != [] && queue[0].offset < |queue[0].bytes| && script != [] && script[0].Accept? {
      DoneIsEmpty(Advance(queue, |Portion(queue[0], script[0].count)|), script[1..]);
    }
  }

  lemma PortionTaken(front: Message, count: nat)
    requires front.offset <= |front.bytes|
    ensures var n := if count < |front.bytes| - front.offset then count else |front.bytes| - front.offset;
            Portion(front, count) == front.bytes[front.offset..][..n] && |Portion(front, count)| == n
  {
  }

  /** A write takes all that the stream accepts of the front message; a message fully written gives way to the next. */
  lemma {:induction false} TakesAllAccepted(queue: seq<Message>, script: seq<WriteStep>)
    requires queue != [] && queue[0].offset < |queue[0].bytes| && script != [] && script[0].Accept?
    ensures var front, count := queue[0], script[0].count;
            var left, run := front.bytes[front.offset..], SendAll(queue, script);
            if count < |left| then
              run == After(left[..count], SendAll([front.(offset := front.offset + count)] + queue[1..], script[1..]))
            else
              run == After(left, SendAll(queue[1..], script[1..]))
  {
    var front, count := queue[0], script[0].count;
    PortionTaken(front, count);
    assert count >= |front.bytes| - front.offset ==> Portion(front, count) == front.bytes[front.offset..];
  }

  /** The first `n` writes were accepted. */
  predicate OnlyAccepted(script: seq<WriteStep>, n: nat) {
    n <= |script| && forall i :: 0 <= i < n ==> script[i].Accept?
  }

  /** Writes were accepted up to a step, the last one used up. */
  predicate WroteUpTo(script: seq<WriteStep>, left: seq<WriteStep>, step: WriteStep) {
    StoppedAt(script, left, step) && OnlyAccepted(script, |script| - |left| - 1)
  }

  /** No write failed: all were accepted, but for one at the end that found no room. */
  predicate WroteWell(script: seq<WriteStep>, left: seq<WriteStep>) {
    |left| <= |script| && (OnlyAccepted(script, |script| - |left|) || WroteUpTo(script, left, Block))
  }

  /** What made sending end: no room, an error, or nothing left; before it, all writes were accepted. */
  ghost predicate SendCause(script: seq<WriteStep>, run: SendRun) {
    && |run.script| <= |script| && run.script == script[|script| - |run.script|..]
    && match run.outcome
       case SendPending =>
         (run.script == [] && OnlyAccepted(script, |script|)) || WroteUpTo(script, run.script, Block)
       case SendFailed(kind) => WroteUpTo(script, run.script, Reject(kind))
       case _ => OnlyAccepted(script, |script| - |run.script|)
  }

  lemma {:induction false} SendEndsBecause(queue: seq<Message>, script: seq<WriteStep>)
    ensures SendCause(script, SendAll(queue, script))
    decreases |script|
  {
    if queue != [] && queue[0].offset < |queue[0].bytes| && script != [] && script[0].Accept? {
      hide Portion, Advance, SendCause;
      var portion := Portion(queue[0], script[0].count);
      var more := SendAll(Advance(queue, |portion|), script[1..]);
      SendEndsBecause(Advance(queue, |portion|), script[1..]);
      OneMoreAccepted(script, more);
      SameCause(script, more, SendAll(queue, script));
    }
  }

  lemma SameCause(script: seq<WriteStep>, a: SendRun, b: SendRun)
    requires SendCause(script, a) && a.outcome == b.outcome && a.script == b.script
    ensures SendCause(script, b)
  {
  }

  lemma {:induction false} OneMoreAccepted(script: seq<WriteStep>, run: SendRun)
    requires script != [] && script[0].Accept? && SendCause(script[1..], run)
    ensures SendCause(script, run)
  {
    var rest := script[1..];
    assert forall i :: 1 <= i < |script| ==> script[i] == rest[i - 1];
  }

  /** What made sending end in the second of two goes, after a first that got everything written. */
  lemma SendPassesOn(script: seq<WriteStep>, first: SendRun, second: SendRun)
    requires SendCause(script, first) && SendCause(first.script, second) && first.outcome.SendDone?
    ensures SendCause(script, second)
  {
    var n := |script| - |first.script|;
    assert forall i :: 0 <= i < |first.script| ==> first.script[i] == script[n + i];
  }

  /** Every queued message still has bytes to write. */
  predicate WellQueued(queue: seq<Message>) {
    forall message :: message in queue ==> message.offset < |message.bytes|
  }

  /** All bytes still to be written, in order. */
  function Unsent(queue: seq<Message>): seq<Byte> {
    if queue == [] then []
    else (if queue[0].offset <= |queue[0].bytes| then queue[0].bytes[queue[0].offset..] else []) + Unsent(queue[1..])
  }

  lemma {:induction false} AdvanceTakes(queue: seq<Message>, count: nat)
    requires queue != [] && WellQueued(queue)
    ensures var portion := Portion(queue[0], count);
            && Unsent(queue) == portion + Unsent(Advance(queue, |portion|))
            && WellQueued(Advance(queue, |portion|))
            && (0 < count ==> 0 < |portion|)
  {
    var front, portion := queue[0], Portion(queue[0], count);
    assert front in queue;
    assert forall message :: message in queue[1..] ==> message in queue;
    if count < |front.bytes| - front.offset {
      assert Advance(queue, |portion|) == [front.(offset := front.offset + count)] + queue[1..];
      PartWritten(queue, count);
    }
  }

  lemma {:induction false} PartWritten(queue: seq<Message>, count: nat)
    requires queue != [] && queue[0].offset + count < |queue[0].bytes|
    ensures Unsent(queue)
        == Portion(queue[0], count) + Unsent([queue[0].(offset := queue[0].offset + count)] + queue[1..])
  {
    var front := queue[0];
    var next := [front.(offset := front.offset + count)] + queue[1..];
    var portion, left, rest := Portion(front, count), front.bytes[front.offset + count..], Unsent(queue[1..]);
    assert next[1..] == queue[1..];
    assert Unsent(next) == left + rest;
    assert front.bytes[front.offset..] == portion + left;
    assert Unsent(queue) == portion + left + rest == portion + (left + rest);
  }

  /**
   Nothing is lost, repeated or reordered: what was to be written is what was written followed by what
   is still to be written.  Queues of unfinished messages stay so and never spin; the number of writes
   that make progress is bounded by the bytes to be written.
   */
  lemma {:induction false} SendConserves(queue: seq<Message>, script: seq<WriteStep>)
    requires WellQueued(queue)
    ensures var run := SendAll(queue, script);
            && Unsent(queue) == run.written + Unsent(run.queue)
            && WellQueued(run.queue)
            && !run.outcome.Spinning?
            && (run.outcome.SendDone? <==> run.queue == [])
            && |run.script| <= |script|
            && (Accept(0) !in script ==> |script| - |run.script| <= |run.written| + 1)
    decreases |script|
  {
    hide Portion, Advance, Unsent;
    if queue != [] {
      assert queue[0] in queue;
      if script != [] && script[0].Accept? {
        var portion := Portion(queue[0], script[0].count);
        AdvanceTakes(queue, script[0].count);
        SendConserves(Advance(queue, |portion|), script[1..]);
        assert forall step :: step in script[1..] ==> step in script;
      }
    }
  }

  /** The stream accepts at least one byte at every write, and goes on doing so for `n` writes. */
  predicate Willing(script: seq<WriteStep>, n: nat) {
    n <= |script| && forall step :: step in script ==> step.Accept? && 0 < step.count
  }

  /**
   On a stream that keeps accepting, sending returns exactly when every message still had bytes to
   write: a message with none is neither written nor taken off the queue.
   */
  lemma {:induction false} SpinsExactly(queue: seq<Message>, script: seq<WriteStep>)
    requires Willing(script, |Unsent(queue)|)
    ensures SendAll(queue, script).outcome.Spinning? <==> !WellQueued(queue)
    decreases |script|
  {
    hide Portion, Advance;
    if WellQueued(queue) {
      SendConserves(queue, script);
    } else if queue[0].offset < |queue[0].bytes| {
      hide SendAll;
      SpinStep(queue, script);
      var portion := Portion(queue[0], script[0].count);
      SpinsExactly(Advance(queue, |portion|), script[1..]);
    }
  }

  lemma {:induction false} SpinStep(queue: seq<Message>, script: seq<WriteStep>)
    requires Willing(script, |Unsent(queue)|)
    requires queue != [] && !WellQueued(queue) && queue[0].offset < |queue[0].bytes|
    ensures script != []
    ensures var next := Advance(queue, |Portion(queue[0], script[0].count)|);
            && Willing(script[1..], |Unsent(next)|)
            && !WellQueued(next)
            && SendAll(queue, script).outcome == SendAll(next, script[1..]).outcome
  {
    assert script[0] in script;
    var front, portion := queue[0], Portion(queue[0], script[0].count);
    var next := Advance(queue, |portion|);
    assert |Unsent(queue)| == |front.bytes| - front.offset + |Unsent(queue[1..])|;
    var message :| message in queue && |message.bytes| <= message.offset;
    assert message in queue[1..];
    if front.offset + |portion| < |front.bytes| {
      assert next[1..] == queue[1..];
      assert message in next;
    }
    assert forall step :: step in script[1..] ==> step in script;
  }

  lemma {:induction false} UnsentJoined(a: seq<Message>, b: seq<Message>)
    ensures Unsent(a + b) == Unsent(a) + Unsent(b)
    decreases |a|
  {
    if a == [] {
      assert a + b == b;
    } else {
      assert (a + b)[1..] == a[1..] + b;
      UnsentJoined(a[1..], b);
    }
  }
}

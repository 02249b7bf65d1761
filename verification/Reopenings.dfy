/**
 A reopened substream starts with the queue and the buffer that the last one left.  When that amounts to
 a fresh start, on the side of sending and on the side of receiving, and what happens when it does not.
 */
module Reopenings {
  import opened Bytes
  import opened Frames
  import opened StreamIo
  import opened Buffers
  import opened Receive
  import opened Send
  import opened Inners
  import opened Endpoints
  import opened Streams
  import opened Substreams

  /** The messages of a queue, each whole. */
  function Bodies(queue: seq<Message>): seq<seq<Byte>> {
    seq(|queue|, i requires 0 <= i < |queue| => queue[i].bytes)
  }

  /** How many bytes of the front message are written. */
  function Begun(queue: seq<Message>): nat {
    if queue == [] then 0 else queue[0].offset
  }

  /** Unfinished messages of which only the front one can be begun lack just its first bytes. */
  lemma {:induction false} UnsentOfWhole(queue: seq<Message>)
    requires WellQueued(queue) && forall i :: 0 < i < |queue| ==> queue[i].offset == 0
    ensures Begun(queue) <= |Concat(Bodies(queue))|
    ensures Unsent(queue) == Concat(Bodies(queue))[Begun(queue)..]
    decreases |queue|
  {
    if queue != [] {
      var front, rest := queue[0], queue[1..];
      assert front in queue;
      assert forall message :: message in rest ==> message in queue;
      assert rest != [] ==> rest[0] == queue[1];
      UnsentOfWhole(rest);
      assert Bodies(queue)[1..] == Bodies(rest);
      var later := Concat(Bodies(rest));
      assert later[Begun(rest)..] == later;
      assert Concat(Bodies(queue)) == front.bytes + later;
      assert (front.bytes + later)[front.offset..] == front.bytes[front.offset..] + later;
    }
  }

  /** What an end has written are the frames it is done with and the first bytes of the next one. */
  lemma WrittenSoFar(e: End)
    requires Tracks(e)
    ensures var queue, n := e.inner.queue, |e.queued| - |e.inner.queue|;
            && Unsent(queue) == Concat(Bodies(queue))[Begun(queue)..]
            && (queue != [] ==> Begun(queue) < |queue[0].bytes| <= |Concat(Bodies(queue))|)
            && Bodies(queue) == e.queued[n..]
            && Concat(e.outputs) == Concat(e.queued[..n]) + Concat(Bodies(queue))[..Begun(queue)]
  {
    hide Unsent, Sound;
    var queue, n := e.inner.queue, |e.queued| - |e.inner.queue|;
    UnsentOfWhole(queue);
    assert queue != [] ==> queue[0] in queue && Bodies(queue)[0] == queue[0].bytes;
    assert Bodies(queue) == e.queued[n..];
    assert e.queued == e.queued[..n] + e.queued[n..];
    ConcatJoined(e.queued[..n], e.queued[n..]);
    SameEnd(Concat(e.outputs), Unsent(queue), Concat(e.queued[..n]), Concat(Bodies(queue)), Begun(queue));
  }

  lemma SameEnd(front: seq<Byte>, rest: seq<Byte>, a: seq<Byte>, b: seq<Byte>, k: nat)
    requires k <= |b| && rest == b[k..] && front + rest == a + b
    ensures front == a + b[..k]
  {
    assert a + b == (a + b[..k]) + rest;
    assert |front| == |a + b[..k]|;
    assert (front + rest)[..|front|] == front;
    assert (a + b[..k] + rest)[..|front|] == a + b[..k];
  }

  /**
   What is left to send is whole messages exactly when the front one is not begun; it is everything
   queued, from the handshake on, exactly when nothing was written; the handshake is among it exactly
   while fewer bytes than its own were written; and even then the bytes begin with a handshake only if
   none was.
   */
  lemma SendsAfresh(e: End)
    requires Tracks(e)
    ensures var queue, written := e.inner.queue, Concat(e.outputs);
            && (Unsent(queue) == Concat(Bodies(queue)) <==> queue == [] || queue[0].offset == 0)
            && (queue == Queued(e.queued) <==> written == [])
            && (|queue| == |e.queued| <==> |written| < |HANDSHAKE_FRAME|)
            && (|written| < |HANDSHAKE_FRAME| ==> (HANDSHAKE_FRAME <= Unsent(queue) <==> written == []))
  {
    hide Sound, Bodies, WellQueued, Unsent;
    WrittenSoFar(e);
    var queue, written, n := e.inner.queue, Concat(e.outputs), |e.queued| - |e.inner.queue|;
    var all := HANDSHAKE_FRAME + Concat(e.queued[1..]);
    assert Concat(e.queued) == all;
    if 0 < n {
      assert e.queued[..n][0] == HANDSHAKE_FRAME;
      assert |HANDSHAKE_FRAME| <= |Concat(e.queued[..n])|;
    } else {
      assert e.queued[..n] == [] && Concat(e.queued[..n]) == [];
      assert queue[0].bytes == HANDSHAKE_FRAME;
    }
    if |written| < |HANDSHAKE_FRAME| {
      assert all[|written|..] == Unsent(queue);
      HandshakeInside(Concat(e.queued[1..]), |written|);
    }
  }

  /** A handshake does not start in the middle of another one. */
  lemma HandshakeInside(more: seq<Byte>, k: nat)
    requires k < |HANDSHAKE_FRAME|
    ensures HANDSHAKE_FRAME <= (HANDSHAKE_FRAME + more)[k..] <==> k == 0
  {
    var all := HANDSHAKE_FRAME + more;
    if k == 0 {
      assert all[0..] == all;
    } else {
      assert HANDSHAKE_FRAME[0] == 7;
      assert all[k..][0] == HANDSHAKE_FRAME[k];
    }
  }

  function Zeros(n: nat): (bytes: seq<Byte>)
    ensures |bytes| == n
  {
    seq(n, _ => 0)
  }

  lemma {:induction false} ValueOfZeros(n: nat)
    ensures FromLe(Zeros(n)) == 0
  {
    if 0 < n {
      assert Zeros(n)[1..] == Zeros(n - 1);
      ValueOfZeros(n - 1);
    }
  }

  lemma {:induction false} ValueOfPadded(bytes: seq<Byte>, n: nat)
    ensures FromLe(bytes + Zeros(n)) == FromLe(bytes) < Limit(|bytes|)
    decreases |bytes|
  {
    if bytes == [] {
      assert bytes + Zeros(n) == Zeros(n);
      ValueOfZeros(n);
    } else {
      assert (bytes + Zeros(n))[1..] == bytes[1..] + Zeros(n);
      ValueOfPadded(bytes[1..], n);
    }
  }

  /** The length that the first bytes of a frame amount to when those still missing are zero. */
  function Announced(bytes: seq<Byte>): nat {
    if |bytes| < 8 then FromLe(bytes) else FromLe(bytes[..8])
  }

  lemma HeadWhenPadded(bytes: seq<Byte>, more: seq<Byte>)
    requires HeadOf(bytes).Partial? && 8 <= |bytes| + |more|
    requires |bytes| < 8 ==> more[..8 - |bytes|] == Zeros(8 - |bytes|)
    ensures 8 + Announced(bytes) < WORD && |bytes| < 8 + Announced(bytes)
    ensures HeadOf(bytes + more).Whole? <==> 8 + Announced(bytes) <= |bytes| + |more|
    ensures !HeadOf(bytes + more).Oversized?
  {
    var all := bytes + more;
    if |bytes| < 8 {
      ValueOfPadded(bytes, 8 - |bytes|);
      LimitGrows(|bytes|, 7);
      assert Limit(7) == 0x100_0000_0000_0000;
      assert all[..8] == bytes + more[..8 - |bytes|];
    } else {
      assert all[..8] == bytes[..8];
    }
  }

  lemma {:induction false} LimitGrows(a: nat, b: nat)
    requires a <= b
    ensures Limit(a) <= Limit(b)
    decreases b - a
  {
    if a < b {
      LimitGrows(a, b - 1);
    }
  }

  /** Bytes on which an end that kept `kept` and one that kept nothing differ. */
  function Telling(kept: seq<Byte>): seq<Byte> {
    var missing := 8 + Announced(kept) - |kept|;
    if 8 < missing then Zeros(8)
    else if missing == 8 then Zeros(7) + [1]
    else if 0 < missing then Zeros(missing)
    else []
  }

  lemma TellingTells(config: Config, kept: seq<Byte>)
    requires kept != [] && HeadOf(kept).Partial?
    ensures Items(config, Telling(kept)) == [] <==> Items(config, kept + Telling(kept)) != []
  {
    var bytes := Telling(kept);
    if |kept| < 8 {
      assert |kept| + |bytes| >= 8 ==> bytes[..8 - |kept|] == Zeros(8 - |kept|);
    }
    assert 8 <= |kept| + |bytes|;
    HeadWhenPadded(kept, bytes);
    var missing := 8 + Announced(kept) - |kept|;
    if 8 < missing {
      ValueOfZeros(8);
      assert bytes[..8] == Zeros(8);
    } else if missing == 8 {
      ValueOfOne(7);
      assert Limit(7) == 0x100_0000_0000_0000;
      assert bytes[..8] == bytes;
    }
  }

  lemma {:induction false} ValueOfOne(n: nat)
    ensures FromLe(Zeros(n) + [1]) == Limit(n)
  {
    if n == 0 {
      assert Zeros(0) + [1] == [1];
    } else {
      assert (Zeros(n) + [1])[1..] == Zeros(n - 1) + [1];
      ValueOfOne(n - 1);
    }
  }

  /** Whatever comes is read as by an end that kept nothing, exactly when nothing was kept. */
  lemma ReadsAfresh(config: Config, kept: seq<Byte>)
    ensures (forall bytes :: Items(config, kept + bytes) == Items(config, bytes)) <==> kept == []
  {
    hide Items, Telling;
    if kept == [] {
      forall bytes: seq<Byte>
        ensures Items(config, kept + bytes) == Items(config, bytes)
      {
        assert kept + bytes == bytes;
      }
    } else if HeadOf(kept).Partial? {
      TellingTells(config, kept);
      assert Items(config, kept + Telling(kept)) != Items(config, Telling(kept));
    } else {
      SomethingMet(config, kept);
      assert kept + [] == kept;
      assert Items(config, kept + []) != Items(config, []);
    }
  }

  lemma SomethingMet(config: Config, kept: seq<Byte>)
    requires !HeadOf(kept).Partial?
    ensures Items(config, kept) != [] && Items(config, []) == []
  {
  }

  /** A poll that requests the stream anew begins the next substream, with what is queued and buffered. */
  lemma RequestBegins(n: nat, e: End, script: Script)
    requires Tracks(e) && !e.over && e.outgoing && Reads(e)
    requires PollOnce(Outgoing(n), StreamState(Negotiated, e.inner, false), script).0.Request?
    ensures var after := PollOnce(Outgoing(n), StreamState(Negotiated, e.inner, false), script).1;
            var next := Do(e, Poll(script.incoming, script.outgoing));
            && next.inner == after.inner && after.opening == Requested && !next.over
            && next.outputs[|next.outputs| - 1] == [] && next.kept == after.inner.buffer.data
  {
    hide PollInner, RepliesIn, Tracks, Reads;
  }

  /**
   For every run of an outgoing stream and every poll of it that requests the stream anew, with `NextSubstream` and
   `Reads` for what the new substream carries and reads.  Sending: it begins with a whole message if and
   only if the front message is not begun; with everything queued from the handshake on if and only if
   nothing was written yet; with a handshake message at all if and only if fewer bytes than its own were.
   Receiving: it is read as a fresh stream would be, whatever its bytes, if and only if the buffer is empty.
   */
  lemma ReopenExactly(config: Config, actions: seq<Action>, n: nat, script: Script)
    requires CanDoAll(NewEnd(config, true), actions) && !DoAll(NewEnd(config, true), actions).over
    requires var e := DoAll(NewEnd(config, true), actions);
             PollOnce(Outgoing(n), StreamState(Negotiated, e.inner, false), script).0.Request?
    ensures var e := DoAll(NewEnd(config, true), actions);
            var after := PollOnce(Outgoing(n), StreamState(Negotiated, e.inner, false), script).1.inner;
            var next := Do(e, Poll(script.incoming, script.outgoing));
            && next.inner == after && next.outputs[|next.outputs| - 1] == [] && next.kept == after.buffer.data
            && Tracks(next) && Reads(next)
            && (Unsent(after.queue) == Concat(Bodies(after.queue)) <==> after.queue == [] || after.queue[0].offset == 0)
            && (after.queue == Queued(next.queued) <==> Concat(next.outputs) == [])
            && (|after.queue| == |next.queued| <==> |Concat(next.outputs)| < |HANDSHAKE_FRAME|)
            && (|Concat(next.outputs)| < |HANDSHAKE_FRAME| ==>
                  (HANDSHAKE_FRAME <= Unsent(after.queue) <==> Concat(next.outputs) == []))
            && ((forall bytes :: Items(config, next.kept + bytes) == Items(config, bytes)) <==> after.buffer.data == [])
  {
    hide PollOnce, Do, CanDoAll, DoAll, Tracks, Reads, Items, HANDSHAKE_FRAME, Bodies, Unsent, Concat;
    TracksAtStart(config, true);
    ReadsAtStart(config, true);
    RunKeepsTracks(NewEnd(config, true), actions);
    StaysOutgoing(NewEnd(config, true), actions);
    var e, action := DoAll(NewEnd(config, true), actions), Poll(script.incoming, script.outgoing);
    RequestBegins(n, e, script);
    DoKeepsTracks(e, action);
    DoKeepsReads(e, action);
    SendsAfresh(Do(e, action));
    ReadsAfresh(config, Do(e, action).kept);
  }

  /**
   A substream that ends after `k` bytes of the handshake were written is followed by one that begins
   in the middle of the handshake.
   */
  lemma ReopenedMidHandshake(codec: Codec, n: nat, k: nat)
    requires 0 < k < |HANDSHAKE_FRAME|
    ensures var s := NewOutgoing(codec, false).(opening := Negotiated);
            var (event, after) := PollOnce(Outgoing(n), s, Script([Chunk([])], [Accept(k), Block]));
            && event == Request(n)
            && Unsent(after.inner.queue) == HANDSHAKE_FRAME[k..]
  {
    hide HANDSHAKE_FRAME;
    var inner := NewInner(Config(codec, [], false));
    var queue := [Message(0, HANDSHAKE_FRAME)];
    assert inner.queue == queue;
    var left := [Message(k, HANDSHAKE_FRAME)];
    assert Advance(queue, k) == left;
    SendStep([], queue, [Accept(k), Block]);
    SendEnds(left, [Block]);
    PortionTaken(queue[0], k);
    var script := [Accept(k), Block];
    assert script[1..] == [Block];
    assert SendAll(queue, script).queue == left;
    FirstReadEnds(inner.config);
    assert left + Queued([]) == left;
    assert Unsent(left) == HANDSHAKE_FRAME[k..];
  }

  lemma FirstReadEnds(config: Config)
    ensures Recv(config, UntilRoom, EMPTY_BUFFER, [Chunk([])]).outcome == EndOfStream
    ensures Recv(config, UntilRoom, EMPTY_BUFFER, [Chunk([])]).items == []
  {
    RecvEnds(config, UntilRoom, EMPTY_BUFFER, [Chunk([])]);
    FillEnds(EMPTY_BUFFER, [Chunk([])]);
  }

  /**
   A substream that ends after one byte was read leaves that byte in the buffer; the handshake that the
   peer sends on the next substream is then not met, since the byte is taken for the start of its length.
   */
  lemma LeftoverHidesHandshake(codec: Codec, n: nat, x: Byte)
    ensures var s := NewOutgoing(codec, false).(opening := Negotiated);
            var (event, after) := PollOnce(Outgoing(n), s, Script([Chunk([x]), Chunk([])], []));
            && event == Request(n)
            && after.inner.buffer.data == [x]
            && Items(s.inner.config, [x] + HANDSHAKE_FRAME) == []
            && Items(s.inner.config, HANDSHAKE_FRAME) != []
  {
    hide SendAll, Items;
    var config := Config(codec, [], false);
    var script := [Chunk([x]), Chunk([])];
    LeftoverItems(config, x);
    SendEnds(NewInner(config).queue, []);
    OneByteRead(config, x);
  }

  /** The id of a handshake is `RPC` as a little-endian number, which the frame of a handshake ends with. */
  lemma HandshakeIsRpc()
    ensures FromLe([0x52, 0x50, 0x43, 0, 0, 0, 0, 0]) == HANDSHAKE_ID
    ensures HANDSHAKE_FRAME[10..13] == [0x52, 0x50, 0x43]
  {
    var rpc: seq<Byte> := [0x52, 0x50, 0x43];
    ValueOfPadded(rpc, 5);
    assert rpc + Zeros(5) == [0x52, 0x50, 0x43, 0, 0, 0, 0, 0];
    assert rpc[1..] == [0x50, 0x43] && rpc[1..][1..] == [0x43];
  }

  lemma LeftoverItems(config: Config, x: Byte)
    ensures Items(config, [x] + HANDSHAKE_FRAME) == []
    ensures Items(config, HANDSHAKE_FRAME) != []
  {
    var data := [x] + HANDSHAKE_FRAME;
    assert data[..8] == [x, 7] + Zeros(6);
    ValueOfPadded([x, 7], 6);
    assert FromLe([x, 7]) == x + 256 * 7 by { assert [x, 7][1..] == [7]; }
    assert HANDSHAKE_FRAME[..8] == [7] + Zeros(7);
    ValueOfPadded([7], 7);
  }

  lemma OneByteRead(config: Config, x: Byte)
    ensures var run := Recv(config, UntilRoom, EMPTY_BUFFER, [Chunk([x]), Chunk([])]);
            run.outcome == EndOfStream && run.items == [] && run.buffer.data == [x]
  {
    hide Recv, Fill;
    var script, held := [Chunk([x]), Chunk([])], BufferState([x], INITIAL_SIZE);
    assert script[1..] == [Chunk([])];
    RecvEnds(config, UntilRoom, EMPTY_BUFFER, script);
    FillEnds(EMPTY_BUFFER, script);
    assert [] + [x] == [x];
    RecvEnds(config, UntilRoom, held, script[1..]);
    FillEnds(held, script[1..]);
    assert [x] + [] == [x];
  }
}

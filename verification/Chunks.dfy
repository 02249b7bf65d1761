/**
 Any number of receive calls: independence of how the bytes arrive, the size of the buffer, and the
 one way a complete frame can be left unnoticed.
 */
module Chunks {
  import opened Bytes
  import opened Frames
  import opened Buffers
  import opened Receive
  import opened Powers
  import opened StreamIo

  /** `n` calls one after the other, fewer if one of them ends the stream. */
  function Calls(config: Config, policy: FillPolicy, b: BufferState, script: seq<ReadStep>, n: nat): (run: RecvRun)
    requires 0 < n && |b.data| < b.cap
    ensures |run.buffer.data| < run.buffer.cap
    decreases n
  {
    var first := Recv(config, policy, b, script);
    if n == 1 || !(first.outcome.Pending? || first.outcome.Ready?) then
      first
    else
      var more := Calls(config, policy, first.buffer, first.script, n - 1);
      more.(items := first.items + more.items, taken := first.taken + more.taken, most := Max(first.most, more.most))
  }

  /** Dropping frames in two goes, with more bytes arriving in between. */
  lemma {:induction false} AfterFramesInTwo(config: Config, data: seq<Byte>, more: seq<Byte>, m: nat, n: nat)
    requires m <= |Items(config, data)| && NoFatal(Items(config, data)[..m])
    ensures AfterFrames(AfterFrames(data, m) + more, n) == AfterFrames(data + more, m + n)
    ensures Items(config, data + more) == Items(config, data)[..m] + Items(config, AfterFrames(data, m) + more)
    decreases m
  {
    hide HeadOf, ItemOf, NoFatal;
    if m > 0 {
      FirstItem(config, data, m);
      var rest := data[8 + |HeadOf(data).payload|..];
      AfterFramesInTwo(config, rest, more, m - 1, n);
      ItemsOfFrame(config, data, more, m - 1 + n);
      ItemsOfFrame(config, data, [], m - 1);
      assert data + [] == data && rest + [] == rest;
    }
  }

  /** The first of some harmless items stems from a whole frame, and the others from the rest. */
  lemma FirstItem(config: Config, data: seq<Byte>, m: nat)
    requires 0 < m <= |Items(config, data)| && NoFatal(Items(config, data)[..m])
    ensures HeadOf(data).Whole? && !ItemOf(config, HeadOf(data).payload).Fatal?
    ensures var rest := Items(config, data[8 + |HeadOf(data).payload|..]);
            && m - 1 <= |rest| && NoFatal(rest[..m - 1])
            && Items(config, data)[..m] == [ItemOf(config, HeadOf(data).payload)] + rest[..m - 1]
  {
    hide HeadOf;
    var items := Items(config, data);
    assert items[0] in items[..m];
    var rest := Items(config, data[8 + |HeadOf(data).payload|..]);
    assert items[..m] == [items[0]] + rest[..m - 1];
    assert forall item :: item in rest[..m - 1] ==> item in items[..m];
  }

  /** The contract of a call composes. */
  lemma RefinesJoined(config: Config, data: seq<Byte>, script: seq<ReadStep>, first: RecvRun,
      more: RecvRun, most: nat)
    requires Refines(config, data, script, first) && !first.outcome.Broken?
    requires Refines(config, first.buffer.data, first.script, more)
    ensures Refines(config, data, script,
                    more.(items := first.items + more.items, taken := first.taken + more.taken, most := most))
  {
    hide Items, AfterFrames, BytesOf, NoFatal;
    var received := data + first.taken;
    var items := Items(config, received);
    assert items[..|first.items|] == first.items;
    AfterFramesInTwo(config, received, more.taken, |first.items|, |more.items|);
    assert received + more.taken == data + (first.taken + more.taken);
    assert first.taken + more.taken + BytesOf(more.script) == first.taken + (more.taken + BytesOf(more.script));
    if !more.outcome.Broken? {
      assert first.items + more.items + Items(config, more.buffer.data)
          == first.items + (more.items + Items(config, more.buffer.data));
      NoFatalJoined(first.items, more.items);
    }
  }

  lemma NoFatalJoined(a: seq<Item>, b: seq<Item>)
    requires NoFatal(a) && NoFatal(b)
    ensures NoFatal(a + b)
  {
  }

  lemma {:induction false} CallsRefine(config: Config, policy: FillPolicy, b: BufferState, script: seq<ReadStep>,
      n: nat)
    requires 0 < n && |b.data| < b.cap
    ensures Refines(config, b.data, script, Calls(config, policy, b, script, n))
    decreases n
  {
    hide Recv, Refines;
    var first := Recv(config, policy, b, script);
    RecvRefines(config, policy, b, script);
    if n > 1 && (first.outcome.Pending? || first.outcome.Ready?) {
      CallsRefine(config, policy, first.buffer, first.script, n - 1);
      var more := Calls(config, policy, first.buffer, first.script, n - 1);
      RefinesJoined(config, b.data, script, first, more, Max(first.most, more.most));
    }
  }

  /**
   Whatever the division of a byte stream into reads, pauses and calls, the events and replies so far
   are the first ones the whole stream causes.
   */
  lemma ItemsArePrefix(config: Config, policy: FillPolicy, b: BufferState,
      script: seq<ReadStep>, n: nat)
    requires 0 < n && |b.data| < b.cap
    ensures Calls(config, policy, b, script, n).items <= Items(config, b.data + BytesOf(script))
  {
    hide Calls, AfterFrames, BytesOf, Items, NoFatal;
    var run := Calls(config, policy, b, script, n);
    CallsRefine(config, policy, b, script, n);
    ItemsGrow(config, b.data + run.taken, BytesOf(run.script));
    assert b.data + run.taken + BytesOf(run.script) == b.data + BytesOf(script);
    if !run.outcome.Broken? {
      assert run.items <= run.items + Items(config, run.buffer.data);
    }
  }

  /** Outcomes that say nothing more can be had for now. */
  predicate Quiescent(outcome: Outcome) {
    outcome.Pending? || outcome.IoError? || outcome.EndOfStream?
  }

  /**
   When such an outcome is reported, no complete frame is left in the buffer, unless the last fill had
   a read that filled the buffer exactly.  Looking for a frame after every read needs no exception.
   */
  lemma {:induction false} NothingLeftBehind(config: Config, policy: FillPolicy, b: BufferState, script: seq<ReadStep>)
    requires |b.data| < b.cap
    requires Quiescent(Recv(config, policy, b, script).outcome)
    requires policy.OnceThenCut? || !Recv(config, policy, b, script).grew
    ensures HeadOf(Recv(config, policy, b, script).buffer.data).Partial?
    decreases Weight(script) + |b.data|, Weight(script)
  {
    hide HeadOf, React, CutBuffer, Weight, ReadOnce, FillBy;
    var (cut, rest) := CutBuffer(config.codec, b);
    CutCases(config, b);
    if cut.CutFrame? {
      NothingLeftBehind(config, policy, rest, script);
    } else {
      FillByConserves(policy, b, script);
      var fill := FillBy(policy, b, script);
      if fill.outcome.Filled? && fill.outcome.count != 0 {
        NothingLeftBehind(config, policy, fill.buffer, fill.script);
      } else {
        IdleFill(policy, b, script);
      }
    }
  }

  /**
   When some calls end so without such a read, everything the bytes read so far cause has been met:
   the events and replies are then the same for every division of these bytes.
   */
  lemma AllItemsMet(config: Config, policy: FillPolicy, b: BufferState, script: seq<ReadStep>,
      n: nat)
    requires 0 < n && |b.data| < b.cap
    requires Quiescent(Calls(config, policy, b, script, n).outcome)
    requires policy.OnceThenCut? || !Calls(config, policy, b, script, n).grew
    ensures Calls(config, policy, b, script, n).items
        == Items(config, b.data + Calls(config, policy, b, script, n).taken)
  {
    CallsRefine(config, policy, b, script, n);
    CallsLeaveNothing(config, policy, b, script, n);
  }

  lemma {:induction false} CallsLeaveNothing(config: Config, policy: FillPolicy, b: BufferState,
      script: seq<ReadStep>, n: nat)
    requires 0 < n && |b.data| < b.cap
    requires Quiescent(Calls(config, policy, b, script, n).outcome)
    requires policy.OnceThenCut? || !Calls(config, policy, b, script, n).grew
    ensures HeadOf(Calls(config, policy, b, script, n).buffer.data).Partial?
    decreases n
  {
    hide Recv, HeadOf;
    var first := Recv(config, policy, b, script);
    if n > 1 && (first.outcome.Pending? || first.outcome.Ready?) {
      CallsLeaveNothing(config, policy, first.buffer, first.script, n - 1);
    } else {
      NothingLeftBehind(config, policy, b, script);
    }
  }

  /** A fill that reports no byte and did not grow the buffer has added none. */
  lemma IdleFill(policy: FillPolicy, b: BufferState, script: seq<ReadStep>)
    requires |b.data| < b.cap
    requires policy.OnceThenCut? || !FillBy(policy, b, script).grew
    requires FillBy(policy, b, script).outcome.Filled? ==> FillBy(policy, b, script).outcome.count == 0
    ensures FillBy(policy, b, script).buffer.data == b.data
  {
    ReadConserves(script, b.cap - |b.data|);
  }

  /** The stream delivers nothing more for now. */
  predicate Quiet(script: seq<ReadStep>) {
    script == [] || !script[0].Chunk? || script[0].bytes == []
  }

  /** `size` is `cap`, or twice `cap`, or four times `cap`, and so on. */
  predicate IsDoubling(size: nat, cap: nat)
    requires 0 < cap
    decreases size - cap
  {
    size == cap || (cap < size && IsDoubling(size, 2 * cap))
  }

  /** The least doubling of `cap` that is more than `size`. */
  function GrownCap(cap: nat, size: nat): (grown: nat)
    requires 0 < cap
    ensures size < grown
    decreases size - cap
  {
    if size < cap then cap else GrownCap(2 * cap, size)
  }

  lemma {:induction false} DoublingAbove(total: nat, cap: nat, size: nat)
    requires 0 < cap && size < total
    ensures IsDoubling(total, cap) <==> IsDoubling(total, GrownCap(cap, size))
    decreases size - cap
  {
    if cap <= size {
      DoublingAbove(total, 2 * cap, size);
    }
  }

  /**
   A fill that meets a chunk buffers all of it.  It then returns, unless the bytes held fill the buffer
   exactly; in that case it goes on reading.
   */
  lemma {:induction false} FillChunk(b: BufferState, bytes: seq<Byte>, tail: seq<ReadStep>)
    requires |b.data| < b.cap && bytes != []
    ensures var run := Fill(b, [Chunk(bytes)] + tail);
            var held := BufferState(b.data + bytes, GrownCap(b.cap, |b.data| + |bytes|));
            if IsDoubling(|b.data| + |bytes|, b.cap) then
              run == Fill(held, tail).(grew := true)
            else
              run.outcome.Filled? && run.outcome.count != 0 && run.buffer == held && run.script == tail
    decreases |bytes|
  {
    hide BytesOf, Weight, Fill;
    var script, space := [Chunk(bytes)] + tail, b.cap - |b.data|;
    assert script[1..] == tail;
    FillEnds(b, script);
    if |bytes| == space {
      FillContinues(b, script);
    } else if space < |bytes| {
      var grown := BufferState(b.data + bytes[..space], 2 * b.cap);
      FillContinues(b, script);
      FillChunk(grown, bytes[space..], tail);
      assert grown.data + bytes[space..] == b.data + bytes;
    }
  }

  lemma QuietFill(b: BufferState, tail: seq<ReadStep>)
    requires |b.data| < b.cap && Quiet(tail)
    ensures var run := Fill(b, tail);
            run.buffer.data == b.data && (run.outcome.Filled? ==> run.outcome.count == 0)
  {
    assert tail != [] && tail[0].Chunk? ==> b.data + tail[0].bytes == b.data;
  }

  function Pieces(chunks: seq<seq<Byte>>): seq<ReadStep> {
    if chunks == [] then [] else [Chunk(chunks[0])] + Pieces(chunks[1..])
  }

  /** All but the last chunk. */
  function Early(chunks: seq<seq<Byte>>): seq<seq<Byte>> {
    if chunks == [] then [] else chunks[..|chunks| - 1]
  }

  /**
   Exactly when a complete frame is overlooked: chunks of which the last one completes a frame, followed
   by nothing, leave it unnoticed if and only if they bring the bytes held to the length of the buffer
   or a doubling of it.
   */
  lemma {:induction false} OverlookedExactly(config: Config, b: BufferState, chunks: seq<seq<Byte>>,
      tail: seq<ReadStep>)
    requires |b.data| < b.cap && Quiet(tail)
    requires chunks != [] && [] !in chunks
    requires HeadOf(b.data + Concat(Early(chunks))).Partial? && !HeadOf(b.data + Concat(chunks)).Partial?
    ensures var run := Recv(config, UntilRoom, b, Pieces(chunks) + tail);
            && (run.items == [] <==> IsDoubling(|b.data| + |Concat(chunks)|, b.cap))
            && (run.items == [] ==> Quiescent(run.outcome) && run.buffer.data == b.data + Concat(chunks))
    decreases |chunks|
  {
    hide IsDoubling, HeadOf, Recv, GrownCap, Concat, Pieces, Early;
    var chunk, rest := chunks[0], chunks[1..];
    FirstChunk(b.data, chunks, tail);
    assert chunk in chunks && forall later :: later in rest ==> later in chunks;
    if !HeadOf(b.data).Partial? {
      HeadIsStable(b.data, Concat(Early(chunks)));
      assert false;
    }
    if rest == [] {
      LastChunk(config, b, chunk, tail);
    } else {
      if !HeadOf(b.data + chunk).Partial? {
        HeadIsStable(b.data + chunk, Concat(Early(rest)));
        assert false;
      }
      EarlyChunk(config, b, chunk, Pieces(rest) + tail);
      var held := BufferState(b.data + chunk, GrownCap(b.cap, |b.data| + |chunk|));
      OverlookedExactly(config, held, rest, tail);
      assert rest[0] in chunks;
      DoublingAbove(|b.data| + |Concat(chunks)|, b.cap, |b.data| + |chunk|);
    }
  }

  /** The first of some chunks, and the others. */
  lemma {:induction false} FirstChunk(data: seq<Byte>, chunks: seq<seq<Byte>>, tail: seq<ReadStep>)
    requires chunks != []
    ensures var chunk, rest := chunks[0], chunks[1..];
            && Pieces(chunks) + tail == [Chunk(chunk)] + (Pieces(rest) + tail)
            && data + Concat(chunks) == data + chunk + Concat(rest)
            && |Concat(chunks)| == |chunk| + |Concat(rest)|
            && (rest != [] ==>
                  && data + Concat(Early(chunks)) == data + chunk + Concat(Early(rest))
                  && |rest[0]| <= |Concat(rest)|)
            && (rest == [] ==>
                  && data + Concat(Early(chunks)) == data && Pieces(rest) + tail == tail
                  && Concat(chunks) == chunk && data + chunk + Concat(rest) == data + chunk)
  {
    var chunk, rest := chunks[0], chunks[1..];
    hide Concat;
    ConcatFirst(chunk, rest);
    assert chunks == [chunk] + rest;
    assert data + (chunk + Concat(rest)) == data + chunk + Concat(rest);
    assert [Chunk(chunk)] + Pieces(rest) + tail == [Chunk(chunk)] + (Pieces(rest) + tail);
    if rest == [] {
      ConcatNone();
      assert data + [] == data && chunk + [] == chunk && data + chunk + [] == data + chunk;
      assert Pieces(rest) + tail == tail;
    } else {
      ConcatFirst(rest[0], rest[1..]);
      assert rest == [rest[0]] + rest[1..];
      ConcatFirst(chunk, Early(rest));
      assert Early(chunks) == [chunk] + Early(rest);
      assert data + (chunk + Concat(Early(rest))) == data + chunk + Concat(Early(rest));
    }
  }

  lemma ConcatFirst(part: seq<Byte>, parts: seq<seq<Byte>>)
    ensures Concat([part] + parts) == part + Concat(parts)
  {
    assert ([part] + parts)[1..] == parts;
  }

  lemma ConcatNone()
    ensures Concat([]) == []
  {
  }

  /** A chunk that completes no frame is buffered, and the call goes on as from there. */
  lemma EarlyChunk(config: Config, b: BufferState, chunk: seq<Byte>, script: seq<ReadStep>)
    requires |b.data| < b.cap && chunk != []
    requires HeadOf(b.data).Partial? && HeadOf(b.data + chunk).Partial?
    ensures var run := Recv(config, UntilRoom, b, [Chunk(chunk)] + script);
            var held := BufferState(b.data + chunk, GrownCap(b.cap, |b.data| + |chunk|));
            var later := Recv(config, UntilRoom, held, script);
            run.items == later.items && run.outcome == later.outcome && run.buffer == later.buffer
  {
    hide IsDoubling, HeadOf, Fill, React, Recv, GrownCap;
    var held := BufferState(b.data + chunk, GrownCap(b.cap, |b.data| + |chunk|));
    FillChunk(b, chunk, script);
    CutCases(config, b);
    CutCases(config, held);
    RecvEnds(config, UntilRoom, b, [Chunk(chunk)] + script);
    RecvEnds(config, UntilRoom, held, script);
  }

  /** A chunk that completes a frame and is followed by nothing. */
  lemma LastChunk(config: Config, b: BufferState, chunk: seq<Byte>, tail: seq<ReadStep>)
    requires |b.data| < b.cap && chunk != [] && Quiet(tail)
    requires HeadOf(b.data).Partial? && !HeadOf(b.data + chunk).Partial?
    ensures var run := Recv(config, UntilRoom, b, [Chunk(chunk)] + tail);
            && (run.items == [] <==> IsDoubling(|b.data| + |chunk|, b.cap))
            && (run.items == [] ==> Quiescent(run.outcome) && run.buffer.data == b.data + chunk)
  {
    hide IsDoubling, HeadOf, Fill, React, Recv, GrownCap;
    var held := BufferState(b.data + chunk, GrownCap(b.cap, |b.data| + |chunk|));
    FillChunk(b, chunk, tail);
    CutCases(config, b);
    RecvEnds(config, UntilRoom, b, [Chunk(chunk)] + tail);
    if IsDoubling(|b.data| + |chunk|, b.cap) {
      QuietFill(held, tail);
    } else {
      CompleteIsCut(config, held, tail);
    }
  }

  lemma CompleteIsCut(config: Config, b: BufferState, script: seq<ReadStep>)
    requires |b.data| < b.cap && !HeadOf(b.data).Partial?
    ensures Recv(config, UntilRoom, b, script).items != []
  {
    CutCases(config, b);
  }

  /** For instance, a first frame that is exactly as long as the empty buffer. */
  lemma FullFrameOverlooked(config: Config, payload: seq<Byte>)
    requires 8 + |payload| == INITIAL_SIZE
    ensures var run := Recv(config, UntilRoom, EMPTY_BUFFER, [Chunk(FrameOf(payload))]);
            && run.items == [] && Quiescent(run.outcome)
            && HeadOf(run.buffer.data) == Whole(payload)
  {
    hide Recv, HeadOf, FrameOf, IsDoubling;
    var frame := FrameOf(payload);
    assert frame + [] == frame;
    FrameRoundTrip(payload, []);
    assert [] + frame == frame;
    FrameLength(payload);
    NoBytesNoFrame();
    LastChunk(config, EMPTY_BUFFER, frame, []);
    assert [Chunk(frame)] + [] == [Chunk(frame)];
    assert IsDoubling(|frame|, INITIAL_SIZE) by { SizeIsDoubling(|frame|); }
  }

  lemma SizeIsDoubling(size: nat)
    requires 0 < size
    ensures IsDoubling(size, size)
  {
  }

  /** At any time of a call, no more is held than was there before and came in during it. */
  lemma {:induction false} HeldBound(config: Config, policy: FillPolicy, b: BufferState, script: seq<ReadStep>)
    requires |b.data| < b.cap
    ensures var run := Recv(config, policy, b, script);
            |b.data| <= run.most <= |b.data| + |run.taken| && |run.buffer.data| <= run.most
    decreases Weight(script) + |b.data|, Weight(script)
  {
    hide HeadOf, React, CutBuffer, Weight, FillBy, BytesOf;
    var (cut, rest) := CutBuffer(config.codec, b);
    CutCases(config, b);
    if cut.CutFrame? && React(config, cut.header, cut.bytes).Reply? {
      HeldBound(config, policy, rest, script);
    } else if cut.NoFrame? {
      FillByConserves(policy, b, script);
      var fill := FillBy(policy, b, script);
      if fill.outcome.Filled? && fill.outcome.count != 0 {
        HeldBound(config, policy, fill.buffer, fill.script);
      }
    }
  }

  /**
   After any call the buffer's length is a power of two, more than it holds, and at most the initial
   size or twice the most bytes it ever had to hold.
   */
  lemma {:induction false} RecvKeepsSound(config: Config, b: BufferState, script: seq<ReadStep>, peak: nat)
    requires Sound(b, peak)
    ensures var run := Recv(config, UntilRoom, b, script); Sound(run.buffer, Max(peak, run.most))
    decreases Weight(script) + |b.data|, Weight(script)
  {
    hide HeadOf, React, CutBuffer, Weight, ReadOnce, IsPow2, Fill;
    var (cut, rest) := CutBuffer(config.codec, b);
    CutKeepsSound(config.codec, b, peak);
    CutCases(config, b);
    if cut.CutFrame? {
      if React(config, cut.header, cut.bytes).Reply? {
        RecvKeepsSound(config, rest, script, peak);
      }
    } else if cut.NoFrame? {
      FillByConserves(UntilRoom, b, script);
      FillKeepsSound(b, script, peak);
      var fill := Fill(b, script);
      if fill.outcome.Filled? && fill.outcome.count != 0 {
        RecvKeepsSound(config, fill.buffer, fill.script, Max(peak, |fill.buffer.data|));
        HeldBound(config, UntilRoom, fill.buffer, fill.script);
      }
    }
  }

  /** The same over any number of calls, with the most bytes held in any of them. */
  lemma {:induction false} CallsKeepSound(config: Config, b: BufferState, script: seq<ReadStep>, n: nat, peak: nat)
    requires 0 < n && Sound(b, peak)
    ensures var run := Calls(config, UntilRoom, b, script, n); Sound(run.buffer, Max(peak, run.most))
    decreases n
  {
    hide Recv, IsPow2;
    var first := Recv(config, UntilRoom, b, script);
    RecvKeepsSound(config, b, script, peak);
    if n > 1 && (first.outcome.Pending? || first.outcome.Ready?) {
      CallsKeepSound(config, first.buffer, first.script, n - 1, Max(peak, first.most));
    }
  }
}

/**
 What two joined ends see of each other over a whole run: no byte is lost, repeated or reordered, and
 frames arrive whole, once and in order.
 */
module Delivery {
  import opened Bytes
  import opened Frames
  import opened Receive
  import opened Chunks
  import opened Send
  import opened Inners
  import opened Endpoints

  /** A step of the first end or of the second. */
  datatype Move = Move(first: bool, action: Action)

  predicate Possible(a: Side, b: Side, moves: seq<Move>)
    decreases |moves|
  {
    moves == [] ||
    (if moves[0].first then
       Enabled(a, b, moves[0].action) && var (a', b') := Act(a, b, moves[0].action); Possible(a', b', moves[1..])
     else
       Enabled(b, a, moves[0].action) && var (b', a') := Act(b, a, moves[0].action); Possible(a', b', moves[1..]))
  }

  /** The two ends after a run. */
  function Final(a: Side, b: Side, moves: seq<Move>): (Side, Side)
    requires Possible(a, b, moves)
    decreases |moves|
  {
    if moves == [] then (a, b)
    else if moves[0].first then
      var (a', b') := Act(a, b, moves[0].action); Final(a', b', moves[1..])
    else
      var (b', a') := Act(b, a, moves[0].action); Final(a', b', moves[1..])
  }

  /** Over any run, in either direction, no byte is lost, repeated or reordered. */
  lemma {:induction false} RunKeepsInv(a: Side, b: Side, moves: seq<Move>)
    requires Inv(a, b) && Possible(a, b, moves)
    ensures var (a', b') := Final(a, b, moves); Inv(a', b')
    decreases |moves|
  {
    hide Inv, Act, Enabled;
    if moves != [] {
      var action := moves[0].action;
      if moves[0].first {
        ActKeepsInv(a, b, action);
        var (a', b') := Act(a, b, action);
        RunKeepsInv(a', b', moves[1..]);
      } else {
        InvIsSymmetric(a, b);
        ActKeepsInv(b, a, action);
        var (b', a') := Act(b, a, action);
        InvIsSymmetric(b', a');
        RunKeepsInv(a', b', moves[1..]);
      }
    }
  }

  lemma InvIsSymmetric(a: Side, b: Side)
    ensures Inv(a, b) <==> Inv(b, a)
  {
  }

  predicate IsFrame(frame: seq<Byte>) {
    8 <= |frame| < WORD && frame == FrameOf(frame[8..])
  }

  predicate AllFrames(frames: seq<seq<Byte>>) {
    forall frame :: frame in frames ==> IsFrame(frame)
  }

  function Payload(frame: seq<Byte>): seq<Byte> {
    if 8 <= |frame| then frame[8..] else []
  }

  /** The items are what the frames cause, one by one. */
  ghost predicate ItemsOfFrames(config: Config, items: seq<Item>, frames: seq<seq<Byte>>) {
    |items| == |frames| && forall i :: 0 <= i < |frames| ==> items[i] == ItemOf(config, Payload(frames[i]))
  }

  lemma OneMoreItem(config: Config, items: seq<Item>, frame: seq<Byte>, frames: seq<seq<Byte>>)
    requires ItemsOfFrames(config, items, frames)
    ensures ItemsOfFrames(config, [ItemOf(config, Payload(frame))] + items, [frame] + frames)
  {
  }

  /** Frames put end to end are taken apart into the same frames. */
  lemma {:induction false} ParseConcat(config: Config, frames: seq<seq<Byte>>, m: nat)
    requires AllFrames(frames)
    requires m <= |Items(config, Concat(frames))| && NoFatal(Items(config, Concat(frames))[..m])
    ensures m <= |frames|
    ensures AfterFrames(Concat(frames), m) == Concat(frames[m..])
    ensures ItemsOfFrames(config, Items(config, Concat(frames))[..m], frames[..m])
    decreases m
  {
    hide HeadOf, FrameOf, ItemsOfFrames, ItemOf, NoFatal;
    if m == 0 {
      assert frames[0..] == frames;
      NoItems(config, Items(config, Concat(frames)), frames);
    } else {
      var data := Concat(frames);
      FirstItem(config, data, m);
      assert frames != [] by {
        if frames == [] {
          NoBytesNoFrame();
        }
      }
      assert frames[0] in frames;
      FrameRoundTrip(frames[0][8..], Concat(frames[1..]));
      assert forall frame :: frame in frames[1..] ==> frame in frames;
      ParseConcat(config, frames[1..], m - 1);
      assert frames[1..][m - 1..] == frames[m..];
      assert [frames[0]] + frames[1..][..m - 1] == frames[..m];
      OneMoreItem(config, Items(config, Concat(frames[1..]))[..m - 1], frames[0], frames[1..][..m - 1]);
    }
  }

  lemma NoItems(config: Config, items: seq<Item>, frames: seq<seq<Byte>>)
    ensures ItemsOfFrames(config, items[..0], frames[..0])
  {
  }

  /**
   In any reachable state, the items an end has met are those of the first frames the other end queued,
   one for one and in order; and the frames after them are, to the byte, what is still under way.
   */
  lemma Delivered(x: Side, y: Side)
    requires Accounted(x, y) && Coherent(y) && AllFrames(FramesOf(x.queued))
    ensures |y.items| <= |x.queued|
    ensures ItemsOfFrames(y.inner.config, y.items, FramesOf(x.queued)[..|y.items|])
    ensures y.inner.buffer.data + x.flight + Unsent(x.inner.queue) == Concat(FramesOf(x.queued)[|y.items|..])
  {
    hide Items, AfterFrames, Unsent, HeadOf, FrameOf, AllFrames, ItemsOfFrames, AutoFrames, RepliesIn;
    var config, m, frames := y.inner.config, |y.items|, FramesOf(x.queued);
    var more := x.flight + Unsent(x.inner.queue);
    assert Concat(frames) == y.received + more;
    assert Items(config, y.received)[..m] == y.items;
    AfterFramesInTwo(config, y.received, more, m, 0);
    assert Items(config, Concat(frames))[..m] == y.items;
    ParseConcat(config, frames, m);
    assert AfterFrames(y.inner.buffer.data + more, 0) == y.inner.buffer.data + more by {
      NoneDropped(y.inner.buffer.data + more);
    }
    assert y.inner.buffer.data + more == y.inner.buffer.data + x.flight + Unsent(x.inner.queue);
  }

  lemma NoneDropped(data: seq<Byte>)
    ensures AfterFrames(data, 0) == data
  {
  }
}

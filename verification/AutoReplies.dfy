/**
 Automatic replies between two joined ends: heartbeats neither arise nor vanish, and every query for
 the menu is answered once, in order.
 */
module AutoReplies {
  import opened Bytes
  import opened Frames
  import opened StreamIo
  import opened Receive
  import opened Send
  import opened Inners
  import opened Endpoints
  import opened Delivery

  predicate IsHeartbeat(codec: Codec, frame: seq<Byte>) {
    var read := codec.readHeader(Payload(frame));
    read.GoodHeader? && read.header.Heartbeat?
  }

  /** How many of the frames are heartbeats. */
  function Heartbeats(codec: Codec, frames: seq<seq<Byte>>): nat {
    if frames == [] then 0 else (if IsHeartbeat(codec, frames[0]) then 1 else 0) + Heartbeats(codec, frames[1..])
  }

  predicate IsMenuQuery(codec: Codec, header: MessageHeader) {
    header.QueryHeader? && header.tag == codec.menuTag && header.version == codec.menuVersion
  }

  /** The ids of the menu queries among the frames. */
  function MenuIds(codec: Codec, frames: seq<seq<Byte>>): seq<Id> {
    if frames == [] then []
    else
      var read := codec.readHeader(Payload(frames[0]));
      (if read.GoodHeader? && IsMenuQuery(codec, read.header) then [read.header.id] else [])
      + MenuIds(codec, frames[1..])
  }

  function MenuResponses(config: Config, ids: seq<Id>): seq<seq<Byte>> {
    seq(|ids|, i requires 0 <= i < |ids| => FrameOf(config.codec.menuResponse(config.menu, ids[i])))
  }

  /**
   What the encoding has to get right for an end: heartbeats are read as such, no other frame that the end
   queues on its own is, and these frames have a length that fits.
   */
  ghost predicate Faithful(config: Config) {
    var codec := config.codec;
    && IsHeartbeat(codec, HEARTBEAT_FRAME)
    && !IsHeartbeat(codec, HANDSHAKE_FRAME)
    && !IsHeartbeat(codec, FrameOf(codec.menuQuery)) && |codec.menuQuery| + 8 < WORD
    && forall id: Id ::
         && |codec.menuResponse(config.menu, id)| + 8 < WORD
         && !IsHeartbeat(codec, FrameOf(codec.menuResponse(config.menu, id)))
  }

  lemma {:induction false} HeartbeatsJoined(codec: Codec, a: seq<seq<Byte>>, b: seq<seq<Byte>>)
    ensures Heartbeats(codec, a + b) == Heartbeats(codec, a) + Heartbeats(codec, b)
    decreases |a|
  {
    if a == [] {
      assert a + b == b;
    } else {
      assert (a + b)[1..] == a[1..] + b;
      HeartbeatsJoined(codec, a[1..], b);
    }
  }

  lemma OneHeartbeat(codec: Codec, frame: seq<Byte>)
    ensures Heartbeats(codec, [frame]) == if IsHeartbeat(codec, frame) then 1 else 0
  {
  }

  lemma {:induction false} OwnFramesAreFrames(config: Config, id: Id)
    requires Faithful(config)
    ensures IsFrame(HEARTBEAT_FRAME) && IsFrame(HANDSHAKE_FRAME)
    ensures IsFrame(FrameOf(config.codec.menuResponse(config.menu, id)))
    ensures IsFrame(FrameOf(config.codec.menuQuery))
  {
    FrameIsFrame(config.codec.menuResponse(config.menu, id));
    FrameIsFrame(config.codec.menuQuery);
    FrameIsFrame([0]);
    FrameIsFrame([0x02, 0xfd, 0x52, 0x50, 0x43, 0x00, 0x01]);
    assert HEARTBEAT_FRAME == FrameOf([0]) by { SmallLength(1); }
    assert HANDSHAKE_FRAME == FrameOf([0x02, 0xfd, 0x52, 0x50, 0x43, 0x00, 0x01]) by { SmallLength(7); }
  }

  lemma FrameIsFrame(payload: seq<Byte>)
    requires |payload| + 8 < WORD
    ensures IsFrame(FrameOf(payload)) && Payload(FrameOf(payload)) == payload
  {
    assert FrameOf(payload)[8..] == payload;
  }

  lemma SmallLength(n: nat)
    requires n < 256
    ensures ToLe(n, 8) == [n, 0, 0, 0, 0, 0, 0, 0]
  {
    assert ToLe(n, 8) == [n] + ToLe(0, 7);
    assert ToLe(0, 7) == [0, 0, 0, 0, 0, 0, 0];
  }

  /** The replies to some frames contain a heartbeat for every heartbeat among the frames, and no other. */
  lemma {:induction false} RepliesToFrames(config: Config, items: seq<Item>, frames: seq<seq<Byte>>)
    requires Faithful(config) && ItemsOfFrames(config, items, frames)
    ensures Heartbeats(config.codec, RepliesIn(items)) == Heartbeats(config.codec, frames)
    ensures AllFrames(RepliesIn(items))
    ensures Heartbeats(config.codec, frames) == 0 ==>
              RepliesIn(items) == MenuResponses(config, MenuIds(config.codec, frames))
    decreases |frames|
  {
    hide IsFrame, IsHeartbeat, ItemOf;
    if frames != [] {
      var first, rest := items[0], items[1..];
      RepliesToFrames(config, rest, frames[1..]);
      SingleReply(first);
      var one := RepliesIn([first]);
      assert items == [first] + rest;
      RepliesJoined([first], rest);
      HeartbeatsJoined(config.codec, one, RepliesIn(rest));
      OneReply(config, frames[0]);
      MenuResponsesOfFirst(config, frames);
    }
  }

  /** The reply to one frame. */
  lemma OneReply(config: Config, frame: seq<Byte>)
    requires Faithful(config)
    ensures var item := ItemOf(config, Payload(frame));
            && (item.Reply? ==> IsFrame(item.frame))
            && Heartbeats(config.codec, if item.Reply? then [item.frame] else []) == Heartbeats(config.codec, [frame])
            && (!IsHeartbeat(config.codec, frame) ==>
                  (if item.Reply? then [item.frame] else []) == MenuResponses(config, MenuIds(config.codec, [frame])))
  {
    hide IsFrame, FrameOf;
    var read := config.codec.readHeader(Payload(frame));
    OneHeartbeat(config.codec, frame);
    OneHeartbeat(config.codec, HEARTBEAT_FRAME);
    OwnFramesAreFrames(config, 0);
    if read.GoodHeader? && read.header.QueryHeader? {
      OwnFramesAreFrames(config, read.header.id);
      OneHeartbeat(config.codec, FrameOf(config.codec.menuResponse(config.menu, read.header.id)));
    }
  }

  lemma {:induction false} MenuResponsesOfFirst(config: Config, frames: seq<seq<Byte>>)
    requires frames != []
    ensures MenuResponses(config, MenuIds(config.codec, frames))
         == MenuResponses(config, MenuIds(config.codec, [frames[0]]))
             + MenuResponses(config, MenuIds(config.codec, frames[1..]))
  {
    var one := [frames[0]];
    assert one[1..] == [];
    assert MenuIds(config.codec, [frames[0]]) + MenuIds(config.codec, frames[1..]) == MenuIds(config.codec, frames);
  }

  /** Both ends use one encoding, and everything queued is a frame. */
  ghost predicate Matched(x: Side, y: Side) {
    && Inv(x, y)
    && x.inner.config.codec == y.inner.config.codec
    && Faithful(x.inner.config) && Faithful(y.inner.config)
    && AllFrames(FramesOf(x.queued)) && AllFrames(FramesOf(y.queued))
  }

  /** Frames `x` queued that `y` has not met: unsent, in flight, or in `y`'s buffer. */
  function Underway(x: Side, y: Side): seq<seq<Byte>> {
    if |y.items| <= |x.queued| then FramesOf(x.queued)[|y.items|..] else []
  }

  /** Frames queued behind others are under way behind them. */
  lemma UnderwayAppended(x: Side, y: Side, x': Side, y': Side, more: seq<seq<Byte>>)
    requires y'.items == y.items && |y.items| <= |x.queued|
    requires FramesOf(x'.queued) == FramesOf(x.queued) + more
    ensures Underway(x', y') == Underway(x, y) + more
  {
    var m := |y.items|;
    assert |FramesOf(x.queued)| == |x.queued| && |FramesOf(x'.queued)| == |x'.queued|;
    assert (FramesOf(x.queued) + more)[m..] == FramesOf(x.queued)[m..] + more;
  }

  /** Frames met are no longer under way. */
  lemma UnderwayMet(x: Side, y: Side, x': Side, y': Side)
    requires y'.queued == y.queued && |x.items| <= |x'.items| <= |y.queued|
    ensures Underway(y, x) == FramesOf(y.queued)[|x.items|..|x'.items|] + FramesOf(y.queued)[|x'.items|..]
    ensures Underway(y', x') == FramesOf(y.queued)[|x'.items|..]
  {
    var frames := FramesOf(y.queued);
    assert |frames| == |y.queued|;
    assert frames[|x.items|..] == frames[|x.items|..|x'.items|] + frames[|x'.items|..];
  }

  function HeartbeatsUnderway(x: Side, y: Side): nat {
    Heartbeats(x.inner.config.codec, Underway(x, y)) + Heartbeats(x.inner.config.codec, Underway(y, x))
  }

  /** What callers may queue: whole frames that are not heartbeats. */
  predicate Courteous(codec: Codec, action: Action) {
    action.Add? ==> IsFrame(action.frame) && !IsHeartbeat(codec, action.frame)
  }

  lemma DeliveredIfInv(x: Side, y: Side)
    requires Inv(x, y) && AllFrames(FramesOf(x.queued))
    ensures |y.items| <= |x.queued|
    ensures ItemsOfFrames(y.inner.config, y.items, FramesOf(x.queued)[..|y.items|])
  {
    Delivered(x, y);
  }

  lemma ConfigStays(x: Side, y: Side, action: Action)
    requires Inv(x, y) && Enabled(x, y, action)
    ensures Act(x, y, action).0.inner.config == x.inner.config
  {
    hide Recv, SendAll, RepliesIn, Inv;
  }

  /** What a poll meets is a stretch of the other end's frames, and what it queues are the replies to them. */
  lemma PollMeets(x: Side, y: Side, action: Action)
    requires Matched(x, y) && action.Poll? && Enabled(x, y, action)
    ensures var (x', y') := Act(x, y, action);
            && x'.inner.config == x.inner.config && y'.queued == y.queued && y'.items == y.items && y'.inner == y.inner
            && |x.items| <= |x'.items| <= |y.queued|
            && FramesOf(x'.queued) == FramesOf(x.queued) + RepliesIn(x'.items[|x.items|..])
            && ItemsOfFrames(x.inner.config, x'.items[|x.items|..], FramesOf(y.queued)[|x.items|..|x'.items|])
            && Inv(x', y')
  {
    hide PollInner, AllFrames, Faithful, AutoFrames, Items, AfterFrames, Inv, Concat, Unsent, BytesOf, RepliesIn,
        Live, ItemOf;
    var (x', y') := Act(x, y, action);
    var run := PollInner(x.inner, action.incoming, action.outgoing);
    ActKeepsInv(x, y, action);
    InvIsSymmetric(x', y');
    ConfigStays(x, y, action);
    DeliveredIfInv(y', x');
    assert x'.items[|x.items|..] == run.items;
    AutoOfMarked(true, RepliesIn(run.items));
    assert FramesOf(x'.queued) == FramesOf(x.queued) + FramesOf(Marked(true, RepliesIn(run.items)));
    var met := FramesOf(y.queued)[|x.items|..|x'.items|];
    forall i | 0 <= i < |met|
      ensures run.items[i] == ItemOf(x.inner.config, Payload(met[i]))
    {
      assert x'.items[|x.items| + i] == run.items[i];
      assert FramesOf(y.queued)[..|x'.items|][|x.items| + i] == met[i];
    }
  }

  /**
   Each step answers every heartbeat it meets with exactly one, so that the number of heartbeats under
   way between the two ends never changes.
   */
  lemma HeartbeatsKept(x: Side, y: Side, action: Action)
    requires Matched(x, y) && Enabled(x, y, action) && Courteous(x.inner.config.codec, action)
    ensures var (x', y') := Act(x, y, action);
            && Matched(x', y')
            && HeartbeatsUnderway(x', y') == HeartbeatsUnderway(x, y)
            && |x.items| <= |x'.items| <= |y.queued|
            && Heartbeats(x.inner.config.codec, FramesOf(x'.queued))
               == Heartbeats(x.inner.config.codec, FramesOf(x.queued))
                  + Heartbeats(x.inner.config.codec, FramesOf(y.queued)[|x.items|..|x'.items|])
            && y'.queued == y.queued && x'.inner.config == x.inner.config && y'.inner.config == y.inner.config
  {
    hide IsFrame, IsHeartbeat, Inv, PollInner, Faithful, Heartbeats, Act;
    var codec := x.inner.config.codec;
    if action.Poll? {
      var (x', y') := Act(x, y, action);
      PollMeets(x, y, action);
      PollCounts(x, y, x', y');
    } else {
      AddCounts(x, y, action.frame);
    }
  }

  lemma PollCounts(x: Side, y: Side, x': Side, y': Side)
    requires Matched(x, y) && Inv(x', y')
    requires x'.inner.config == x.inner.config && y'.queued == y.queued && y'.items == y.items && y'.inner == y.inner
    requires |x.items| <= |x'.items| <= |y.queued|
    requires FramesOf(x'.queued) == FramesOf(x.queued) + RepliesIn(x'.items[|x.items|..])
    requires ItemsOfFrames(x.inner.config, x'.items[|x.items|..], FramesOf(y.queued)[|x.items|..|x'.items|])
    ensures Matched(x', y')
    ensures HeartbeatsUnderway(x', y') == HeartbeatsUnderway(x, y)
    ensures Heartbeats(x.inner.config.codec, FramesOf(x'.queued))
         == Heartbeats(x.inner.config.codec, FramesOf(x.queued))
            + Heartbeats(x.inner.config.codec, FramesOf(y.queued)[|x.items|..|x'.items|])
  {
    hide IsFrame, IsHeartbeat, Faithful, Heartbeats, Accounted, Coherent, AllFrames;
    var codec, replies := x.inner.config.codec, RepliesIn(x'.items[|x.items|..]);
    var met, later := FramesOf(y.queued)[|x.items|..|x'.items|], FramesOf(y.queued)[|x'.items|..];
    RepliesToFrames(x.inner.config, x'.items[|x.items|..], met);
    AllFramesJoined(FramesOf(x.queued), replies);
    HeartbeatsJoined(codec, FramesOf(x.queued), replies);
    Delivered(x, y);
    UnderwayAppended(x, y, x', y', replies);
    HeartbeatsJoined(codec, Underway(x, y), replies);
    UnderwayMet(x, y, x', y');
    HeartbeatsJoined(codec, met, later);
  }

  lemma NoHeartbeatInNothing(codec: Codec)
    ensures Heartbeats(codec, []) == 0
  {
  }

  lemma AllFramesJoined(a: seq<seq<Byte>>, b: seq<seq<Byte>>)
    requires AllFrames(a) && AllFrames(b)
    ensures AllFrames(a + b)
  {
  }

  lemma AddCounts(x: Side, y: Side, frame: seq<Byte>)
    requires Matched(x, y) && frame != [] && IsFrame(frame) && !IsHeartbeat(x.inner.config.codec, frame)
    ensures var (x', y') := Act(x, y, Add(frame));
            && Matched(x', y')
            && HeartbeatsUnderway(x', y') == HeartbeatsUnderway(x, y)
            && x'.items == x.items && |x.items| <= |y.queued|
            && Heartbeats(x.inner.config.codec, FramesOf(x'.queued))
                == Heartbeats(x.inner.config.codec, FramesOf(x.queued))
            && Heartbeats(x.inner.config.codec, FramesOf(y.queued)[|x.items|..|x.items|]) == 0
            && y'.queued == y.queued && x'.inner.config == x.inner.config && y'.inner.config == y.inner.config
  {
    hide IsFrame, IsHeartbeat, PollInner, Faithful, Heartbeats, Accounted, Coherent, AllFrames, Concat, Unsent;
    var (x', y') := Act(x, y, Add(frame));
    ActKeepsInv(x, y, Add(frame));
    assert FramesOf(x'.queued) == FramesOf(x.queued) + [frame];
    AddedFrame(x, y, x', frame);
  }

  lemma AddedFrame(x: Side, y: Side, x': Side, frame: seq<Byte>)
    requires Matched(x, y) && Inv(x', y) && IsFrame(frame) && !IsHeartbeat(x.inner.config.codec, frame)
    requires x'.inner.config == x.inner.config && x'.items == x.items
    requires FramesOf(x'.queued) == FramesOf(x.queued) + [frame]
    ensures Matched(x', y)
    ensures HeartbeatsUnderway(x', y) == HeartbeatsUnderway(x, y)
    ensures |x.items| <= |y.queued|
    ensures Heartbeats(x.inner.config.codec, FramesOf(x'.queued))
        == Heartbeats(x.inner.config.codec, FramesOf(x.queued))
    ensures Heartbeats(x.inner.config.codec, FramesOf(y.queued)[|x.items|..|x.items|]) == 0
  {
    hide IsFrame, IsHeartbeat, Faithful, Heartbeats, Accounted, Coherent, AllFrames, ItemsOfFrames, Concat, Unsent;
    var codec := x.inner.config.codec;
    Delivered(x, y);
    Delivered(y, x);
    NoHeartbeatInNothing(codec);
    assert FramesOf(y.queued)[|x.items|..|x.items|] == [];
    OnlyFrame(frame);
    AllFramesJoined(FramesOf(x.queued), [frame]);
    OneHeartbeat(codec, frame);
    HeartbeatsJoined(codec, FramesOf(x.queued), [frame]);
    UnderwayAppended(x, y, x', y, [frame]);
    HeartbeatsJoined(codec, Underway(x, y), [frame]);
  }

  lemma OnlyFrame(frame: seq<Byte>)
    requires IsFrame(frame)
    ensures AllFrames([frame])
  {
  }

  ghost predicate AllCourteous(codec: Codec, moves: seq<Move>) {
    forall move :: move in moves ==> Courteous(codec, move.action)
  }

  /** Over any run between two ends, the number of heartbeats under way stays what it was. */
  lemma {:induction false} HeartbeatsInRun(a: Side, b: Side, moves: seq<Move>)
    requires Matched(a, b) && Possible(a, b, moves) && AllCourteous(a.inner.config.codec, moves)
    ensures var (a', b') := Final(a, b, moves);
            && Matched(a', b')
            && HeartbeatsUnderway(a', b') == HeartbeatsUnderway(a, b)
            && (Silent(a, b) ==> Silent(a', b'))
            && a'.inner.config == a.inner.config && b'.inner.config == b.inner.config
    decreases |moves|
  {
    hide Matched, HeartbeatsUnderway, Enabled, Act, Courteous, Silent;
    if moves != [] {
      var move := moves[0];
      assert move in moves;
      assert forall later :: later in moves[1..] ==> later in moves;
      if move.first {
        StepInRun(a, b, move.action);
        var (a', b') := Act(a, b, move.action);
        HeartbeatsInRun(a', b', moves[1..]);
      } else {
        MatchedIsSymmetric(a, b);
        StepInRun(b, a, move.action);
        var (b', a') := Act(b, a, move.action);
        MatchedIsSymmetric(b', a');
        HeartbeatsInRun(a', b', moves[1..]);
      }
    }
  }

  /** Neither end has ever queued a heartbeat. */
  predicate Silent(x: Side, y: Side) {
    Heartbeats(x.inner.config.codec, FramesOf(x.queued)) == 0 == Heartbeats(y.inner.config.codec, FramesOf(y.queued))
  }

  lemma StepInRun(x: Side, y: Side, action: Action)
    requires Matched(x, y) && Enabled(x, y, action) && Courteous(x.inner.config.codec, action)
    ensures var (x', y') := Act(x, y, action);
            && Matched(x', y')
            && HeartbeatsUnderway(x', y') == HeartbeatsUnderway(x, y)
            && (Silent(x, y) ==> Silent(x', y'))
            && x'.inner.config == x.inner.config && y'.inner.config == y.inner.config
            && x.inner.config.codec == y.inner.config.codec
  {
    hide IsFrame, IsHeartbeat, Inv, Enabled, Act, Faithful, Heartbeats, HeartbeatsUnderway;
    var (x', y') := Act(x, y, action);
    HeartbeatsKept(x, y, action);
    var frames, i, j := FramesOf(y.queued), |x.items|, |x'.items|;
    assert frames == frames[..i] + frames[i..j] + frames[j..];
    HeartbeatsJoined(x.inner.config.codec, frames[..i] + frames[i..j], frames[j..]);
    HeartbeatsJoined(x.inner.config.codec, frames[..i], frames[i..j]);
  }

  lemma MatchedIsSymmetric(x: Side, y: Side)
    ensures Matched(x, y) <==> Matched(y, x)
    ensures HeartbeatsUnderway(x, y) == HeartbeatsUnderway(y, x) <== Matched(x, y)
    ensures Silent(x, y) <==> Silent(y, x)
    ensures Matched(x, y) ==> x.inner.config.codec == y.inner.config.codec
  {
    hide IsFrame, IsHeartbeat, Faithful, Heartbeats, Accounted, Coherent, AllFrames;
  }

  /** Between two ends that start a stream, no heartbeat is ever under way, nor was one ever queued. */
  lemma NoHeartbeatEver(configA: Config, configB: Config, moves: seq<Move>)
    requires configA.codec == configB.codec && Faithful(configA) && Faithful(configB)
    requires Possible(NewSide(configA), NewSide(configB), moves) && AllCourteous(configA.codec, moves)
    ensures var (a, b) := Final(NewSide(configA), NewSide(configB), moves);
            Matched(a, b) && HeartbeatsUnderway(a, b) == 0 && Silent(a, b)
            && a.inner.config == configA && b.inner.config == configB
  {
    hide Inv, Act, Enabled, Faithful, Heartbeats;
    var a, b := NewSide(configA), NewSide(configB);
    StartIsMatched(configA, configB);
    HeartbeatsInRun(a, b, moves);
  }

  lemma StartIsMatched(configA: Config, configB: Config)
    requires configA.codec == configB.codec && Faithful(configA) && Faithful(configB)
    ensures Matched(NewSide(configA), NewSide(configB)) && Silent(NewSide(configA), NewSide(configB))
    ensures HeartbeatsUnderway(NewSide(configA), NewSide(configB)) == 0
  {
    hide Inv, IsFrame, IsHeartbeat, HANDSHAKE_FRAME, FrameOf;
    InvAtStart(configA, configB);
    FirstFramesAreFrames(configA);
    FirstFramesAreFrames(configB);
    AutoOfMarked(false, FirstFrames(configA));
    AutoOfMarked(false, FirstFrames(configB));
  }

  lemma FirstFramesAreFrames(config: Config)
    requires Faithful(config)
    ensures AllFrames(FirstFrames(config)) && Heartbeats(config.codec, FirstFrames(config)) == 0
  {
    hide IsFrame, IsHeartbeat, FrameOf;
    OwnFramesAreFrames(config, 0);
    OneHeartbeat(config.codec, HANDSHAKE_FRAME);
    if config.askMenu {
      OneHeartbeat(config.codec, FrameOf(config.codec.menuQuery));
      HeartbeatsJoined(config.codec, [HANDSHAKE_FRAME], [FrameOf(config.codec.menuQuery)]);
    }
  }

  /**
   Every query for the menu that an end has met was answered with one response carrying its id, in the
   order of the queries; nothing else was queued automatically.
   */
  lemma MenusAnswered(x: Side, y: Side)
    requires Matched(x, y) && Silent(x, y)
    ensures |x.items| <= |y.queued|
    ensures AutoFrames(x.queued)
        == MenuResponses(x.inner.config, MenuIds(x.inner.config.codec, FramesOf(y.queued)[..|x.items|]))
  {
    hide IsFrame, IsHeartbeat, Faithful, Heartbeats, AllFrames;
    Delivered(y, x);
    var frames, n := FramesOf(y.queued), |x.items|;
    assert frames == frames[..n] + frames[n..];
    HeartbeatsJoined(x.inner.config.codec, frames[..n], frames[n..]);
    RepliesToFrames(x.inner.config, x.items, frames[..n]);
  }

  /** The queries among what was handed on, with their bytes. */
  function QueriesIn(handed: seq<Received>): seq<(MessageHeader, seq<Byte>)> {
    if handed == [] then []
    else (if handed[0].QueryIs? then [(handed[0].header, handed[0].bytes)] else []) + QueriesIn(handed[1..])
  }

  /** The queries among the frames that are not for the menu. */
  function OtherQueries(codec: Codec, frames: seq<seq<Byte>>): seq<(MessageHeader, seq<Byte>)> {
    if frames == [] then []
    else
      var read := codec.readHeader(Payload(frames[0]));
      (if read.GoodHeader? && read.header.QueryHeader? && !IsMenuQuery(codec, read.header)
       then [(read.header, read.rest)] else [])
      + OtherQueries(codec, frames[1..])
  }

  lemma {:induction false} QueriesJoined(a: seq<Received>, b: seq<Received>)
    ensures QueriesIn(a + b) == QueriesIn(a) + QueriesIn(b)
    decreases |a|
  {
    if a == [] {
      assert a + b == b;
    } else {
      assert (a + b)[1..] == a[1..] + b;
      QueriesJoined(a[1..], b);
      var first := if a[0].QueryIs? then [(a[0].header, a[0].bytes)] else [];
      assert first + (QueriesIn(a[1..]) + QueriesIn(b)) == first + QueriesIn(a[1..]) + QueriesIn(b);
    }
  }

  predicate IsHandshake(header: MessageHeader) {
    header == ResponseHeader(HANDSHAKE_ID)
  }

  /** A response that an end which asked for the menu takes for it. */
  predicate IsMenuResponse(config: Config, header: MessageHeader) {
    header == ResponseHeader(0) && config.askMenu
  }

  /** What the caller is to get of one frame: handshakes, menus as they are read, other responses, other queries. */
  function ForCaller(config: Config, frame: seq<Byte>): seq<Received> {
    var read := config.codec.readHeader(Payload(frame));
    if read.BadHeader? || read.header.Heartbeat? || IsMenuQuery(config.codec, read.header) then []
    else if IsHandshake(read.header) then [HandshakeDone]
    else if IsMenuResponse(config, read.header) then
      var menu := config.codec.readMenu(read.rest);
      if menu.Some? then [MenuIs(menu.value)] else []
    else if read.header.ResponseHeader? then [ResponseIs(read.header, read.rest)]
    else [QueryIs(read.header, read.rest)]
  }

  function AllForCaller(config: Config, frames: seq<seq<Byte>>): seq<Received> {
    if frames == [] then [] else ForCaller(config, frames[0]) + AllForCaller(config, frames[1..])
  }

  /** Of harmless items from frames, each is handed on or answered; the queries handed on are those not for the menu. */
  lemma {:induction false} ItemsAreShared(config: Config, items: seq<Item>, frames: seq<seq<Byte>>)
    requires ItemsOfFrames(config, items, frames) && NoFatal(items)
    ensures |HandedOn(items)| + |RepliesIn(items)| == |items|
    ensures QueriesIn(HandedOn(items)) == OtherQueries(config.codec, frames)
    ensures HandedOn(items) == AllForCaller(config, frames)
    decreases |frames|
  {
    hide ItemOf, ForCaller;
    if frames != [] {
      var first, rest := items[0], items[1..];
      assert first in items && forall item :: item in rest ==> item in items;
      ItemsAreShared(config, rest, frames[1..]);
      OneShared(config, frames[0]);
      QueriesJoined(if first.Deliver? then [first.received] else [], HandedOn(rest));
    }
  }

  lemma OneShared(config: Config, frame: seq<Byte>)
    ensures var item := ItemOf(config, Payload(frame));
            var read := config.codec.readHeader(Payload(frame));
            QueriesIn(if item.Deliver? then [item.received] else [])
            == if read.GoodHeader? && read.header.QueryHeader? && !IsMenuQuery(config.codec, read.header)
               then [(read.header, read.rest)] else []
    ensures var item := ItemOf(config, Payload(frame));
            !item.Fatal? ==> ForCaller(config, frame) == if item.Deliver? then [item.received] else []
  {
  }

  /**
   In any reachable state each frame an end has met was either answered or handed to its caller by a
   poll, as what it is: handshakes, the menu as it is read, responses and queries with their headers and
   bytes, in the order of the frames.  In particular the queries handed on are exactly the other end's
   queries but for those for the menu.
   */
  lemma FramesReachTheCaller(x: Side, y: Side)
    requires Accounted(y, x) && Coherent(x) && AllFrames(FramesOf(y.queued))
    ensures |x.items| <= |y.queued|
    ensures |x.handed| + |AutoFrames(x.queued)| == |x.items|
    ensures x.handed == AllForCaller(x.inner.config, FramesOf(y.queued)[..|x.items|])
    ensures QueriesIn(x.handed) == OtherQueries(x.inner.config.codec, FramesOf(y.queued)[..|x.items|])
  {
    hide ItemOf, ForCaller, AllFrames, Items, AfterFrames, Unsent, Concat;
    Delivered(y, x);
    ItemsAreShared(x.inner.config, x.items, FramesOf(y.queued)[..|x.items|]);
  }
}

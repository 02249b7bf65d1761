/**
 Frames on a byte stream and what an endpoint makes of them, as a function of the whole stream: a
 frame is eight length bytes, least significant first, and that many bytes of payload.
 */
module Frames {
  import opened Bytes
  import opened Options

  const WORD: nat := 0x1_0000_0000_0000_0000

  /** The id that marks a handshake: the bytes `RPC` as a little-endian number. */
  const HANDSHAKE_ID: int := 0x435052

  const HANDSHAKE_FRAME: seq<Byte> := [7, 0, 0, 0, 0, 0, 0, 0, 0x02, 0xfd, 0x52, 0x50, 0x43, 0x00, 0x01]

  const HEARTBEAT_FRAME: seq<Byte> := [1, 0, 0, 0, 0, 0, 0, 0, 0]

  type Menu = seq<(string, int)>

  /** Ids are signed 64-bit numbers. */
  type Id = n: int | -0x8000_0000_0000_0000 <= n < 0x8000_0000_0000_0000

  datatype MessageHeader =
    | Heartbeat
    | QueryHeader(tag: seq<Byte>, version: int, id: Id)
    | ResponseHeader(id: Id)

  datatype HeaderRead = BadHeader | GoodHeader(header: MessageHeader, rest: seq<Byte>)

  /** The message encoding, which is a library's: reading headers and menus, writing menus. */
  datatype Codec = Codec(
    readHeader: seq<Byte> -> HeaderRead,
    readMenu: seq<Byte> -> Option<Menu>,
    menuQuery: seq<Byte>,
    menuResponse: (Menu, Id) -> seq<Byte>,
    menuTag: seq<Byte>,
    menuVersion: int)

  /** What an endpoint is set up with: the encoding, its own menu, and whether it asks for the peer's. */
  datatype Config = Config(codec: Codec, menu: Menu, askMenu: bool)

  datatype Received =
    | HandshakeDone
    | MenuIs(menu: Menu)
    | QueryIs(header: MessageHeader, bytes: seq<Byte>)
    | ResponseIs(header: MessageHeader, bytes: seq<Byte>)

  datatype Fault = UnreadableHeader | UnreadableMenu | LengthOverflow

  /** What one frame causes: an event for the caller, a reply to the peer, or the end of the stream's use. */
  datatype Item = Deliver(received: Received) | Reply(frame: seq<Byte>) | Fatal(fault: Fault)

  function FrameOf(payload: seq<Byte>): seq<Byte> {
    ToLe(|payload|, 8) + payload
  }

  /** The frame at the head of the data, if it is all there. */
  datatype Head = Partial | Oversized | Whole(payload: seq<Byte>)

  function HeadOf(data: seq<Byte>): (head: Head)
    ensures head.Whole? ==> 8 + |head.payload| <= |data|
  {
    if |data| < 8 then
      Partial
    else
      var length := FromLe(data[..8]);
      if WORD <= 8 + length then
        Oversized
      else if |data| < 8 + length then
        Partial
      else
        Whole(data[8..8 + length])
  }

  function React(config: Config, header: MessageHeader, bytes: seq<Byte>): Item {
    match header
    case Heartbeat => Reply(HEARTBEAT_FRAME)
    case ResponseHeader(id) =>
      if id == HANDSHAKE_ID then
        Deliver(HandshakeDone)
      else if id == 0 && config.askMenu then
        (match config.codec.readMenu(bytes)
         case None => Fatal(UnreadableMenu)
         case Some(menu) => Deliver(MenuIs(menu)))
      else
        Deliver(ResponseIs(header, bytes))
    case QueryHeader(tag, version, id) =>
      if tag == config.codec.menuTag && version == config.codec.menuVersion then
        Reply(FrameOf(config.codec.menuResponse(config.menu, id)))
      else
        Deliver(QueryIs(header, bytes))
  }

  /** What a frame with the given payload causes. */
  function ItemOf(config: Config, payload: seq<Byte>): Item {
    match config.codec.readHeader(payload)
    case BadHeader => Fatal(UnreadableHeader)
    case GoodHeader(header, rest) => React(config, header, rest)
  }

  /** Everything a byte stream causes, in order, up to the first fault. */
  function Items(config: Config, data: seq<Byte>): seq<Item>
    decreases |data|
  {
    match HeadOf(data)
    case Partial => []
    case Oversized => [Fatal(LengthOverflow)]
    case Whole(payload) =>
      var item := ItemOf(config, payload);
      if item.Fatal? then [item] else [item] + Items(config, data[8 + |payload|..])
  }

  /**
   What is taken for a frame is one, and every frame that fits a word with its length is taken for one;
   lengths that do not fit are told at once.
   */
  lemma {:induction false} HeadIsFrame(data: seq<Byte>)
    ensures forall payload :: HeadOf(data) == Whole(payload) <==> FrameOf(payload) <= data && 8 + |payload| < WORD
    ensures HeadOf(data) == Oversized
       <==> 8 <= |data| && 0x1_0000_0000_0000_0000 <= 8 + FromLe(data[..8])
  {
    hide FrameOf;
    forall payload: seq<Byte>
      ensures HeadOf(data) == Whole(payload) <==> FrameOf(payload) <= data && 8 + |payload| < WORD
    {
      if HeadOf(data) == Whole(payload) {
        WholeIsFrame(data, payload);
      } else if FrameOf(payload) <= data && 8 + |payload| < WORD {
        var more := data[|FrameOf(payload)|..];
        assert data == FrameOf(payload) + more;
        FrameRoundTrip(payload, more);
      }
    }
  }

  lemma {:induction false} WholeIsFrame(data: seq<Byte>, payload: seq<Byte>)
    requires HeadOf(data) == Whole(payload)
    ensures FrameOf(payload) <= data && 8 + |payload| < WORD
  {
    hide FromLe, ToLe;
    ToFromLe(data[..8]);
    assert data[..8] + payload == data[..8 + |payload|];
  }

  lemma FrameLength(payload: seq<Byte>)
    ensures |FrameOf(payload)| == 8 + |payload|
  {
  }

  /** Bytes still to come do not change a head that is already decided. */
  lemma HeadIsStable(data: seq<Byte>, more: seq<Byte>)
    requires !HeadOf(data).Partial?
    ensures HeadOf(data + more) == HeadOf(data)
    ensures HeadOf(data).Whole? ==>
              var size := 8 + |HeadOf(data).payload|; (data + more)[size..] == data[size..] + more
  {
    assert (data + more)[..8] == data[..8];
    if HeadOf(data).Whole? {
      var size := 8 + |HeadOf(data).payload|;
      assert (data + more)[8..size] == data[8..size];
    }
  }

  /** More bytes only add items at the end. */
  lemma {:induction false} ItemsGrow(config: Config, data: seq<Byte>, more: seq<Byte>)
    ensures Items(config, data) <= Items(config, data + more)
    decreases |data|
  {
    if !HeadOf(data).Partial? {
      HeadIsStable(data, more);
      if HeadOf(data).Whole? {
        ItemsGrow(config, data[8 + |HeadOf(data).payload|..], more);
      }
    }
  }

  lemma NoBytesNoFrame()
    ensures HeadOf([]).Partial?
  {
  }

  /** A frame put in front of other bytes is read back as it was. */
  lemma FrameRoundTrip(payload: seq<Byte>, more: seq<Byte>)
    requires |payload| + 8 < WORD
    ensures HeadOf(FrameOf(payload) + more) == Whole(payload)
    ensures (FrameOf(payload) + more)[8 + |payload|..] == more
  {
    assert Limit(8) == WORD;
    LittleEndianRoundTrip(|payload|, 8);
    var data := FrameOf(payload) + more;
    assert data[..8] == ToLe(|payload|, 8);
    assert data[8..8 + |payload|] == payload;
  }
}

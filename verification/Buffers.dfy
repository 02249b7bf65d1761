/**
 The receive buffer: filled from a stream in whatever pieces the stream delivers, cut frame by frame.
 */
module Buffers {
  import opened Bytes
  import opened Frames
  import opened Powers
  import opened StreamIo

  const INITIAL_SIZE: nat := 0x1000

  /** The bytes held and the length of the vector they are held in. */
  datatype BufferState = BufferState(data: seq<Byte>, cap: nat)

  datatype FillOutcome = FillPending | FillFailed(kind: ErrorKind) | Filled(count: nat)

  /** A fill and what it leaves; `grew` tells whether a read filled the buffer exactly. */
  datatype FillRun = FillRun(outcome: FillOutcome, buffer: BufferState, script: seq<ReadStep>, grew: bool)

  /** Reads until a read leaves room in the buffer, doubling the buffer whenever one does not. */
  function Fill(b: BufferState, script: seq<ReadStep>): FillRun
    requires |b.data| < b.cap
    decreases Weight(script)
  {
    var (result, left) := ReadOnce(script, b.cap - |b.data|);
    ReadConserves(script, b.cap - |b.data|);
    match result
    case ReadPending => FillRun(FillPending, b, left, false)
    case ReadFailed(kind) => FillRun(FillFailed(kind), b, left, false)
    case Got(bytes) =>
      var data := b.data + bytes;
      if |data| < b.cap then
        FillRun(Filled(|bytes|), BufferState(data, b.cap), left, false)
      else
        Fill(BufferState(data, 2 * b.cap), left).(grew := true)
  }

  datatype CutOutcome = NoFrame | CutOverflow | CutBadHeader | CutFrame(header: MessageHeader, bytes: seq<Byte>)

  ghost predicate IsPow2(n: nat) {
    exists k: nat :: n == Pow2(k)
  }

  /** The least power of two that is not below `n`, as an exponent not below `k`. */
  function NextExponent(n: nat, k: nat): (e: nat)
    ensures k <= e && n <= Pow2(e)
    ensures k < e ==> Pow2(e - 1) < n
    decreases n - Pow2(k)
  {
    if n <= Pow2(k) then k else NextExponent(n, k + 1)
  }

  function NextPowerOfTwo(n: nat): nat {
    Pow2(NextExponent(n, 0))
  }

  /** Length of the vector after the first bytes were dropped and `rest` are left of it. */
  function ShrunkCap(rest: nat): nat {
    if NextPowerOfTwo(rest) < INITIAL_SIZE then INITIAL_SIZE else NextPowerOfTwo(rest)
  }

  /**
   Takes the first frame out of the buffer.  When its header cannot be read, the end of the data has
   already moved but the data has not: the buffer keeps its first bytes and loses as many at the end.
   */
  function CutBuffer(codec: Codec, b: BufferState): (CutOutcome, BufferState)
    requires |b.data| < b.cap
  {
    match HeadOf(b.data)
    case Partial => (NoFrame, b)
    case Oversized => (CutOverflow, b)
    case Whole(payload) =>
      var size := 8 + |payload|;
      match codec.readHeader(payload)
      case BadHeader => (CutBadHeader, BufferState(b.data[..|b.data| - size], b.cap))
      case GoodHeader(header, rest) => (CutFrame(header, rest), BufferState(b.data[size..], ShrunkCap(b.cap - size)))
  }

  /** The buffer as it is between calls, when at most `peak` bytes were ever held in it. */
  ghost predicate Sound(b: BufferState, peak: nat) {
    && |b.data| < b.cap
    && |b.data| <= peak
    && IsPow2(b.cap)
    && INITIAL_SIZE <= b.cap
    && (b.cap == INITIAL_SIZE || b.cap <= 2 * peak)
  }

  const EMPTY_BUFFER: BufferState := BufferState([], INITIAL_SIZE)

  lemma EmptyIsSound()
    ensures Sound(EMPTY_BUFFER, 0)
  {
    assert Pow2(8) == 0x100;
    assert Pow2(12) == 0x1000 by { Pow2Sum(8, 4); assert Pow2(4) == 16; }
  }

  /** A read that fills the buffer exactly is followed by another read. */
  lemma {:induction false} FillContinues(b: BufferState, script: seq<ReadStep>)
    requires |b.data| < b.cap
    requires var result := ReadOnce(script, b.cap - |b.data|).0; result.Got? && |b.data| + |result.bytes| == b.cap
    ensures var (result, left) := ReadOnce(script, b.cap - |b.data|);
            Fill(b, script) == Fill(BufferState(b.data + result.bytes, 2 * b.cap), left).(grew := true)
  {
    ReadConserves(script, b.cap - |b.data|);
  }

  /** Any other read ends the fill. */
  lemma FillEnds(b: BufferState, script: seq<ReadStep>)
    requires |b.data| < b.cap
    ensures var (result, left) := ReadOnce(script, b.cap - |b.data|);
            match result
            case ReadPending => Fill(b, script) == FillRun(FillPending, b, left, false)
            case ReadFailed(kind) => Fill(b, script) == FillRun(FillFailed(kind), b, left, false)
            case Got(bytes) =>
              |b.data| + |bytes| < b.cap ==>
                Fill(b, script) == FillRun(Filled(|bytes|), BufferState(b.data + bytes, b.cap), left, false)
  {
  }

  /**
   What made a fill end: bytes that leave room, nothing more to read yet, an error, or the end of the
   stream; before it, only bytes were read.
   */
  ghost predicate FillCause(script: seq<ReadStep>, run: FillRun) {
    && |run.script| <= |script|
    && match run.outcome
       case FillPending => ReadAll(script, run.script) || ReadUpTo(script, run.script, Stall)
       case FillFailed(kind) => ReadUpTo(script, run.script, Break(kind))
       case Filled(count) =>
         if count == 0 then ReadUpTo(script, run.script, Chunk([])) else ReadSome(script, run.script)
  }

  lemma {:induction false} FillEndsBecause(b: BufferState, script: seq<ReadStep>)
    requires |b.data| < b.cap
    ensures FillCause(script, Fill(b, script))
    decreases Weight(script)
  {
    hide Fill, Weight, FillCause;
    var space := b.cap - |b.data|;
    var (result, left) := ReadOnce(script, space);
    ReadConserves(script, space);
    if result.Got? && |b.data + result.bytes| == b.cap {
      FillContinues(b, script);
      FillEndsBecause(BufferState(b.data + result.bytes, 2 * b.cap), left);
      CausePassesOn(script, space, Fill(BufferState(b.data + result.bytes, 2 * b.cap), left));
    } else {
      FillEnds(b, script);
      OneReadCause(b, script);
    }
  }

  lemma {:induction false} OneReadCause(b: BufferState, script: seq<ReadStep>)
    requires |b.data| < b.cap
    requires var result := ReadOnce(script, b.cap - |b.data|).0; result.Got? ==> |b.data| + |result.bytes| < b.cap
    ensures FillCause(script, Fill(b, script))
  {
    hide Fill;
    FillEnds(b, script);
  }

  lemma CausePassesOn(script: seq<ReadStep>, space: nat, run: FillRun)
    requires var result := ReadOnce(script, space).0; result.Got? && result.bytes != []
    requires FillCause(ReadOnce(script, space).1, run)
    ensures FillCause(script, run.(grew := true))
  {
    hide ReadOnce, ReadUpTo, ReadAll, ReadSome;
    ReadLater(script, space, run.script, Stall);
    ReadLater(script, space, run.script, Chunk([]));
    if run.outcome.FillFailed? {
      ReadLater(script, space, run.script, Break(run.outcome.kind));
    }
  }

  function Resumed(grew: bool, run: FillRun): FillRun {
    if grew then run.(grew := true) else run
  }

  /** Filling appends what it takes from the stream, and progress is made whenever bytes are reported. */
  lemma {:induction false} FillConserves(b: BufferState, script: seq<ReadStep>)
    requires |b.data| < b.cap
    ensures var run := Fill(b, script);
            && |run.buffer.data| < run.buffer.cap
            && b.data <= run.buffer.data
            && BytesOf(script) == run.buffer.data[|b.data|..] + BytesOf(run.script)
            && Weight(run.script) <= Weight(script)
            && (run.outcome.Filled? ==> Weight(run.script) + |run.buffer.data| < Weight(script) + |b.data|)
    decreases Weight(script)
  {
    hide ReadOnce, BytesOf, Weight;
    var space := b.cap - |b.data|;
    var (result, left) := ReadOnce(script, space);
    ReadConserves(script, space);
    if result.Got? {
      var data := b.data + result.bytes;
      if |data| == b.cap {
        var grown := BufferState(data, 2 * b.cap);
        FillContinues(b, script);
        FillConserves(grown, left);
        var after := Fill(grown, left).buffer.data;
        assert after[|b.data|..] == result.bytes + after[|data|..];
      }
    }
  }

  /** Filling keeps the invariant, whatever the stream does. */
  lemma {:induction false} FillKeepsSound(b: BufferState, script: seq<ReadStep>, peak: nat)
    requires Sound(b, peak)
    ensures var filled := Fill(b, script).buffer;
            Sound(filled, Max(peak, |filled.data|))
    decreases Weight(script)
  {
    hide IsPow2, ReadOnce, BytesOf, Weight;
    var space := b.cap - |b.data|;
    var (result, left) := ReadOnce(script, space);
    ReadConserves(script, space);
    if result.Got? {
      var data := b.data + result.bytes;
      if |data| == b.cap {
        var grown := BufferState(data, 2 * b.cap);
        DoubledIsPow2(b.cap);
        FillContinues(b, script);
        FillKeepsSound(grown, left, Max(peak, |data|));
        FillConserves(grown, left);
      }
    }
  }

  lemma DoubledIsPow2(n: nat)
    requires IsPow2(n)
    ensures IsPow2(2 * n)
  {
    var k: nat :| n == Pow2(k);
    assert 2 * n == Pow2(k + 1);
  }

  lemma NextIsLeast(n: nat, m: nat)
    requires n <= Pow2(m)
    ensures NextPowerOfTwo(n) <= Pow2(m)
  {
    var e := NextExponent(n, 0);
    if m < e {
      Pow2Grows(m, e - 1);
      assert false;
    }
    Pow2Grows(e, m);
  }

  /**
   After a frame was cut out the vector has the least length that is a power of two, is not below the
   initial one, and holds what was left of the old vector.
   */
  lemma CutShrinks(codec: Codec, b: BufferState)
    requires |b.data| < b.cap && CutBuffer(codec, b).0.CutFrame?
    ensures var cut, rest := CutBuffer(codec, b).1, b.cap - (8 + |HeadOf(b.data).payload|);
            && IsPow2(cut.cap) && INITIAL_SIZE <= cut.cap && rest <= cut.cap
            && (forall k: nat :: INITIAL_SIZE <= Pow2(k) && rest <= Pow2(k) ==> cut.cap <= Pow2(k))
  {
    var rest := b.cap - (8 + |HeadOf(b.data).payload|);
    EmptyIsSound();
    assert IsPow2(NextPowerOfTwo(rest));
    forall k: nat | INITIAL_SIZE <= Pow2(k) && rest <= Pow2(k)
      ensures ShrunkCap(rest) <= Pow2(k)
    {
      NextIsLeast(rest, k);
    }
  }

  /**
   After an unreadable header the buffer begins with the same frame again, as long as it holds that many
   bytes; it has lost as many at its end.
   */
  lemma {:induction false} BadHeaderIsMetAgain(codec: Codec, b: BufferState)
    requires |b.data| < b.cap && CutBuffer(codec, b).0.CutBadHeader?
    ensures var payload, cut := HeadOf(b.data).payload, CutBuffer(codec, b).1;
            && cut.data <= b.data && |b.data| == |cut.data| + |FrameOf(payload)| && cut.cap == b.cap
            && (HeadOf(cut.data) == Whole(payload) <==> 2 * |FrameOf(payload)| <= |b.data|)
  {
    var payload, cut := HeadOf(b.data).payload, CutBuffer(codec, b).1;
    FrameAgain(b.data, cut.data, payload);
  }

  lemma {:induction false} FrameAgain(data: seq<Byte>, less: seq<Byte>, payload: seq<Byte>)
    requires HeadOf(data) == Whole(payload) && less <= data && |data| == |less| + 8 + |payload|
    ensures |FrameOf(payload)| == 8 + |payload|
    ensures HeadOf(less) == Whole(payload) <==> 2 * |FrameOf(payload)| <= |data|
  {
    hide HeadOf, FrameOf, FromLe;
    FrameLength(payload);
    HeadIsFrame(data);
    HeadIsFrame(less);
    var n := |FrameOf(payload)|;
    assert data[..n] == FrameOf(payload);
    if n <= |less| {
      assert less[..n] == data[..n];
    }
  }

  /** Cutting keeps the invariant, bad headers included: no more is held and the vector does not grow. */
  lemma CutKeepsSound(codec: Codec, b: BufferState, peak: nat)
    requires Sound(b, peak)
    ensures var cut := CutBuffer(codec, b).1; Sound(cut, peak) && cut.cap <= b.cap
  {
    var (outcome, cut) := CutBuffer(codec, b);
    if outcome.CutFrame? {
      var m: nat :| b.cap == Pow2(m);
      var rest := b.cap - (8 + |HeadOf(b.data).payload|);
      NextIsLeast(rest, m);
      EmptyIsSound();
      assert IsPow2(NextPowerOfTwo(rest));
    }
  }

  class Buffer {
    var offset: nat
    var buf: seq<Byte>

    ghost predicate Valid()
      reads this
    {
      offset < |buf|
    }

    function State(): BufferState
      requires offset <= |buf|
      reads this
    {
      BufferState(buf[..offset], |buf|)
    }

    constructor ()
      ensures Valid() && State() == EMPTY_BUFFER
    {
      offset := 0;
      buf := seq(INITIAL_SIZE, _ => 0);
    }

    method PollFill(io: Io) returns (outcome: FillOutcome)
      requires Valid()
      modifies this, io`incoming
      ensures Valid()
      ensures var run := Fill(old(State()), old(io.incoming));
              outcome == run.outcome && State() == run.buffer && io.incoming == run.script
    {
      hide Fill, ReadOnce, Weight;
      ghost var grew := false;
      while true
        invariant Valid()
        invariant Fill(old(State()), old(io.incoming)) == Resumed(grew, Fill(State(), io.incoming))
        decreases Weight(io.incoming)
      {
        ghost var before, script := State(), io.incoming;
        ReadConserves(script, |buf| - offset);
        FillEnds(before, script);
        var result := io.PollRead(|buf| - offset);
        match result {
          case ReadPending => return FillPending;
          case ReadFailed(kind) => return FillFailed(kind);
          case Got(bytes) =>
            buf := buf[..offset] + bytes + buf[offset + |bytes|..];
            offset := offset + |bytes|;
            assert buf[..offset] == before.data + bytes;
            if offset < |buf| {
              return Filled(|bytes|);
            }
            buf := buf + seq(|buf|, _ => 0);
            grew := true;
            assert State() == BufferState(before.data + bytes, 2 * before.cap);
            FillContinues(before, script);
        }
      }
    }

    method TryCut(codec: Codec) returns (outcome: CutOutcome)
      requires Valid()
      modifies this
      ensures Valid()
      ensures (outcome, State()) == CutBuffer(codec, old(State()))
    {
      if offset < 8 {
        return NoFrame;
      }
      assert buf[..offset][..8] == buf[..8];
      var length := FromLe(buf[..8]);
      if WORD <= 8 + length {
        return CutOverflow;
      }
      if offset < 8 + length {
        return NoFrame;
      }
      assert buf[..offset][8..8 + length] == buf[8..8 + length];
      ghost var data := buf[..offset];
      offset := offset - (8 + length);
      match codec.readHeader(buf[8..8 + length]) {
        case BadHeader =>
          assert buf[..offset] == data[..offset];
          return CutBadHeader;
        case GoodHeader(header, rest) =>
          var kept := buf[8 + length..];
          buf := kept + seq(ShrunkCap(|kept|) - |kept|, _ => 0);
          assert buf[..offset] == data[8 + length..];
          return CutFrame(header, rest);
      }
    }
  }
}

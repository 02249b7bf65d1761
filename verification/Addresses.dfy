/**
 Merkle addresses on the wire.  A node at `depth` with index `pos` is sent as the depth and the
 leading bytes of a 32-bit big-endian word; the receiver reads back the first `depth` bits.
 */
module Addresses {
  import opened Bytes
  import opened Powers

  const U32: nat := 0x1_0000_0000

  /** What is left of `x` in a 32-bit word. */
  function Wrap32(x: nat): nat {
    x % U32
  }

  /** The `n` low bytes of `p`, most significant first. */
  function ToBe(p: nat, n: nat): (bytes: seq<Byte>)
    ensures |bytes| == n
  {
    if n == 0 then [] else ToBe(p / 256, n - 1) + [p % 256]
  }

  function FromBe(bytes: seq<Byte>): nat {
    if bytes == [] then 0 else FromBe(bytes[..|bytes| - 1]) * 256 + bytes[|bytes| - 1]
  }

  /** `1u32 << n` as an optimised build computes it: the shift amount is taken modulo the width. */
  function ShiftedOne(n: nat): nat {
    Pow2(n % 32)
  }

  /** Bytes needed for `depth` bits. */
  function ByteCount(depth: nat): (n: nat)
    ensures depth <= 8 * n < depth + 8
  {
    (depth + 7) / 8
  }

  /** The address bytes the client sends for the node at `depth`, `pos`. */
  function AddressBytes(depth: nat, pos: nat): seq<Byte>
    requires depth <= 32
  {
    if depth == 32 then
      ToBe(pos, 4)
    else
      var b := if ByteCount(depth) < 4 then ByteCount(depth) else 4;
      ToBe(Wrap32(pos * ShiftedOne(32 - depth)), 4)[..b]
  }

  /** `bytes` cut to `n` bytes, or filled up with zero bytes. */
  function Fit(bytes: seq<Byte>, n: nat): (fitted: seq<Byte>)
    ensures |fitted| == n
  {
    if n <= |bytes| then bytes[..n] else bytes + seq(n - |bytes|, _ => 0)
  }

  /** The index the server reads: the first `depth` bits of the bytes. */
  function IndexOf(depth: nat, bytes: seq<Byte>): nat {
    var n := ByteCount(depth);
    ShiftRight(FromBe(Fit(bytes, n)), 8 * n - depth)
  }

  lemma {:induction false} LeadingBytes(p: nat, n: nat, k: nat)
    requires k <= n
    ensures ToBe(p, n)[..k] == ToBe(ShiftRight(p, 8 * (n - k)), k)
    decreases n
  {
    if k == n {
    } else {
      LeadingBytes(p / 256, n - 1, k);
      assert ToBe(p, n)[..k] == ToBe(p / 256, n - 1)[..k];
      ShiftRightSum(p, 8, 8 * (n - 1 - k));
      ShiftRightByte(p);
      assert 8 + 8 * (n - 1 - k) == 8 * (n - k);
    }
  }

  lemma {:induction false} BigEndianRoundTrip(p: nat, n: nat)
    requires p < Pow2(8 * n)
    ensures FromBe(ToBe(p, n)) == p
  {
    if n == 0 {
    } else {
      Pow2Sum(8, 8 * (n - 1));
      assert 8 + 8 * (n - 1) == 8 * n;
      assert Pow2(8) == 256;
      BigEndianRoundTrip(p / 256, n - 1);
      assert ToBe(p, n)[..n - 1] == ToBe(p / 256, n - 1);
    }
  }

  lemma {:induction false} SmallShift(n: nat)
    requires n < 32
    ensures ShiftedOne(n) == Pow2(n)
  {
  }

  lemma RootShift(n: nat)
    requires n == 32
    ensures 0 * ShiftedOne(n) == 0 == 0 * Pow2(n)
  {
  }

  /**
   Moving `pos` to the top of a 32-bit word loses nothing.  At the root alone the shift amount is the
   full width, which an optimised build takes as 0 and a checked build refuses; `pos` is 0 there.
   */
  lemma ShiftLosesNothing(depth: nat, pos: nat)
    requires depth < 32 && pos < Pow2(depth)
    ensures pos * Pow2(32 - depth) < U32
    ensures Wrap32(pos * ShiftedOne(32 - depth)) == pos * Pow2(32 - depth)
    ensures 32 - depth < 32 <==> 0 < depth
  {
    hide Pow2, ShiftedOne;
    var n := 32 - depth;
    WordBound(pos, depth, n);
    if depth == 0 {
      RootIndex(pos);
      RootShift(n);
    } else {
      SmallShift(n);
    }
  }

  lemma RootIndex(pos: nat)
    requires pos < Pow2(0)
    ensures pos == 0
  {
  }

  lemma WordBound(pos: nat, depth: nat, n: nat)
    requires depth + n == 32 && pos < Pow2(depth)
    ensures pos * Pow2(n) < U32
  {
    ScaledBelow(pos, depth, n);
    WordSize();
  }

  lemma WordSize()
    ensures Pow2(32) == U32
  {
    assert Pow2(8) == 0x100;
    assert Pow2(16) == 0x1_0000 by { Pow2Sum(8, 8); }
    assert Pow2(32) == 0x1_0000_0000 by { Pow2Sum(16, 16); }
  }

  /**
   The server reads the index the client meant, for every node the walk can ask about, and the
   bytes cut off the 32-bit word are all zero.
   */
  lemma AddressRoundTrip(depth: nat, pos: nat)
    requires depth <= 32 && pos < Pow2(depth)
    ensures |AddressBytes(depth, pos)| == ByteCount(depth)
    ensures IndexOf(depth, AddressBytes(depth, pos)) == pos
    ensures Fit(AddressBytes(depth, pos), 4) == ToBe(pos * Pow2(32 - depth), 4)
  {
    hide Pow2, ToBe, AddressBytes, IndexOf;
    var n := ByteCount(depth);
    var slack, cut := 8 * n - depth, 8 * (4 - n);
    SentWord(depth, pos);
    Pow2Sum(slack, cut);
    Associates(pos, Pow2(slack), Pow2(cut));
    SplitWord(pos * Pow2(slack), n);
    DecodeSent(depth, pos);
  }

  lemma SplitWord(sent: nat, n: nat)
    requires n <= 4
    ensures ToBe(sent * Pow2(8 * (4 - n)), 4)[..n] == ToBe(sent, n)
    ensures ToBe(sent * Pow2(8 * (4 - n)), 4) == Fit(ToBe(sent, n), 4)
  {
    LeadingBytes(sent * Pow2(8 * (4 - n)), 4, n);
    ShiftBack(sent, 8 * (4 - n));
    TrailingZeros(sent, n, 4 - n);
  }

  lemma DecodeSent(depth: nat, pos: nat)
    requires pos < Pow2(depth)
    ensures IndexOf(depth, ToBe(pos * Pow2(8 * ByteCount(depth) - depth), ByteCount(depth))) == pos
  {
    var n := ByteCount(depth);
    var slack := 8 * n - depth;
    var sent := pos * Pow2(slack);
    ScaledBelow(pos, depth, slack);
    BigEndianRoundTrip(sent, n);
    ShiftBack(pos, slack);
    assert Fit(ToBe(sent, n), n) == ToBe(sent, n);
  }

  lemma {:induction false} SentWord(depth: nat, pos: nat)
    requires depth <= 32 && pos < Pow2(depth)
    ensures AddressBytes(depth, pos) == ToBe(pos * Pow2(32 - depth), 4)[..ByteCount(depth)]
  {
    if depth == 32 {
      assert pos * Pow2(0) == pos;
    } else {
      ShiftLosesNothing(depth, pos);
    }
  }

  lemma {:induction false} TrailingZeros(p: nat, n: nat, k: nat)
    ensures ToBe(p * Pow2(8 * k), n + k) == ToBe(p, n) + seq(k, _ => 0)
    decreases k
  {
    if k == 0 {
    } else {
      var rest := p * Pow2(8 * (k - 1));
      assert p * Pow2(8 * k) == 256 * rest by {
        Pow2Sum(8, 8 * (k - 1));
        assert 8 + 8 * (k - 1) == 8 * k;
        assert Pow2(8) == 256;
        assert p * (256 * Pow2(8 * (k - 1))) == 256 * rest;
      }
      TrailingZeros(p, n, k - 1);
    }
  }
}

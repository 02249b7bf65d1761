/** Powers of two, shared by the Merkle tree, the address arithmetic and the buffer growth. */
module Powers {

  function Max(a: nat, b: nat): nat {
    if a < b then b else a
  }

  function Pow2(n: nat): (p: nat)
    ensures 0 < p
  {
    if n == 0 then 1 else 2 * Pow2(n - 1)
  }

  lemma {:induction false} Pow2Sum(a: nat, b: nat)
    ensures Pow2(a + b) == Pow2(a) * Pow2(b)
  {
    if a == 0 {
    } else {
      Pow2Sum(a - 1, b);
      assert Pow2(a + b) == 2 * Pow2(a - 1 + b);
    }
  }

  lemma Pow2Grows(a: nat, b: nat)
    requires a <= b
    ensures Pow2(a) <= Pow2(b)
  {
    Pow2Sum(a, b - a);
    assert Pow2(a) * 1 <= Pow2(a) * Pow2(b - a);
  }

  /** `x >> k`. */
  function ShiftRight(x: nat, k: nat): nat {
    if k == 0 then x else ShiftRight(x / 2, k - 1)
  }

  lemma {:induction false} ShiftRightSum(x: nat, a: nat, b: nat)
    ensures ShiftRight(x, a + b) == ShiftRight(ShiftRight(x, a), b)
  {
    if a == 0 {
    } else {
      ShiftRightSum(x / 2, a - 1, b);
    }
  }

  lemma {:induction false} ShiftBack(x: nat, k: nat)
    ensures ShiftRight(x * Pow2(k), k) == x
  {
    if k == 0 {
    } else {
      assert x * Pow2(k) == 2 * (x * Pow2(k - 1));
      ShiftBack(x, k - 1);
    }
  }

  lemma ShiftRightByte(x: nat)
    ensures ShiftRight(x, 8) == x / 256
  {
    ShiftRightSum(x, 4, 4);
    ShiftRightHalfByte(x);
    ShiftRightHalfByte(x / 16);
  }

  lemma ShiftRightHalfByte(x: nat)
    ensures ShiftRight(x, 4) == x / 16
  {
    assert ShiftRight(x, 4) == ShiftRight(x / 2, 3) == ShiftRight(x / 4, 2);
    assert ShiftRight(x / 4, 2) == ShiftRight(x / 8, 1) == ShiftRight(x / 16, 0);
  }

  lemma ScaledBelow(x: nat, a: nat, b: nat)
    requires x < Pow2(a)
    ensures x * Pow2(b) < Pow2(a + b)
  {
    Pow2Sum(a, b);
    Monotone(x + 1, Pow2(a), Pow2(b));
    Distributes(x, Pow2(b));
  }

  lemma Monotone(x: int, y: int, z: int)
    requires x <= y && 0 <= z
    ensures x * z <= y * z
  {
    assert 0 <= (y - x) * z;
    assert (y - x) * z == y * z - x * z;
  }

  lemma Distributes(x: int, z: int)
    ensures (x + 1) * z == x * z + z
  {
  }

  lemma Associates(x: int, y: int, z: int)
    ensures x * (y * z) == (x * y) * z
  {
  }
}

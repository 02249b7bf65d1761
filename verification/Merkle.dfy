/**
 The depth-35 account tree.  Leaves are kept by index; an absent index is an empty leaf.  Hashes are
 ideal: a hash is the term it was computed from, so distinct subtrees never collide.
 */
module Merkle {
  import opened Powers

  /** An account: its identity and its other contents, which nothing here looks into. */
  datatype Account = Account(id: nat, contents: nat)

  type Leaves = map<nat, Account>

  datatype Hash =
    | EmptyHash
    | AccountHash(account: Account)
    | NodeHash(height: nat, left: Hash, right: Hash)

  /** Hash of the subtree of the given height whose index among its equals is `pos`. */
  function SubtreeHash(leaves: Leaves, height: nat, pos: nat): Hash
    decreases height, |leaves|, pos
  {
    if height == 0 then
      if pos in leaves then AccountHash(leaves[pos]) else EmptyHash
    else
      NodeHash(height, SubtreeHash(leaves, height - 1, 2 * pos), SubtreeHash(leaves, height - 1, 2 * pos + 1))
  }

  /** First leaf of that subtree; the subtree of `pos + 1` starts where this one ends. */
  function FirstLeaf(height: nat, pos: nat): nat {
    pos * Pow2(height)
  }

  predicate SameLeaf(a: Leaves, b: Leaves, i: nat) {
    (i in a <==> i in b) && (i in a ==> a[i] == b[i])
  }

  ghost predicate AgreeOn(a: Leaves, b: Leaves, lo: nat, hi: nat) {
    forall i: nat :: lo <= i < hi ==> SameLeaf(a, b, i)
  }

  ghost predicate SameSubtree(a: Leaves, b: Leaves, height: nat, pos: nat) {
    AgreeOn(a, b, FirstLeaf(height, pos), FirstLeaf(height, pos + 1))
  }

  lemma ChildrenSplit(height: nat, pos: nat)
    requires 0 < height
    ensures FirstLeaf(height, pos) == FirstLeaf(height - 1, 2 * pos)
    ensures FirstLeaf(height - 1, 2 * pos) < FirstLeaf(height - 1, 2 * pos + 1) < FirstLeaf(height, pos + 1)
    ensures FirstLeaf(height, pos + 1) == FirstLeaf(height - 1, 2 * pos + 2)
  {
    var p := Pow2(height - 1);
    assert pos * (2 * p) == (2 * pos) * p;
    assert (pos + 1) * (2 * p) == (2 * pos + 2) * p;
    assert (2 * pos + 1) * p == (2 * pos) * p + p;
    assert (2 * pos + 2) * p == (2 * pos + 1) * p + p;
  }

  /** Equal hashes at a node mean equal leaves below it, and the other way round. */
  lemma {:induction false} HashDecides(a: Leaves, b: Leaves, height: nat, pos: nat)
    ensures SubtreeHash(a, height, pos) == SubtreeHash(b, height, pos) <==> SameSubtree(a, b, height, pos)
  {
    if height == 0 {
      assert FirstLeaf(0, pos) == pos && FirstLeaf(0, pos + 1) == pos + 1;
      assert SameSubtree(a, b, 0, pos) ==> SameLeaf(a, b, pos);
    } else {
      ChildrenSplit(height, pos);
      HashDecides(a, b, height - 1, 2 * pos);
      HashDecides(a, b, height - 1, 2 * pos + 1);
      assert 2 * pos + 1 + 1 == 2 * pos + 2;
    }
  }

  /** The leaves are exactly the indices below `n`. */
  ghost predicate Dense(leaves: Leaves, n: nat) {
    forall i: nat :: i in leaves <==> i < n
  }

  lemma {:induction false} DenseCount(leaves: Leaves, n: nat)
    requires Dense(leaves, n)
    ensures |leaves| == n
  {
    if n == 0 {
      assert leaves == map[];
    } else {
      var fewer := map i | i in leaves && i != n - 1 :: leaves[i];
      DenseCount(fewer, n - 1);
      assert leaves == fewer[n - 1 := leaves[n - 1]];
    }
  }
}

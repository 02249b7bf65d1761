/**
 What an honest synchronisation asks: which nodes, each how often, and how many queries in all.
 */
module SyncCost {
  import opened Powers
  import opened Addresses
  import opened Merkle
  import opened SyncProtocol
  import opened SyncWalk

  predicate IsNode(depth: nat, pos: nat) {
    depth <= BATCH_DEPTH && pos < Pow2(depth)
  }

  /** The node `d`, `p` lies in the subtree of the node `depth`, `pos`, or is that node. */
  predicate Under(depth: nat, pos: nat, d: nat, p: nat) {
    depth <= d && ShiftRight(p, d - depth) == pos
  }

  lemma UnderOneChild(depth: nat, pos: nat, d: nat, p: nat)
    requires depth < d
    ensures Under(depth, pos, d, p) <==> Under(depth + 1, 2 * pos, d, p) || Under(depth + 1, 2 * pos + 1, d, p)
  {
    ShiftRightSum(p, d - depth - 1, 1);
    assert ShiftRight(ShiftRight(p, d - depth - 1), 1) == ShiftRight(p, d - depth - 1) / 2;
  }

  /** A node below is the node itself or lies under exactly one of the two children. */
  lemma UnderCases(depth: nat, pos: nat, d: nat, p: nat)
    ensures Under(depth, pos, d, p)
       <==> (depth == d && pos == p) || Under(depth + 1, 2 * pos, d, p) || Under(depth + 1, 2 * pos + 1, d, p)
    ensures !(Under(depth + 1, 2 * pos, d, p) && Under(depth + 1, 2 * pos + 1, d, p))
    ensures depth == d ==> !Under(depth + 1, 2 * pos, d, p) && !Under(depth + 1, 2 * pos + 1, d, p)
  {
    if depth < d {
      UnderOneChild(depth, pos, d, p);
    }
  }

  /** Distinct nodes are asked about by distinct queries. */
  lemma NodeQueryInjective(depth: nat, pos: nat, d: nat, p: nat)
    requires IsNode(depth, pos) && IsNode(d, p)
    ensures NodeQuery(depth, pos) == NodeQuery(d, p) <==> depth == d && pos == p
  {
    AddressRoundTrip(depth, pos);
    AddressRoundTrip(d, p);
  }

  lemma ChildrenDiffer(mine: Leaves, theirs: Leaves, depth: nat, pos: nat)
    requires depth < BATCH_DEPTH
    ensures Differs(mine, theirs, depth, pos)
       <==> Differs(mine, theirs, depth + 1, 2 * pos) || Differs(mine, theirs, depth + 1, 2 * pos + 1)
  {
  }

  /** Below a node whose hash already matches, nothing differs. */
  lemma {:induction false} MatchingSubtree(mine: Leaves, theirs: Leaves, depth: nat, pos: nat, d: nat, p: nat)
    requires d <= BATCH_DEPTH && Under(depth, pos, d, p)
    requires !Differs(mine, theirs, depth, pos)
    ensures !Differs(mine, theirs, d, p)
    decreases d - depth
  {
    if depth < d {
      UnderOneChild(depth, pos, d, p);
      ChildrenDiffer(mine, theirs, depth, pos);
      MatchingSubtree(mine, theirs, depth + 1, if Under(depth + 1, 2 * pos, d, p) then 2 * pos else 2 * pos + 1, d, p);
    }
  }

  /** The plan for a node, from the plans for its children. */
  lemma PlanIs(mine: Leaves, theirs: Leaves, depth: nat, pos: nat)
    requires depth <= BATCH_DEPTH
    ensures PlannedQueries(mine, theirs, depth, pos)
         == if !Differs(mine, theirs, depth, pos) then []
            else if depth == BATCH_DEPTH then [NodeQuery(depth, pos)]
            else [NodeQuery(depth, pos)] + PlannedQueries(mine, theirs, depth + 1, 2 * pos)
                 + PlannedQueries(mine, theirs, depth + 1, 2 * pos + 1)
  {
    hide Differs, NodeQuery;
  }

  /**
   Exact cost: every node below the visited one is asked about once if it differed at the start, and
   not at all otherwise.
   */
  lemma {:induction false} AskedExactlyOnce(mine: Leaves, theirs: Leaves, depth: nat, pos: nat, d: nat, p: nat)
    requires IsNode(depth, pos) && IsNode(d, p)
    ensures multiset(PlannedQueries(mine, theirs, depth, pos))[NodeQuery(d, p)]
         == if Under(depth, pos, d, p) && Differs(mine, theirs, d, p) then 1 else 0
    decreases BATCH_DEPTH - depth
  {
    hide Differs, NodeQuery, Under, PlannedQueries;
    PlanIs(mine, theirs, depth, pos);
    NodeQueryInjective(depth, pos, d, p);
    UnderCases(depth, pos, d, p);
    if !Differs(mine, theirs, depth, pos) {
      if Under(depth, pos, d, p) {
        MatchingSubtree(mine, theirs, depth, pos, d, p);
      }
    } else if depth < BATCH_DEPTH {
      AskedExactlyOnce(mine, theirs, depth + 1, 2 * pos, d, p);
      AskedExactlyOnce(mine, theirs, depth + 1, 2 * pos + 1, d, p);
      CountJoined(NodeQuery(depth, pos), PlannedQueries(mine, theirs, depth + 1, 2 * pos),
                  PlannedQueries(mine, theirs, depth + 1, 2 * pos + 1), NodeQuery(d, p));
    } else {
      assert !Under(depth + 1, 2 * pos, d, p) && !Under(depth + 1, 2 * pos + 1, d, p) by {
        NothingUnderBlocks(pos, d, p);
      }
    }
  }

  lemma CountJoined(x: Query, a: seq<Query>, b: seq<Query>, q: Query)
    ensures multiset([x] + a + b)[q] == (if x == q then 1 else 0) + multiset(a)[q] + multiset(b)[q]
  {
  }

  lemma NothingUnderBlocks(pos: nat, d: nat, p: nat)
    requires d <= BATCH_DEPTH
    ensures !Under(BATCH_DEPTH + 1, 2 * pos, d, p) && !Under(BATCH_DEPTH + 1, 2 * pos + 1, d, p)
  {
  }

  ghost predicate IsNodeQuery(q: Query) {
    exists d: nat, p: nat :: IsNode(d, p) && q == NodeQuery(d, p)
  }

  /** Nothing is asked about but nodes of the tree. */
  lemma {:induction false} OnlyNodesAsked(mine: Leaves, theirs: Leaves, depth: nat, pos: nat)
    requires IsNode(depth, pos)
    ensures forall q :: q in PlannedQueries(mine, theirs, depth, pos) ==> IsNodeQuery(q)
    decreases BATCH_DEPTH - depth
  {
    hide HashAt, AddressBytes;
    if depth < BATCH_DEPTH {
      OnlyNodesAsked(mine, theirs, depth + 1, 2 * pos);
      OnlyNodesAsked(mine, theirs, depth + 1, 2 * pos + 1);
    }
  }

  /** The blocks of eight leaves below a node that differ. */
  ghost function DifferingBlocks(mine: Leaves, theirs: Leaves, depth: nat, pos: nat): set<nat>
    requires depth <= BATCH_DEPTH
  {
    set b: nat | FirstLeaf(BATCH_DEPTH - depth, pos) <= b < FirstLeaf(BATCH_DEPTH - depth, pos + 1)
                 && Differs(mine, theirs, BATCH_DEPTH, b)
  }

  lemma BlocksSplit(mine: Leaves, theirs: Leaves, depth: nat, pos: nat)
    requires depth < BATCH_DEPTH
    ensures |DifferingBlocks(mine, theirs, depth, pos)|
         == |DifferingBlocks(mine, theirs, depth + 1, 2 * pos)|
             + |DifferingBlocks(mine, theirs, depth + 1, 2 * pos + 1)|
  {
    hide Differs, FirstLeaf;
    ChildrenSplit(BATCH_DEPTH - depth, pos);
    var left, right := DifferingBlocks(mine, theirs, depth + 1, 2 * pos),
        DifferingBlocks(mine, theirs, depth + 1, 2 * pos + 1);
    assert 2 * pos + 1 + 1 == 2 * pos + 2;
    assert left !! right;
    assert DifferingBlocks(mine, theirs, depth, pos) == left + right;
  }

  /** A differing node has a differing block, and the path to a block is at most 33 queries long. */
  lemma {:induction false} CostBound(mine: Leaves, theirs: Leaves, depth: nat, pos: nat)
    requires IsNode(depth, pos)
    ensures |PlannedQueries(mine, theirs, depth, pos)|
        <= (1 + (BATCH_DEPTH - depth)) * |DifferingBlocks(mine, theirs, depth, pos)|
    ensures Differs(mine, theirs, depth, pos) ==> 1 <= |DifferingBlocks(mine, theirs, depth, pos)|
    decreases BATCH_DEPTH - depth
  {
    hide Differs, FirstLeaf, AddressBytes, DifferingBlocks, PlannedQueries, NodeQuery;
    PlanIs(mine, theirs, depth, pos);
    if !Differs(mine, theirs, depth, pos) {
      NotNegative(1 + (BATCH_DEPTH - depth), |DifferingBlocks(mine, theirs, depth, pos)|);
    } else if depth == BATCH_DEPTH {
      OneBlock(mine, theirs, pos);
    } else {
      ChildrenDiffer(mine, theirs, depth, pos);
      BlocksSplit(mine, theirs, depth, pos);
      CostBound(mine, theirs, depth + 1, 2 * pos);
      CostBound(mine, theirs, depth + 1, 2 * pos + 1);
      PathCost(BATCH_DEPTH - depth,
               |DifferingBlocks(mine, theirs, depth + 1, 2 * pos)|,
               |DifferingBlocks(mine, theirs, depth + 1, 2 * pos + 1)|,
               |PlannedQueries(mine, theirs, depth + 1, 2 * pos)|,
               |PlannedQueries(mine, theirs, depth + 1, 2 * pos + 1)|);
    }
  }

  lemma NotNegative(a: nat, b: nat)
    ensures 0 <= a * b
  {
  }

  lemma PathCost(k: nat, left: nat, right: nat, leftCost: nat, rightCost: nat)
    requires 1 <= left + right && leftCost <= k * left && rightCost <= k * right
    ensures 1 + leftCost + rightCost <= (1 + k) * (left + right)
  {
    assert k * left + k * right == k * (left + right);
  }

  lemma OneBlock(mine: Leaves, theirs: Leaves, pos: nat)
    ensures |DifferingBlocks(mine, theirs, BATCH_DEPTH, pos)|
        == if Differs(mine, theirs, BATCH_DEPTH, pos) then 1 else 0
  {
    hide Differs;
    assert FirstLeaf(0, pos) == pos && FirstLeaf(0, pos + 1) == pos + 1;
    if Differs(mine, theirs, BATCH_DEPTH, pos) {
      assert DifferingBlocks(mine, theirs, BATCH_DEPTH, pos) == {pos};
    } else {
      assert DifferingBlocks(mine, theirs, BATCH_DEPTH, pos) == {};
    }
  }
}

/**
 The order of the writes of an honest synchronisation: always left to right, never past the end of the
 client's accounts, and never beyond the server's count.
 */
module SyncWrites {
  import opened Merkle
  import opened SyncProtocol
  import opened SyncWalk
  import opened HonestSync

  /**
   The writes can be carried out in order on a client whose leaves are the indices below `count`: each
   one overwrites a leaf or appends one, puts the server's account in its place, and happens when all
   leaves to its left already equal the server's.
   */
  ghost predicate SafeWrites(mine: Leaves, count: nat, writes: seq<Write>, server: Ledger)
    decreases |writes|
  {
    && Dense(mine, count)
    && count <= server.num
    && (writes == [] ||
        var w := writes[0];
        && w.index <= count
        && w.index in server.leaves && w.account == server.leaves[w.index]
        && AgreeOn(mine, server.leaves, 0, w.index)
        && SafeWrites(mine[w.index := w.account], if w.index == count then count + 1 else count, writes[1..], server))
  }

  function Apply(mine: Leaves, writes: seq<Write>): Leaves
    decreases |writes|
  {
    if writes == [] then mine else Apply(mine[writes[0].index := writes[0].account], writes[1..])
  }

  lemma {:induction false} ApplyInTwo(mine: Leaves, first: seq<Write>, second: seq<Write>)
    ensures Apply(mine, first + second) == Apply(Apply(mine, first), second)
    decreases |first|
  {
    if first == [] {
      assert first + second == second;
    } else {
      assert (first + second)[1..] == first[1..] + second;
      ApplyInTwo(mine[first[0].index := first[0].account], first[1..], second);
    }
  }

  lemma {:induction false} SafeInTwo(mine: Leaves, count: nat, first: seq<Write>, second: seq<Write>, after: nat,
      server: Ledger)
    requires SafeWrites(mine, count, first, server)
    requires SafeWrites(Apply(mine, first), after, second, server)
    ensures SafeWrites(mine, count, first + second, server)
    decreases |first|
  {
    if first == [] {
      assert first + second == second;
      DenseCount(mine, count);
      DenseCount(mine, after);
    } else {
      var w := first[0];
      assert (first + second)[1..] == first[1..] + second;
      var longer := if w.index == count then count + 1 else count;
      SafeInTwo(mine[w.index := w.account], longer, first[1..], second, after, server);
    }
  }

  /** Whatever safe writes leave behind is again a dense prefix, no shorter and within the server's count. */
  lemma {:induction false} SafeWritesStayDense(mine: Leaves, count: nat, writes: seq<Write>, server: Ledger)
    returns (after: nat)
    requires SafeWrites(mine, count, writes, server)
    ensures count <= after <= server.num && Dense(Apply(mine, writes), after)
    decreases |writes|
  {
    if writes == [] {
      after := count;
    } else {
      var w := writes[0];
      var longer := if w.index == count then count + 1 else count;
      after := SafeWritesStayDense(mine[w.index := w.account], longer, writes[1..], server);
    }
  }

  lemma WritesAtTail(base: nat, accounts: seq<Account>)
    requires accounts != []
    ensures WritesAt(base, accounts)[0] == Write(base, accounts[0])
    ensures WritesAt(base, accounts)[1..] == WritesAt(base + 1, accounts[1..])
  {
  }

  /** A batch written where all to its left is reconciled is safe, and copies its range. */
  lemma {:induction false} SafeBatch(mine: Leaves, count: nat, server: Ledger, from: nat, until: nat)
    requires Servable(server) && Dense(mine, count) && count <= server.num && from <= until
    requires AgreeOn(mine, server.leaves, 0, from)
    ensures SafeWrites(mine, count, WritesAt(from, Batch(server.leaves, server.num, from, until)), server)
    ensures Apply(mine, WritesAt(from, Batch(server.leaves, server.num, from, until)))
        == Merge(mine, server.leaves, from, until)
    decreases until - from
  {
    hide Merge, AgreeOn;
    if from == until || from == server.num || from !in server.leaves {
      NothingToMerge(mine, server, from, until);
    } else {
      var next, more := SafeStep(mine, count, server, from);
      WritesAtTail(from, Batch(server.leaves, server.num, from, until));
      SafeBatch(next, more, server, from + 1, until);
      MergeStep(mine, server.leaves, from, until);
    }
  }

  lemma NothingToMerge(mine: Leaves, server: Ledger, from: nat, until: nat)
    requires Servable(server)
    requires from == until || from == server.num || from !in server.leaves
    ensures Merge(mine, server.leaves, from, until) == mine
  {
    assert forall i | i in server.leaves && from <= i < until :: false;
  }

  lemma MergeStep(mine: Leaves, theirs: Leaves, from: nat, until: nat)
    requires from < until && from in theirs
    ensures Merge(mine[from := theirs[from]], theirs, from + 1, until) == Merge(mine, theirs, from, until)
  {
  }

  /** One write at the first leaf not yet reconciled. */
  lemma SafeStep(mine: Leaves, count: nat, server: Ledger, from: nat)
      returns (next: Leaves, more: nat)
    requires Servable(server) && Dense(mine, count) && count <= server.num
    requires AgreeOn(mine, server.leaves, 0, from)
    requires from in server.leaves
    ensures from <= count
    ensures next == mine[from := server.leaves[from]] && more == (if from == count then count + 1 else count)
    ensures Dense(next, more) && more <= server.num
    ensures AgreeOn(next, server.leaves, 0, from + 1)
  {
    next, more := mine[from := server.leaves[from]], if from == count then count + 1 else count;
    assert count < from ==> SameLeaf(mine, server.leaves, count);
    forall i: nat | i < from + 1
      ensures SameLeaf(next, server.leaves, i)
    {
      assert i < from ==> SameLeaf(mine, server.leaves, i);
    }
  }

  /** Carrying out the plan of a node is safe and copies exactly the leaves below the node. */
  lemma SafePlan(mine: Leaves, count: nat, server: Ledger, depth: nat, pos: nat)
    requires depth <= BATCH_DEPTH
    requires Servable(server) && Dense(mine, count) && count <= server.num
    requires AgreeOn(mine, server.leaves, 0, NodeStart(depth, pos))
    ensures SafeWrites(mine, count, PlannedWrites(mine, server, depth, pos), server)
    ensures Apply(mine, PlannedWrites(mine, server, depth, pos))
         == Merge(mine, server.leaves, NodeStart(depth, pos), NodeStart(depth, pos + 1))
    decreases BATCH_DEPTH - depth
  {
    hide HashAt, FirstLeaf, Batch;
    if !Differs(mine, server.leaves, depth, pos) {
      DiffersMeans(mine, server.leaves, depth, pos);
      MergeOfAgreeing(mine, server.leaves, NodeStart(depth, pos), NodeStart(depth, pos + 1));
    } else if depth == BATCH_DEPTH {
      BlockStart(pos);
      BlockStart(pos + 1);
      SafeBatch(mine, count, server, 8 * pos, 8 * pos + 8);
    } else {
      SafePlanInner(mine, count, server, depth, pos);
    }
  }

  lemma SafePlanInner(mine: Leaves, count: nat, server: Ledger, depth: nat, pos: nat)
    requires depth < BATCH_DEPTH
    requires Servable(server) && Dense(mine, count) && count <= server.num
    requires AgreeOn(mine, server.leaves, 0, NodeStart(depth, pos))
    requires Differs(mine, server.leaves, depth, pos)
    ensures SafeWrites(mine, count, PlannedWrites(mine, server, depth, pos), server)
    ensures Apply(mine, PlannedWrites(mine, server, depth, pos))
         == Merge(mine, server.leaves, NodeStart(depth, pos), NodeStart(depth, pos + 1))
    decreases BATCH_DEPTH - depth, 0
  {
    hide HashAt, FirstLeaf, Batch, SafeWrites, Apply, Merge, AgreeOn, PlannedWrites;
    var lo, mid, hi := NodeStart(depth, pos), NodeStart(depth + 1, 2 * pos + 1), NodeStart(depth, pos + 1);
    var left := PlannedWrites(mine, server, depth + 1, 2 * pos);
    NodeSplits(depth, pos);
    SafePlan(mine, count, server, depth + 1, 2 * pos);
    var halfway := Apply(mine, left);
    var after := HalfwayDense(mine, count, left, server, lo, mid);
    MergeInTwo(mine, server.leaves, lo, mid, hi);
    SafePlan(halfway, after, server, depth + 1, 2 * pos + 1);
    PlanFrame(mine, halfway, server, depth + 1, 2 * pos + 1);
    var right := PlannedWrites(mine, server, depth + 1, 2 * pos + 1);
    ApplyInTwo(mine, left, right);
    SafeInTwo(mine, count, left, right, after, server);
    assert PlannedWrites(mine, server, depth, pos) == left + right by { PlanSplits(mine, server, depth, pos); }
  }

  /** Halfway through a node the client is dense again and agrees with the server up to the middle. */
  lemma HalfwayDense(mine: Leaves, count: nat, left: seq<Write>, server: Ledger, lo: nat, mid: nat)
    returns (after: nat)
    requires Servable(server)
    requires SafeWrites(mine, count, left, server)
    requires lo <= mid && AgreeOn(mine, server.leaves, 0, lo)
    requires Apply(mine, left) == Merge(mine, server.leaves, lo, mid)
    ensures Dense(Apply(mine, left), after) && after <= server.num
    ensures AgreeOn(Apply(mine, left), server.leaves, 0, mid)
  {
    after := SafeWritesStayDense(mine, count, left, server);
    MergeAgrees(mine, server.leaves, lo, mid);
    forall i: nat | i < mid
      ensures SameLeaf(Apply(mine, left), server.leaves, i)
    {
      assert i < lo ==> SameLeaf(mine, server.leaves, i);
      assert lo <= i ==> SameLeaf(Merge(mine, server.leaves, lo, mid), server.leaves, i);
    }
  }
}

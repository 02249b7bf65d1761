/**
 The client's walk over the tree, as a function of the peer, and the queries and writes planned for a
 node from what the two sides hold there.
 */
module SyncWalk {
  import opened Powers
  import opened Addresses
  import opened Merkle
  import opened SyncProtocol

  datatype Write = Write(index: nat, account: Account)

  /** State of a walk: the client's leaves, the queries it has asked and the leaves it has written. */
  datatype Run = Run(leaves: Leaves, asked: seq<Query>, writes: seq<Write>) {
    function Ask(q: Query): Run {
      this.(asked := asked + [q])
    }

    function WriteAll(base: nat, accounts: seq<Account>): Run {
      Run(
        leaves + Placed(base, accounts),
        asked,
        writes + WritesAt(base, accounts))
    }
  }

  function WritesAt(base: nat, accounts: seq<Account>): seq<Write> {
    seq(|accounts|, o requires 0 <= o < |accounts| => Write(base + o, accounts[o]))
  }

  /** The accounts laid out from index `base` on. */
  function Placed(base: nat, accounts: seq<Account>): (placed: Leaves)
    ensures forall i: nat :: i in placed <==> base <= i < base + |accounts|
    ensures forall i: nat :: i in placed ==> placed[i] == accounts[i - base]
  {
    var n := |accounts|;
    if n == 0 then map[] else Placed(base, accounts[..n - 1])[base + n - 1 := accounts[n - 1]]
  }

  lemma PlacedNext(leaves: Leaves, base: nat, accounts: seq<Account>, o: nat)
    requires o < |accounts|
    ensures leaves + Placed(base, accounts[..o + 1]) == (leaves + Placed(base, accounts[..o]))[base + o := accounts[o]]
    ensures WritesAt(base, accounts[..o + 1]) == WritesAt(base, accounts[..o]) + [Write(base + o, accounts[o])]
  {
    assert accounts[..o + 1][..o] == accounts[..o];
  }

  datatype Outcome = Panicked | Returned(run: Run)

  /** The query asked about a node. */
  function NodeQuery(depth: nat, pos: nat): Query
    requires depth <= BATCH_DEPTH
  {
    if depth == BATCH_DEPTH then
      WhatContents(depth, AddressBytes(depth, pos))
    else
      WhatChildHashes(depth, AddressBytes(depth, pos))
  }

  /** First index a batch is written to, computed in a `u32`. */
  function BatchBase(pos: nat): nat {
    Wrap32(pos * 8)
  }

  function Expected(root: Hash, hash: Hash, depth: nat): Hash {
    if depth == 0 then root else hash
  }

  /** The assertion at the end of every visit. */
  function Check(expected: Hash, depth: nat, pos: nat, run: Run): Outcome
    requires depth <= BATCH_DEPTH
  {
    if HashAt(run.leaves, depth, pos) == expected then Returned(run) else Panicked
  }

  /** The visit to a block of eight leaves that does not match. */
  function Fetch(peer: Peer, expected: Hash, pos: nat, run: Run): Outcome {
    var q := NodeQuery(BATCH_DEPTH, pos);
    var asked := run.Ask(q);
    match peer(run.asked, q)
    case Refused => Check(expected, BATCH_DEPTH, pos, asked)
    case Answered(ContentsAre(accounts)) =>
      Check(expected, BATCH_DEPTH, pos, asked.WriteAll(BatchBase(pos), accounts))
    case _ => Panicked
  }

  /** A visit to the node `depth`, `pos`, which the peer claims has hash `hash`. */
  function Walk(peer: Peer, root: Hash, hash: Hash, depth: nat, pos: nat, run: Run): Outcome
    requires depth <= BATCH_DEPTH
    decreases BATCH_DEPTH - depth, |run.leaves|
  {
    var expected := Expected(root, hash, depth);
    if HashAt(run.leaves, depth, pos) == expected then
      Returned(run)
    else
      if depth == BATCH_DEPTH then
        Fetch(peer, expected, pos, run)
      else
        var q := NodeQuery(depth, pos);
        match peer(run.asked, q)
        case Answered(ChildHashesAre(left, right)) =>
          var first := Walk(peer, root, left, depth + 1, 2 * pos, run.Ask(q));
          if first.Panicked? then Panicked else
          var second := Walk(peer, root, right, depth + 1, 2 * pos + 1, first.run);
          if second.Panicked? then Panicked else
          Check(expected, depth, pos, second.run)
        case _ => Panicked
  }

  /** The rest of a visit once the child hashes are known: the left child, the right child, the check. */
  function Descend(peer: Peer, root: Hash, hash: Hash, depth: nat, pos: nat, run: Run, left: Hash, right: Hash): Outcome
    requires depth < BATCH_DEPTH
  {
    var first := Walk(peer, root, left, depth + 1, 2 * pos, run.Ask(NodeQuery(depth, pos)));
    if first.Panicked? then Panicked else
    var second := Walk(peer, root, right, depth + 1, 2 * pos + 1, first.run);
    if second.Panicked? then Panicked else
    Check(Expected(root, hash, depth), depth, pos, second.run)
  }

  /** The ways a visit can go. */
  lemma WalkCases(peer: Peer, root: Hash, hash: Hash, depth: nat, pos: nat, run: Run)
    requires depth <= BATCH_DEPTH
    ensures var reply := peer(run.asked, NodeQuery(depth, pos));
            var outcome := Walk(peer, root, hash, depth, pos, run);
            if HashAt(run.leaves, depth, pos) == Expected(root, hash, depth) then outcome == Returned(run)
            else if depth == BATCH_DEPTH then outcome == Fetch(peer, Expected(root, hash, depth), pos, run)
            else if reply.Answered? && reply.answer.ChildHashesAre? then
              outcome == Descend(peer, root, hash, depth, pos, run, reply.answer.left, reply.answer.right)
            else outcome == Panicked
  {
    hide HashAt, NodeQuery, Fetch, Check;
  }

  /** Where a block is written, in 32 bits: in its own place exactly below index 2^32. */
  lemma BaseWraps(pos: nat)
    ensures BatchBase(pos) < U32 && (8 * pos - BatchBase(pos)) % U32 == 0
    ensures BatchBase(pos) == 8 * pos <==> pos < 0x2000_0000
  {
  }

  /** Whatever the peer does, a visit that returns leaves the node with the hash that was claimed for it. */
  lemma ReturnsAsClaimed(peer: Peer, root: Hash, hash: Hash, depth: nat, pos: nat, run: Run)
    requires depth <= BATCH_DEPTH && Walk(peer, root, hash, depth, pos, run).Returned?
    ensures HashAt(Walk(peer, root, hash, depth, pos, run).run.leaves, depth, pos)
         == if depth == 0 then root else hash
  {
    hide HashAt, NodeQuery;
    WalkCases(peer, root, hash, depth, pos, run);
  }

  /** First leaf below a node, and the first leaf after it. */
  function NodeStart(depth: nat, pos: nat): nat
    requires depth <= LEDGER_DEPTH
  {
    FirstLeaf(LEDGER_DEPTH - depth, pos)
  }

  /** `mine` with every leaf of `theirs` in the range copied over it. */
  function Merge(mine: Leaves, theirs: Leaves, lo: nat, hi: nat): Leaves {
    mine + map i | i in theirs && lo <= i < hi :: theirs[i]
  }

  predicate Differs(mine: Leaves, theirs: Leaves, depth: nat, pos: nat)
    requires depth <= LEDGER_DEPTH
  {
    HashAt(mine, depth, pos) != HashAt(theirs, depth, pos)
  }

  /** The queries that reconciling the node takes, judged on the leaves as they are at the start. */
  function PlannedQueries(mine: Leaves, theirs: Leaves, depth: nat, pos: nat): seq<Query>
    requires depth <= BATCH_DEPTH
    decreases BATCH_DEPTH - depth, |mine|
  {
    if !Differs(mine, theirs, depth, pos) then
      []
    else if depth == BATCH_DEPTH then
      [NodeQuery(depth, pos)]
    else
      [NodeQuery(depth, pos)]
      + PlannedQueries(mine, theirs, depth + 1, 2 * pos)
      + PlannedQueries(mine, theirs, depth + 1, 2 * pos + 1)
  }

  /** The leaves that reconciling the node writes: every differing block of eight, left to right. */
  function PlannedWrites(mine: Leaves, server: Ledger, depth: nat, pos: nat): seq<Write>
    requires depth <= BATCH_DEPTH
    decreases BATCH_DEPTH - depth, |mine|
  {
    if !Differs(mine, server.leaves, depth, pos) then
      []
    else if depth == BATCH_DEPTH then
      WritesAt(8 * pos, Batch(server.leaves, server.num, 8 * pos, 8 * pos + 8))
    else
      PlannedWrites(mine, server, depth + 1, 2 * pos) + PlannedWrites(mine, server, depth + 1, 2 * pos + 1)
  }

  lemma NodeSplits(depth: nat, pos: nat)
    requires depth < LEDGER_DEPTH
    ensures NodeStart(depth, pos) == NodeStart(depth + 1, 2 * pos)
    ensures NodeStart(depth + 1, 2 * pos) < NodeStart(depth + 1, 2 * pos + 1) < NodeStart(depth, pos + 1)
    ensures NodeStart(depth, pos + 1) == NodeStart(depth + 1, 2 * pos + 2)
  {
    ChildrenSplit(LEDGER_DEPTH - depth, pos);
  }

  lemma BlockStart(pos: nat)
    ensures NodeStart(BATCH_DEPTH, pos) == 8 * pos
  {
    assert Pow2(3) == 8;
  }

  /** Whether a node differs is decided by the leaves below it. */
  lemma DiffersMeans(mine: Leaves, theirs: Leaves, depth: nat, pos: nat)
    requires depth <= LEDGER_DEPTH
    ensures Differs(mine, theirs, depth, pos)
       <==> !AgreeOn(mine, theirs, NodeStart(depth, pos), NodeStart(depth, pos + 1))
  {
    HashDecides(mine, theirs, LEDGER_DEPTH - depth, pos);
  }

  lemma DiffersAlike(mine: Leaves, moved: Leaves, theirs: Leaves, depth: nat, pos: nat)
    requires depth <= BATCH_DEPTH && AgreeOn(mine, moved, NodeStart(depth, pos), NodeStart(depth, pos + 1))
    ensures Differs(mine, theirs, depth, pos) <==> Differs(moved, theirs, depth, pos)
  {
    hide AgreeOn, NodeStart;
    DiffersMeans(mine, moved, depth, pos);
  }

  lemma AgreeOnHalves(mine: Leaves, moved: Leaves, depth: nat, pos: nat)
    requires depth <= BATCH_DEPTH && AgreeOn(mine, moved, NodeStart(depth, pos), NodeStart(depth, pos + 1))
    ensures depth < BATCH_DEPTH ==>
              && AgreeOn(mine, moved, NodeStart(depth + 1, 2 * pos), NodeStart(depth + 1, 2 * pos + 1))
              && AgreeOn(mine, moved, NodeStart(depth + 1, 2 * pos + 1), NodeStart(depth + 1, 2 * pos + 2))
  {
    if depth < BATCH_DEPTH {
      hide NodeStart;
      NodeSplits(depth, pos);
    }
  }

  /** The plan for a node depends only on the leaves below the node. */
  lemma {:induction false} PlanFrame(mine: Leaves, moved: Leaves, server: Ledger, depth: nat, pos: nat)
    requires depth <= BATCH_DEPTH
    requires AgreeOn(mine, moved, NodeStart(depth, pos), NodeStart(depth, pos + 1))
    ensures PlannedQueries(mine, server.leaves, depth, pos) == PlannedQueries(moved, server.leaves, depth, pos)
    ensures PlannedWrites(mine, server, depth, pos) == PlannedWrites(moved, server, depth, pos)
    decreases BATCH_DEPTH - depth
  {
    hide NodeQuery, Differs, AgreeOn;
    DiffersAlike(mine, moved, server.leaves, depth, pos);
    AgreeOnHalves(mine, moved, depth, pos);
    if depth < BATCH_DEPTH {
      assert 2 * pos + 1 + 1 == 2 * pos + 2;
      PlanFrame(mine, moved, server, depth + 1, 2 * pos);
      PlanFrame(mine, moved, server, depth + 1, 2 * pos + 1);
    }
  }
}

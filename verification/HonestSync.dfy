/**
 The walk against an honest peer: it copies exactly the peer's leaves, asking and writing exactly
 what was planned, unless the client holds a leaf the peer lacks, in which case an assertion fails.
 */
module HonestSync {
  import opened Powers
  import opened Addresses
  import opened Merkle
  import opened SyncProtocol
  import opened SyncWalk

  /** No leaf of `mine` in the range is missing from `theirs`. */
  ghost predicate NoStale(mine: Leaves, theirs: Leaves, lo: nat, hi: nat) {
    forall i: nat :: lo <= i < hi && i in mine ==> i in theirs
  }

  /** What the walk is told about a node by a truthful peer: the hash of the peer's own node. */
  ghost predicate HonestHashes(server: Ledger, root: Hash, hash: Hash, depth: nat, pos: nat) {
    && depth <= BATCH_DEPTH && pos < Pow2(depth)
    && Servable(server)
    && root == RootHash(server.leaves)
    && (0 < depth ==> hash == HashAt(server.leaves, depth, pos))
  }

  /** The state in which an honest visit without stale leaves ends. */
  function Reconciled(run: Run, server: Ledger, depth: nat, pos: nat): Run
    requires depth <= BATCH_DEPTH
  {
    Run(
      Merge(run.leaves, server.leaves, NodeStart(depth, pos), NodeStart(depth, pos + 1)),
      run.asked + PlannedQueries(run.leaves, server.leaves, depth, pos),
      run.writes + PlannedWrites(run.leaves, server, depth, pos))
  }

  lemma ExpectedIsServers(server: Ledger, root: Hash, hash: Hash, depth: nat, pos: nat)
    requires HonestHashes(server, root, hash, depth, pos)
    ensures Expected(root, hash, depth) == HashAt(server.leaves, depth, pos)
  {
    if depth == 0 {
      assert pos == 0;
    }
  }

  /** The peer tells the truth about hashes and accounts; nothing is said of the count it reports. */
  ghost predicate TruthfulAboutNodes(peer: Peer, server: Ledger) {
    forall asked: seq<Query>, q: Query :: !q.NumAccounts? ==> peer(asked, q) == HonestPeer(server)(asked, q)
  }

  /** What a truthful peer answers about a node. */
  lemma HonestReply(peer: Peer, server: Ledger, depth: nat, pos: nat, asked: seq<Query>)
    requires TruthfulAboutNodes(peer, server)
    requires Servable(server)
    requires depth <= BATCH_DEPTH && pos < Pow2(depth)
    ensures peer(asked, NodeQuery(depth, pos)) == Answered(
      if depth == BATCH_DEPTH then
        ContentsAre(Batch(server.leaves, server.num, 8 * pos, 8 * pos + 8))
      else
        ChildHashesAre(HashAt(server.leaves, depth + 1, 2 * pos), HashAt(server.leaves, depth + 1, 2 * pos + 1)))
  {
    hide SubtreeHash, AddressBytes, IndexOf, Batch;
    AddressRoundTrip(depth, pos);
    assert Pow2(3) == 8;
    assert peer(asked, NodeQuery(depth, pos)) == HonestPeer(server)(asked, NodeQuery(depth, pos));
  }

  /** An agreeing range has nothing to copy. */
  lemma MergeOfAgreeing(mine: Leaves, theirs: Leaves, lo: nat, hi: nat)
    requires AgreeOn(mine, theirs, lo, hi)
    ensures Merge(mine, theirs, lo, hi) == mine
  {
    assert forall i | i in theirs && lo <= i < hi :: SameLeaf(mine, theirs, i);
  }

  lemma MergeInTwo(mine: Leaves, theirs: Leaves, lo: nat, mid: nat, hi: nat)
    requires lo <= mid <= hi
    ensures Merge(Merge(mine, theirs, lo, mid), theirs, mid, hi) == Merge(mine, theirs, lo, hi)
    ensures AgreeOn(mine, Merge(mine, theirs, lo, mid), mid, hi)
  {
  }

  lemma MergeAgrees(mine: Leaves, theirs: Leaves, lo: nat, hi: nat)
    ensures AgreeOn(Merge(mine, theirs, lo, hi), theirs, lo, hi) <==> NoStale(mine, theirs, lo, hi)
  {
    var merged := Merge(mine, theirs, lo, hi);
    if AgreeOn(merged, theirs, lo, hi) {
      forall i: nat | lo <= i < hi && i in mine
        ensures i in theirs
      {
        assert SameLeaf(merged, theirs, i);
      }
    }
  }

  /** A batch of a dense ledger, laid out from its first index on, is that part of the ledger. */
  lemma PlacedBatch(server: Ledger, from: nat, until: nat)
    requires Servable(server) && from <= until
    ensures Placed(from, Batch(server.leaves, server.num, from, until))
         == map i | i in server.leaves && from <= i < until :: server.leaves[i]
  {
    var batch := Batch(server.leaves, server.num, from, until);
    BatchOfDense(server.leaves, server.num, from, until);
    forall i | i in Placed(from, batch)
      ensures i in server.leaves && batch[i - from] == server.leaves[i]
    {
      assert batch[i - from] == server.leaves[from + (i - from)];
    }
  }

  /** Writing an honest batch copies the block, wherever the block lies and however the index wraps. */
  lemma BatchCopiesBlock(run: Run, server: Ledger, pos: nat)
    requires Servable(server)
    ensures var batch := Batch(server.leaves, server.num, 8 * pos, 8 * pos + 8);
            var written := run.WriteAll(BatchBase(pos), batch);
            && written.leaves == Merge(run.leaves, server.leaves, 8 * pos, 8 * pos + 8)
            && written.writes == run.writes + WritesAt(8 * pos, batch)
  {
    hide Batch;
    var batch := Batch(server.leaves, server.num, 8 * pos, 8 * pos + 8);
    BatchOfDense(server.leaves, server.num, 8 * pos, 8 * pos + 8);
    PlacedBatch(server, 8 * pos, 8 * pos + 8);
    if 8 * pos < server.num {
      assert BatchBase(pos) == 8 * pos;
    } else {
      assert batch == [];
      assert Placed(BatchBase(pos), batch) == map[] == Placed(8 * pos, batch);
      assert WritesAt(BatchBase(pos), batch) == WritesAt(8 * pos, batch);
    }
  }

  /**
   A block that differs and has nothing stale starts below the server's count, so the 32-bit index of
   its first leaf does not wrap and the bytes of its query are those of its index.
   */
  lemma FetchedBlockFits(mine: Leaves, server: Ledger, pos: nat)
    requires Servable(server)
    requires Differs(mine, server.leaves, BATCH_DEPTH, pos)
    requires NoStale(mine, server.leaves, 8 * pos, 8 * pos + 8)
    ensures 8 * pos < server.num < U32 && BatchBase(pos) == 8 * pos
    ensures pos < U32 && FromBe(AddressBytes(BATCH_DEPTH, pos)) == pos
  {
    BlockStart(pos);
    BlockStart(pos + 1);
    DiffersMeans(mine, server.leaves, BATCH_DEPTH, pos);
    var i: nat :| 8 * pos <= i < 8 * pos + 8 && !SameLeaf(mine, server.leaves, i);
    assert i in server.leaves;
    WordSize();
    BigEndianRoundTrip(pos, 4);
  }

  /** Checking a copied node succeeds just when nothing stale was left in it. */
  lemma CheckMerged(mine: Leaves, server: Ledger, depth: nat, pos: nat, run: Run)
    requires depth <= BATCH_DEPTH
    requires run.leaves == Merge(mine, server.leaves, NodeStart(depth, pos), NodeStart(depth, pos + 1))
    ensures Check(HashAt(server.leaves, depth, pos), depth, pos, run)
         == if NoStale(mine, server.leaves, NodeStart(depth, pos), NodeStart(depth, pos + 1)) then Returned(run)
             else Panicked
  {
    MergeAgrees(mine, server.leaves, NodeStart(depth, pos), NodeStart(depth, pos + 1));
    DiffersMeans(run.leaves, server.leaves, depth, pos);
  }

  lemma HonestBlock(peer: Peer, server: Ledger, root: Hash, hash: Hash, pos: nat, run: Run)
    requires TruthfulAboutNodes(peer, server)
    requires HonestHashes(server, root, hash, BATCH_DEPTH, pos)
    requires Differs(run.leaves, server.leaves, BATCH_DEPTH, pos)
    ensures Walk(peer, root, hash, BATCH_DEPTH, pos, run)
         == if NoStale(run.leaves, server.leaves, NodeStart(BATCH_DEPTH, pos), NodeStart(BATCH_DEPTH, pos + 1)) then
              Returned(Reconciled(run, server, BATCH_DEPTH, pos))
            else
              Panicked
  {
    hide Walk, HashAt, HonestPeer, NodeQuery, Batch, Merge, NoStale, AgreeOn;
    BlockStart(pos);
    BlockStart(pos + 1);
    HonestFetch(peer, server, root, hash, pos, run);
  }

  /** The visit to a node that already matches: nothing is asked, written or stale. */
  lemma HonestSkip(peer: Peer, server: Ledger, root: Hash, hash: Hash, depth: nat, pos: nat,
      run: Run)
    requires HonestHashes(server, root, hash, depth, pos)
    requires !Differs(run.leaves, server.leaves, depth, pos)
    ensures Walk(peer, root, hash, depth, pos, run) == Returned(run) == Returned(Reconciled(run, server, depth, pos))
    ensures NoStale(run.leaves, server.leaves, NodeStart(depth, pos), NodeStart(depth, pos + 1))
  {
    ExpectedIsServers(server, root, hash, depth, pos);
    SkipFacts(run, server, depth, pos);
  }

  lemma SkipFacts(run: Run, server: Ledger, depth: nat, pos: nat)
    requires depth <= BATCH_DEPTH
    requires !Differs(run.leaves, server.leaves, depth, pos)
    ensures Reconciled(run, server, depth, pos) == run
    ensures NoStale(run.leaves, server.leaves, NodeStart(depth, pos), NodeStart(depth, pos + 1))
  {
    hide HashAt, NodeStart;
    var lo, hi := NodeStart(depth, pos), NodeStart(depth, pos + 1);
    DiffersMeans(run.leaves, server.leaves, depth, pos);
    MergeOfAgreeing(run.leaves, server.leaves, lo, hi);
    MergeAgrees(run.leaves, server.leaves, lo, hi);
  }

  /** The visit to a differing block of eight: one query, one batch of writes, one check. */
  lemma HonestFetch(peer: Peer, server: Ledger, root: Hash, hash: Hash, pos: nat, run: Run)
    requires TruthfulAboutNodes(peer, server)
    requires HonestHashes(server, root, hash, BATCH_DEPTH, pos)
    requires Differs(run.leaves, server.leaves, BATCH_DEPTH, pos)
    ensures Walk(peer, root, hash, BATCH_DEPTH, pos, run)
         == if NoStale(run.leaves, server.leaves, 8 * pos, 8 * pos + 8) then
              Returned(Run(
                Merge(run.leaves, server.leaves, 8 * pos, 8 * pos + 8),
                run.asked + [NodeQuery(BATCH_DEPTH, pos)],
                run.writes + WritesAt(8 * pos, Batch(server.leaves, server.num, 8 * pos, 8 * pos + 8))))
            else
              Panicked
  {
    hide SubtreeHash, HonestPeer, AddressBytes, FirstLeaf, Batch, Pow2, Merge;
    BlockStart(pos);
    BlockStart(pos + 1);
    HonestReply(peer, server, BATCH_DEPTH, pos, run.asked);
    var asked := run.Ask(NodeQuery(BATCH_DEPTH, pos));
    BatchCopiesBlock(asked, server, pos);
    CheckMerged(run.leaves, server, BATCH_DEPTH, pos,
                asked.WriteAll(BatchBase(pos), Batch(server.leaves, server.num, 8 * pos, 8 * pos + 8)));
  }

  /**
   An honest visit returns exactly when the client holds no stale leaf below the node.  It then has
   copied the server's leaves there and touched nothing else, and has asked and written exactly what
   the plan for the starting leaves says, in that order.
   */
  lemma HonestWalk(peer: Peer, server: Ledger, root: Hash, hash: Hash, depth: nat, pos: nat,
      run: Run)
    requires TruthfulAboutNodes(peer, server)
    requires HonestHashes(server, root, hash, depth, pos)
    ensures Walk(peer, root, hash, depth, pos, run)
         == if NoStale(run.leaves, server.leaves, NodeStart(depth, pos), NodeStart(depth, pos + 1)) then
              Returned(Reconciled(run, server, depth, pos))
            else
              Panicked
    decreases BATCH_DEPTH - depth
  {
    if !Differs(run.leaves, server.leaves, depth, pos) {
      HonestSkip(peer, server, root, hash, depth, pos, run);
    } else if depth == BATCH_DEPTH {
      HonestBlock(peer, server, root, hash, pos, run);
    } else {
      HonestInner(peer, server, root, hash, depth, pos, run);
    }
  }

  lemma {:induction false} HonestInner(peer: Peer, server: Ledger, root: Hash, hash: Hash, depth: nat, pos: nat,
      run: Run)
    requires TruthfulAboutNodes(peer, server)
    requires HonestHashes(server, root, hash, depth, pos)
    requires depth < BATCH_DEPTH
    requires Differs(run.leaves, server.leaves, depth, pos)
    ensures Walk(peer, root, hash, depth, pos, run)
         == if NoStale(run.leaves, server.leaves, NodeStart(depth, pos), NodeStart(depth, pos + 1)) then
              Returned(Reconciled(run, server, depth, pos))
            else
              Panicked
    decreases BATCH_DEPTH - depth, 0
  {
    hide Walk, HashAt, HonestPeer, NodeQuery, PlannedWrites, PlannedQueries, NodeStart, Check, TruthfulAboutNodes;
    var mine, theirs := run.leaves, server.leaves;
    var lo, mid, hi := NodeStart(depth, pos), NodeStart(depth + 1, 2 * pos + 1), NodeStart(depth, pos + 1);
    NodeSplits(depth, pos);
    ExpectedIsServers(server, root, hash, depth, pos);
    HonestReply(peer, server, depth, pos, run.asked);
    var asked := run.Ask(NodeQuery(depth, pos));
    var left, right := HashAt(theirs, depth + 1, 2 * pos), HashAt(theirs, depth + 1, 2 * pos + 1);
    WalkCases(peer, root, hash, depth, pos, run);
    HonestWalk(peer, server, root, left, depth + 1, 2 * pos, asked);
    if NoStale(mine, theirs, lo, mid) {
      var first := Reconciled(asked, server, depth + 1, 2 * pos);
      MergeInTwo(mine, theirs, lo, mid, hi);
      HonestWalk(peer, server, root, right, depth + 1, 2 * pos + 1, first);
      PlanFrame(mine, first.leaves, server, depth + 1, 2 * pos + 1);
      if NoStale(mine, theirs, mid, hi) {
        SecondHalf(run, server, depth, pos);
        CheckMerged(mine, server, depth, pos, Reconciled(run, server, depth, pos));
      }
    }
  }

  /** Reconciling the two children one after the other reconciles the node. */
  lemma SecondHalf(run: Run, server: Ledger, depth: nat, pos: nat)
    requires depth < BATCH_DEPTH
    requires Differs(run.leaves, server.leaves, depth, pos)
    ensures var first := Reconciled(run.Ask(NodeQuery(depth, pos)), server, depth + 1, 2 * pos);
            Reconciled(first, server, depth + 1, 2 * pos + 1) == Reconciled(run, server, depth, pos)
  {
    hide NodeQuery, Differs, Merge, PlannedQueries, PlannedWrites, NodeStart, AgreeOn;
    var first := Reconciled(run.Ask(NodeQuery(depth, pos)), server, depth + 1, 2 * pos);
    NodeSplits(depth, pos);
    MergeInTwo(run.leaves, server.leaves,
               NodeStart(depth, pos), NodeStart(depth + 1, 2 * pos + 1), NodeStart(depth, pos + 1));
    PlanFrame(run.leaves, first.leaves, server, depth + 1, 2 * pos + 1);
    PlanSplits(run.leaves, server, depth, pos);
    Rejoin(run.asked, [NodeQuery(depth, pos)],
           PlannedQueries(run.leaves, server.leaves, depth + 1, 2 * pos),
           PlannedQueries(run.leaves, server.leaves, depth + 1, 2 * pos + 1));
    Rejoin(run.writes, [],
           PlannedWrites(run.leaves, server, depth + 1, 2 * pos),
           PlannedWrites(run.leaves, server, depth + 1, 2 * pos + 1));
  }

  lemma PlanSplits(mine: Leaves, server: Ledger, depth: nat, pos: nat)
    requires depth < BATCH_DEPTH
    requires Differs(mine, server.leaves, depth, pos)
    ensures PlannedQueries(mine, server.leaves, depth, pos)
         == [NodeQuery(depth, pos)]
            + PlannedQueries(mine, server.leaves, depth + 1, 2 * pos)
            + PlannedQueries(mine, server.leaves, depth + 1, 2 * pos + 1)
    ensures PlannedWrites(mine, server, depth, pos)
         == PlannedWrites(mine, server, depth + 1, 2 * pos) + PlannedWrites(mine, server, depth + 1, 2 * pos + 1)
  {
    hide NodeQuery, Differs;
  }

  lemma Rejoin<T>(a: seq<T>, x: seq<T>, b: seq<T>, c: seq<T>)
    ensures a + x + b + c == a + (x + b + c)
    ensures a + b + c == a + (b + c)
  {
  }
}

/**
 Applying the recorded blocks to the ledger, the oldest first: which lists of blocks get through, and
 that no peer can make a recorder apply other states than those the head commits to.
 */
module Applying {
  import opened Options
  import opened Chains

  /** How applying blocks ends: at a block that does not follow, at one the ledger refuses, or well. */
  datatype Applied<L> = NotChained | Refused | Applied(ledger: L)

  /** Applies the blocks from the last one on, each on the state of the one before. */
  function ApplyAll<L>(hashing: Hashing, step: (L, Block, ProtocolState) -> Option<L>,
                       ledger: L, state: ProtocolState, blocks: seq<Block>): Applied<L>
    decreases |blocks|
  {
    if blocks == [] then Applied(ledger)
    else
      var block := blocks[|blocks| - 1];
      if block.state.previous != hashing(state) then NotChained
      else
        match step(ledger, block, state)
        case None => Refused
        case Some(next) => ApplyAll(hashing, step, next, block.state, blocks[..|blocks| - 1])
  }

  /** The blocks, newest first, go back to `state` by their hashes. */
  ghost predicate Chained(hashing: Hashing, state: ProtocolState, blocks: seq<Block>) {
    && (blocks != [] ==> blocks[|blocks| - 1].state.previous == hashing(state))
    && (forall i :: 0 <= i < |blocks| - 1 ==> blocks[i].state.previous == hashing(blocks[i + 1].state))
  }

  /**
   Of blocks that the ledger does not refuse, those that chain back to the state are applied, and no
   others, wherever they come from.
   */
  lemma {:induction false} AppliesExactly<L>(hashing: Hashing, step: (L, Block, ProtocolState) -> Option<L>,
                                             ledger: L, state: ProtocolState, blocks: seq<Block>)
    ensures var applied := ApplyAll(hashing, step, ledger, state, blocks);
            && (applied.Applied? ==> Chained(hashing, state, blocks))
            && (applied.NotChained? ==> !Chained(hashing, state, blocks))
    decreases |blocks|
  {
    if blocks != [] {
      var block, rest := blocks[|blocks| - 1], blocks[..|blocks| - 1];
      var next := step(ledger, block, state);
      if next.Some? {
        AppliesExactly(hashing, step, next.value, block.state, rest);
        OneMoreChained(hashing, state, blocks);
      }
    }
  }

  lemma OneMoreChained(hashing: Hashing, state: ProtocolState, blocks: seq<Block>)
    requires blocks != []
    ensures var block, rest := blocks[|blocks| - 1], blocks[..|blocks| - 1];
            Chained(hashing, state, blocks)
            <==> block.state.previous == hashing(state) && Chained(hashing, block.state, rest)
  {
    var block, rest := blocks[|blocks| - 1], blocks[..|blocks| - 1];
    if block.state.previous == hashing(state) && Chained(hashing, block.state, rest) {
      forall i | 0 <= i < |blocks| - 1
        ensures blocks[i].state.previous == hashing(blocks[i + 1].state)
      {
        assert blocks[i] == rest[i];
        assert i < |rest| - 1 ==> blocks[i + 1] == rest[i + 1];
      }
    } else if Chained(hashing, state, blocks) {
      assert rest != [] ==> rest[|rest| - 1] == blocks[|blocks| - 2];
      assert Chained(hashing, block.state, rest);
    }
  }

  /** The state that block `k`, counted from the last one, has to follow. */
  function StateBefore(state: ProtocolState, blocks: seq<Block>, k: nat): ProtocolState
    requires k <= |blocks|
  {
    if k == 0 then state else blocks[|blocks| - k].state
  }

  predicate Follows(hashing: Hashing, state: ProtocolState, blocks: seq<Block>, k: nat)
    requires k < |blocks|
  {
    blocks[|blocks| - 1 - k].state.previous == hashing(StateBefore(state, blocks, k))
  }

  /** What the ledger makes of block `k` when it comes to it as `ledger`. */
  function StepAt<L>(step: (L, Block, ProtocolState) -> Option<L>, ledger: L, state: ProtocolState,
      blocks: seq<Block>, k: nat): Option<L>
    requires k < |blocks|
  {
    step(ledger, blocks[|blocks| - 1 - k], StateBefore(state, blocks, k))
  }

  /** The first `k` blocks follow and take the ledger through these ledgers. */
  ghost predicate Reaches<L>(hashing: Hashing, step: (L, Block, ProtocolState) -> Option<L>, ledger: L,
      state: ProtocolState, blocks: seq<Block>, k: nat, ledgers: seq<L>)
  {
    && k <= |blocks| && |ledgers| == k + 1 && ledgers[0] == ledger
    && (forall j: nat :: j < k ==> Follows(hashing, state, blocks, j))
    && (forall j: nat :: j < k ==> StepAt(step, ledgers[j], state, blocks, j) == Some(ledgers[j + 1]))
  }

  /** Applying goes on from the ledger it reaches. */
  lemma {:induction false} GoesOn<L>(hashing: Hashing, step: (L, Block, ProtocolState) -> Option<L>, ledger: L,
      state: ProtocolState, blocks: seq<Block>, k: nat, ledgers: seq<L>)
    requires Reaches(hashing, step, ledger, state, blocks, k, ledgers)
    ensures ApplyAll(hashing, step, ledger, state, blocks)
         == ApplyAll(hashing, step, ledgers[k], StateBefore(state, blocks, k), blocks[..|blocks| - k])
    decreases k
  {
    if k == 0 {
      assert blocks[..|blocks|] == blocks;
    } else {
      assert forall j: nat :: j < k - 1 ==> Follows(hashing, state, blocks, j);
      GoesOn(hashing, step, ledger, state, blocks, k - 1, ledgers[..k]);
      var rest := blocks[..|blocks| - (k - 1)];
      assert Follows(hashing, state, blocks, k - 1);
      assert StepAt(step, ledgers[k - 1], state, blocks, k - 1) == Some(ledgers[k]);
      assert rest[..|rest| - 1] == blocks[..|blocks| - k];
    }
  }

  /** How far applying gets: to the end, to a block that does not follow, or to one the ledger refuses. */
  lemma {:induction false} GetsTo<L>(hashing: Hashing, step: (L, Block, ProtocolState) -> Option<L>, ledger: L,
      state: ProtocolState, blocks: seq<Block>, k: nat, ledgers: seq<L>) returns (end: nat, all: seq<L>)
    requires Reaches(hashing, step, ledger, state, blocks, k, ledgers)
    ensures Reaches(hashing, step, ledger, state, blocks, end, all)
    ensures end < |blocks| && Follows(hashing, state, blocks, end) ==>
              StepAt(step, all[end], state, blocks, end) == None
    decreases |blocks| - k
  {
    end, all := k, ledgers;
    if k < |blocks| && Follows(hashing, state, blocks, k) {
      var next := StepAt(step, ledgers[k], state, blocks, k);
      if next.Some? {
        end, all := GetsTo(hashing, step, ledger, state, blocks, k + 1, ledgers + [next.value]);
      }
    }
  }

  /**
   The ledger that comes out is the one in which the blocks, each on the state of the one before it and
   on the ledger left by that one, take the first ledger; blocks are refused exactly when one of them
   follows and the ledger reached by then refuses it, and turned down exactly when one does not follow.
   */
  lemma LedgersExactly<L>(hashing: Hashing, step: (L, Block, ProtocolState) -> Option<L>, ledger: L,
      state: ProtocolState, blocks: seq<Block>)
    ensures forall last ::
              ApplyAll(hashing, step, ledger, state, blocks) == Applied(last)
              <==> exists ledgers :: Reaches(hashing, step, ledger, state, blocks, |blocks|, ledgers)
                                     && ledgers[|blocks|] == last
    ensures ApplyAll(hashing, step, ledger, state, blocks) == Refused
       <==> exists k: nat, ledgers :: Reaches(hashing, step, ledger, state, blocks, k, ledgers) && k < |blocks|
                                 && Follows(hashing, state, blocks, k)
                                 && StepAt(step, ledgers[k], state, blocks, k) == None
    ensures ApplyAll(hashing, step, ledger, state, blocks) == NotChained
       <==> exists k: nat, ledgers :: Reaches(hashing, step, ledger, state, blocks, k, ledgers) && k < |blocks|
                                 && !Follows(hashing, state, blocks, k)
  {
    hide ApplyAll;
    assert Reaches(hashing, step, ledger, state, blocks, 0, [ledger]);
    var end, all := GetsTo(hashing, step, ledger, state, blocks, 0, [ledger]);
    Reached(hashing, step, ledger, state, blocks, end, all);
    forall k: nat, ledgers | Reaches(hashing, step, ledger, state, blocks, k, ledgers)
      ensures k == |blocks| ==> ApplyAll(hashing, step, ledger, state, blocks) == Applied(ledgers[k])
      ensures k < |blocks| && !Follows(hashing, state, blocks, k) ==>
                ApplyAll(hashing, step, ledger, state, blocks) == NotChained
      ensures k < |blocks| && Follows(hashing, state, blocks, k)
              && StepAt(step, ledgers[k], state, blocks, k) == None ==>
                ApplyAll(hashing, step, ledger, state, blocks) == Refused
    {
      Reached(hashing, step, ledger, state, blocks, k, ledgers);
    }
  }

  lemma Reached<L>(hashing: Hashing, step: (L, Block, ProtocolState) -> Option<L>, ledger: L,
      state: ProtocolState, blocks: seq<Block>, k: nat, ledgers: seq<L>)
    requires Reaches(hashing, step, ledger, state, blocks, k, ledgers)
    ensures k == |blocks| ==> ApplyAll(hashing, step, ledger, state, blocks) == Applied(ledgers[k])
    ensures k < |blocks| && !Follows(hashing, state, blocks, k) ==>
              ApplyAll(hashing, step, ledger, state, blocks) == NotChained
    ensures k < |blocks| && Follows(hashing, state, blocks, k) && StepAt(step, ledgers[k], state, blocks, k) == None ==>
              ApplyAll(hashing, step, ledger, state, blocks) == Refused
  {
    GoesOn(hashing, step, ledger, state, blocks, k, ledgers);
  }

  /** A download only adds blocks, as many as it was to add. */
  lemma {:induction false} DownloadLength(network: Network, s: Session, blocks: seq<Block>, n: nat)
    requires blocks != []
    ensures var result := Download(network, s, blocks, n).blocks;
            result.Some? ==> |result.value| == |blocks| + n && blocks <= result.value
    decreases n
  {
    hide FetchBefore;
    if n > 0 {
      var fetched := FetchBefore(network, s, blocks[|blocks| - 1]);
      if fetched.block.Some? {
        DownloadLength(network, fetched.session, blocks + [fetched.block.value], n - 1);
      }
    }
  }

  function States(blocks: seq<Block>): seq<ProtocolState> {
    seq(|blocks|, i requires 0 <= i < |blocks| => blocks[i].state)
  }

  /** No two states share a hash. */
  ghost predicate Injective(hashing: Hashing) {
    forall s: ProtocolState, t: ProtocolState :: hashing(s) == hashing(t) ==> s == t
  }

  /** Two lists that chain back from the same state have the same states. */
  lemma {:induction false} OneChain(hashing: Hashing, state: ProtocolState, a: seq<Block>, b: seq<Block>, i: nat)
    requires Injective(hashing) && Chained(hashing, state, a) && Chained(hashing, state, b)
    requires i < |a| == |b| && a[0].state == b[0].state
    ensures a[i].state == b[i].state
    decreases i
  {
    if 0 < i {
      OneChain(hashing, state, a, b, i - 1);
      assert hashing(a[i - 1 + 1].state) == hashing(b[i - 1 + 1].state);
    }
  }

  lemma BackwardsIsChained(hashing: Hashing, chain: seq<Block>)
    requires Linked(hashing, chain) && chain != []
    ensures Chained(hashing, chain[0].state, Backwards(chain, 1))
  {
  }

  /**
   Whatever the peer answers and earlier recordings have left: when the blocks downloaded below the head
   of a chain get applied on its root, their states are those of the chain.
   */
  lemma OnlyTheChain<L>(network: Network, hashing: Hashing, chain: seq<Block>, s: Session,
      step: (L, Block, ProtocolState) -> Option<L>, ledger: L)
    requires Injective(hashing) && Linked(hashing, chain) && 2 <= |chain|
    ensures var head, root := chain[|chain| - 1], chain[0];
            var result := RecordChain(network, s, root, head).blocks;
            result.Some? && ApplyAll(hashing, step, ledger, root.state, result.value).Applied? ==>
              States(result.value) == States(Backwards(chain, 1))
  {
    hide Download, ApplyAll, Linked, Chained, Injective;
    var head, root := chain[|chain| - 1], chain[0];
    var n := Between(root.state.height, head.state.height);
    var result := RecordChain(network, s, root, head).blocks;
    if result.Some? && ApplyAll(hashing, step, ledger, root.state, result.value).Applied? {
      var blocks, right := result.value, Backwards(chain, 1);
      DownloadLength(network, s, [head], n);
      LengthOfChain(hashing, chain);
      AppliesExactly(hashing, step, ledger, root.state, blocks);
      BackwardsIsChained(hashing, chain);
      forall i | 0 <= i < |blocks|
        ensures blocks[i].state == right[i].state
      {
        assert blocks[0] == [head][0];
        OneChain(hashing, root.state, blocks, right, i);
      }
    }
  }

  lemma LengthOfChain(hashing: Hashing, chain: seq<Block>)
    requires Linked(hashing, chain) && 2 <= |chain|
    ensures Between(chain[0].state.height, chain[|chain| - 1].state.height) == |chain| - 2
  {
    HeightsRise(hashing, chain, 0, |chain| - 1);
  }

  /** The ledger taken up the chain from the root, each block on the state and the ledger before it. */
  ghost predicate Climbs<L>(step: (L, Block, ProtocolState) -> Option<L>, chain: seq<Block>, ledger: L,
      ledgers: seq<L>)
  {
    && chain != [] && |ledgers| == |chain| && ledgers[0] == ledger
    && forall k: nat :: k + 1 < |chain| ==> step(ledgers[k], chain[k + 1], chain[k].state) == Some(ledgers[k + 1])
  }

  /**
   An honest recording takes the ledger of the root up the chain to that of the head, if the ledger takes
   all blocks; otherwise it is refused, and never turned down as not following.
   */
  lemma RecordedClimbs<L>(network: Network, hashing: Hashing, chain: seq<Block>, s: Session,
      step: (L, Block, ProtocolState) -> Option<L>, ledger: L)
    requires Linked(hashing, chain) && NoCollision(hashing, chain) && Knows(network, hashing, chain)
    requires 2 <= |chain| && CacheIsRight(s.record, hashing, chain, |chain| - 1)
    ensures var blocks := RecordChain(network, s, chain[0], chain[|chain| - 1]).blocks;
            && blocks.Some?
            && var applied := ApplyAll(hashing, step, ledger, chain[0].state, blocks.value);
               && (forall ledgers :: Climbs(step, chain, ledger, ledgers) ==> applied == Applied(ledgers[|chain| - 1]))
               && ((forall ledgers :: !Climbs(step, chain, ledger, ledgers)) ==> applied == Refused)
  {
    hide RecordChain, ApplyAll, Chained, Reaches, CacheIsRight, Knows, NoCollision, Linked;
    RecordedIsApplied(network, hashing, chain, s, step, ledger);
    var blocks, root := Backwards(chain, 1), chain[0].state;
    LedgersExactly(hashing, step, ledger, root, blocks);
    var applied := ApplyAll(hashing, step, ledger, root, blocks);
    forall ledgers | Climbs(step, chain, ledger, ledgers)
      ensures |ledgers| == |chain| && applied == Applied(ledgers[|chain| - 1])
    {
      ClimbsBackwards(hashing, step, ledger, chain, ledgers);
      Reached(hashing, step, ledger, root, blocks, |blocks|, ledgers);
    }
    if applied.Applied? {
      var ledgers :| Reaches(hashing, step, ledger, root, blocks, |blocks|, ledgers);
      ClimbsBackwards(hashing, step, ledger, chain, ledgers);
    }
  }

  lemma ClimbsBackwards<L>(hashing: Hashing, step: (L, Block, ProtocolState) -> Option<L>, ledger: L,
      chain: seq<Block>, ledgers: seq<L>)
    requires Linked(hashing, chain) && 2 <= |chain|
    ensures Reaches(hashing, step, ledger, chain[0].state, Backwards(chain, 1), |chain| - 1, ledgers)
       <==> Climbs(step, chain, ledger, ledgers)
  {
    var blocks, root, n := Backwards(chain, 1), chain[0].state, |chain| - 1;
    assert |blocks| == n;
    forall k: nat | k < n
      ensures Follows(hashing, root, blocks, k)
      ensures |ledgers| == |chain| ==>
                StepAt(step, ledgers[k], root, blocks, k) == step(ledgers[k], chain[k + 1], chain[k].state)
    {
      assert blocks[n - 1 - k] == chain[k + 1];
      assert k > 0 ==> blocks[n - k] == chain[k];
    }
    if Reaches(hashing, step, ledger, root, blocks, n, ledgers) {
      forall k: nat | k + 1 < |chain|
        ensures step(ledgers[k], chain[k + 1], chain[k].state) == Some(ledgers[k + 1])
      {
        assert StepAt(step, ledgers[k], root, blocks, k) == Some(ledgers[k + 1]);
      }
    }
  }

  /** From an honest peer the whole of the chain is downloaded, and no block is turned down as not following. */
  lemma RecordedIsApplied<L>(network: Network, hashing: Hashing, chain: seq<Block>, s: Session,
      step: (L, Block, ProtocolState) -> Option<L>, ledger: L)
    requires Linked(hashing, chain) && NoCollision(hashing, chain) && Knows(network, hashing, chain)
    requires 2 <= |chain| && CacheIsRight(s.record, hashing, chain, |chain| - 1)
    ensures var head, root := chain[|chain| - 1], chain[0];
            RecordChain(network, s, root, head).blocks == Some(Backwards(chain, 1))
            && !ApplyAll(hashing, step, ledger, root.state, Backwards(chain, 1)).NotChained?
  {
    hide Download, ApplyAll, Chained, CacheIsRight, Knows, NoCollision;
    RecordsChain(network, hashing, chain, s);
    BackwardsIsChained(hashing, chain);
    AppliesExactly(hashing, step, ledger, chain[0].state, Backwards(chain, 1));
  }
}

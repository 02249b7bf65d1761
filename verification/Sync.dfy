/**
 A whole synchronisation: ask for the count, reset a client that has too many accounts, walk the tree.
 */
module Sync {
  import opened Options
  import opened Powers
  import opened Addresses
  import opened Merkle
  import opened SyncProtocol
  import opened SyncWalk
  import opened HonestSync
  import opened SyncCost
  import opened SyncWrites

  datatype SyncOutcome = SyncPanicked | Synced(ledger: Ledger, run: Run)

  /** A signed count cast to the word that counts accounts, and to the 32-bit field. */
  function AsU64(n: int): nat {
    n % 0x1_0000_0000_0000_0000
  }

  function AsU32(n: int): nat {
    n % U32
  }

  /** The leaves the walk starts from. */
  function StartLeaves(leaves: Leaves, num: int): Leaves {
    if |leaves| > AsU64(num) then map[] else leaves
  }

  /** A synchronisation to the ledger with the given root, begun after the conversation `before`. */
  function SyncNew(peer: Peer, root: Hash, ledger: Ledger, before: seq<Query>): SyncOutcome {
    match peer(before, NumAccounts)
    case Answered(NumAccountsIs(num, hash)) =>
      (match Walk(peer, root, hash, 0, 0, Run(StartLeaves(ledger.leaves, num), before + [NumAccounts], []))
       case Panicked => SyncPanicked
       case Returned(run) =>
         if RootHash(run.leaves) == root then Synced(Ledger(run.leaves, Some(hash), AsU32(num)), run) else SyncPanicked)
    case _ => SyncPanicked
  }

  /** All leaves have an index inside the tree. */
  ghost predicate InTree(leaves: Leaves) {
    forall i: nat :: i in leaves ==> i < Pow2(LEDGER_DEPTH)
  }

  /** The queries of a whole honest synchronisation. */
  function SyncQueries(start: Leaves, server: Ledger): seq<Query> {
    [NumAccounts] + PlannedQueries(start, server.leaves, 0, 0)
  }

  /** The state in which a whole honest synchronisation ends. */
  function FullRun(before: seq<Query>, start: Leaves, server: Ledger): Run {
    Run(server.leaves, before + SyncQueries(start, server), PlannedWrites(start, server, 0, 0))
  }

  lemma WholeTree()
    ensures NodeStart(0, 0) == 0
    ensures NodeStart(0, 1) == Pow2(LEDGER_DEPTH)
    ensures U32 <= Pow2(LEDGER_DEPTH)
  {
    WordSize();
    Pow2Grows(32, LEDGER_DEPTH);
  }

  lemma MergeWholeTree(mine: Leaves, server: Ledger)
    requires Servable(server) && InTree(mine)
    ensures NoStale(mine, server.leaves, 0, Pow2(LEDGER_DEPTH)) <==> mine.Keys <= server.leaves.Keys
    ensures mine.Keys <= server.leaves.Keys ==> Merge(mine, server.leaves, 0, Pow2(LEDGER_DEPTH)) == server.leaves
  {
    WholeTree();
    if mine.Keys <= server.leaves.Keys {
      var merged := Merge(mine, server.leaves, 0, Pow2(LEDGER_DEPTH));
      assert forall i | i in server.leaves :: i in merged && merged[i] == server.leaves[i];
      assert merged.Keys == server.leaves.Keys;
    } else {
      var i :| i in mine.Keys && i !in server.leaves.Keys;
      assert i in mine;
    }
  }

  /**
   Against a peer that is truthful about hashes and accounts, a synchronisation of any client at all
   starts from the client's own leaves, or from none if these are more than the peer claims to have.  It
   succeeds exactly when these are leaves the server has too, and then ends with the server's leaves,
   having asked and written exactly the plan; the count is whatever was claimed.
   */
  lemma SyncDecides(peer: Peer, server: Ledger, ledger: Ledger, num: int, hash: Hash, before: seq<Query>)
    requires TruthfulAboutNodes(peer, server) && Servable(server)
    requires InTree(ledger.leaves) || |ledger.leaves| > num % 0x1_0000_0000_0000_0000
    requires peer(before, NumAccounts) == Answered(NumAccountsIs(num, hash))
    ensures var outcome := SyncNew(peer, RootHash(server.leaves), ledger, before);
            var leaves := ledger.leaves;
            && (|leaves| <= num % 0x1_0000_0000_0000_0000 ==>
                  outcome == if leaves.Keys <= server.leaves.Keys then
                               Synced(Ledger(server.leaves, Some(hash), AsU32(num)), FullRun(before, leaves, server))
                             else
                               SyncPanicked)
            && (|leaves| > num % 0x1_0000_0000_0000_0000 ==>
                  outcome == Synced(Ledger(server.leaves, Some(hash), AsU32(num)), FullRun(before, map[], server)))
  {
    hide SubtreeHash, Walk, Merge, NoStale, PlannedQueries, PlannedWrites, HonestPeer, TruthfulAboutNodes, FullRun;
    if |ledger.leaves| <= num % 0x1_0000_0000_0000_0000 {
      SyncFrom(peer, server, ledger, num, hash, before, ledger.leaves);
    } else {
      SyncFrom(peer, server, ledger, num, hash, before, map[]);
    }
  }

  lemma SyncFrom(peer: Peer, server: Ledger, ledger: Ledger, num: int, hash: Hash,
      before: seq<Query>, start: Leaves)
    requires start == StartLeaves(ledger.leaves, num)
    requires TruthfulAboutNodes(peer, server) && Servable(server) && InTree(start)
    requires peer(before, NumAccounts) == Answered(NumAccountsIs(num, hash))
    ensures SyncNew(peer, RootHash(server.leaves), ledger, before)
         == if start.Keys <= server.leaves.Keys then
              Synced(Ledger(server.leaves, Some(hash), AsU32(num)), FullRun(before, start, server))
            else
              SyncPanicked
  {
    hide SubtreeHash, Walk, Merge, NoStale, PlannedQueries, PlannedWrites, HonestPeer, TruthfulAboutNodes;
    var root := RootHash(server.leaves);
    var run := Run(start, before + [NumAccounts], []);
    WholeTree();
    HonestWalk(peer, server, root, hash, 0, 0, run);
    MergeWholeTree(start, server);
    assert NodeStart(0, 0 + 1) == Pow2(LEDGER_DEPTH);
  }

  /**
   The law the client is for: from any dense ledger, synchronising with a servable ledger yields that
   ledger.  A client with no more accounts than the server keeps its own: what is asked, after the
   count, and written is the plan made from them, at most 33 queries for each of their blocks that
   differs, and the writes are safe in the order they are made.  A client with more starts from nothing.
   */
  lemma SyncConverges(server: Ledger, ledger: Ledger, count: nat, before: seq<Query>)
    requires Servable(server) && Dense(ledger.leaves, count)
    ensures var kept := if count <= server.num then ledger.leaves else map[];
            var asked, writes := PlannedQueries(kept, server.leaves, 0, 0), PlannedWrites(kept, server, 0, 0);
            && SyncNew(HonestPeer(server), RootHash(server.leaves), ledger, before)
                == Synced(server, Run(server.leaves, before + ([NumAccounts] + asked), writes))
            && |[NumAccounts] + asked| <= 1 + 33 * |DifferingBlocks(kept, server.leaves, 0, 0)|
            && SafeWrites(kept, |kept|, writes, server)
            && Apply(kept, writes) == server.leaves
  {
    hide SyncNew, PlannedQueries, PlannedWrites, SafeWrites, Apply, DifferingBlocks, Dense, StartLeaves;
    StartDense(server, ledger, count);
    var start := StartLeaves(ledger.leaves, server.num);
    HonestClaim(server, ledger, before, start);
    SafePlanWhole(start, server);
    CostWhole(start, server);
  }

  /** A client that is up to date asks for the count and nothing else, and writes nothing. */
  lemma UpToDate(server: Ledger, ledger: Ledger, before: seq<Query>)
    requires Servable(server) && ledger.leaves == server.leaves
    ensures SyncNew(HonestPeer(server), RootHash(server.leaves), ledger, before)
         == Synced(server, Run(server.leaves, before + [NumAccounts], []))
  {
    hide SyncNew, SafeWrites, Apply, HashAt;
    SyncConverges(server, ledger, server.num, before);
    assert PlannedQueries(server.leaves, server.leaves, 0, 0) == [];
    assert PlannedWrites(server.leaves, server, 0, 0) == [];
    assert [NumAccounts] + [] == [NumAccounts];
  }

  lemma HonestClaim(server: Ledger, ledger: Ledger, before: seq<Query>, start: Leaves)
    requires Servable(server)
    requires start == StartLeaves(ledger.leaves, server.num) && Dense(start, |start|) && |start| <= server.num
    ensures SyncNew(HonestPeer(server), RootHash(server.leaves), ledger, before)
        == Synced(server, FullRun(before, start, server))
  {
    hide SubtreeHash, Walk, HashAt;
    WholeTree();
    SyncFrom(HonestPeer(server), server, ledger, server.num, server.topHash.value, before, start);
  }

  lemma SafePlanWhole(start: Leaves, server: Ledger)
    requires Servable(server) && Dense(start, |start|) && |start| <= server.num
    ensures SafeWrites(start, |start|, PlannedWrites(start, server, 0, 0), server)
    ensures Apply(start, PlannedWrites(start, server, 0, 0)) == server.leaves
  {
    hide SafeWrites, Apply, Merge, PlannedWrites, PlannedQueries;
    WholeTree();
    SafePlan(start, |start|, server, 0, 0);
    MergeWholeTree(start, server);
    assert NodeStart(0, 0 + 1) == NodeStart(0, 1);
  }

  lemma CostWhole(start: Leaves, server: Ledger)
    ensures |SyncQueries(start, server)| <= 1 + 33 * |DifferingBlocks(start, server.leaves, 0, 0)|
  {
    hide DifferingBlocks, PlannedQueries, PlannedWrites;
    CostBound(start, server.leaves, 0, 0);
  }

  lemma StartDense(server: Ledger, ledger: Ledger, count: nat)
    requires Servable(server) && Dense(ledger.leaves, count)
    ensures StartLeaves(ledger.leaves, server.num) == if count <= server.num then ledger.leaves else map[]
    ensures Dense(StartLeaves(ledger.leaves, server.num), |StartLeaves(ledger.leaves, server.num)|)
    ensures |StartLeaves(ledger.leaves, server.num)| <= server.num
  {
    DenseCount(ledger.leaves, count);
  }

  /**
   In a synchronisation of a dense client the count is asked for once; the node `d`, `p` is asked about
   once if the client's own leaves differed there, or had to be dropped and the server has leaves there,
   and not at all otherwise.
   */
  lemma SyncAsksOnce(server: Ledger, ledger: Ledger, count: nat, before: seq<Query>, d: nat, p: nat)
    requires Servable(server) && Dense(ledger.leaves, count) && IsNode(d, p)
    ensures var outcome := SyncNew(HonestPeer(server), RootHash(server.leaves), ledger, before);
            && outcome.Synced? && before <= outcome.run.asked
            && var asked := outcome.run.asked[|before|..];
               && multiset(asked)[NumAccounts] == 1
               && multiset(asked)[NodeQuery(d, p)]
                  == if Differs(if count <= server.num then ledger.leaves else map[], server.leaves, d, p) then 1 else 0
  {
    hide SyncNew, Differs, AddressBytes, PlannedQueries, PlannedWrites, SafeWrites, Apply, DifferingBlocks, Servable;
    var kept := if count <= server.num then ledger.leaves else map[];
    SyncConverges(server, ledger, count, before);
    AskedOnce(kept, server, d, p);
  }

  lemma AskedOnce(start: Leaves, server: Ledger, d: nat, p: nat)
    requires IsNode(d, p)
    ensures multiset(SyncQueries(start, server))[NodeQuery(d, p)]
        == if Differs(start, server.leaves, d, p) then 1 else 0
    ensures multiset(SyncQueries(start, server))[NumAccounts] == 1
  {
    hide Differs, AddressBytes;
    AskedExactlyOnce(start, server.leaves, 0, 0, d, p);
    AllUnderRoot(d, p);
    OnlyNodesAsked(start, server.leaves, 0, 0);
    assert !IsNodeQuery(NumAccounts);
  }

  lemma {:induction false} AllUnderRoot(d: nat, p: nat)
    requires p < Pow2(d)
    ensures Under(0, 0, d, p)
  {
    if d == 0 {
    } else {
      AllUnderRoot(d - 1, p / 2);
    }
  }

  /**
   Whatever the peer does, a synchronisation that ends without a panic ends with the leaves of the
   ledger whose root was asked for.
   */
  lemma SyncSound(peer: Peer, genuine: Leaves, ledger: Ledger, before: seq<Query>)
    requires SyncNew(peer, RootHash(genuine), ledger, before).Synced?
    ensures AgreeOn(SyncNew(peer, RootHash(genuine), ledger, before).ledger.leaves, genuine, 0, Pow2(LEDGER_DEPTH))
  {
    hide SubtreeHash, Walk;
    WholeTree();
    DiffersMeans(SyncNew(peer, RootHash(genuine), ledger, before).ledger.leaves, genuine, 0, 0);
  }

  /**
   What the reset is for: without it, the walk of a dense client succeeds exactly when the client has
   no more accounts than the server.
   */
  lemma WithoutReset(server: Ledger, leaves: Leaves, count: nat, hash: Hash, before: seq<Query>)
    requires Servable(server) && Dense(leaves, count) && count <= Pow2(LEDGER_DEPTH)
    ensures Walk(HonestPeer(server), RootHash(server.leaves), hash, 0, 0, Run(leaves, before, [])).Returned?
       <==> count <= server.num
  {
    hide SubtreeHash, Walk, Merge, NoStale, PlannedQueries, PlannedWrites, HonestPeer;
    assert TruthfulAboutNodes(HonestPeer(server), server);
    WholeTree();
    HonestWalk(HonestPeer(server), server, RootHash(server.leaves), hash, 0, 0, Run(leaves, before, []));
    MergeWholeTree(leaves, server);
    assert NodeStart(0, 0 + 1) == Pow2(LEDGER_DEPTH);
    assert server.num < count ==> server.num in leaves.Keys && server.num !in server.leaves.Keys;
  }

  /** A peer that is truthful but for the count and the extra hash it reports. */
  function Misreporting(server: Ledger, num: int, hash: Hash): Peer {
    (asked: seq<Query>, q: Query) =>
      if q.NumAccounts? then Answered(NumAccountsIs(num, hash)) else HonestPeer(server)(asked, q)
  }

  /**
   The count and the extra hash are taken on trust: any claim that does not fall short of the client's
   own accounts is accepted, and the client ends with the server's ledger exactly when the claim was
   the server's.  The count kept is the claim's low 32 bits.
   */
  lemma CountOnTrust(server: Ledger, ledger: Ledger, num: int, hash: Hash, before: seq<Query>)
    requires Servable(server) && ledger.leaves.Keys <= server.leaves.Keys
    ensures var outcome := SyncNew(Misreporting(server, num, hash), RootHash(server.leaves), ledger, before);
            && outcome.Synced?
            && outcome.ledger.leaves == server.leaves
            && outcome.ledger.topHash == Some(hash)
            && outcome.ledger.num < U32 && (num - outcome.ledger.num) % U32 == 0
            && (outcome.ledger == server <==> (num - server.num) % U32 == 0 && hash == server.topHash.value)
  {
    hide SubtreeHash, Walk, Serve;
    WholeTree();
    assert forall i | i in ledger.leaves :: i in server.leaves.Keys;
    SyncFrom(Misreporting(server, num, hash), server, ledger, num, hash, before, StartLeaves(ledger.leaves, num));
    LowBits(num, server.num);
  }

  lemma LowBits(n: int, m: nat)
    requires m < U32
    ensures (n - AsU32(n)) % U32 == 0 && AsU32(n) < U32
    ensures AsU32(n) == m <==> (n - m) % U32 == 0
  {
  }
}

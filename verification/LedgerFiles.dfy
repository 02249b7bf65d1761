/**
 Ledgers on disk, and the whole way of an account from one ledger through a file and a server to
 another ledger.
 */
module LedgerFiles {
  import opened Options
  import opened Powers
  import opened Merkle
  import opened SyncProtocol
  import opened Sync

  /** What a ledger file holds. */
  datatype LedgerFile = LedgerFile(topHash: Option<Hash>, accounts: seq<Account>)

  /** The accounts with an index below `n`, in index order. */
  function InIndexOrder(leaves: Leaves, n: nat): seq<Account> {
    if n == 0 then [] else InIndexOrder(leaves, n - 1) + if n - 1 in leaves then [leaves[n - 1]] else []
  }

  function Store(ledger: Ledger): LedgerFile {
    LedgerFile(ledger.topHash, InIndexOrder(ledger.leaves, Pow2(LEDGER_DEPTH)))
  }

  /** Adds an account after the last one, unless an account with its id is there already. */
  function GetOrCreate(leaves: Leaves, account: Account): Leaves {
    if exists i :: i in leaves && leaves[i].id == account.id then leaves else leaves[|leaves| := account]
  }

  function LoadLeaves(accounts: seq<Account>): Leaves {
    var n := |accounts|;
    if n == 0 then map[] else GetOrCreate(LoadLeaves(accounts[..n - 1]), accounts[n - 1])
  }

  function Load(file: LedgerFile): Ledger {
    Ledger(LoadLeaves(file.accounts), file.topHash, AsU32(|file.accounts|))
  }

  ghost predicate DistinctIds(leaves: Leaves) {
    forall i, j :: i in leaves && j in leaves && leaves[i].id == leaves[j].id ==> i == j
  }

  /** A loaded ledger is dense and holds no id twice, whatever the file says. */
  lemma {:induction false} LoadedIsDistinct(accounts: seq<Account>)
    ensures DistinctIds(LoadLeaves(accounts))
    ensures Dense(LoadLeaves(accounts), |LoadLeaves(accounts)|)
  {
    var n := |accounts|;
    if n > 0 {
      LoadedIsDistinct(accounts[..n - 1]);
    }
  }

  predicate HasId(accounts: seq<Account>, id: nat) {
    exists j :: 0 <= j < |accounts| && accounts[j].id == id
  }

  /** The accounts of a file of which no earlier one has the id, in order. */
  function FirstsOf(accounts: seq<Account>): seq<Account> {
    if accounts == [] then []
    else
      var before, last := accounts[..|accounts| - 1], accounts[|accounts| - 1];
      FirstsOf(before) + if HasId(before, last.id) then [] else [last]
  }

  lemma HasIdMore(before: seq<Account>, last: Account, id: nat)
    ensures HasId(before + [last], id) <==> HasId(before, id) || last.id == id
  {
    var all := before + [last];
    if j :| 0 <= j < |before| && before[j].id == id {
      assert all[j].id == id;
    }
    assert all[|before|] == last;
  }

  lemma {:induction false} FirstsHaveAllIds(accounts: seq<Account>, id: nat)
    ensures HasId(FirstsOf(accounts), id) <==> HasId(accounts, id)
    decreases |accounts|
  {
    if accounts != [] {
      hide HasId;
      var before, last := accounts[..|accounts| - 1], accounts[|accounts| - 1];
      FirstsHaveAllIds(before, id);
      assert accounts == before + [last];
      HasIdMore(before, last, id);
      HasIdMore(FirstsOf(before), last, id);
      assert FirstsOf(before) + [] == FirstsOf(before);
    }
  }

  /** The leaves are these accounts, laid out in order. */
  ghost predicate LaidOut(leaves: Leaves, accounts: seq<Account>) {
    && (forall i: nat :: i in leaves <==> i < |accounts|)
    && (forall i: nat :: i in leaves ==> leaves[i] == accounts[i])
  }

  lemma NextLaidOut(leaves: Leaves, accounts: seq<Account>, account: Account)
    requires LaidOut(leaves, accounts)
    ensures LaidOut(GetOrCreate(leaves, account),
                    accounts + if HasId(accounts, account.id) then [] else [account])
  {
    DenseCount(leaves, |accounts|);
    if HasId(accounts, account.id) {
      var j :| 0 <= j < |accounts| && accounts[j].id == account.id;
      assert j in leaves && leaves[j].id == account.id;
      assert accounts + [] == accounts;
    } else {
      assert forall i: nat :: i in leaves ==> leaves[i] == accounts[i] && leaves[i].id != account.id;
    }
  }

  /**
   Loading keeps of each id the first account in the file, in the order of the file; the count is that of
   all accounts in the file.
   */
  lemma {:induction false} LoadKeepsFirsts(file: LedgerFile)
    ensures LaidOut(Load(file).leaves, FirstsOf(file.accounts))
    ensures Load(file).topHash == file.topHash
    ensures |file.accounts| < 0x1_0000_0000 ==> Load(file).num == |file.accounts|
    decreases |file.accounts|
  {
    hide LaidOut, GetOrCreate, HasId;
    var accounts, n := file.accounts, |file.accounts|;
    if n == 0 {
      NothingLaidOut();
    } else {
      var before, last := accounts[..n - 1], accounts[n - 1];
      LoadKeepsFirsts(LedgerFile(file.topHash, before));
      FirstsHaveAllIds(before, last.id);
      NextLaidOut(LoadLeaves(before), FirstsOf(before), last);
    }
  }

  lemma NothingLaidOut()
    ensures LaidOut(map[], [])
  {
  }

  /** The leaves with an index below `n`. */
  function Prefix(leaves: Leaves, n: nat): Leaves {
    map i | i in leaves && i < n :: leaves[i]
  }

  lemma {:induction false} StoredCount(leaves: Leaves, count: nat, n: nat)
    requires Dense(leaves, count)
    ensures |InIndexOrder(leaves, n)| == if n < count then n else count
  {
    if n > 0 {
      StoredCount(leaves, count, n - 1);
    }
  }

  /** Appending the next account of a ledger without repeated ids extends the prefix by one. */
  lemma AppendNext(leaves: Leaves, count: nat, n: nat)
    requires Dense(leaves, count) && DistinctIds(leaves) && n < count
    ensures GetOrCreate(Prefix(leaves, n), leaves[n]) == Prefix(leaves, n + 1)
  {
    var before := Prefix(leaves, n);
    DenseCount(before, n);
    assert forall i | i in before :: before[i].id == leaves[n].id ==> i == n;
    assert Prefix(leaves, n + 1) == before[n := leaves[n]];
  }

  /** Loading the accounts of a prefix of a ledger without repeated ids restores the prefix. */
  lemma {:induction false} LoadRestores(leaves: Leaves, count: nat, n: nat)
    requires Dense(leaves, count) && DistinctIds(leaves)
    ensures LoadLeaves(InIndexOrder(leaves, n)) == Prefix(leaves, n)
  {
    hide GetOrCreate, DistinctIds;
    if n == 0 {
      assert Prefix(leaves, 0) == map[];
    } else {
      LoadRestores(leaves, count, n - 1);
      if n - 1 < count {
        assert InIndexOrder(leaves, n)[..|InIndexOrder(leaves, n)| - 1] == InIndexOrder(leaves, n - 1);
        AppendNext(leaves, count, n - 1);
      } else {
        assert InIndexOrder(leaves, n) == InIndexOrder(leaves, n - 1);
        assert Prefix(leaves, n) == Prefix(leaves, n - 1);
      }
    }
  }

  /** Storing and loading gives a servable ledger back exactly when no account id occurs twice in it. */
  lemma StoreLoadRoundTrip(ledger: Ledger)
    requires Servable(ledger)
    ensures Load(Store(ledger)) == ledger <==> DistinctIds(ledger.leaves)
  {
    hide InIndexOrder, LoadLeaves, DistinctIds;
    var n := Pow2(LEDGER_DEPTH);
    WholeTree();
    StoredCount(ledger.leaves, ledger.num, n);
    LoadedIsDistinct(InIndexOrder(ledger.leaves, n));
    if DistinctIds(ledger.leaves) {
      LoadRestores(ledger.leaves, ledger.num, n);
      assert Prefix(ledger.leaves, n) == ledger.leaves;
    }
  }

  /**
   Record and replay: a ledger without repeated ids, stored, loaded and served, brings every dense
   client to that same ledger: leaves, count and reported hash.  Only a
   client with more accounts than were stored drops its own.
   */
  lemma RecordReplay(ledger: Ledger, client: Ledger, count: nat, before: seq<Query>)
    requires Servable(ledger) && DistinctIds(ledger.leaves)
    requires Dense(client.leaves, count)
    ensures SyncNew(HonestPeer(Load(Store(ledger))), RootHash(ledger.leaves), client, before)
         == Synced(ledger, FullRun(before, if count <= ledger.num then client.leaves else map[], ledger))
  {
    StoreLoadRoundTrip(ledger);
    SyncConverges(ledger, client, count, before);
  }
}

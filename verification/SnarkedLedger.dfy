/**
 The snarked ledger as the object that is synchronised, served, stored and loaded.  A method's `ok`
 is false where the source panics.
 */
module SnarkedLedgers {
  import opened Options
  import opened Powers
  import opened Addresses
  import opened Merkle
  import opened SyncProtocol
  import opened SyncWalk
  import opened Sync
  import opened LedgerFiles

  /** A connection to a peer, remembering what has been asked over it. */
  class Client {
    const peer: Peer
    var asked: seq<Query>

    constructor (peer: Peer)
      ensures this.peer == peer && asked == []
    {
      this.peer := peer;
      asked := [];
    }

    method Rpc(q: Query) returns (reply: Reply)
      modifies this
      ensures reply == peer(old(asked), q)
      ensures asked == old(asked) + [q]
    {
      reply := peer(asked, q);
      asked := asked + [q];
    }
  }

  class SnarkedLedger {
    var inner: Leaves
    var topHash: Option<Hash>
    var num: nat

    /** The leaves written since the last synchronisation began. */
    ghost var writes: seq<Write>

    function Value(): Ledger
      reads this
    {
      Ledger(inner, topHash, num)
    }

    /** Where this ledger and its connection stand in a walk. */
    ghost function Progress(client: Client): Run
      reads this, client
    {
      Run(inner, client.asked, writes)
    }

    constructor Empty()
      ensures Value() == Ledger(map[], None, 0)
    {
      inner, topHash, num, writes := map[], None, 0, [];
    }

    constructor Of(value: Ledger)
      ensures Value() == value
    {
      inner, topHash, num, writes := value.leaves, value.topHash, value.num, [];
    }

    method SyncNew(client: Client, root: Hash) returns (ok: bool)
      modifies this, client
      ensures var outcome := Sync.SyncNew(client.peer, root, old(Value()), old(client.asked));
              && (ok <==> outcome.Synced?)
              && (ok ==> Value() == outcome.ledger && Progress(client) == outcome.run)
    {
      hide Walk, HashAt;
      var reply := client.Rpc(NumAccounts);
      if !(reply.Answered? && reply.answer.NumAccountsIs?) {
        return false;
      }
      var claimed, hash := reply.answer.num, reply.answer.hash;
      topHash := Some(hash);
      num := AsU32(claimed);
      if |inner| > AsU64(claimed) {
        inner := map[];
      }
      writes := [];
      ok := SyncAtDepth(client, root, hash, 0, 0);
      ok := ok && RootHash(inner) == root;
    }

    method SyncAtDepth(client: Client, root: Hash, hash: Hash, depth: nat, pos: nat) returns (ok: bool)
      requires depth <= BATCH_DEPTH && pos < Pow2(depth)
      modifies this, client
      ensures topHash == old(topHash) && num == old(num)
      ensures var outcome := Walk(client.peer, root, hash, depth, pos, old(Progress(client)));
              && (ok <==> outcome.Returned?)
              && (ok ==> Progress(client) == outcome.run)
      decreases BATCH_DEPTH - depth
    {
      hide HashAt, AddressBytes, Fetch, Walk;
      WalkCases(client.peer, root, hash, depth, pos, Progress(client));
      var actual := HashAt(inner, depth, pos);
      if (depth == 0 && root == actual) || (depth > 0 && hash == actual) {
        return true;
      }
      if depth == BATCH_DEPTH {
        ok := FetchBlock(client, hash, pos);
        return;
      }
      var reply := client.Rpc(WhatChildHashes(depth, AddressBytes(depth, pos)));
      if !(reply.Answered? && reply.answer.ChildHashesAre?) {
        return false;
      }
      ok := SyncAtDepth(client, root, reply.answer.left, depth + 1, 2 * pos);
      if ok {
        ok := SyncAtDepth(client, root, reply.answer.right, depth + 1, 2 * pos + 1);
      }
      if ok {
        actual := HashAt(inner, depth, pos);
        ok := if depth == 0 then root == actual else hash == actual;
      }
    }

    method FetchBlock(client: Client, hash: Hash, pos: nat) returns (ok: bool)
      modifies this, client
      ensures topHash == old(topHash) && num == old(num)
      ensures var outcome := Fetch(client.peer, hash, pos, old(Progress(client)));
              && (ok <==> outcome.Returned?)
              && (ok ==> Progress(client) == outcome.run)
    {
      hide HashAt, AddressBytes;
      var reply := client.Rpc(WhatContents(BATCH_DEPTH, AddressBytes(BATCH_DEPTH, pos)));
      match reply {
        case Refused =>
        case Answered(ContentsAre(accounts)) =>
          WriteBatch(pos, accounts);
        case _ =>
          return false;
      }
      ok := hash == HashAt(inner, BATCH_DEPTH, pos);
    }

    method WriteBatch(pos: nat, accounts: seq<Account>)
      modifies this`inner, this`writes
      ensures forall client: Client ::
                Progress(client) == Run(old(inner), client.asked, old(writes)).WriteAll(BatchBase(pos), accounts)
    {
      hide BatchBase, Placed;
      var base := BatchBase(pos);
      var o := 0;
      while o < |accounts|
        invariant o <= |accounts| && base == BatchBase(pos)
        invariant inner == old(inner) + Placed(base, accounts[..o])
        invariant writes == old(writes) + WritesAt(base, accounts[..o])
      {
        PlacedNext(old(inner), base, accounts, o);
        inner := inner[base + o := accounts[o]];
        writes := writes + [Write(base + o, accounts[o])];
        o := o + 1;
      }
      assert accounts[..o] == accounts;
    }

    /** Answers a query; `None` where the source panics. */
    method ServeQuery(q: Query) returns (answer: Option<Answer>)
      ensures answer == Serve(Value(), q)
    {
      match q
      case NumAccounts =>
        if topHash.None? {
          return None;
        }
        return Some(NumAccountsIs(num, topHash.value));
      case WhatChildHashes(depth, bytes) =>
        if !(0 <= depth < LEDGER_DEPTH) {
          return None;
        }
        var pos := IndexOf(depth, bytes);
        return Some(ChildHashesAre(HashAt(inner, depth + 1, 2 * pos), HashAt(inner, depth + 1, 2 * pos + 1)));
      case WhatContents(depth, bytes) =>
        if !(0 <= depth <= LEDGER_DEPTH) {
          return None;
        }
        var accounts := CollectBatch(IndexOf(depth, bytes), Pow2(LEDGER_DEPTH - depth));
        return Some(ContentsAre(accounts));
    }

    method CollectBatch(index: nat, length: nat) returns (accounts: seq<Account>)
      ensures accounts == Batch(inner, num, index * length, index * length + length)
    {
      accounts := [];
      var offset := 0;
      ghost var from := index * length;
      while true
        invariant offset <= length
        invariant Batch(inner, num, from, from + length) == accounts + Batch(inner, num, from + offset, from + length)
        decreases length - offset
      {
        if offset == length {
          break;
        }
        var pos := index * length + offset;
        offset := offset + 1;
        if pos == num {
          break;
        }
        if pos in inner {
          accounts := accounts + [inner[pos]];
        } else {
          break;
        }
      }
    }

    method StoreBin() returns (file: LedgerFile)
      ensures file == Store(Value())
    {
      file := LedgerFile(topHash, InIndexOrder(inner, Pow2(LEDGER_DEPTH)));
    }

    static method LoadBin(file: LedgerFile) returns (ledger: SnarkedLedger)
      ensures fresh(ledger) && ledger.Value() == Load(file)
    {
      var leaves: Leaves := map[];
      var i := 0;
      while i < |file.accounts|
        invariant i <= |file.accounts|
        invariant leaves == LoadLeaves(file.accounts[..i])
      {
        assert file.accounts[..i + 1][..i] == file.accounts[..i];
        leaves := GetOrCreate(leaves, file.accounts[i]);
        i := i + 1;
      }
      assert file.accounts[..i] == file.accounts;
      ledger := new SnarkedLedger.Of(Ledger(leaves, file.topHash, AsU32(|file.accounts|)));
    }
  }
}

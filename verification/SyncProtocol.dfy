/**
 The ledger synchronisation protocol: queries, answers and the serving side.
 */
module SyncProtocol {
  import opened Bytes
  import opened Options
  import opened Powers
  import opened Addresses
  import opened Merkle

  const LEDGER_DEPTH: nat := 35
  const BATCH_DEPTH: nat := 32

  /** The value of a snarked ledger: its tree, the hash it reports beside the root, and its account count. */
  datatype Ledger = Ledger(leaves: Leaves, topHash: Option<Hash>, num: nat)

  datatype Query =
    | NumAccounts
    | WhatChildHashes(depth: int, bytes: seq<Byte>)
    | WhatContents(depth: int, bytes: seq<Byte>)

  datatype Answer =
    | NumAccountsIs(num: int, hash: Hash)
    | ChildHashesAre(left: Hash, right: Hash)
    | ContentsAre(accounts: seq<Account>)

  function HashAt(leaves: Leaves, depth: nat, pos: nat): Hash
    requires depth <= LEDGER_DEPTH
  {
    SubtreeHash(leaves, LEDGER_DEPTH - depth, pos)
  }

  /** The hash of the whole tree, which peers call its root. */
  function RootHash(leaves: Leaves): Hash {
    HashAt(leaves, 0, 0)
  }

  /** The accounts from index `from` on, up to `until`, the count `num`, or the first gap. */
  function Batch(leaves: Leaves, num: nat, from: nat, until: nat): seq<Account>
    requires from <= until
    decreases until - from
  {
    if from == until || from == num || from !in leaves then
      []
    else
      [leaves[from]] + Batch(leaves, num, from + 1, until)
  }

  /** What a ledger answers; `None` where the serving code panics. */
  function Serve(ledger: Ledger, q: Query): Option<Answer> {
    match q
    case NumAccounts =>
      if ledger.topHash.Some? then Some(NumAccountsIs(ledger.num, ledger.topHash.value)) else None
    case WhatChildHashes(depth, bytes) =>
      if 0 <= depth < LEDGER_DEPTH then
        var pos := IndexOf(depth, bytes);
        Some(ChildHashesAre(HashAt(ledger.leaves, depth + 1, 2 * pos), HashAt(ledger.leaves, depth + 1, 2 * pos + 1)))
      else
        None
    case WhatContents(depth, bytes) =>
      if 0 <= depth <= LEDGER_DEPTH then
        var length := Pow2(LEDGER_DEPTH - depth);
        var from := IndexOf(depth, bytes) * length;
        Some(ContentsAre(Batch(ledger.leaves, ledger.num, from, from + length)))
      else
        None
  }

  /** A ledger fit to be served: its leaves are the indices below its count, which fits a `u32`. */
  ghost predicate Servable(ledger: Ledger) {
    && Dense(ledger.leaves, ledger.num)
    && ledger.num < U32
    && ledger.topHash.Some?
  }

  /** A batch of a dense ledger holds every account of its range, in index order. */
  lemma {:induction false} BatchOfDense(leaves: Leaves, num: nat, from: nat, until: nat)
    requires Dense(leaves, num)
    requires from <= until
    ensures var batch := Batch(leaves, num, from, until);
            && |batch| == (if num <= from then 0 else if num < until then num - from else until - from)
            && forall o :: 0 <= o < |batch| ==> from + o in leaves && batch[o] == leaves[from + o]
    decreases until - from
  {
    if from == until || from == num || from !in leaves {
    } else {
      BatchOfDense(leaves, num, from + 1, until);
      var batch, tail := Batch(leaves, num, from, until), Batch(leaves, num, from + 1, until);
      forall o | 0 <= o < |batch|
        ensures from + o in leaves && batch[o] == leaves[from + o]
      {
        assert o > 0 ==> batch[o] == tail[o - 1] == leaves[from + 1 + (o - 1)];
      }
    }
  }

  /**
   What a batch is of any ledger at all: the accounts from the first index on, as long as they are there
   and the index is neither the end of the range nor the count.
   */
  ghost predicate IsBatch(leaves: Leaves, num: nat, from: nat, until: nat, batch: seq<Account>) {
    var stop := from + |batch|;
    && stop <= until && (stop == until || stop == num || stop !in leaves)
    && (forall i: nat :: from <= i < stop ==> i in leaves && i != num && leaves[i] == batch[i - from])
  }

  lemma {:induction false} BatchExactly(leaves: Leaves, num: nat, from: nat, until: nat)
    requires from <= until
    ensures IsBatch(leaves, num, from, until, Batch(leaves, num, from, until))
    decreases until - from
  {
    if from != until && from != num && from in leaves {
      BatchExactly(leaves, num, from + 1, until);
      var tail := Batch(leaves, num, from + 1, until);
      forall i: nat | from <= i <= from + |tail|
        ensures i in leaves && i != num && leaves[i] == ([leaves[from]] + tail)[i - from]
      {
        assert i > from ==> leaves[i] == tail[i - (from + 1)];
      }
    }
  }

  /**
   The answers of any ledger, whatever the address: the hashes of which the hash of the node is made, and
   the accounts below the node.  Serving panics exactly for a depth outside the tree, for the children of
   a leaf, and for the count of a ledger that was never told its hash.
   */
  lemma ServesExactly(ledger: Ledger, q: Query)
    ensures match q
            case NumAccounts =>
              Serve(ledger, q) == if ledger.topHash == None then None
                                  else Some(NumAccountsIs(ledger.num, ledger.topHash.value))
            case WhatChildHashes(depth, bytes) =>
              if 0 <= depth < 35 then
                && Serve(ledger, q).Some? && Serve(ledger, q).value.ChildHashesAre?
                && HashAt(ledger.leaves, depth, IndexOf(depth, bytes))
                   == NodeHash(35 - depth, Serve(ledger, q).value.left, Serve(ledger, q).value.right)
              else
                Serve(ledger, q) == None
            case WhatContents(depth, bytes) =>
              if 0 <= depth <= 35 then
                && Serve(ledger, q).Some? && Serve(ledger, q).value.ContentsAre?
                && var pos := IndexOf(depth, bytes);
                   IsBatch(ledger.leaves, ledger.num, FirstLeaf(35 - depth, pos), FirstLeaf(35 - depth, pos + 1),
                           Serve(ledger, q).value.accounts)
              else
                Serve(ledger, q) == None
  {
    hide IndexOf, Batch, IsBatch, Pow2;
    if q.WhatContents? && 0 <= q.depth <= 35 {
      var pos, length := IndexOf(q.depth, q.bytes), Pow2(LEDGER_DEPTH - q.depth);
      Distributes(pos, length);
      BatchExactly(ledger.leaves, ledger.num, pos * length, pos * length + length);
    }
  }

  /** How a peer reacts to a query: the call fails, the peer could not construct an answer, or it answers. */
  datatype Reply = RpcFailed | Refused | Answered(answer: Answer)

  /** A peer may choose its reply from the whole conversation so far. */
  type Peer = (seq<Query>, Query) -> Reply

  function HonestPeer(ledger: Ledger): Peer {
    (asked: seq<Query>, q: Query) =>
      match Serve(ledger, q)
      case None => RpcFailed
      case Some(answer) => Answered(answer)
  }
}

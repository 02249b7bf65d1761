/**
 Recording a chain of blocks backwards from its head, and walking it again from the record.
 */
module Chains {
  import opened Options
  import opened Addresses

  type StateHash = nat

  /** A protocol state: the hash of the state before it, its height, and its other contents. */
  datatype ProtocolState = ProtocolState(previous: StateHash, height: nat, contents: nat)

  datatype Block = Block(state: ProtocolState, body: nat)

  type Hashing = ProtocolState -> StateHash

  /**
   Block files by height and hash, and the table from hash to height.  A file without a block cannot be
   read.
   */
  datatype Record = Record(files: map<(nat, StateHash), Option<Block>>, table: map<StateHash, nat>)

  /**
   What a peer answers when it is asked for the blocks of some hashes, after what it was asked before;
   `None` where the call fails.
   */
  type Network = (seq<seq<StateHash>>, seq<StateHash>) -> Option<seq<Block>>

  /** A record while it is extended, and what was asked for so far. */
  datatype Session = Session(record: Record, asked: seq<seq<StateHash>>)

  /** What the step to a block leaves, and the block; none on a panic. */
  datatype Fetched = Fetched(session: Session, block: Option<Block>)

  /** What a download leaves, and the blocks; none on a panic. */
  datatype Downloaded = Downloaded(session: Session, blocks: Option<seq<Block>>)

  const EMPTY_RECORD: Record := Record(map[], map[])

  /** `h - 1` in a 32-bit word. */
  function Before32(h: nat): nat {
    if h == 0 then U32 - 1 else h - 1
  }

  /** The height below the lowest one is the highest one of a 32-bit word. */
  lemma HeightWraps(h: nat)
    requires h < U32
    ensures Before32(h) < U32 && (h - 1 - Before32(h)) % U32 == 0
    ensures Before32(h) == h - 1 <==> 0 < h
  {
  }

  /** Where the block before `last` is filed. */
  function FileBefore(last: Block): (nat, StateHash) {
    (Before32(last.state.height), last.state.previous)
  }

  /**
   Adds the block before `last` to the record, from disk if it is there.  The file is created before the
   answer is known to hold a block: an empty answer leaves a file that cannot be read.
   */
  function FetchBefore(network: Network, s: Session, last: Block): Fetched {
    var key, files := FileBefore(last), s.record.files;
    var table := s.record.table[key.1 := key.0];
    if key in files then
      Fetched(s.(record := Record(files, table)), files[key])
    else
      var answer, asked := network(s.asked, [key.1]), s.asked + [[key.1]];
      match answer
      case None => Fetched(Session(Record(files, table), asked), None)
      case Some(blocks) =>
        var block := First(blocks);
        Fetched(Session(Record(files[key := block], table), asked), block)
  }

  function First(blocks: seq<Block>): Option<Block> {
    if blocks == [] then None else Some(blocks[0])
  }

  /** The blocks downloaded so far, newest first, followed by `n` more. */
  function Download(network: Network, s: Session, blocks: seq<Block>, n: nat): Downloaded
    requires blocks != []
    decreases n
  {
    if n == 0 then Downloaded(s, Some(blocks))
    else
      var fetched := FetchBefore(network, s, blocks[|blocks| - 1]);
      match fetched.block
      case None => Downloaded(fetched.session, None)
      case Some(block) => Download(network, fetched.session, blocks + [block], n - 1)
  }

  /** What is left on disk: files are written at once, the table only at the end. */
  function Left(before: Session, download: Downloaded): Session {
    if download.blocks.Some? then download.session
    else download.session.(record := download.session.record.(table := before.record.table))
  }

  /** How many blocks lie strictly between two heights, counted in 32-bit words. */
  function Between(low: nat, high: nat): nat {
    if Wrap32(low + 1) < high then high - Wrap32(low + 1) else 0
  }

  /** The block the record has for a hash; `None` where looking it up panics. */
  function LookUp(record: Record, hash: StateHash): Option<Block> {
    if hash in record.table && (record.table[hash], hash) in record.files then
      record.files[(record.table[hash], hash)]
    else
      None
  }

  /** The walk from `last` back to `root` ends, by arriving or by a panic, within `bound` steps. */
  ghost predicate Ends(record: Record, root: StateHash, last: StateHash, bound: nat)
    decreases bound
  {
    last == root || LookUp(record, last).None? ||
    (0 < bound && Ends(record, root, LookUp(record, last).value.state.previous, bound - 1))
  }

  /** The blocks from the record behind those walked so far; `None` on a panic. */
  function WalkBack(record: Record, root: StateHash, last: StateHash, blocks: seq<Block>,
      ghost bound: nat): Option<seq<Block>>
    requires Ends(record, root, last, bound)
    decreases bound
  {
    if last == root then Some(blocks)
    else
      match LookUp(record, last)
      case None => None
      case Some(block) => WalkBack(record, root, block.state.previous, blocks + [block], bound - 1)
  }

  /** An honest chain, root first: each state names the hash of the one before it and is one higher. */
  ghost predicate Linked(hashing: Hashing, chain: seq<Block>) {
    && (forall i :: 0 < i < |chain| ==> chain[i].state.previous == hashing(chain[i - 1].state))
    && (forall i :: 0 < i < |chain| ==> chain[i].state.height == chain[i - 1].state.height + 1)
    && (forall i :: 0 <= i < |chain| ==> chain[i].state.height < U32)
  }

  /** No two states of the chain share a hash. */
  ghost predicate NoCollision(hashing: Hashing, chain: seq<Block>) {
    forall i, j :: 0 <= i < j < |chain| ==> hashing(chain[i].state) != hashing(chain[j].state)
  }

  /** The block file belonging to a block. */
  function FileOf(hashing: Hashing, block: Block): (nat, StateHash) {
    (block.state.height, hashing(block.state))
  }

  /** A peer that knows every block of the chain below its head, whenever it is asked. */
  ghost predicate Knows(network: Network, hashing: Hashing, chain: seq<Block>) {
    forall i, asked :: 0 <= i < |chain| - 1 ==> network(asked, [hashing(chain[i].state)]) == Some([chain[i]])
  }

  /** Files left by earlier recordings are right where they concern the first blocks of the chain. */
  ghost predicate CacheIsRight(record: Record, hashing: Hashing, chain: seq<Block>, below: nat)
    requires below <= |chain|
  {
    forall i :: 0 <= i < below && FileOf(hashing, chain[i]) in record.files
        ==> record.files[FileOf(hashing, chain[i])] == Some(chain[i])
  }

  /** The record holds the chain from `from` on, up to but without its head. */
  ghost predicate Holds(record: Record, hashing: Hashing, chain: seq<Block>, from: nat) {
    forall i :: from <= i < |chain| - 1 ==> LookUp(record, hashing(chain[i].state)) == Some(chain[i])
  }

  /** `chain` from its end down to index `from`. */
  function Backwards(chain: seq<Block>, from: nat): seq<Block>
    requires from <= |chain|
  {
    seq(|chain| - from, k requires 0 <= k < |chain| - from => chain[|chain| - 1 - k])
  }

  lemma {:induction false} HeightsRise(hashing: Hashing, chain: seq<Block>, i: nat, j: nat)
    requires Linked(hashing, chain) && i <= j < |chain|
    ensures chain[j].state.height == chain[i].state.height + (j - i)
    decreases j
  {
    if i < j {
      HeightsRise(hashing, chain, i, j - 1);
    }
  }

  /** Fetching the block before `chain[i]` yields `chain[i - 1]`, and the record then holds it as well. */
  lemma FetchIsRight(network: Network, hashing: Hashing, chain: seq<Block>, s: Session, i: nat, below: nat)
    requires Linked(hashing, chain) && NoCollision(hashing, chain) && Knows(network, hashing, chain)
    requires 0 < i <= below <= |chain| && i < |chain|
    requires CacheIsRight(s.record, hashing, chain, below) && Holds(s.record, hashing, chain, i)
    ensures FileBefore(chain[i]) == FileOf(hashing, chain[i - 1])
    ensures var fetched := FetchBefore(network, s, chain[i]);
            && fetched.block == Some(chain[i - 1])
            && CacheIsRight(fetched.session.record, hashing, chain, below)
            && Holds(fetched.session.record, hashing, chain, i - 1)
  {
    var hash := hashing(chain[i - 1].state);
    assert network(s.asked, [hash]) == Some([chain[i - 1]]);
    var after := FetchBefore(network, s, chain[i]).session.record;
    forall j | i - 1 <= j < |chain| - 1
      ensures LookUp(after, hashing(chain[j].state)) == Some(chain[j])
    {
      assert i <= j ==> LookUp(s.record, hashing(chain[j].state)) == Some(chain[j]);
    }
    forall j | 0 <= j < below && FileOf(hashing, chain[j]) in after.files
      ensures after.files[FileOf(hashing, chain[j])] == Some(chain[j])
    {
      assert j != i - 1 ==> FileOf(hashing, chain[j]) != FileOf(hashing, chain[i - 1]);
    }
  }

  /** Downloading `n` blocks behind `chain[i]`. */
  lemma {:induction false} DownloadIsRight(network: Network, hashing: Hashing, chain: seq<Block>, s: Session,
      i: nat, n: nat, below: nat)
    requires Linked(hashing, chain) && NoCollision(hashing, chain) && Knows(network, hashing, chain)
    requires n <= i < |chain| && i <= below <= |chain|
    requires CacheIsRight(s.record, hashing, chain, below) && Holds(s.record, hashing, chain, i)
    ensures var result := Download(network, s, Backwards(chain, i), n);
            && result.blocks == Some(Backwards(chain, i - n))
            && CacheIsRight(result.session.record, hashing, chain, below)
            && Holds(result.session.record, hashing, chain, i - n)
    decreases n
  {
    hide FetchBefore, CacheIsRight, Holds, Knows, NoCollision;
    if n > 0 {
      FetchIsRight(network, hashing, chain, s, i, below);
      assert Backwards(chain, i)[|Backwards(chain, i)| - 1] == chain[i];
      assert Backwards(chain, i) + [chain[i - 1]] == Backwards(chain, i - 1);
      DownloadIsRight(network, hashing, chain, FetchBefore(network, s, chain[i]).session, i - 1, n - 1, below);
    }
  }

  /** A recording: a download from a head, for the blocks above the root's height. */
  function RecordChain(network: Network, s: Session, root: Block, head: Block): Downloaded {
    Download(network, s, [head], Between(root.state.height, head.state.height))
  }

  /**
   Recording an honest chain: from its head, with any record whose files are right, the recorder ends
   with the blocks above the root, newest first, and a record that holds all of them but the head.
   */
  lemma RecordsChain(network: Network, hashing: Hashing, chain: seq<Block>, s: Session)
    requires Linked(hashing, chain) && NoCollision(hashing, chain) && Knows(network, hashing, chain)
    requires 2 <= |chain| && CacheIsRight(s.record, hashing, chain, |chain| - 1)
    ensures var result := RecordChain(network, s, chain[0], chain[|chain| - 1]);
            && result.blocks == Some(Backwards(chain, 1))
            && Holds(result.session.record, hashing, chain, 1)
  {
    hide CacheIsRight, Knows, NoCollision, Download;
    var i := |chain| - 1;
    HeightsRise(hashing, chain, 0, i);
    assert Between(chain[0].state.height, chain[i].state.height) == i - 1;
    assert Backwards(chain, i) == [chain[i]];
    DownloadIsRight(network, hashing, chain, s, i, i - 1, i);
  }

  /** The heights the recorder counts down through, as it downloads one block for each. */
  function Countdown(root: Block, head: Block): (indices: seq<int>) {
    seq(Between(root.state.height, head.state.height), k => head.state.height - 1 - k)
  }

  /**
   At each step of an honest recording the block fetched is filed, and noted in the table, under the
   height the recorder has counted down to.
   */
  lemma HeightIsIndex(network: Network, hashing: Hashing, chain: seq<Block>, s: Session, k: nat)
    requires Linked(hashing, chain) && NoCollision(hashing, chain) && Knows(network, hashing, chain)
    requires 2 <= |chain| && CacheIsRight(s.record, hashing, chain, |chain| - 1)
    requires k < |Countdown(chain[0], chain[|chain| - 1])|
    ensures var index := Countdown(chain[0], chain[|chain| - 1])[k];
            var soFar := Download(network, s, [chain[|chain| - 1]], k);
            && soFar.blocks.Some? && |soFar.blocks.value| == k + 1
            && var last := soFar.blocks.value[k];
               var fetched := FetchBefore(network, soFar.session, last);
               && FileBefore(last).0 == index
               && fetched.block.Some? && fetched.block.value.state.height == index
               && LookUp(fetched.session.record, last.state.previous) == fetched.block
  {
    hide CacheIsRight, Knows, NoCollision, Download, FetchBefore, LookUp;
    var i := |chain| - 1;
    HeightsRise(hashing, chain, 0, i);
    HeightsRise(hashing, chain, i - k, i);
    assert Backwards(chain, i) == [chain[i]];
    DownloadIsRight(network, hashing, chain, s, i, k, i);
    var soFar := Download(network, s, [chain[i]], k);
    assert soFar.blocks.value[k] == chain[i - k];
    FetchIsRight(network, hashing, chain, soFar.session, i - k, i);
  }

  /** Walking back from `chain[i]` in a record that holds the chain. */
  lemma {:induction false} WalkIsRight(hashing: Hashing, chain: seq<Block>, record: Record, i: nat)
    requires Linked(hashing, chain) && NoCollision(hashing, chain)
    requires 0 < i < |chain| && Holds(record, hashing, chain, 1)
    ensures var root := hashing(chain[0].state);
            && Ends(record, root, chain[i].state.previous, i - 1)
            && WalkBack(record, root, chain[i].state.previous, Backwards(chain, i), i - 1) == Some(Backwards(chain, 1))
    decreases i
  {
    if i > 1 {
      assert LookUp(record, hashing(chain[i - 1].state)) == Some(chain[i - 1]);
      WalkIsRight(hashing, chain, record, i - 1);
      assert Backwards(chain, i) + [chain[i - 1]] == Backwards(chain, i - 1);
    }
  }

  /**
   The offline walk terminates and rebuilds from the record, without the network, exactly the list of
   blocks that was downloaded.
   */
  lemma AgainIsTheSame(network: Network, hashing: Hashing, chain: seq<Block>, s: Session)
    requires Linked(hashing, chain) && NoCollision(hashing, chain) && Knows(network, hashing, chain)
    requires 2 <= |chain| && CacheIsRight(s.record, hashing, chain, |chain| - 1)
    ensures var head, root := chain[|chain| - 1], hashing(chain[0].state);
            var result := RecordChain(network, s, chain[0], head);
            && result.blocks.Some?
            && Ends(result.session.record, root, head.state.previous, |chain| - 2)
            && WalkBack(result.session.record, root, head.state.previous, [head], |chain| - 2) == result.blocks
  {
    hide CacheIsRight, Knows, RecordChain, WalkBack, Ends;
    var i := |chain| - 1;
    RecordsChain(network, hashing, chain, s);
    WalkIsRight(hashing, chain, RecordChain(network, s, chain[0], chain[i]).session.record, i);
    assert Backwards(chain, i) == [chain[i]];
  }

  /**
   Every block of the record is filed under its own height, and the table puts the hash it names one
   below that.
   */
  ghost predicate Descends(record: Record) {
    forall hash :: LookUp(record, hash).Some? ==>
                     var state := LookUp(record, hash).value.state;
                     && state.height == record.table[hash]
                     && (state.previous in record.table ==> record.table[state.previous] + 1 == state.height)
  }

  /** No block of the record up to `height` names `root` as the one before it. */
  ghost predicate NotNamed(record: Record, root: StateHash, height: nat) {
    forall hash :: LookUp(record, hash).Some? && LookUp(record, hash).value.state.height <= height ==>
                     LookUp(record, hash).value.state.previous != root
  }

  /** A walk that starts below the root's height never meets the root; it ends where the record does. */
  lemma {:induction false} WalkMisses(record: Record, root: StateHash, last: StateHash, blocks: seq<Block>, height: nat)
    requires Descends(record) && NotNamed(record, root, height) && last != root
    requires last in record.table ==> record.table[last] < height
    ensures Ends(record, root, last, height) && WalkBack(record, root, last, blocks, height) == None
    decreases height
  {
    if LookUp(record, last).Some? {
      var block := LookUp(record, last).value;
      WalkMisses(record, root, block.state.previous, blocks + [block], height - 1);
    }
  }

  /**
   The head must be above the root.  When they are the same block, nothing is downloaded, and whatever
   earlier recordings have left, the walk steps past the root and panics where the record ends.
   */
  lemma HeadAtRoot(network: Network, hashing: Hashing, s: Session, head: Block)
    requires Descends(s.record) && NotNamed(s.record, hashing(head.state), head.state.height)
    requires head.state.height + 1 < U32 && head.state.previous != hashing(head.state)
    requires head.state.previous in s.record.table ==> s.record.table[head.state.previous] + 1 == head.state.height
    ensures var root, height := hashing(head.state), head.state.height;
            && RecordChain(network, s, head, head) == Downloaded(s, Some([head]))
            && Ends(s.record, root, head.state.previous, height)
            && WalkBack(s.record, root, head.state.previous, [head], height) == None
  {
    WalkMisses(s.record, hashing(head.state), head.state.previous, [head], head.state.height);
  }

  lemma {:induction false} LongerBound(record: Record, root: StateHash, last: StateHash, blocks: seq<Block>,
      bound: nat, more: nat)
    requires Ends(record, root, last, bound) && bound <= more
    ensures Ends(record, root, last, more)
    ensures WalkBack(record, root, last, blocks, more) == WalkBack(record, root, last, blocks, bound)
    decreases bound
  {
    if last != root && LookUp(record, last).Some? {
      var block := LookUp(record, last).value;
      LongerBound(record, root, block.state.previous, blocks + [block], bound - 1, more - 1);
    }
  }

  /** The walk that follows a recording ends; it returns the list downloaded exactly when the head is above the root. */
  ghost predicate AgainReturnsAbove(record: Record, hashing: Hashing, root: Block, head: Block,
      blocks: Option<seq<Block>>)
  {
    && Ends(record, hashing(root.state), head.state.previous, head.state.height)
    && WalkBack(record, hashing(root.state), head.state.previous, [head], head.state.height)
        == if root.state.height < head.state.height then blocks else None
  }

  /** When the head is the root, this asks of the record what `HeadAtRoot` does. */
  lemma AgainExactly(network: Network, hashing: Hashing, chain: seq<Block>, s: Session)
    requires Linked(hashing, chain) && NoCollision(hashing, chain) && Knows(network, hashing, chain)
    requires 1 <= |chain| && CacheIsRight(s.record, hashing, chain, |chain| - 1) && chain[0].state.height + 1 < U32
    requires |chain| == 1 ==>
               var head := chain[0];
               && Descends(s.record) && NotNamed(s.record, hashing(head.state), head.state.height)
               && head.state.previous != hashing(head.state)
               && (head.state.previous in s.record.table ==>
                     s.record.table[head.state.previous] + 1 == head.state.height)
    ensures var head, root := chain[|chain| - 1], chain[0];
            var result := RecordChain(network, s, root, head);
            && result.blocks == Some(if |chain| == 1 then [head] else Backwards(chain, 1))
            && AgainReturnsAbove(result.session.record, hashing, root, head, result.blocks)
  {
    hide CacheIsRight, Knows, NoCollision, RecordChain, WalkBack, Ends, Descends, NotNamed;
    var head, root := chain[|chain| - 1], chain[0];
    HeightsRise(hashing, chain, 0, |chain| - 1);
    if |chain| == 1 {
      HeadAtRoot(network, hashing, s, head);
    } else {
      RecordsChain(network, hashing, chain, s);
      AgainIsTheSame(network, hashing, chain, s);
      var after := RecordChain(network, s, root, head).session.record;
      LongerBound(after, hashing(root.state), head.state.previous, [head], |chain| - 2, head.state.height);
    }
  }

  /** The serving side of a record: the blocks of the hashes asked for, in order; `None` on a panic. */
  function Replay(record: Record, hashes: seq<StateHash>): Option<seq<Block>>
    decreases |hashes|
  {
    if hashes == [] then Some([])
    else
      match LookUp(record, hashes[0])
      case None => None
      case Some(block) =>
        match Replay(record, hashes[1..])
        case None => None
        case Some(blocks) => Some([block] + blocks)
  }

  lemma ReplayOne(record: Record, hash: StateHash, block: Block)
    requires LookUp(record, hash) == Some(block)
    ensures Replay(record, [hash]) == Some([block])
  {
    var one := [hash];
    var none: seq<Block> := [];
    assert one[1..] == [] && one[0] == hash;
    assert Replay(record, one[1..]) == Some(none);
    assert [block] + none == [block];
  }

  /** The answer to several hashes: a block for each, in their order, if the record has all of them. */
  lemma {:induction false} ReplayExactly(record: Record, hashes: seq<StateHash>)
    ensures forall blocks :: Replay(record, hashes) == Some(blocks)
              <==> && |blocks| == |hashes|
                   && forall i :: 0 <= i < |hashes| ==> LookUp(record, hashes[i]) == Some(blocks[i])
    ensures Replay(record, hashes) == None
       <==> exists i :: 0 <= i < |hashes| && LookUp(record, hashes[i]) == None
    decreases |hashes|
  {
    hide LookUp;
    if hashes != [] {
      var rest := hashes[1..];
      ReplayExactly(record, rest);
      forall blocks: seq<Block> | |blocks| == |hashes|
                                  && forall i :: 0 <= i < |hashes| ==> LookUp(record, hashes[i]) == Some(blocks[i])
        ensures Replay(record, hashes) == Some(blocks)
      {
        assert LookUp(record, hashes[0]) == Some(blocks[0]);
        assert forall i :: 0 <= i < |rest| ==> LookUp(record, rest[i]) == Some(blocks[1..][i]);
        assert [blocks[0]] + blocks[1..] == blocks;
      }
      if i :| 0 <= i < |hashes| && LookUp(record, hashes[i]) == None {
        assert i > 0 ==> rest[i - 1] == hashes[i];
      }
    }
  }

  /**
   A second recorder that downloads the chain from a replayed record, starting with nothing, ends with
   the same blocks as the first one.
   */
  lemma ReplayedChain(hashing: Hashing, chain: seq<Block>, record: Record)
    requires Linked(hashing, chain) && NoCollision(hashing, chain) && 2 <= |chain|
    requires Holds(record, hashing, chain, 1)
    ensures var head := chain[|chain| - 1];
            var result := RecordChain((_, hashes) => Replay(record, hashes), Session(EMPTY_RECORD, []), chain[0], head);
            && result.blocks == Some(Backwards(chain, 1))
            && Holds(result.session.record, hashing, chain, 1)
  {
    var network: Network := (_, hashes) => Replay(record, hashes);
    var known := chain[1..];
    forall i, asked | 0 <= i < |known| - 1
      ensures network(asked, [hashing(known[i].state)]) == Some([known[i]])
    {
      assert LookUp(record, hashing(chain[i + 1].state)) == Some(chain[i + 1]);
      ReplayOne(record, hashing(known[i].state), known[i]);
    }
    ReplayedTail(network, hashing, chain);
  }

  lemma ReplayedTail(network: Network, hashing: Hashing, chain: seq<Block>)
    requires Linked(hashing, chain) && NoCollision(hashing, chain) && 2 <= |chain|
    requires Knows(network, hashing, chain[1..])
    ensures var head := chain[|chain| - 1];
            var result := RecordChain(network, Session(EMPTY_RECORD, []), chain[0], head);
            && result.blocks == Some(Backwards(chain, 1))
            && Holds(result.session.record, hashing, chain, 1)
  {
    hide Download, Knows;
    var known, i := chain[1..], |chain| - 1;
    HeightsRise(hashing, chain, 0, i);
    assert Linked(hashing, known) && NoCollision(hashing, known);
    assert Backwards(known, i - 1) == [chain[i]];
    assert Backwards(known, 0) == Backwards(chain, 1);
    DownloadIsRight(network, hashing, known, Session(EMPTY_RECORD, []), i - 1, i - 1, i);
    var after := Download(network, Session(EMPTY_RECORD, []), [chain[i]], i - 1).session.record;
    forall j | 1 <= j < |chain| - 1
      ensures LookUp(after, hashing(chain[j].state)) == Some(chain[j])
    {
      assert LookUp(after, hashing(known[j - 1].state)) == Some(known[j - 1]);
    }
  }

  /** The directory of block files, with what the client that fills it has asked for. */
  class Disk {
    var files: map<(nat, StateHash), Option<Block>>
    var table: map<StateHash, nat>
    var asked: seq<seq<StateHash>>

    function State(): Session
      reads this
    {
      Session(Record(files, table), asked)
    }

    constructor ()
      ensures State() == Session(EMPTY_RECORD, [])
    {
      files, table, asked := map[], map[], [];
    }

    /** Extends `start`, newest first, by the blocks above `rootHeight`; `ok` is false on a panic. */
    method DownloadBlocks(network: Network, start: seq<Block>, headHeight: nat, rootHeight: nat)
        returns (ok: bool, blocks: seq<Block>)
      requires start != []
      modifies this
      ensures var result := Download(network, old(State()), start, Between(rootHeight, headHeight));
              && State() == Left(old(State()), result)
              && result.blocks == if ok then Some(blocks) else None
    {
      blocks := start;
      var noted: map<StateHash, nat> := table;
      var i := headHeight;
      ghost var n := Between(rootHeight, headHeight);
      while Wrap32(rootHeight + 1) < i
        invariant blocks != [] && table == old(table)
        invariant n == if Wrap32(rootHeight + 1) < i then i - Wrap32(rootHeight + 1) else 0
        invariant Download(network, old(State()), start, Between(rootHeight, headHeight))
            == Download(network, Session(Record(files, noted), asked), blocks, n)
        decreases i
      {
        i, n := i - 1, n - 1;
        var last := blocks[|blocks| - 1].state;
        var hash, height := last.previous, Before32(last.height);
        noted := noted[hash := height];
        if (height, hash) in files {
          if files[(height, hash)].None? {
            return false, blocks;
          }
          blocks := blocks + [files[(height, hash)].value];
        } else {
          var answer := network(asked, [hash]);
          asked := asked + [[hash]];
          if answer.None? {
            return false, blocks;
          }
          files := files[(height, hash) := First(answer.value)];
          if answer.value == [] {
            return false, blocks;
          }
          blocks := blocks + [answer.value[0]];
        }
      }
      table := noted;
      ok := true;
    }

    /** Rebuilds the list of blocks from the record; it returns only if the walk ends. */
    method Again(head: Block, root: StateHash, ghost bound: nat) returns (ok: bool, blocks: seq<Block>)
      requires Ends(State().record, root, head.state.previous, bound)
      ensures var result := WalkBack(State().record, root, head.state.previous, [head], bound);
              && (ok <==> result.Some?)
              && (ok ==> blocks == result.value)
    {
      var last := head.state.previous;
      blocks := [head];
      ghost var left := bound;
      while last != root
        invariant Ends(State().record, root, last, left)
        invariant WalkBack(State().record, root, head.state.previous, [head], bound)
            == WalkBack(State().record, root, last, blocks, left)
        decreases left
      {
        if !(last in table && (table[last], last) in files && files[(table[last], last)].Some?) {
          return false, blocks;
        }
        var block := files[(table[last], last)].value;
        last := block.state.previous;
        blocks := blocks + [block];
        left := left - 1;
      }
      ok := true;
    }
  }
}

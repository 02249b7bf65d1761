/**
 Many recordings into one directory, whatever becomes of each of them: what they leave, when a later
 walk over the record works, and how one empty answer spoils the directory.
 */
module Recordings {
  import opened Options
  import opened Addresses
  import opened Chains

  /** One height for every hash: the hash a block names belongs to the height below the block's own. */
  type Heights = StateHash -> nat

  ghost predicate Fits(heights: Heights, block: Block) {
    heights(block.state.previous) + 1 == block.state.height < U32
  }

  /** The record agrees with the heights. */
  ghost predicate Agrees(record: Record, heights: Heights) {
    && (forall hash :: hash in record.table ==> record.table[hash] == heights(hash))
    && (forall height, hash ::
          (height, hash) in record.files && height == heights(hash) && record.files[(height, hash)].Some? ==>
            var block := record.files[(height, hash)].value;
            Fits(heights, block) && block.state.height == heights(hash))
  }

  /** A peer whose blocks, when it sends any, agree with the heights. */
  ghost predicate Truthful(network: Network, heights: Heights) {
    forall asked, hash ::
      network(asked, [hash]).Some? && network(asked, [hash]).value != [] ==>
        var block := network(asked, [hash]).value[0];
        Fits(heights, block) && block.state.height == heights(hash)
  }

  /** Every block file holds what the peer answered for its hash at some time. */
  ghost predicate Answered(record: Record, network: Network) {
    forall height, hash :: (height, hash) in record.files ==>
        exists asked :: network(asked, [hash]).Some?
                        && record.files[(height, hash)] == First(network(asked, [hash]).value)
  }

  lemma FetchAgrees(network: Network, heights: Heights, s: Session, last: Block)
    requires Agrees(s.record, heights) && Truthful(network, heights) && Fits(heights, last)
    ensures var fetched := FetchBefore(network, s, last);
            && Agrees(fetched.session.record, heights)
            && (fetched.block.Some? ==> Fits(heights, fetched.block.value))
  {
    var hash := last.state.previous;
    var answer := network(s.asked, [hash]);
    assert answer.Some? && answer.value != [] ==> Fits(heights, network(s.asked, [hash]).value[0]);
  }

  lemma FetchAnswered(network: Network, s: Session, last: Block)
    requires Answered(s.record, network)
    ensures Answered(FetchBefore(network, s, last).session.record, network)
  {
    var after, key := FetchBefore(network, s, last).session.record, FileBefore(last);
    forall height, hash | (height, hash) in after.files
      ensures exists asked :: network(asked, [hash]).Some?
                              && after.files[(height, hash)] == First(network(asked, [hash]).value)
    {
      if (height, hash) !in s.record.files {
        assert (height, hash) == key && network(s.asked, [hash]).Some?;
      }
    }
  }

  /** A download, even one that panics, keeps both. */
  lemma {:induction false} DownloadAgrees(network: Network, heights: Heights, s: Session, blocks: seq<Block>, n: nat)
    requires Agrees(s.record, heights) && Answered(s.record, network) && Truthful(network, heights)
    requires blocks != [] && Fits(heights, blocks[|blocks| - 1])
    ensures var after := Download(network, s, blocks, n).session.record;
            Agrees(after, heights) && Answered(after, network)
    decreases n
  {
    hide Agrees, Truthful, Answered, FetchBefore;
    if n > 0 {
      var last := blocks[|blocks| - 1];
      FetchAgrees(network, heights, s, last);
      FetchAnswered(network, s, last);
      var fetched := FetchBefore(network, s, last);
      if fetched.block.Some? {
        DownloadAgrees(network, heights, fetched.session, blocks + [fetched.block.value], n - 1);
      }
    }
  }

  /** A recording: the head it starts from and how many blocks it asks for. */
  datatype Recording = Recording(head: Block, steps: nat)

  /** The recordings one after the other; one that panics leaves its files, but not its table. */
  function RecordAll(network: Network, s: Session, recordings: seq<Recording>): Session
    decreases |recordings|
  {
    if recordings == [] then s
    else
      var download := Download(network, s, [recordings[0].head], recordings[0].steps);
      RecordAll(network, Left(s, download), recordings[1..])
  }

  ghost predicate HeadsFit(heights: Heights, recordings: seq<Recording>) {
    forall recording :: recording in recordings ==> Fits(heights, recording.head)
  }

  lemma TableTakenBack(record: Record, table: map<StateHash, nat>, before: Record, network: Network, heights: Heights)
    requires Agrees(record, heights) && Answered(record, network) && Agrees(before, heights) && table == before.table
    ensures Agrees(record.(table := table), heights) && Answered(record.(table := table), network)
  {
  }

  /** Any number of recordings into one directory, whatever their heads and however they end, keep both. */
  lemma {:induction false} RecordingsAgree(network: Network, heights: Heights, s: Session, recordings: seq<Recording>)
    requires Agrees(s.record, heights) && Answered(s.record, network)
    requires Truthful(network, heights) && HeadsFit(heights, recordings)
    ensures var after := RecordAll(network, s, recordings).record;
            Agrees(after, heights) && Answered(after, network)
    decreases |recordings|
  {
    hide Agrees, Truthful, Answered, Download;
    if recordings != [] {
      var head := recordings[0].head;
      assert recordings[0] in recordings;
      assert forall recording :: recording in recordings[1..] ==> recording in recordings;
      DownloadAgrees(network, heights, s, [head], recordings[0].steps);
      var download := Download(network, s, [head], recordings[0].steps);
      TableTakenBack(download.session.record, s.record.table, s.record, network, heights);
      RecordingsAgree(network, heights, Left(s, download), recordings[1..]);
    }
  }

  /** A record that agrees with the heights is of the kind `HeadAtRoot` asks for. */
  lemma AgreeingDescends(heights: Heights, record: Record, hashing: Hashing, head: Block)
    requires Agrees(record, heights) && Fits(heights, head) && heights(hashing(head.state)) == head.state.height
    ensures Descends(record) && NotNamed(record, hashing(head.state), head.state.height)
    ensures head.state.previous != hashing(head.state)
    ensures head.state.previous in record.table ==> record.table[head.state.previous] + 1 == head.state.height
  {
    forall hash | LookUp(record, hash).Some?
      ensures Fits(heights, LookUp(record, hash).value)
      ensures LookUp(record, hash).value.state.height == heights(hash) == record.table[hash]
    {
      assert (record.table[hash], hash) in record.files;
    }
  }

  /** What a peer answered for blocks it always knows is right. */
  lemma AnsweredIsRight(network: Network, hashing: Hashing, chain: seq<Block>, record: Record)
    requires 1 <= |chain| && Answered(record, network) && Knows(network, hashing, chain)
    ensures CacheIsRight(record, hashing, chain, |chain| - 1)
  {
    forall i | 0 <= i < |chain| - 1 && FileOf(hashing, chain[i]) in record.files
      ensures record.files[FileOf(hashing, chain[i])] == Some(chain[i])
    {
      var (height, hash) := FileOf(hashing, chain[i]);
      assert (height, hash) in record.files;
      var asked :| network(asked, [hash]).Some?
                   && record.files[(height, hash)] == First(network(asked, [hash]).value);
    }
  }

  /**
   After any recordings into an empty directory, from a peer that is truthful about heights and knows
   the chain, the chain is recorded; the offline walk over the record always ends, and it returns, and
   then with the list that was downloaded, if and only if the head is above the root.
   */
  lemma AgainAfterRecordings(network: Network, heights: Heights, hashing: Hashing, recordings: seq<Recording>,
      chain: seq<Block>)
    requires Truthful(network, heights) && HeadsFit(heights, recordings)
    requires Linked(hashing, chain) && NoCollision(hashing, chain) && Knows(network, hashing, chain)
    requires 1 <= |chain| && chain[0].state.height + 1 < U32
    requires var head := chain[|chain| - 1];
             Fits(heights, head) && heights(hashing(head.state)) == head.state.height
    ensures var s := RecordAll(network, Session(EMPTY_RECORD, []), recordings);
            var result := RecordChain(network, s, chain[0], chain[|chain| - 1]);
            && result.blocks == Some(if |chain| == 1 then chain else Backwards(chain, 1))
            && AgainReturnsAbove(result.session.record, hashing, chain[0], chain[|chain| - 1], result.blocks)
  {
    hide RecordAll, Truthful, Linked, NoCollision, Knows, Agrees, Answered, CacheIsRight, Descends, NotNamed,
      AgainReturnsAbove, RecordChain;
    EmptyAgrees(network, heights);
    RecordingsAgree(network, heights, Session(EMPTY_RECORD, []), recordings);
    var s := RecordAll(network, Session(EMPTY_RECORD, []), recordings);
    AnsweredIsRight(network, hashing, chain, s.record);
    AgreeingDescends(heights, s.record, hashing, chain[|chain| - 1]);
    AgainExactly(network, hashing, chain, s);
    assert |chain| == 1 ==> [chain[0]] == chain;
  }

  lemma EmptyAgrees(network: Network, heights: Heights)
    ensures Agrees(EMPTY_RECORD, heights) && Answered(EMPTY_RECORD, network)
  {
  }

  /** A file once there is never written again. */
  lemma {:induction false} FilesStay(network: Network, s: Session, blocks: seq<Block>, n: nat, key: (nat, StateHash))
    requires blocks != [] && key in s.record.files
    ensures var after := Download(network, s, blocks, n).session.record;
            key in after.files && after.files[key] == s.record.files[key]
    decreases n
  {
    if n > 0 {
      var fetched := FetchBefore(network, s, blocks[|blocks| - 1]);
      if fetched.block.Some? {
        FilesStay(network, fetched.session, blocks + [fetched.block.value], n - 1, key);
      }
    }
  }

  lemma {:induction false} FilesStayInAll(network: Network, s: Session, recordings: seq<Recording>,
      key: (nat, StateHash))
    requires key in s.record.files
    ensures var after := RecordAll(network, s, recordings).record;
            key in after.files && after.files[key] == s.record.files[key]
    decreases |recordings|
  {
    hide Download;
    if recordings != [] {
      FilesStay(network, s, [recordings[0].head], recordings[0].steps, key);
      var download := Download(network, s, [recordings[0].head], recordings[0].steps);
      FilesStayInAll(network, Left(s, download), recordings[1..], key);
    }
  }

  /**
   A block that was asked for once can be fetched after any later recordings, from whatever peer, if and
   only if the first answer had a block in it: an empty one leaves a file that every later recording
   over this block trips on.
   */
  lemma FirstAnswerDecides(network: Network, s: Session, last: Block, later: Network, recordings: seq<Recording>)
    requires FileBefore(last) !in s.record.files && network(s.asked, [last.state.previous]).Some?
    ensures var first := FetchBefore(network, s, last);
            FetchBefore(later, RecordAll(later, first.session, recordings), last).block
                == First(network(s.asked, [last.state.previous]).value)
  {
    hide RecordAll;
    FilesStayInAll(later, FetchBefore(network, s, last).session, recordings, FileBefore(last));
  }

  /**
   A recording that panics adds nothing to what can be looked up offline: a hash has the block it had, and
   a hash that was not noted before still has none; files already there stay as they are.
   */
  lemma PanicAddsNothing(network: Network, s: Session, blocks: seq<Block>, n: nat, hash: StateHash)
    requires blocks != [] && Download(network, s, blocks, n).blocks == None
    ensures var after := Left(s, Download(network, s, blocks, n)).record;
            && (LookUp(s.record, hash).Some? ==> LookUp(after, hash) == LookUp(s.record, hash))
            && (hash !in s.record.table ==> LookUp(after, hash) == None)
  {
    hide Download;
    if LookUp(s.record, hash).Some? {
      FilesStay(network, s, blocks, n, (s.record.table[hash], hash));
    }
  }

  /** The hashes below index `i` of the chain, down to `from`, whose blocks are not on disk. */
  function Missing(record: Record, hashing: Hashing, chain: seq<Block>, i: nat, from: nat): seq<seq<StateHash>>
    requires i <= |chain|
    decreases i
  {
    if i <= from then []
    else
      (if FileOf(hashing, chain[i - 1]) in record.files then [] else [[hashing(chain[i - 1].state)]])
      + Missing(record, hashing, chain, i - 1, from)
  }

  /** What is on disk of the blocks below does not change while those above are fetched. */
  lemma {:induction false} MissingFrame(record: Record, after: Record, hashing: Hashing, chain: seq<Block>, i: nat,
      from: nat)
    requires i <= |chain|
    requires forall j :: 0 <= j < i ==>
                           (FileOf(hashing, chain[j]) in record.files <==> FileOf(hashing, chain[j]) in after.files)
    ensures Missing(record, hashing, chain, i, from) == Missing(after, hashing, chain, i, from)
    decreases i
  {
    if i > from {
      MissingFrame(record, after, hashing, chain, i - 1, from);
    }
  }

  /**
   An honest recording asks, newest first, for each block of the chain that is not on disk, one at a time
   and once, and for nothing else.
   */
  lemma {:induction false} AsksForMissing(network: Network, hashing: Hashing, chain: seq<Block>, s: Session,
      i: nat, n: nat, below: nat)
    requires Linked(hashing, chain) && NoCollision(hashing, chain) && Knows(network, hashing, chain)
    requires n <= i < |chain| && i <= below <= |chain|
    requires CacheIsRight(s.record, hashing, chain, below) && Holds(s.record, hashing, chain, i)
    ensures Download(network, s, Backwards(chain, i), n).session.asked
         == s.asked + Missing(s.record, hashing, chain, i, i - n)
    decreases n
  {
    hide CacheIsRight, Holds, Knows, NoCollision, Missing, LookUp;
    if n == 0 {
      assert Missing(s.record, hashing, chain, i, i) == [] by { MissingNone(s.record, hashing, chain, i); }
      assert s.asked + [] == s.asked;
    } else {
      var fetched := FetchBefore(network, s, chain[i]);
      FetchIsRight(network, hashing, chain, s, i, below);
      assert Backwards(chain, i)[|Backwards(chain, i)| - 1] == chain[i];
      assert Backwards(chain, i) + [chain[i - 1]] == Backwards(chain, i - 1);
      AsksForMissing(network, hashing, chain, fetched.session, i - 1, n - 1, below);
      FetchAsks(network, hashing, chain, s, i, i - n);
    }
  }

  lemma MissingNone(record: Record, hashing: Hashing, chain: seq<Block>, i: nat)
    requires i <= |chain|
    ensures Missing(record, hashing, chain, i, i) == []
  {
  }

  lemma FetchAsks(network: Network, hashing: Hashing, chain: seq<Block>, s: Session, i: nat, from: nat)
    requires Linked(hashing, chain) && NoCollision(hashing, chain) && Knows(network, hashing, chain)
    requires from < i < |chain| && FileBefore(chain[i]) == FileOf(hashing, chain[i - 1])
    ensures var after := FetchBefore(network, s, chain[i]).session;
            (after.asked + Missing(after.record, hashing, chain, i - 1, from)
             == s.asked + Missing(s.record, hashing, chain, i, from))
  {
    var after := FetchBefore(network, s, chain[i]).session;
    forall j | 0 <= j < i - 1
      ensures FileOf(hashing, chain[j]) in s.record.files <==> FileOf(hashing, chain[j]) in after.record.files
    {
      assert hashing(chain[j].state) != hashing(chain[i - 1].state);
    }
    MissingFrame(s.record, after.record, hashing, chain, i - 1, from);
    assert network(s.asked, [hashing(chain[i - 1].state)]) == Some([chain[i - 1]]);
  }

  /** A whole recording of a chain. */
  lemma RecordingAsks(network: Network, hashing: Hashing, chain: seq<Block>, s: Session)
    requires Linked(hashing, chain) && NoCollision(hashing, chain) && Knows(network, hashing, chain)
    requires 2 <= |chain| && CacheIsRight(s.record, hashing, chain, |chain| - 1)
    ensures RecordChain(network, s, chain[0], chain[|chain| - 1]).session.asked
         == s.asked + Missing(s.record, hashing, chain, |chain| - 1, 1)
  {
    hide CacheIsRight, Knows, NoCollision, Download, Missing, LookUp;
    var i := |chain| - 1;
    HeightsRise(hashing, chain, 0, i);
    assert Between(chain[0].state.height, chain[i].state.height) == i - 1;
    assert Backwards(chain, i) == [chain[i]];
    AsksForMissing(network, hashing, chain, s, i, i - 1, i);
  }
}

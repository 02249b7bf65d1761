# Mina bootstrap tools: ledger synchronisation, RPC streams and chain records

A Dafny model of three parts of the repository, with proofs:

* **Ledger synchronisation** (`bootstrap-sandbox/src/snarked_ledger.rs`). A client walks a depth-35
  Merkle tree, skips what already matches, and fetches differing blocks of eight accounts; the same
  type also answers the queries and is stored and loaded. Files `Powers`, `Addresses`, `Merkle`,
  `SyncProtocol`, `SyncWalk`, `HonestSync`, `SyncCost`, `SyncWrites`, `Sync`, `LedgerFiles`,
  `SnarkedLedger`.
* **RPC streams** (`libp2p-rpc-behaviour/src`). Length-prefixed frames over a byte stream, a growing
  receive buffer, automatic replies, substreams that are requested and reopened, and the command queues
  of a node. Files `Bytes`, `StreamIo`, `Frames`, `Buffers`, `Receive`, `Chunks`, `Send`, `Inners`,
  `Endpoints`, `Delivery`, `AutoReplies`, `Streams`, `Substreams`, `Reopenings`, `Handlers`, `Openings`,
  `Pairing`, `HandlerStreams`, `Behaviours`, `Notices`; and the call loop on top of them, `Clients` and
  `ClientOrders` (`bootstrap-sandbox/src/client.rs`).
* **Chain records** (`record.rs`, `bootstrap.rs`, `replay.rs` in `bootstrap-sandbox/src`). A backwards
  walk over hash-linked blocks with a disk cache, the offline walk over what was recorded, the serving
  of the record to another recorder, and the check made when blocks are applied. Files `Chains`,
  `Recordings`, `Applying`.

Objects that the source updates in place are classes (`SnarkedLedger`, `Client`, `Io`, `Buffer`, `Inner`,
`Stream`, `Handler`, `Behaviour`, `Disk`). Each method is proved against a function of the old state,
and the lemmas are about these functions.

How the outside world enters:

* A synchronisation peer is an arbitrary function of the conversation so far, and so is the peer that
  blocks are downloaded from; `HonestPeer` and `Replay` are the ones that answer with the serving code.
* A stream is a finite script of what reads and writes will meet: nothing, a failure, some bytes, the
  end. A chunk that does not fit a read stays for the next one, so every division of a byte stream
  into reads, and every partial write, is some script.
* The message encoding (`binprot`) is a parameter, `Codec`. Only the lemmas about heartbeats and menus
  assume something of it, in `Faithful`.
* Panics are outcomes (`Panicked`, `HandlerPanicked`, `None`, `ok == false`, `Broken(LengthOverflow)`), and so is
  a loop that would never end (`Spinning`, `Hung`, `Spins`, `HandlerSpins`).
* Integer widths are written out where they matter, with the wrapping of an optimised build, which is
  how the tools are meant to be started. `1 << (32 - depth)` at depth 0 is where a checked build would
  stop; `ShiftLosesNothing` says that the wrapped shift is harmless there and is taken nowhere else.
* Hashes of the account tree are ideal: a hash is the term it was computed from. Block hashes are an
  arbitrary function; the chain lemmas ask that no two states of the one chain collide, and `OnlyTheChain`
  that no two states do.

Where the code does not do what it aims at, the model keeps the code. A lemma says exactly when it does,
and, where that does not show it, another gives an input on which it does not:

* `StoreLoadRoundTrip`: a stored ledger loads back if and only if no account id occurs twice.
* `CountOnTrust`: the number of accounts and the extra hash a peer reports are not checked against anything.
* `OverlookedExactly`, `FullFrameOverlooked`: a complete frame goes unnoticed when a chunk brings the bytes
  held to exactly the length of the buffer, or a doubling of it; one frame that fills an empty buffer does.
  The policy `OnceThenCut` is the repaired form.
* `ReopenExactly`, `ReopenedMidHandshake`, `LeftoverHidesHandshake`: a reopened stream goes on with the queue
  and the buffer of the last substream. The new substream begins with a whole message only if the front one
  was not begun, and with the handshake only if nothing was written; it is read as a fresh stream only if
  the buffer was empty. One byte left over hides the handshake of the new substream.
* `PairingExactly`, `ImplicitOpenStrands`: sending to an outgoing stream that is not there enters it twice
  in the queue of waiting streams, after which substreams go to the wrong stream.
* `OrderExactly`, `StrandsInRun`, `SecondOvertakesFirst`: a dispatch to a known peer overtakes the commands still
  pending for it, which wait for the report of a new connection. A peer gets into that state when one of its
  two connections closes and something comes over the other.
* `OpenedSurvivesExactly`, `OpenedTooSoon`: a stream opened while one of the same number is listed for
  removal is removed in its place and never requested.
* `CallsMatch`, `AnsweredUnsent`: a response numbered one below the client's own number, coming before the
  first query is sent, is taken for its answer.
* `AgainAfterRecordings`, `HeadAtRoot`: a record whose head is its root cannot be walked again.
* `FirstAnswerDecides`: an empty answer leaves a block file that cannot be read, and every later recording over
  that block panics, whatever the peer answers then.

`SpinsExactly` is not among these: an empty message in the queue would make sending loop, but no framed
message is empty, and `PollsReturn` shows that then every poll returns.

## Model

| member | source | states |
|---|---|---|
| `Addresses.AddressRoundTrip` | bootstrap-sandbox/src/snarked_ledger.rs:121-158 | for every node down to depth 32 the server reads the index the client meant, and the bytes cut off the word are zero |
| `Addresses.ShiftLosesNothing` | bootstrap-sandbox/src/snarked_ledger.rs:154-156 | the 32-bit shift loses nothing; its amount is the full width only at the root, where the index is 0 |
| `Merkle.HashDecides` | bootstrap-sandbox/src/snarked_ledger.rs:115-119 | equal subtree hashes mean equal leaves, and conversely |
| `SyncProtocol.BatchOfDense` | bootstrap-sandbox/src/snarked_ledger.rs:217-244 | a served batch of a dense ledger holds exactly the accounts of its range, in index order |
| `SyncProtocol.ServesExactly` | bootstrap-sandbox/src/snarked_ledger.rs:188-247 | for any ledger and address: the two hashes served are those the hash of the node is made of, a batch holds the accounts below the node up to the count or the first gap, and serving panics exactly outside the tree, below its leaves, or without a hash to report |
| `HonestSync.HonestWalk` | bootstrap-sandbox/src/snarked_ledger.rs:107-186 | a visit against a truthful peer returns if and only if the client has no leaf below the node that the peer lacks; it then copies exactly those leaves, touches no other, and asks and writes exactly the plan made from the starting leaves |
| `HonestSync.BatchCopiesBlock` | bootstrap-sandbox/src/snarked_ledger.rs:140-150 | writing a served batch at the wrapped 32-bit index copies the block, wherever it lies |
| `HonestSync.FetchedBlockFits` | bootstrap-sandbox/src/snarked_ledger.rs:121-149 | for every block fetched without stale leaves, `pos * 8` fits in 32 bits and lies below the server's count |
| `SyncCost.AskedExactlyOnce` | bootstrap-sandbox/src/snarked_ledger.rs:115-176 | below any visited node, each node is asked about once if its subtree differed at the start and never otherwise |
| `SyncCost.OnlyNodesAsked` | bootstrap-sandbox/src/snarked_ledger.rs:121-163 | nothing is asked about but nodes of the tree |
| `SyncCost.CostBound` | bootstrap-sandbox/src/snarked_ledger.rs:115-176 | the queries for a node are at most its distance to the blocks plus one, times its differing blocks |
| `SyncWrites.SafePlan` | bootstrap-sandbox/src/snarked_ledger.rs:85-149 | at each write all leaves to the left already equal the server's, the index is at most the client's count, and the count stays within the server's; together the writes copy the node's leaves |
| `SyncWrites.SafeWritesStayDense` | bootstrap-sandbox/src/snarked_ledger.rs:141-149 | safe writes leave a dense prefix, no shorter than before and within the server's count |
| `Sync.SyncDecides` | bootstrap-sandbox/src/snarked_ledger.rs:70-94 | with a peer truthful about nodes, a client with no more leaves than the peer claims to have keeps its own and the synchronisation succeeds if and only if the server has them too; a client with more drops them and it succeeds; what is asked and written is the plan made from the leaves kept |
| `Sync.SyncConverges` | bootstrap-sandbox/src/snarked_ledger.rs:70-186 | every dense client ends with the server's ledger, leaves, count and extra hash; if it has no more accounts than the server, all it asks after the count and all it writes is the plan made from its own leaves, else that made from none; at most 33 queries for each block that differs plus one, and safe writes |
| `Sync.UpToDate` | bootstrap-sandbox/src/snarked_ledger.rs:85-117 | a client whose leaves are the server's asks for the count and nothing else, and writes nothing |
| `Sync.SyncAsksOnce` | bootstrap-sandbox/src/snarked_ledger.rs:70-176 | a dense client asks for the count once, about each node at which its own leaves differ once and about no other; a client with more accounts than the server asks as if it had none |
| `Sync.WithoutReset` | bootstrap-sandbox/src/snarked_ledger.rs:85-90 | without the reset, the walk of a dense client returns if and only if it has no more accounts than the server |
| `Sync.SyncSound` | bootstrap-sandbox/src/snarked_ledger.rs:70-94 | whatever the peer does, a synchronisation that does not panic ends with the leaves whose root was asked for |
| `SyncWalk.ReturnsAsClaimed` | bootstrap-sandbox/src/snarked_ledger.rs:178-185 | whatever the peer does, a visit that returns leaves the node with the hash claimed for it |
| `Sync.CountOnTrust` | bootstrap-sandbox/src/snarked_ledger.rs:78-87 | a false count or extra hash is accepted, the count in its low 32 bits; the client ends with the server's ledger if and only if both were true |
| `LedgerFiles.LoadedIsDistinct` | bootstrap-sandbox/src/snarked_ledger.rs:55-59 | a loaded ledger is dense and holds no account id twice, whatever the file |
| `LedgerFiles.LoadKeepsFirsts` | bootstrap-sandbox/src/snarked_ledger.rs:47-68 | a loaded ledger holds, in the order of the file, the first account of every id; its count is that of all accounts in the file |
| `LedgerFiles.StoreLoadRoundTrip` | bootstrap-sandbox/src/snarked_ledger.rs:35-68 | storing and loading restores a ledger if and only if no account id occurs twice |
| `LedgerFiles.RecordReplay` | bootstrap-sandbox/src/replay.rs:35-41 | a ledger with distinct ids, stored, loaded and served, brings every dense client to that ledger, by the plan made from the client's own leaves unless it has more accounts |
| `SnarkedLedgers.SnarkedLedger.SyncNew` | bootstrap-sandbox/src/snarked_ledger.rs:70-94 | the method succeeds or panics as `Sync.SyncNew` says and leaves the ledger, the conversation and the writes it says |
| `SnarkedLedgers.SnarkedLedger.SyncAtDepth` | bootstrap-sandbox/src/snarked_ledger.rs:107-186 | the recursive visit, in place, is `Walk`; the count and extra hash are untouched |
| `SnarkedLedgers.SnarkedLedger.WriteBatch` | bootstrap-sandbox/src/snarked_ledger.rs:141-149 | the loop puts all accounts of an answer at consecutive indices from the wrapped base on |
| `SnarkedLedgers.SnarkedLedger.ServeQuery` | bootstrap-sandbox/src/snarked_ledger.rs:188-247 | the answer, or the panic, is that of `Serve` for the ledger's value |
| `SnarkedLedgers.SnarkedLedger.CollectBatch` | bootstrap-sandbox/src/snarked_ledger.rs:223-244 | the loop collects the accounts up to the end of the batch, the count or the first gap |
| `SnarkedLedgers.SnarkedLedger.LoadBin` | bootstrap-sandbox/src/snarked_ledger.rs:47-68 | the loop builds the ledger `Load` describes |
| `Frames.ItemsGrow` | libp2p-rpc-behaviour/src/state.rs:105-128 | more bytes on a stream only add events and replies at the end |
| `Frames.FrameRoundTrip` | libp2p-rpc-behaviour/src/state.rs:55-58 | a frame in front of other bytes is read back as it was, leaving those bytes |
| `Frames.HeadIsFrame` | libp2p-rpc-behaviour/src/state.rs:105-114 | what is cut off as a frame is a frame at the head of the data, and every such frame is cut off if its length with the header fits 64 bits |
| `Buffers.Buffer.PollFill` | libp2p-rpc-behaviour/src/state.rs:89-103 | the loop over reads, with growth in place, is `Fill` |
| `Buffers.Buffer.TryCut` | libp2p-rpc-behaviour/src/state.rs:105-128 | cutting in place is `CutBuffer`, including the half-updated buffer after an unreadable header |
| `Buffers.FillConserves` | libp2p-rpc-behaviour/src/state.rs:89-103 | a fill appends exactly the bytes it takes off the stream and leaves room |
| `Buffers.CutKeepsSound` | libp2p-rpc-behaviour/src/state.rs:112-123 | after a cut the length is a power of two, more than is held, and no larger than before |
| `Buffers.CutShrinks` | libp2p-rpc-behaviour/src/state.rs:120-123 | after a cut the length is the least power of two that is not below the initial one and holds what is left |
| `Buffers.BadHeaderIsMetAgain` | libp2p-rpc-behaviour/src/state.rs:112-119 | after an unreadable header the same frame is at the head of the buffer again, if that many bytes are left |
| `Receive.RecvRefines` | libp2p-rpc-behaviour/src/state.rs:171-242 | the items a call meets, followed by those still buffered, are the items of all bytes received, and exactly the frames of the met items were consumed |
| `Receive.RecvEndsBecause` | libp2p-rpc-behaviour/src/state.rs:237-241 | a call ends as pending, failed or at the end of the stream exactly at the first read that finds this, and otherwise only bytes were read |
| `Chunks.CallsRefine` | libp2p-rpc-behaviour/src/state.rs:171-242 | the same for any number of calls one after the other |
| `Chunks.ItemsArePrefix` | libp2p-rpc-behaviour/src/state.rs:89-242 | whatever the division into reads, pauses and calls, the events and replies so far are the first ones the whole stream causes |
| `Chunks.AllItemsMet` | libp2p-rpc-behaviour/src/state.rs:89-242 | calls that end quietly, without a read that filled the buffer exactly, have met all items of the bytes read, so the result does not depend on the division |
| `Chunks.NothingLeftBehind` | libp2p-rpc-behaviour/src/state.rs:93-102 | no complete frame is in the buffer when nothing more is to be had, unless the last fill had a read that filled the buffer exactly; with a cut after every read there is no exception |
| `Chunks.OverlookedExactly` | libp2p-rpc-behaviour/src/state.rs:93-102 | when data comes in any number of chunks and only the last completes the first frame, nothing else following, the frame goes unnoticed if and only if the last chunk brings the bytes held to the length of the buffer or a doubling of it |
| `Chunks.FullFrameOverlooked` | libp2p-rpc-behaviour/src/state.rs:93-102 | a first frame exactly as long as the empty buffer, read in one piece, is not met, and lies whole in the buffer |
| `Chunks.RecvKeepsSound` | libp2p-rpc-behaviour/src/state.rs:77-128 | after any call the length is a power of two, at least the initial size, more than is held, and at most twice the most bytes ever held |
| `Chunks.CallsKeepSound` | libp2p-rpc-behaviour/src/state.rs:77-128 | the same over any number of calls, with the most held in any of them |
| `Chunks.HeldBound` | libp2p-rpc-behaviour/src/state.rs:89-103 | the most held in a call is between what was there before it and that with what came in during it |
| `Send.SendConserves` | libp2p-rpc-behaviour/src/state.rs:244-259 | what was to be written is what was written followed by what is still to be written; unfinished messages never hang the loop, and writes that progress are bounded by the bytes written |
| `Send.TakesAllAccepted` | libp2p-rpc-behaviour/src/state.rs:248-256 | a write takes all bytes that the stream accepts of the front message |
| `Send.SpinsExactly` | libp2p-rpc-behaviour/src/state.rs:248-256 | on a stream that keeps accepting, sending returns if and only if every message still had bytes to write |
| `Inners.Inner.PollSend` | libp2p-rpc-behaviour/src/state.rs:244-259 | the loop over the queue, with its write offsets, is `SendAll` |
| `Inners.Inner.PollRecv` | libp2p-rpc-behaviour/src/state.rs:171-242 | the loop and its tail call are `Recv`, and the replies are queued in order |
| `Inners.Inner.Poll` | libp2p-rpc-behaviour/src/state.rs:138-169 | the poll loop is `PollInner`, hence runs at most two rounds |
| `Inners.PollAnswers` | libp2p-rpc-behaviour/src/state.rs:138-169 | a poll answers with an event, or a fault, if and only if that is the last item it met; all items before were answered at once; so what it hands on is what the items have for the caller |
| `Inners.PollEndsBecause` | libp2p-rpc-behaviour/src/state.rs:138-169 | a poll that ends otherwise has met the end of the stream or an error of that kind, or could neither read nor write more; nothing went wrong before |
| `Inners.Inner.constructor` | libp2p-rpc-behaviour/src/state.rs:44-69 | a stream starts with the handshake and, on request, the menu query, and an empty buffer |
| `Endpoints.PollConserves` | libp2p-rpc-behaviour/src/state.rs:138-169 | a poll returns, conserves bytes on both of its sides, and is pending only when receiving has pended and the queue is empty or sending has pended |
| `Endpoints.ActKeepsInv` | libp2p-rpc-behaviour/src/state.rs:131-259 | each step of either end keeps, in both directions, that the frames queued are the bytes read, in flight and unsent |
| `Delivery.RunKeepsInv` | libp2p-rpc-behaviour/src/state.rs:131-259 | over any run of two joined ends no byte is lost, repeated or reordered |
| `Delivery.Delivered` | libp2p-rpc-behaviour/src/state.rs:105-259 | the items an end has met are those of the first frames the other end queued, one for one, and the frames after them are what is buffered, in flight and unsent |
| `Delivery.ParseConcat` | libp2p-rpc-behaviour/src/state.rs:105-128 | frames put end to end are taken apart into the same frames |
| `AutoReplies.HeartbeatsKept` | libp2p-rpc-behaviour/src/state.rs:184-187 | each step answers every heartbeat it meets with one, so the number under way never changes |
| `AutoReplies.HeartbeatsInRun` | libp2p-rpc-behaviour/src/state.rs:180-235 | the same over any run |
| `AutoReplies.NoHeartbeatEver` | libp2p-rpc-behaviour/src/state.rs:180-235 | between two ends that start a stream no heartbeat is ever queued or under way |
| `AutoReplies.FramesReachTheCaller` | libp2p-rpc-behaviour/src/state.rs:180-235 | in any reachable state what the polls of an end have answered with is, in order, what the frames it met have for the caller: handshakes, menus as they are read, other responses, and queries but for those for the menu, with headers and bytes; each other frame was answered once |
| `AutoReplies.MenusAnswered` | libp2p-rpc-behaviour/src/state.rs:208-230 | each menu query met was answered with one response carrying its id, in the order of the queries, and nothing else was queued automatically |
| `Streams.Stream.PollStream` | libp2p-rpc-behaviour/src/stream.rs:54-92 | polling in place is `PollOnce` |
| `Substreams.RunKeepsTracks` | libp2p-rpc-behaviour/src/state.rs:131-259 | over any run of one end, against any peer and with polls ending in any way: the frames queued are what was written on all substreams and what is unsent, only the front message can be begun, the buffer stays bounded, and the items met on the current substream are those of what the buffer held at its start and what was read on it |
| `Substreams.SubstreamsCarryTheQueue` | libp2p-rpc-behaviour/src/state.rs:44-69 | from the start, all that was written on the substreams is a prefix of the handshake frame followed by whole frames in queue order; so the first substream carries such a prefix, whatever its last poll met |
| `Substreams.NextSubstream` | libp2p-rpc-behaviour/src/stream.rs:71-78 | a substream that begins carries a prefix of what was unsent, followed by the frames queued since |
| `Reopenings.SendsAfresh` | libp2p-rpc-behaviour/src/state.rs:244-259 | what is unsent is whole messages if and only if the front one is not begun; it is all that was queued if and only if nothing was written; the handshake is among it if and only if fewer bytes than its own were |
| `Reopenings.ReadsAfresh` | libp2p-rpc-behaviour/src/state.rs:105-128 | bytes put behind kept ones cause, whatever they are, what they cause alone, if and only if nothing was kept |
| `Reopenings.ReopenExactly` | libp2p-rpc-behaviour/src/stream.rs:71-78 | both of these for every run of an outgoing stream and every poll of it that requests the stream anew |
| `Reopenings.ReopenedMidHandshake` | libp2p-rpc-behaviour/src/stream.rs:71-78 | a substream that ends after `k` bytes of the handshake is followed by one that begins at byte `k` |
| `Reopenings.LeftoverHidesHandshake` | libp2p-rpc-behaviour/src/stream.rs:71-78 | a substream that ends after one byte was read leaves it in the buffer, and the handshake of the next substream behind it causes nothing |
| `Handlers.Happen` | libp2p-rpc-behaviour/src/handler.rs:99-121 | every event, polls in any order included, keeps every stream with room to read into and every stream whose error was handed on listed for removal |
| `Handlers.NoDeadVisited` | libp2p-rpc-behaviour/src/handler.rs:99-121 | at the end of any run of events the streams that a poll would visit are alive, so no stream is polled after its error |
| `Handlers.PollsReturn` | libp2p-rpc-behaviour/src/handler.rs:88-126 | in any run from a new connection in which no empty message is sent, every poll of the handler returns |
| `Openings.FreshUntilRequested` | libp2p-rpc-behaviour/src/handler.rs:88-146 | in every run a stream that was opened, and is neither waiting nor listed for removal, stays so until it is requested |
| `Openings.VisitFresh` | libp2p-rpc-behaviour/src/handler.rs:107-122 | a poll that comes to such a stream requests it, and no poll that lists it is idle |
| `Openings.OpenedSurvivesExactly` | libp2p-rpc-behaviour/src/handler.rs:99-135 | an opened stream has been requested or can still be, at any time after the next poll, if and only if no stream of its number was listed for removal when it was opened |
| `Openings.OpenedTooSoon` | libp2p-rpc-behaviour/src/handler.rs:99-135 | a stream that fails and is opened again before the next poll is removed, and is not requested a second time |
| `Handlers.Handler.Poll` | libp2p-rpc-behaviour/src/handler.rs:88-126 | removing the failed streams and the loop over the others are `PollAll`, and no dead stream is polled |
| `Handlers.Handler.OnSend` | libp2p-rpc-behaviour/src/handler.rs:136-146 | queues on a stream that is there, opens a missing outgoing one implicitly, ignores a missing incoming one |
| `Handlers.Handler.AddStream` | libp2p-rpc-behaviour/src/handler.rs:53-67 | an inbound substream gets the next number, an outbound one goes to the front of the queue |
| `Pairing.PairingExactly` | libp2p-rpc-behaviour/src/handler.rs:53-165 | the queue keeps holding exactly the waiting streams, once each, in request order, if and only if the event is not opening a waiting stream, sending to a missing outgoing one, or a failed negotiation |
| `Pairing.Lands` | libp2p-rpc-behaviour/src/handler.rs:61-66 | every negotiated outbound substream goes to the stream that has waited longest, and touches no other |
| `Pairing.PairedInRun` | libp2p-rpc-behaviour/src/handler.rs:53-165 | over every run of such events the pairing holds and substreams land in request order |
| `Pairing.PairedFromStart` | libp2p-rpc-behaviour/src/handler.rs:42-165 | the same from a new handler on |
| `Pairing.ImplicitOpenStrands` | libp2p-rpc-behaviour/src/handler.rs:139-145 | after an implicit open, another stream's substream is handed to the wrong stream and that stream waits for good |
| `HandlerStreams.StreamsAreEnds` | libp2p-rpc-behaviour/src/handler.rs:53-165 | over every run of a handler, until a poll panics, each stream is one end as in `Substreams`, set up with the handler's menu if inbound and asking for the peer's exactly if opened by command; inbound streams are numbered by arrival; and everyone put in line for a substream was handed one, in order, or is in line |
| `HandlerStreams.HandedOutIsMet` | libp2p-rpc-behaviour/src/handler.rs:107-122 | from a new handler on, what was handed out under a stream's id since the stream was put there is exactly what the items it met have for the caller |
| `HandlerStreams.VisitTells` | libp2p-rpc-behaviour/src/handler.rs:107-122 | a poll of a handler leaves each stream as it was and answers nothing under its id, or polls it once with its own substream and answers what that gives; with nothing to answer it has polled all |
| `HandlerStreams.OnlyAddressedChange` | libp2p-rpc-behaviour/src/handler.rs:53-165 | an event changes no stream but one it sends to, hands a substream to, polls or opens, and removes only streams listed for removal |
| `HandlerStreams.NextInbound` | libp2p-rpc-behaviour/src/handler.rs:53-60 | after any run the next inbound substream gets the number of those before, in 32 bits, a new one as long as these suffice; its stream begins negotiated, with the handler's menu, not asking for one, and no other stream is touched |
| `HandlerStreams.NewOutbound` | libp2p-rpc-behaviour/src/handler.rs:128-146 | a stream opened by command begins with the handshake and the query for the menu, one opened by sending with the handshake and the message |
| `Behaviours.ConservedInRun` | libp2p-rpc-behaviour/src/behaviour.rs:75-229 | in every run each dispatched command is in exactly one place: pending, queued or handed out |
| `Behaviours.OrderExactly` | libp2p-rpc-behaviour/src/behaviour.rs:75-86 | an event keeps the commands of all peers in dispatch order if and only if it is not a dispatch to a known peer with other commands pending |
| `Behaviours.SecondOvertakesFirst` | libp2p-rpc-behaviour/src/behaviour.rs:75-216 | with two connections to one peer, each reported at once, a command dispatched after one of them closed stays pending while one dispatched after something came over the other is handed out |
| `Behaviours.StrandsInRun` | libp2p-rpc-behaviour/src/behaviour.rs:75-229 | over a whole run no known peer ever has commands pending if and only if no such event happens, and dispatch order is then kept |
| `Behaviours.PendingUntilReported` | libp2p-rpc-behaviour/src/behaviour.rs:169-189 | what is pending for a peer stays pending over every run without a report of a connection to it |
| `Notices.ReportsInRun` | libp2p-rpc-behaviour/src/behaviour.rs:145-216 | over every run each report of the swarm and of a handler is queued and handed out once, in order, and no others |
| `Notices.CommandsGoOver` | libp2p-rpc-behaviour/src/behaviour.rs:75-229 | after any run, whatever an event queues for a handler goes over the connection last set up, reported or heard from for that peer and not closed since |
| `Behaviours.OrderInRun` | libp2p-rpc-behaviour/src/behaviour.rs:167-229 | in runs without such dispatches, the commands handed out for a peer are the first ones dispatched to it |
| `Behaviours.WellReportedIsOrderly` | libp2p-rpc-behaviour/src/behaviour.rs:145-216 | when connections are reported as soon as they are set up, no run has such a dispatch |
| `Behaviours.FromStart` | libp2p-rpc-behaviour/src/behaviour.rs:41-229 | from the start and with connections so reported, no command is lost or duplicated and each peer is handed its commands in dispatch order |
| `Behaviours.Behaviour.OnConnectionEstablished` | libp2p-rpc-behaviour/src/behaviour.rs:169-189 | the pending commands are queued after the report, in order, and no others change |
| `Behaviours.Behaviour.DispatchCommand` | libp2p-rpc-behaviour/src/behaviour.rs:75-86 | a command is queued for a known peer's connection, else put last among the peer's pending ones |
| `Clients.FollowNumbers` | bootstrap-sandbox/src/client.rs:38-124 | during a call its query is sent at most once, under the client's number, and an answer taken has that number, or the one before while the query is unsent |
| `ClientOrders.OrdersInCalls` | bootstrap-sandbox/src/client.rs:38-124 | over all calls of a client, told by the reports: a query goes out at the first chance, to the peer of the last connection reported and not ended since, on the stream of the first handshake ever; a stream is opened for each connection, and each best-tip query is answered, in order; nothing else is ordered |
| `Clients.CallsMatch` | bootstrap-sandbox/src/client.rs:38-124 | over completed calls, when no id is answered twice, every call `k` sends its query once, as number `k` from the client's first on, and returns the response with that number, if and only if no response numbered one below the client's comes before its first query is sent |
| `Clients.AnsweredUnsent` | bootstrap-sandbox/src/client.rs:107-118 | a new client takes a response numbered 0 for the answer to a query it has not sent, and a stream that asked for no menu hands such a response on |
| `Clients.ResponseIsHandedOn` | libp2p-rpc-behaviour/src/state.rs:188-207 | when no response came early, the response to a client's query reaches it as a response if and only if the query's number is not the handshake's, and is never taken for a menu |
| `Clients.Client.Rpc` | bootstrap-sandbox/src/client.rs:38-124 | the event loop of a call is `Follow` |
| `Chains.DownloadIsRight` | bootstrap-sandbox/src/record.rs:185-218 | any number of steps down an honest chain, from cache or network, yields the blocks below in order, and the record then holds them |
| `Chains.RecordsChain` | bootstrap-sandbox/src/record.rs:185-218 | from the head of an honest chain the recorder ends with exactly the blocks above the root, newest first, and a record that holds them |
| `Chains.HeightIsIndex` | bootstrap-sandbox/src/record.rs:185-196 | at each step of an honest recording the loop's index is the height under which the block is filed and noted in the table, and the block's own height |
| `Chains.AgainIsTheSame` | bootstrap-sandbox/src/bootstrap.rs:80-91 | the offline walk terminates and rebuilds the downloaded list |
| `Chains.HeadAtRoot` | bootstrap-sandbox/src/bootstrap.rs:80-91 | when head and root are one block nothing is downloaded, and whatever earlier recordings left, the walk passes the root, ends and panics |
| `Recordings.AgainAfterRecordings` | bootstrap-sandbox/src/bootstrap.rs:80-91 | after any recordings into an empty directory, with any heads, and even if they panicked, from a peer with consistent heights that knows the chain: the chain is recorded, the offline walk ends, and it returns, with the downloaded list, if and only if the head is above the root |
| `Recordings.RecordingsAgree` | bootstrap-sandbox/src/record.rs:159-222 | any number of recordings, panicking ones included, leave each block filed under its height and naming a hash one height below, and each file as the peer once answered |
| `Recordings.FirstAnswerDecides` | bootstrap-sandbox/src/record.rs:197-209 | whatever is recorded later and from whatever peer, fetching a block yields what the first answer for it held, and panics if that was empty |
| `Recordings.PanicAddsNothing` | bootstrap-sandbox/src/record.rs:171-221 | a recording that panics leaves what can be looked up offline as it was |
| `Recordings.RecordingAsks` | bootstrap-sandbox/src/record.rs:197-204 | an honest recording asks once, newest first, for each block that is not on disk, and for nothing else |
| `Chains.ReplayedChain` | bootstrap-sandbox/src/replay.rs:145-179 | a recorder fed from a replayed record ends with the same blocks |
| `Chains.ReplayExactly` | bootstrap-sandbox/src/replay.rs:145-179 | the answer to any hashes is their blocks, in order, if the record has all of them, and a panic otherwise |
| `Applying.LedgersExactly` | bootstrap-sandbox/src/bootstrap.rs:143-201 | the ledger that comes out is the one the blocks lead to, each applied to the ledger and the state left by the one before; blocks are refused, or turned down, exactly when the ledger so reached refuses one that follows, or one does not follow |
| `Applying.AppliesExactly` | bootstrap-sandbox/src/bootstrap.rs:93-97 | blocks from anywhere that the ledger does not refuse are applied if and only if they go back to the state, each naming the hash of the one before |
| `Applying.OnlyTheChain` | bootstrap-sandbox/src/record.rs:137-155 | whatever a peer answers and a cache holds: if the downloaded blocks get applied on the root of a chain with this head, their states are those of the chain |
| `Applying.RecordedIsApplied` | bootstrap-sandbox/src/record.rs:137-155 | an honest recording is downloaded whole and no block of it is turned down as not following |
| `Applying.RecordedClimbs` | bootstrap-sandbox/src/record.rs:137-155 | an honest recording takes the ledger of the root to that of the head, block by block up the chain, or is refused if the ledger does not take them all |
| `Chains.Disk.DownloadBlocks` | bootstrap-sandbox/src/record.rs:159-222 | the loop, with cache and table, is `Download` |
| `Chains.Disk.Again` | bootstrap-sandbox/src/bootstrap.rs:80-91 | the loop is `WalkBack` |

## Left out

- The account tree library: its leaves are a map from index to account, an absent index is an empty leaf, writing at an index overwrites or adds, creating an account appends unless its id is there. Its limits on size are not modelled.
- Account contents and real hashing, staged ledgers, proofs and the verifier: `ApplyAll` takes the ledger's step as a parameter and keeps the check around it.
- `ServeQuery`: address bytes beyond the first `depth` bits are ignored and missing ones read as zero; the library's own limit on their number is not modelled.
- `SyncNew`: logging and the refusal message are left out; a refused batch goes on to the final check, as in the source.
- `StoreBin`: files are values, the top hash and the list of accounts; their encoding is the library's.
- `Poll`: wakers are left out, so nothing is said of when a task is polled again. `Handler.Poll` takes the order of its streams as a parameter, of which the ascending order of the source is one; streams inside a handler are values, `Stream` and `Inner` are the same states as objects.
- `SendConserves`: scripts are finite, so a stream that accepts zero bytes for ever is not modelled.
- `PollOnce`: the mark of a dead stream is the model's own; the source records failed streams only in the list.
- `StreamsAreEnds`: it speaks of runs up to the first panic, which ends the process; a substream handed to a stream that has one already goes on as the same end.
- `HeartbeatsKept`: runs of two joined ends stop at the first end of stream, failure or fault; what one end does beyond that is in `RunKeepsTracks`.
- `WellReportedIsOrderly`: that the swarm reports a connection before anything else happens, and that a peer has one connection, are assumptions about the library; `StrandsInRun` is the statement without them.
- `OrdersInCalls`: errors of encoding a query or reading a response, which end a call early, are left out.
- `CallsMatch`: timeouts and reconnection with resending are not in the source either; what a call does when the node stops reporting is left out.
- `ResponseIsHandedOn`: ids are signed 64-bit numbers in the source, so it covers fewer than 2^63 calls; the client's counter is not wrapped.
- `Again`: it is given a bound on the walk, which exists exactly when the source's loop ends.
- The proof files next to recorded blocks, the best tip and ancestry files, and the other queries a replay answers: they are read and written whole.
- `transport/`, `gossipsub-sandbox/`, `hash-tool/`, `check.rs`, `archive_block.rs`, `main.rs`: configuration, printing and command lines.

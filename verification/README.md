# A verified model of the Saito node's protocols

This project models the parts of the Saito node that keep state across events: the codec worker and
its CRC-32, the routing thread (ghost chains, header paging, dispatch to the verification threads), the
concurrent block fetches, the pipeline from the router over the verification threads to consensus, the
consensus thread's pending transactions and golden tickets, the miner, the confirmation callbacks, the
reconciliation of modules with the saved options, the keychain, the sliding-window statistics and the
issuance converter. Dafny proves the properties below for all inputs and all runs.

Code that changes fields or runs loops is written as classes and methods; each method's contract ties
the new state to a specification function of the old one, and the lemmas are about those functions.
Concurrent code is a state machine whose steps are the stretches of code between two awaits, taken in
any order. The hash function, the key digest, block decoding, the difficulty test and lower-casing are
function parameters. Clocks, randomness, configuration and the answers of the chain and the mempool are
inputs of the step that asks for them. What a component sends or hands on is recorded as a list.

| file | contents |
|---|---|
| `Gf2.dfy`, `Crc32.dfy`, `Crc32Proofs.dfy` | polynomials over GF(2) as bit sequences, the table-driven CRC-32, and the proof that it is polynomial division |
| `CodecWorker.dfy`, `CodecAnswers.dfy` | the codec worker's task table, and what it answers told from the messages alone |
| `GhostChain.dfy`, `GhostChainProofs.dfy` | generating and replaying ghost chains, and when the round trip recovers every hash |
| `HeaderPaging.dfy`, `Dispatch.dfy` | header sending page by page, round-robin dispatch |
| `BlockFetch.dfy`, `FetchPipeline.dfy` | concurrent block fetches, alone and feeding the verification pipeline |
| `Pipeline.dfy`, `PipelineInvariants.dfy`, `PipelineProofs.dfy`, `PipelineOutcomes.dfy`, `PipelineGates.dfy` | the path of a request to consensus, what every step keeps, conservation and order, who is marked and what is handed over, what the gates hold back |
| `PipelineProgress.dfy`, `PipelineRuns.dfy`, `PipelineStop.dfy`, `PipelineJam.dfy`, `PipelineBlock.dfy`, `PipelineFinish.dfy` | what keeps that path from coming to a stop, the three ways it can, and that there is no other |
| `Consensus.dfy`, `ConsensusProofs.dfy`, `ConsensusOutcomes.dfy`, `Mining.dfy`, `MiningProofs.dfy` | pending transactions, golden tickets and blocks produced, the miner |
| `Callbacks.dfy` | confirmation callbacks |
| `ModManager.dfy`, `ModManagerProofs.dfy`, `ModManagerRepeats.dfy` | module reconciliation, and when a second run changes nothing |
| `Keychain.dfy`, `KeychainProofs.dfy` | the keychain, what start-up removes, and when the wallet is right |
| `Stats.dfy`, `Issuance.dfy` | statistics and issuance conversion |
| `Options.dfy` | the option type |

## Where the code differs from what one might expect

The model follows the code in each of these, and says exactly when the expected property holds.

- A page of headers holds up to 101 ids, although the comment beside it says 100
  (`rust/saito-core/src/core/routing_thread.rs:1055`).
- Ghost-chain generation repairs a missing start but not a block missing further up. Replay recovers
  every hash if and only if nothing is missing in between, provided hashes do not collide
  (`GhostChainProofs.RecoversExactlyGapFree`; `GapNotRecovered` is a chain with a gap).
- The block a lite client reorganizes to is called the lowest in the code; it is the last one of the
  leading entries without wanted transactions, and an id of 0 suppresses it.
- A peer that is not known is disconnected, and its headers are queued all the same
  (`rust/saito-core/src/core/routing_thread.rs:664-674`).
- A second reconciliation from the same modules changes nothing unless an active entry of a module
  comes after the last stopped entry of that module, which takes a name twice in the options
  (`ModManagerRepeats.IdempotentExactly`; `DuplicateNamesBreakIt` is such a list); one from the modules left over drops every stopped entry.
- The keychain removes scheduled calls from the list it is walking, so it misses the second of two
  neighbours. It removes them all if and only if no two are neighbours.
- The issuance converter loads full pages only: all blocks if and only if their number is a multiple
  of 100.
- The project's key can have two lines in an issuance file: its own and the aggregate.
- The wallet is left with an old list of watched keys exactly when two saves in a row with different
  watched keys have the same digest (`KeychainProofs.WalletRightExactly`).
- A verification thread sends to consensus while it holds the blockchain and peers locks
  (`rust/saito-core/src/core/verification_thread.rs:50-79`), and its gate is checked before it waits for a
  request (`rust/saito-rust/src/run_thread.rs:71-86`). The margin of 16 covers 16 verification threads and
  the miner; with more threads the node can come to a stop for good although consensus's gate is open
  (`PipelineStop.MarginExactly`).
- Gates can close each other. Consensus takes no event while the miner's channel or the router's is within
  the margin of being full (`rust/saito-core/src/core/consensus_thread.rs:801-804`), and the miner takes
  none while the channel to consensus is (`rust/saito-core/src/core/mining_thread.rs:173-175`). With both
  so full nothing is taken any more; a run leads there with any number of threads (`PipelineJam.JamRun`).
- Consensus tells the router of blocks while it holds the blockchain lock
  (`rust/saito-core/src/core/consensus/blockchain.rs:2482-2519`), and the router takes nothing while a
  verification queue is within the margin of being full
  (`rust/saito-core/src/core/routing_thread.rs:1538-1545`). If the thread of that queue waits for the lock,
  that is the end of it; a run leads there, too, with any number of threads (`PipelineBlock.BlockRun`).
- There is no fourth way: `PipelineFinish.FinishesExactly` says from which reachable states all work can
  still be finished, by a condition on channels, queues and what each thread has in hand.
- A confirmation whose callbacks are deleted while it waits makes no calls
  (`Callbacks.CallsUnlessForgotten`).

## Model

| member | source | states |
|---|---|---|
| Crc32.BuildTable | node/web/saito/lib/zip/z-worker.js:132-144 | the nested loops fill entry i with eight reflected division steps of i |
| Crc32.Update | node/web/saito/lib/zip/z-worker.js:126 | a turn of the byte loop against a table is the byte update by eight single-bit steps |
| Crc32.Digest.Append | node/web/saito/lib/zip/z-worker.js:123-128 | the register after a chunk is the fold of all its bytes over the register before |
| Crc32.Digest.Get | node/web/saito/lib/zip/z-worker.js:129-131 | after the bytes of some data from the initial register, the value read is the checksum of that data |
| Crc32.FeedAppend | node/web/saito/lib/zip/z-worker.js:123-128 | feeding two chunks is feeding their concatenation |
| Gf2.SerialIsRemainder | node/web/saito/lib/zip/z-worker.js:123-144 | shifting a message bit by bit through the register leaves the remainder of polynomial long division |
| Gf2.SerialLinear | node/web/saito/lib/zip/z-worker.js:123-144 | feeding the sum of two messages to the sum of two registers leaves the sum of the results |
| Gf2.SameRegisterIff | node/web/saito/lib/zip/z-worker.js:123-144 | two equally long messages leave the same register if and only if the generator divides their difference |
| Gf2.StepInjective | node/web/saito/lib/zip/z-worker.js:136-140 | a single-bit step loses nothing: equal results come from equal registers |
| Gf2.SerialByte | node/web/saito/lib/zip/z-worker.js:123-144 | eight bits at once through the byte update equal eight bits one by one |
| Gf2.BurstDetected | node/web/saito/lib/zip/z-worker.js:123-144 | messages that differ only inside a window no longer than the register leave different registers |
| Crc32Proofs.FeedIsSerial | node/web/saito/lib/zip/z-worker.js:123-128 | the table-driven register, read as bits, is the bit-serial register fed the message's bits |
| Crc32Proofs.ChecksumIsDivision | node/web/saito/lib/zip/z-worker.js:120-144 | for every byte sequence the CRC is the complemented remainder of dividing the message, its first 32 bits complemented and 32 zeros appended, by the generator, as section 8 of RFC 1952 asks |
| Crc32Proofs.BurstOfFourBytes | node/web/saito/lib/zip/z-worker.js:120-144 | equally long messages that differ, and only inside four consecutive bytes, have different CRCs |
| Crc32Proofs.CollideExactly | node/web/saito/lib/zip/z-worker.js:120-144 | equally long messages have the same CRC if and only if the generator divides their difference, wherever in the messages it lies |
| Crc32Proofs.FiveBytesCanCollide | node/web/saito/lib/zip/z-worker.js:120-144 | four bytes is the limit: between any prefix and suffix every window of five bytes has another one with the same CRC |
| CodecWorker.NonInterference | node/web/saito/lib/zip/z-worker.js:39-104 | what a serial number's task holds and is answered depends only on the messages for that number |
| CodecWorker.StreamChecksum | node/web/saito/lib/zip/z-worker.js:56-104 | appends and a flush to an open task end with the CRC of everything summed, from the register it had |
| CodecWorker.SessionChecksum | node/web/saito/lib/zip/z-worker.js:39-104 | in any interleaving the flush reply carries the CRC of the concatenation of that task's chunks, input or output as asked, and the task is gone |
| CodecWorker.NoOpSumsAlike | node/web/saito/lib/zip/z-worker.js:146-152 | through the no-op codec summing output and summing input agree if and only if flushes bring no bytes |
| CodecAnswers.AnsweredExactly | node/web/saito/lib/zip/z-worker.js:8-113 | in any interleaving every message for a number is answered as told from that number's messages: an append by the codec's output without a CRC, a flush with the CRC of the inputs or outputs since the opening, a throwing codec by one error with the task gone; and a task is left exactly if they leave one open |
| CodecAnswers.OutputsInOrder | node/web/saito/lib/zip/z-worker.js:66-104 | the outputs that data replies to a number carry are exactly those its codec returned, in order, none lost or doubled |
| CodecWorker.Worker.AddTask | node/web/saito/lib/zip/z-worker.js:39-51 | a new number and a constructible codec give a task with a fresh register and a reply; otherwise nothing changes and it throws |
| CodecWorker.Worker.ProcessData | node/web/saito/lib/zip/z-worker.js:56-104 | append and flush change the table and answer as the abstract handler says, opening the task on a first append |
| CodecWorker.Worker.OnMessage | node/web/saito/lib/zip/z-worker.js:39-113 | every message changes the table of digest objects and the replies exactly as the abstract handler does; a throw becomes an error reply |
| GhostChain.Generate | rust/saito-core/src/core/routing_thread.rs:466-570 | the six lists describe, in order, exactly the stored longest-chain blocks above the shared ancestor, and the start is the ancestor's hash or the first block's parent |
| GhostChainProofs.GeneratedSends | rust/saito-core/src/core/routing_thread.rs:476-501 | a peer starting from the beginning of a chain of more than ten ids is sent exactly the blocks present among the last ten, one with a known fork exactly those above it, any other exactly those above the larger of its id and the first one kept; each once, in order of id |
| GhostChain.HashesAt | rust/saito-core/src/core/routing_thread.rs:929-934 | each recomputed hash is the hash of the one before it followed by its pre-hash |
| GhostChain.LiteClient.ReplayEntry | rust/saito-core/src/core/routing_thread.rs:935-969 | an entry goes either to the fetch queue or to the ghost blocks with its own fields; a list too short is a failure |
| GhostChain.LiteClient.ProcessGhostChain | rust/saito-core/src/core/routing_thread.rs:921-1018 | replay fetches the wanted entries, adds the rest as ghost blocks, reorganizes to the end of the quiet prefix and completes loading; it fails exactly if a list is too short |
| GhostChainProofs.PositionsSplit | rust/saito-core/src/core/routing_thread.rs:935-969 | wanted and unwanted positions are disjoint and together all positions |
| GhostChainProofs.ListedLists | rust/saito-core/src/core/routing_thread.rs:522-568 | the blocks sent are exactly those present above the ancestor, in increasing order of id |
| GhostChainProofs.GapFreeRecovers | rust/saito-core/src/core/routing_thread.rs:466-570 | replaying the message of a chain without gaps recomputes every block's hash in order |
| GhostChainProofs.RecoversExactlyGapFree | rust/saito-core/src/core/routing_thread.rs:522-568 | where each hash admits only its own parent, the replay recovers every hash if and only if no block is missing between two sent ones or right after a known ancestor |
| GhostChainProofs.GapNotRecovered | rust/saito-core/src/core/routing_thread.rs:522-568 | such a chain can have a gap: one with a block missing between two others, whose hashes the replay does not recover for anybody |
| GhostChainProofs.HonestReplay | rust/saito-core/src/core/routing_thread.rs:921-971 | replaying an honest message is readable to the end, fetches exactly the wanted blocks and adds exactly the others, with their own hashes |
| GhostChainProofs.HonestTarget | rust/saito-core/src/core/routing_thread.rs:942-947 | on an honest message the reorganization is to the last block of the longest prefix without wanted transactions, and there is none if that prefix is empty |
| HeaderPaging.HeaderSender.ProcessBlockchainRequest | rust/saito-core/src/core/routing_thread.rs:640-784 | a peer's first request queues one entry from the shared ancestor on, a peer too far behind is disconnected instead, an unknown one is disconnected as well, a repeated one ignored |
| HeaderPaging.HeaderSender.SendBlockHeaders | rust/saito-core/src/core/routing_thread.rs:1048-1073 | a tick sends the headers of one page per entry and keeps exactly the unfinished entries |
| HeaderPaging.RunKeepsOnePerPeer | rust/saito-core/src/core/routing_thread.rs:749-759 | over any run there is at most one entry per peer |
| HeaderPaging.TickOf | rust/saito-core/src/core/routing_thread.rs:1053-1072 | a tick visits exactly the peer's page and moves its entry past it or drops it |
| HeaderPaging.Progress | rust/saito-core/src/core/routing_thread.rs:1048-1073 | after k ticks exactly the first 101 k ids have been visited, once each and in order, whatever else was requested |
| HeaderPaging.WorkedOff | rust/saito-core/src/core/routing_thread.rs:1048-1073 | an entry is gone after exactly the number of its ids over 101, rounded up, ticks and by then every id was visited once, in order |
| HeaderPaging.EmptyEntry | rust/saito-core/src/core/routing_thread.rs:1071-1072 | an entry that starts past its end visits nothing and goes at the next tick |
| HeaderPaging.RequestServed | rust/saito-core/src/core/routing_thread.rs:640-784 | a request of a peer without an entry is served in full, once and in order, and its entry is gone after as many ticks as it takes, whatever else is requested |
| HeaderPaging.TickSends | rust/saito-core/src/core/routing_thread.rs:1053-1072 | a tick sends a peer, in order, a header with its own hash for exactly those of its next 101 ids that have a block on the longest chain |
| Dispatch.TurnOf | rust/saito-core/src/core/routing_thread.rs:896-899 | from any counter every queue comes up within as many turns as there are queues |
| Dispatch.SentToFirstWithRoom | rust/saito-core/src/core/routing_thread.rs:890-920 | a request joins exactly one queue, the first with room in cyclic order, within one round; nothing else changes and nothing overfills |
| Dispatch.Dispatcher.Send | rust/saito-core/src/core/routing_thread.rs:890-920 | the loop ends and leaves counter and queues as that specification says |
| Dispatch.BalancedRun | rust/saito-core/src/core/routing_thread.rs:890-920 | while no queue is full, the numbers of requests any two queues were given differ by at most one |
| BlockFetch.StepExclusive | rust/saito-rust/src/network_controller.rs:223-231 | every step keeps the set in flight equal to the URLs of the tasks between insert and remove, no two alike |
| BlockFetch.StepAccounted | rust/saito-rust/src/network_controller.rs:242-327 | every step keeps one event per task that has reported, with its own request, and none for others |
| BlockFetch.RunInv | rust/saito-rust/src/network_controller.rs:211-328 | exclusiveness, the lock's holder, the event count and the bound of the channel hold in every reachable state of any number of tasks |
| BlockFetch.AllDone | rust/saito-rust/src/network_controller.rs:211-328 | once all are done the set is empty, the lock free, each admitted fetch has sent exactly one event and each rejected one none |
| BlockFetch.EveryUrlFetched | rust/saito-rust/src/network_controller.rs:211-328 | once all are done, every URL asked for has a task that was admitted for it and has sent its event, a task being rejected only for another one of the same URL |
| BlockFetch.FetchesUnlessHeld | rust/saito-rust/src/network_controller.rs:223-231 | a task that gets the lock goes on to fetch if no task holds its URL, and is rejected otherwise |
| BlockFetch.LogIsReports | rust/saito-rust/src/network_controller.rs:242-327 | over any run the events sent are, in order, a failure for each failed fetch and the buffer for each block that came, with the task's own request |
| BlockFetch.AdmittedAfterReports | rust/saito-rust/src/network_controller.rs:223-256 | a URL is admitted again only after every earlier fetch of it has sent its event |
| BlockFetch.NoDeadlock | rust/saito-rust/src/network_controller.rs:242-256 | while some fetch is not done, some task can move or the core can take an event, although a failing task keeps the lock while it waits for room in the channel |
| BlockFetch.RunsEnd | rust/saito-rust/src/network_controller.rs:211-328 | without new fetches every run ends: each step uses up some of a bounded amount of work, at most four steps per task with the core's included |
| FetchPipeline.FetchesEndOnce | rust/saito-core/src/core/routing_thread.rs:1156-1193 | over any interleaving of fetches and pipeline, once nothing is under way the admitted fetches are as many as failures reported and blocks done with; those are the buffers fetched, each as often, and each was handed to consensus if and only if it is the block its fetch asked for, its peer being marked otherwise |
| Pipeline.VerificationThread.VerifyTx | rust/saito-core/src/core/verification_thread.rs:48-81 | a transaction is counted, and handed on or marked against its peer; counters and lists agree with the log |
| Pipeline.VerificationThread.CheckBlock | rust/saito-core/src/core/verification_thread.rs:140-200 | a buffer is handed on as a block from its peer exactly if it decodes to the id and hash fetched, else marked |
| Pipeline.VerificationThread.ProcessEvent | rust/saito-core/src/core/verification_thread.rs:213-231 | each request adds one record with its verdict |
| PipelineOutcomes.MarksExactly | rust/saito-core/src/core/verification_thread.rs:57-72 | over any run the marks made are exactly one against the peer of each routed transaction decided against and of each buffer that is not the block asked for, in order |
| PipelineOutcomes.HandedAsAccepted | rust/saito-core/src/core/verification_thread.rs:74-79 | over any run a transaction has been handed to consensus, or is about to be, exactly as often as it was decided for |
| PipelineProofs.Conserved | rust/saito-core/src/core/routing_thread.rs:1156-1170 | over any interleaving of router, verification threads, miner and consensus no request is lost or doubled |
| PipelineProofs.ConsumedExactlyOnce | rust/saito-core/src/core/verification_thread.rs:140-200 | once nothing is under way each request that arrived has had exactly one outcome |
| PipelineInvariants.RunInv | rust/saito-core/src/core/verification_thread.rs:48-200 | in every reachable state consensus has taken, or has waiting, exactly what was handed over, in order; a transaction was handed over, or marked against its own peer, or dropped if it has none; a block was handed over if and only if it has the id and hash of its fetch; no channel or queue is overfilled, and blockchain and peers lock are never held by two who exclude each other |
| PipelineProgress.SendsNeverWait | rust/saito-core/src/core/verification_thread.rs:242-244 | with at most 16 verification threads, and the miner, whoever is about to send to consensus has room, in every reachable state |
| PipelineProgress.NeverStuck | rust/saito-core/src/core/verification_thread.rs:48-81 | with any number of threads, unless consensus waits for a lock whose holder waits for room in the full channel, and as long as consensus's gate is open, until all work is done somebody can do a step that brings the work forward and keeps that so, without overtaking a waiting writer |
| PipelineProgress.AlwaysCanDrain | rust/saito-core/src/core/verification_thread.rs:48-200 | with at most 16 verification threads, from every reachable state in which consensus's gate is open all work can be finished without new arrivals and without overtaking a waiting writer |
| PipelineStop.StuckForever | rust/saito-core/src/core/verification_thread.rs:50-79 | once a thread waits for room holding both locks, the channel is full and consensus waits for one of the two, to bundle, with a fetched block or with a peer's transaction, nothing is ever sent, taken or finished again |
| PipelineStop.StuckRun | rust/saito-rust/src/run_thread.rs:71-86 | with 17 or more verification threads, for every size of the channels, there is a run from the start into that state with consensus's gate open: one transaction's block wakes the miner, further transactions fill the channel |
| PipelineStop.MarginExactly | rust/saito-core/src/core/defs.rs:27 | some run comes, with consensus's gate open, to where no continuation finishes the work, if and only if there are more verification threads than the margin has places |
| PipelineJam.JammedForever | rust/saito-core/src/core/consensus_thread.rs:801-804 | once the channel to consensus and the miner's or the router's are within the margin of being full, consensus takes no event any more but one it may already be waiting for, whatever happens |
| PipelineBlock.BlockedNeverDrains | rust/saito-core/src/core/routing_thread.rs:1538-1545 | once a verification queue closes the router's gate, the router is behind, and the thread of that queue waits for a lock that consensus gives up only when it has told the router more, or gets to its next request only after a send that closes the gates for good, no continuation finishes the work |
| PipelineFinish.FinishesExactly | rust/saito-core/src/core/mining_thread.rs:173-175 | with any number of verification threads, from a reachable state all work can be finished, without new arrivals and without overtaking a waiting writer, if and only if it is none of the three: stuck on a lock, jammed by gates, blocked by a queue; and no continuation at all finishes it if and only if it is one of them |
| PipelineFinish.FinishesWithinMargin | rust/saito-core/src/core/defs.rs:27 | with at most 16 verification threads the first of the three never arises, and the other two decide |
| PipelineJam.JamRun | rust/saito-core/src/core/consensus/blockchain.rs:2443-2489 | with any number of verification threads, and whatever good blocks are fetched, there is a run from the start after which those gates have closed each other and no continuation finishes the work |
| PipelineBlock.BlockRun | rust/saito-core/src/core/consensus/blockchain.rs:2492-2523 | with any number of verification threads, and whatever good blocks are fetched, there is a run from the start that ends blocked and not jammed, the channel to consensus empty: their parents are missing, each new one makes consensus ask the router for the parents of all, and in the end a queue that has filled behind a transaction keeps the router away |
| PipelineProofs.OrderKept | rust/saito-core/src/core/verification_thread.rs:213-231 | with one verification thread outcomes come in the order of arrival |
| PipelineGates.RouterWaitsForConsensus | rust/saito-core/src/core/routing_thread.rs:1538-1545 | until consensus takes an event, the router dispatches nothing and takes no news while the channel to consensus has 16 places or fewer left |
| PipelineGates.RouterWaitsForMiner | rust/saito-core/src/core/routing_thread.rs:1538-1545 | until the miner takes news, the same while the channel to the miner has |
| PipelineGates.RouterWaitsForQueue | rust/saito-core/src/core/routing_thread.rs:1538-1545 | until its thread takes a request, the same while some verification queue has |
| PipelineGates.ConsensusWaitsForMiner | rust/saito-core/src/core/consensus_thread.rs:801-804 | until the miner takes news, consensus takes no event while the channel to the miner has 16 places or fewer left |
| PipelineGates.ConsensusWaitsForRouter | rust/saito-core/src/core/consensus_thread.rs:801-804 | until the router takes news, the same while the channel to the router has |
| PipelineGates.SendersWaitForConsensus | rust/saito-core/src/core/verification_thread.rs:242-244 | until consensus takes an event, the miner takes no news and an idle verification thread stays idle while the channel to consensus has 16 places or fewer left |
| Consensus.ConsensusThread.NewTransactions | rust/saito-core/src/core/consensus_thread.rs:447-508 | received tickets are stored, other transactions appended to the pending ones in order, and none of those is a ticket |
| Consensus.ConsensusThread.AddGoldenTicket | rust/saito-core/src/core/consensus/mempool.rs:82-102 | a ticket is stored, not yet propagated, unless one for its target is |
| Consensus.ConsensusThread.ProduceBlock | rust/saito-core/src/core/consensus_thread.rs:150-182 | the timer is reset, and the pending transactions are cleared exactly if a block was produced |
| Consensus.ConsensusThread.BundleBlock | rust/saito-core/src/core/consensus_thread.rs:183-302 | all pending transactions are offered, then absorbed by the block or sent to the peers with the latest block's ticket; the branch for a pending ticket is never reached |
| Consensus.ConsensusThread.ProcessTimerEvent | rust/saito-core/src/core/consensus_thread.rs:371-393 | the timer accumulates and triggers bundling at a second; a pending genesis block takes the event instead |
| Consensus.ConsensusThread.ProcessEvent | rust/saito-core/src/core/consensus_thread.rs:395-510 | every event changes the thread's state as the abstract step does |
| ConsensusProofs.OfferedOnce | rust/saito-core/src/core/consensus_thread.rs:183-302 | over any run what was offered followed by what is pending is what was received, in order of arrival |
| ConsensusProofs.EachPropagatedOrAbsorbed | rust/saito-core/src/core/consensus_thread.rs:183-302 | after any run that ends with bundling, nothing is pending, each received transaction is in exactly one batch, and the peers were sent exactly the batches no block absorbed |
| ConsensusProofs.NoStarvation | rust/saito-core/src/core/consensus_thread.rs:381-387 | once a second of timer events has passed, exactly what was pending at its start has been offered, right behind what was offered before and in the same order |
| ConsensusProofs.RunTicketsOnce | rust/saito-core/src/core/consensus_thread.rs:283-297 | a stored ticket is marked propagated exactly if it was sent, and none is sent twice, in every reachable state |
| ConsensusProofs.NoTicketTwice | rust/saito-core/src/core/consensus_thread.rs:283-297 | over any run from the start no stored ticket is sent to the peers twice |
| ConsensusProofs.LatestTicketReachesPeers | rust/saito-core/src/core/consensus_thread.rs:209-219 | after bundling without a block the stored ticket for the latest block has been sent and is marked |
| ConsensusProofs.CountersAgree | rust/saito-core/src/core/consensus_thread.rs:343-508 | received transactions plus the miner's tickets are received tickets plus offered plus pending transactions |
| ConsensusOutcomes.AbsorbedExactly | rust/saito-core/src/core/consensus_thread.rs:171-277 | a bundling that may produce a block and does absorbs exactly what was pending, counts one block, sends nothing and drops exactly the tickets removed |
| ConsensusOutcomes.RoutedExactly | rust/saito-core/src/core/consensus_thread.rs:209-297 | one that may not or does not sends the peers what was pending and the latest block's ticket if they have not had it, counts no block and drops no ticket |
| ConsensusOutcomes.AbsorbedAsProduced | rust/saito-core/src/core/consensus_thread.rs:150-393 | over any run there is one batch per bundling, absorbed exactly if that one produced a block, and as many blocks are counted, which events bundle and produce being told from the events alone |
| ConsensusOutcomes.KeptTickets | rust/saito-core/src/core/consensus_thread.rs:447-508 | of the tickets received the first for each target is kept, unsent, unless one was kept already; no other is touched |
| ConsensusOutcomes.OtherTickets | rust/saito-core/src/core/consensus_thread.rs:397-445 | the miner's ticket is kept in the same way, and a fetched block takes out exactly the tickets named |
| ConsensusOutcomes.GenesisOnly | rust/saito-core/src/core/consensus_thread.rs:304-380 | the timer event that makes the genesis block takes out the tickets named and changes nothing else |
| Mining.MiningThread.Mine | rust/saito-core/src/core/mining_thread.rs:52-83 | an attempt takes the wallet's key if it has none, and yields a ticket exactly if there is a key and the ticket passes |
| Mining.MiningThread.ProcessTimerEvent | rust/saito-core/src/core/mining_thread.rs:92-117 | an active miner goes through the attempts until one yields a ticket |
| Mining.MiningThread.ProcessEvent | rust/saito-core/src/core/mining_thread.rs:119-143 | an enabled miner turns to the new block |
| MiningProofs.FirstHitIsSent | rust/saito-core/src/core/mining_thread.rs:52-114 | a timer event sends the first attempt that has a key and passes, and the miner rests, or it sends nothing and stays active; a key the wallet gets in between is taken over |
| MiningProofs.BlockIsMined | rust/saito-core/src/core/mining_thread.rs:52-142 | told of a block, an enabled miner sends at the next timer event the first ticket for that block that passes, whatever it did before, and nothing more until the next block |
| MiningProofs.NothingMined | rust/saito-core/src/core/mining_thread.rs:92-142 | with none that passes it sends nothing and goes on with that block; a lite client's miner does nothing |
| MiningProofs.TicketsEarned | rust/saito-core/src/core/mining_thread.rs:52-142 | over any run the counter is the number of tickets sent, each targets the block last added before it, passes its difficulty and carries a real key, and there is at most one per block |
| Callbacks.AffixedExactly | node/lib/saito/blockchain.ts:82-104 | a block's pairs are exactly one per normal transaction and module of the name in its message, by transaction and then module; the two lists are equally long, indices in range and never decreasing |
| Callbacks.Blockchain.AffixTransaction | node/lib/saito/mod-manager.ts:51-67 | both arrays grow by one entry per module with the message's module name, in module order |
| Callbacks.Blockchain.AffixCallbacks | node/lib/saito/blockchain.ts:65-107 | an unknown block gets both its lists, a known one keeps them |
| Callbacks.CallsUntilThrow | rust/saito-js/lib/blockchain.ts:54-84 | a callback is called with each confirmation in order, up to and with the first call that throws |
| Callbacks.ThrowsAreContained | rust/saito-js/lib/blockchain.ts:54-84 | each pair gets its own calls whole, whatever other callbacks throw; those whose transaction is gone get none |
| Callbacks.CallsInOrder | rust/saito-js/lib/blockchain.ts:54-84 | calls are made by transaction and then module, and for no other pair |
| Callbacks.Blockchain.RunCallbacks | rust/saito-js/lib/blockchain.ts:33-91 | the loops call exactly what is remembered for the block, and nothing for an unknown block or the empty hash |
| Callbacks.Blockchain.OnConfirmation | rust/saito-js/lib/blockchain.ts:189-224 | a confirmed block is affixed if need be and, without interruption, its callbacks run; a missing or pruned one changes nothing |
| Callbacks.Blockchain.OnAddBlockSuccess | rust/saito-js/lib/blockchain.ts:93-181 | a block on the longest chain, not loaded by force, with id at least 6 makes both lists of the block five below forgotten, and nothing else |
| Callbacks.RunInv | rust/saito-js/lib/blockchain.ts:159-224 | however confirmations and deletions interleave, at every await both maps have the same keys and hold the lists of that very block |
| Callbacks.SetOnlyIfAbsent | node/lib/saito/blockchain.ts:65-107 | in any interleaving a confirmation makes a block's lists only if it found it without |
| Callbacks.CallsUnlessForgotten | rust/saito-js/lib/blockchain.ts:33-91 | a confirmation makes all its calls unless its block's lists were deleted between being affixed and being looked up and not set again since, and then it makes none |
| Callbacks.ForgottenInBetween | rust/saito-js/lib/blockchain.ts:93-224 | that can happen to a confirmation of any block that a block of the longest chain is added five above: a run in which its lists are set, deleted by that addition and then looked up, and no call is made |
| ModManager.Manager.SweepOptions | node/lib/saito/mod-manager.ts:137-163 | the backward loop over the options comes to the specified sweep |
| ModManager.Manager.InspectOptions | node/lib/saito/mod-manager.ts:174-187 | a module is to be installed exactly if no entry of its name is installed, and the index is that of the last entry of its name |
| ModManager.Manager.InstallModules | node/lib/saito/mod-manager.ts:171-204 | modules without an installed entry are installed in order and get an active, installed entry |
| ModManager.Manager.Initialize | node/lib/saito/mod-manager.ts:137-216 | modules, options, installations and saving come out as the specified reconciliation, also without a list of options |
| ModManager.SortSorts | node/lib/saito/mod-manager.ts:206-212 | the list ends up a permutation sorted by active first and then lower-case name |
| ModManager.SortStable | node/lib/saito/mod-manager.ts:206-212 | entries that compare equal keep their order |
| ModManagerProofs.SweepExactly | node/lib/saito/mod-manager.ts:137-163 | the sweep keeps exactly the modules not stopped and the entries with a module and no stopped entry of their name after them, names in the options repeating or not |
| ModManagerProofs.Reconciled | node/lib/saito/mod-manager.ts:137-216 | with distinct names each module ends with exactly one entry and every entry is what became of the old one; dropped are exactly those without module; what is installed and when options are saved |
| ModManagerProofs.ActiveFirstThenNames | node/lib/saito/mod-manager.ts:206-212 | in the list a run leaves active entries come first, and within both parts lower-case names ascend character by character, whatever the options were |
| ModManagerProofs.LeftAreInstalled | node/lib/saito/mod-manager.ts:171-204 | every module kept has an installed entry, whatever the names |
| ModManagerRepeats.IdempotentExactly | node/lib/saito/mod-manager.ts:137-216 | a second run from the same modules changes, installs and saves nothing if and only if no active entry of a module comes after the last stopped entry of that module |
| ModManagerRepeats.Idempotent | node/lib/saito/mod-manager.ts:137-216 | with distinct names in the options a second run from the same modules changes, installs and saves nothing |
| ModManagerProofs.AgainOnTheModulesLeft | node/lib/saito/mod-manager.ts:139-163 | with distinct names, a second run from the modules left keeps the list if and only if no module was stopped |
| Keychain.Chain.AddKey | node/lib/saito/keychain.ts:80-125 | a known key takes over the fields given, a new one is appended and indexed, and both are saved |
| Keychain.Chain.RemoveKey | node/lib/saito/keychain.ts:127-138 | the last key of the name and its index entry go, and the rest is saved |
| Keychain.Chain.SaveKeys | node/lib/saito/keychain.ts:144-152 | the options get a copy, and the watched keys are pushed exactly if the digest changed |
| Keychain.Chain.SweepScheduled | node/lib/saito/keychain.ts:55-59 | the loop that removes from the list it walks comes to the specified sweep |
| Keychain.Chain.Initialize | node/lib/saito/keychain.ts:29-74 | start-up loads keys and groups, adds the own key to an empty list, sweeps scheduled calls and old events, and saves |
| KeychainProofs.KnownKeyUpdated | node/lib/saito/keychain.ts:88-106 | adding a known key gives it exactly the fields passed on top of its own, its name apart, and changes no other key |
| KeychainProofs.NewKeyAppended | node/lib/saito/keychain.ts:107-125 | an unknown key is appended with exactly the fields passed, its name apart, and indexed |
| KeychainProofs.LastKeyRemoved | node/lib/saito/keychain.ts:127-138 | the last key of the name goes, and the others keep their order |
| KeychainProofs.WatchedExactly | node/lib/saito/keychain.ts:154-156 | the watched keys are those whose field of that name is neither empty nor false nor zero, in order |
| KeychainProofs.StartedExactly | node/lib/saito/keychain.ts:29-74 | from distinct stored keys, or the own key if none are stored, start-up leaves exactly those that the sweep of scheduled calls leaves and that are not over, and the groups stored |
| KeychainProofs.SweepComplete | node/lib/saito/keychain.ts:55-59 | with distinct keys, start-up removes every scheduled call if and only if no two are neighbours in the list |
| KeychainProofs.OverRemoved | node/lib/saito/keychain.ts:61-69 | with distinct keys, events that are over are removed, all of them and nothing else |
| KeychainProofs.KeysStayDistinct | node/lib/saito/keychain.ts:29-138 | from distinct stored keys, over start-up and any run, keys stay distinct and index and saved copy agree with them, whatever the digest |
| KeychainProofs.WalletRightExactly | node/lib/saito/keychain.ts:144-152 | the wallet has had the watched keys, in order, after every save of a run if and only if no two saves in a row have equal digests and different watched keys |
| KeychainProofs.InjectiveNeverMisses | node/lib/saito/keychain.ts:144-156 | with an injective digest the list last pushed is always the watched keys in order |
| Stats.StatVariable.IncrementBy | rust/saito-core/src/core/defs.rs:151-162 | total and unflushed count both grow by the amount |
| Stats.StatVariable.CalculateStats | rust/saito-core/src/core/defs.rs:163-178 | the count is flushed into the window, the oldest interval leaving a full one, and the sums are those of the window |
| Stats.WindowIsLatest | rust/saito-core/src/core/defs.rs:163-178 | over any run the window is the latest intervals, at most capacity less one, and the total all that was counted |
| Stats.TotalIsFlushedAndRest | rust/saito-core/src/core/defs.rs:151-171 | the total is all counts ever flushed plus the unflushed one |
| Stats.WindowTimeTelescopes | rust/saito-core/src/core/defs.rs:163-178 | the window's times add up to the last flush time less that just before the window |
| Issuance.LoadPages | rust/saito-rust/src/main.rs:783-810 | pages of exactly 100 names are loaded in order without overlap, up to the last full page |
| Issuance.AllLoadedIff | rust/saito-rust/src/main.rs:783-791 | all names are loaded if and only if their number is a multiple of 100 |
| Issuance.WriteIssuance | rust/saito-rust/src/main.rs:837-871 | the lines written are those specified, their number is counted, and they sum to the total of the balances |
| Issuance.OneLineEach | rust/saito-rust/src/main.rs:841-871 | a key at or above the threshold has exactly one line with its value, any other none, but for one aggregate line if the rest is positive |
| Issuance.OrderIrrelevant | rust/saito-rust/src/main.rs:841-854 | every order of the map gives the same lines and the same aggregate |

## Left out

- Dispatch.Dispatcher.Send: requires a queue with room. Behind the router's gate there always is one, as the router is the only one to fill the queues (part of PipelineInvariants.RunInv); without the gate and with all queues full the original keeps turning until one drains.
- Stats.StatVariable.CalculateStats: requires a capacity of at least 2 and a clock that does not run backwards. All callers pass a capacity of 3 (`rust/saito-core/src/core/defs.rs:51`); below 2, and for a clock running backwards, the original's unsigned subtractions underflow or its window grows.
- Pipeline.VerificationThread.CheckBlock: a buffer that decodes but whose hashes cannot be generated makes the original panic, which ends the node (`rust/saito-rust/src/main.rs:486-499`), and is not modelled.
- PipelineProgress.NeverStuck: the mempool and configuration locks, other users of the locks and the router's own work on what it takes are not in it; the wallet lock is taken with the peers lock, always after it.
- PipelineProgress.AlwaysCanDrain: the continuation is of the model's choosing, with the chain's answers (whether a block is added, whether a transaction is valid) chosen along; so it is in PipelineFinish.FinishesExactly. The router's work on what it takes is not in it.
- PipelineStop.StuckRun: that the pool makes a block of the one transaction is the chain's answer. Bundling refuses an empty pool and too few golden tickets (`rust/saito-core/src/core/consensus/mempool.rs:332-344`); the run asks for one block, with one transaction.
- PipelineJam.JamRun: that the fetched blocks extend the longest chain is the chain's answer.
- PipelineBlock.BlockRun: that the parents of the fetched blocks are missing is the chain's answer.
- ConsensusProofs.NoTicketTwice: is about a stored entry; a ticket removed with its block and received again is a new entry.
- Callbacks.CallsUnlessForgotten: a block that disappears or is pruned between the two times it is looked up is not in it; Callbacks.Blockchain.RunCallbacks covers that case.
- HeaderPaging.HeaderSender.SendBlockHeaders: the chain does not change during a tick, as the original holds its lock.
- BlockFetch.NoDeadlock: that the core goes on receiving is not proved here.
- The chain's own rules: block and transaction validation, the UTXO set, block production, finding shared ancestors and reorganizations appear only through their answers.
- Congestion events raised by the consensus thread, log lines and statistics strings.
- The register is a 32-bit pattern; that scripts read it as a signed number is not modelled.
- Codecs other than the no-op one are the results they return or throw; progress messages, timings and transferables are left out.
- Widths of counters and ids: they are unbounded, so overflow of a 64-bit counter is not modelled.
- Floating-point averages of the statistics.
- The order of names is by Dafny characters, which differs from script strings outside the basic plane; version and publisher of a module entry are one field.
- Loading dynamic modules in the browser, and what installing a module does.
- Renaming of the old public-key field of stored keys, and keys changed in place without saving.
- Sockets, HTTP, disk and browser storage, signatures, base58 and the wasm bindings.

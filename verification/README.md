# Verified models of the batch processor, the block iterator, beacon reads and the sharder

This project models four components of the repository and proves what their designs rest on;
`dafny verify dfyconfig.toml` checks all of it.

**Batch processor** (`Batch*.dfy`). Concurrent `Write` calls, one batch builder, a pool of workers, the
flush timer and the shutdown goroutine are a system of atomic steps, in any interleaving; a blocking
operation is a step that cannot be taken yet, and an operation Go answers with a panic has the result
`Panics`. `BatchProcessor` defines the steps. `BatchFlow`, `BatchCalls`, `BatchResults` and `BatchWaiters`
each keep one invariant over all steps: locks and closed channels, the order and place of items, what was
accepted of each call, the result channels, and what waiting calls know. `BatchRuns` puts them together
for every reachable state, `BatchDelivery` states the promises, `BatchProgress` shows that the timer is
never lost, that schedules of the builder, the workers and the timer take a bounded number of working steps
and that only the timer's idle tick is left when everything was delivered, `BatchShutdown` that shutdown gets
its write lock and goes on to its end, and `BatchWrites` when a call can go on, what each of its items meets,
and that it ends.

**Execution block iterator** (`CeilingWalk`, `BlockIterator`, `IteratorRuns`). The walk from a finalized
Gloas block back to the payload it builds on, on a canonical chain (`Chain`) that follows EIP-7732: a bid
names the hash of the execution head it builds on (`process_execution_payload_bid` of the Gloas consensus
specification). The cursor is a class whose methods are proved against functions, with Go's 64-bit
arithmetic written out; runs interleave ceiling advances, taken ranges, processing, recording and crashes.

**Beacon node reads** (`BeaconNode`, `BeaconAnswers`, `BeaconReads`, `CacheRuns`). A node that may lack history, and may learn
or forget between lookups and between the requests of one confirmation, but never contradicts the canonical
chain, a verified archive, and caches other callers may fill or evict between any two lookups of one call. The
proofs build on each other: a confirmed missed slot is empty, so the block cache is coherent, so the first
later block found is the canonical successor, so a payload called withheld is withheld, so a 404 answered with
"none" was withheld. `BeaconAnswers` says exactly when each read answers, with what, and what it leaves cached.

**Sharder** (`ShardEntries`, `ShardConfig`, `Sharder`, `ShardPartition`, `ShardMemo`, `ShardRuns`). The shard list parser and
its validation, the memo in front of a search that visits patterns in any order, with other callers acting
between its atomic steps, the decision of each event group, the division of events among instances, the memo's
bound under concurrent callers, and the decisions of whole batches in every interleaving of callers.

Results that are false of the code as it stands are stated with their exact condition:

- A shutdown delivers everything accepted exactly if the processor was started or had accepted nothing
  (`DeliveredIffStarted`, `UnstartedKeepsItems`); the comment above `Shutdown` promises it without condition.
- The iterator processes no block twice exactly if the first ceiling is at least 1 and backfill, where
  enabled, stops above block 0 (`ExactlyOnceIff`).
- A head range is well formed exactly if the cursor plus the range limit stays below 2^64, a backfill range
  exactly if the floor fits an int64 (`HeadRangeIff`, `BackfillRangeIff`).
- A range of shards is read to its end exactly if it ends below 2^64 - 1 (`SpanLoopEndsIff`).
- An envelope answer of "none" is wrong exactly if the provider reported success without data for a payload
  that is in the execution chain (`EnvelopeAnswerIsRight`, `EmptyAnswerHidesPayload`).
- The envelope cache is coherent in all states of a history up to one exactly if no earlier step stored such
  an answer; the block cache is coherent in all of them (`CachesStayCoherentIff`, `BlocksStayCoherent`).
- Two callers get the same answer for an event in every interleaving exactly if all best configurations for it
  decide alike, that is, unless two patterns of equal highest rate disagree about it
  (`AlwaysAgreeIffUndisputed`, `DisputedIffTied`, `TiesDisagree`).
- The reason given with a decision tells whether the event was processed, except the one for a message
  without a topic configuration (`ReasonTellsDecisionIff`).
- Events no pattern applies to are processed by all instances or by none (`UnconfiguredIsNotShared`).

## Model

| member | source | states |
|---|---|---|
| BatchCalls.PrepareChunk | pkg/processor/batch.go:359-383 | the items prepared from a chunk are exactly its non-nil inputs, in input order, each once |
| BatchFlow.ControlStep | pkg/processor/batch.go:463-646 | every step keeps: a call past its stop check holds the queue open, the queue is closed only under the write lock after the stop channel, the batch channel is closed only after the builder's last send from a closed and drained queue, workers exit only from the closed and empty batch channel, and a wait that ended for a started processor means all goroutines are gone |
| BatchFlow.FlowStep | pkg/processor/batch.go:557-609 | every step keeps: the batches sent, then the builder's batch, then the queue, are the accepted items in order, in batches of 1 to MaxExportBatchSize, and the builder sends only a non-empty batch and never ends with one |
| BatchFlow.DeliveryStep | pkg/processor/batch.go:600-624 | every step keeps: the batch channel is the tail of what was sent, workers hold different batches that left the channel, and each batch sent is in the channel, with a worker, or was handed to the exporter, exactly once |
| BatchCalls.AccountedStep | pkg/processor/batch.go:345-399 | every step keeps: what was accepted of each call is determined by the chunk and position it is at, as a prefix of its non-nil input, and no item was accepted twice |
| BatchCalls.NextItemIsNew | pkg/processor/batch.go:385-389 | the item a call is about to queue was never queued before |
| BatchResults.LedgerStep | pkg/processor/batch.go:420-457 | every step keeps: a result channel in use belongs to an item of an answered batch and carries that batch's answer, a signalling worker has closed exactly the channels before its position and not touched those after it, and a batch no longer with any worker was answered and has all its channels closed |
| BatchResults.LedgerValueSent | pkg/processor/batch.go:449-457 | the channel a worker sends on is fresh, so the send has room |
| BatchResults.LedgerClosed | pkg/processor/batch.go:454-456 | the channel a worker closes was not closed before |
| BatchWaiters.WaitingStep | pkg/processor/batch.go:542-555 | every step keeps: only the call that waits for an item receives its value, all items of the chunks a synchronous call left behind were exported without error, and its result reports that |
| BatchWaiters.WaitedIsUnconsumed | pkg/processor/batch.go:543-546 | the item a call waits for has not had its value received |
| BatchRuns.NoPanic | pkg/processor/batch.go:463-646 | in every reachable state no step sends on a closed channel or closes one twice |
| BatchRuns.WorkerNeverBlocks | pkg/processor/batch.go:449-457 | in every reachable state a worker with a batch can go on, even if all waiters gave up |
| BatchDelivery.EveryItemInOnePlace | pkg/processor/batch.go:463-624 | in every reachable state the accepted items are the disjoint union of queue, builder's batch, batch channel, batches in workers' hands and items handed to the exporter, each accepted once |
| BatchDelivery.BatchesKeepOrder | pkg/processor/batch.go:557-609 | in every reachable state the batches sent are the accepted items in order, of sizes 1 to MaxExportBatchSize, the queue and the batch channel are within capacity, and nothing is handed over that was not sent |
| BatchDelivery.AcceptedIsPrefix | pkg/processor/batch.go:345-399 | what is accepted of a call is an in-order prefix of its non-nil input, in either shipping method, and all of it if the call returned nil |
| BatchDelivery.WhyWritesReturn | pkg/processor/batch.go:345-399 | why a write returned: nil only with all items accepted, ErrShuttingDown only after the stop channel was closed and ErrQueueFull only when the queue was full, in both cases with an item refused, an export error only if an export of its items failed |
| BatchDelivery.NothingAcceptedOnceLocked | pkg/processor/batch.go:471-476 | once shutdown has the write lock no step accepts an item |
| BatchDelivery.SyncWriteKeepsToItsChunk | pkg/processor/batch.go:354-396 | the items of a synchronous write not yet known to be exported lie within one chunk of Workers * MaxExportBatchSize inputs |
| BatchDelivery.SyncWriteTellsTheTruth | pkg/processor/batch.go:391-399 | a synchronous write that returned nil had every non-nil item exported with a nil error; one that returned an export error had an item whose export failed |
| BatchDelivery.OneValueAndOneClose | pkg/processor/batch.go:234-237 | a result channel gets at most one value, its batch's answer, and one close, the close after the value, and none is used in asynchronous mode |
| BatchDelivery.AnsweredWasHanded | pkg/processor/batch.go:431-438 | a batch with an answer was handed to the exporter |
| BatchDelivery.ShutdownDelivers | pkg/processor/batch.go:463-498 | from the end of the wait for a started processor on, before the exporter is shut down, every accepted item was handed over exactly once, every batch was answered, and in synchronous mode every channel got its one value and one close |
| BatchDelivery.DeliveredIffStarted | pkg/processor/batch.go:462-478 | at the end of the wait everything accepted was delivered if and only if the processor had been started or had accepted nothing |
| BatchDelivery.UnstartedKeepsItems | pkg/processor/batch.go:462-478 | under every valid configuration with an exporter, a write followed by a shutdown without a start leaves an accepted item that never reaches the exporter |
| BatchProgress.TimerIsNeverLost | pkg/processor/batch.go:557-624 | until shutdown stops it, the flush timer is armed or has fired, or the builder is handling a fire or sending, or a batch is in the channel, or a worker is between receiving a batch and its reset; stopped by the shutdown of a processor that had been started, it is not armed again |
| BatchProgress.BusyIffWorkLeft | pkg/processor/batch.go:557-624 | no deadlock: a started processor has something undelivered, or goroutines left to end on a closed queue, exactly if the builder or a worker can take a working step, at the latest after two steps of the timer's tick |
| BatchProgress.WorkUnloads | pkg/processor/batch.go:557-624 | every working step of the builder or a worker lowers the load, and the timer's tick (its fire, the builder taking it, and the reset over an empty batch) leaves it as it is |
| BatchProgress.TicksFlush | pkg/processor/batch.go:590-596 | around a partial batch no three steps of the tick follow each other, so ticks cannot hold it back |
| BatchProgress.EveryScheduleDelivers | pkg/processor/batch.go:557-624 | every schedule of the builder, the workers and the timer of a started processor, idle ticks included, has at most Load working steps; and when the tick leads to none any more, everything accepted was delivered and a waiting shutdown can finish |
| BatchProgress.Drains | pkg/processor/batch.go:557-624 | from every reachable state of a started processor some schedule delivers everything, so a partial batch is never stranded |
| BatchProgress.ReaderMoves | pkg/processor/batch.go:626-646 | a call that holds the read lock can always go on, and gives it up at the latest at its send |
| BatchShutdown.LockIsGranted | pkg/processor/batch.go:471-476 | while shutdown waits for the write lock, whatever else happens, calls holding the read lock take at most two steps for each call there was, one of them can always go on, and when none is left the lock is granted |
| BatchShutdown.ShutdownMovesIff | pkg/processor/batch.go:468-489 | shutdown is held up only by readers of the lock and by started goroutines that have not ended; each of its eight steps does one thing in order: stop channel, lock, queue closed, unlocked, wait, timer stopped, exporter down |
| BatchWrites.WriteBegins | pkg/processor/batch.go:345-352 | a write of nothing returns nil at once, any other without an exporter an error, and all others set out |
| BatchWrites.ContextEndsWaiting | pkg/processor/batch.go:542-551 | a context ends a call exactly while it waits for a result |
| BatchWrites.CallMovesIff | pkg/processor/batch.go:345-399 | a call that has not returned is held up only by shutdown keeping readers out while it has an item to queue, or by a result that has not come; never by a full queue |
| BatchWrites.ItemOutcome | pkg/processor/batch.go:626-646 | from an item to queue, the call's next steps, with any steps of others in between, lead to ErrShuttingDown exactly if the stop channel is closed at its check, else to ErrQueueFull if the queue is full at its send, else to the item queued |
| BatchWrites.ChunkIsFull | pkg/processor/batch.go:358-383 | a call that starts a chunk takes exactly the non-nil inputs among the next Workers * MaxExportBatchSize ones, and returns nil at the end of its input |
| BatchWrites.WriteEnds | pkg/processor/batch.go:345-399 | a call takes at most 8 steps for each input and one more before it returns, whatever else happens |
| BatchProgress.WaiterIsAnswered | pkg/processor/batch.go:542-555 | once everything is delivered, every call waiting for a result can go on |
| BatchProgress.StartRuns | pkg/processor/batch.go:315-338 | a processor starts once, with the builder and all its workers, and nothing else changes |
| BatchProgress.SendMovesIff | pkg/processor/batch.go:600-609 | the builder's send waits only for room for Workers batches in the batch channel |
| BatchProgress.AnswerIsTheExporters | pkg/processor/batch.go:433-457 | the exporter's answer for a batch, whichever it is, is the one recorded and signalled for all of its items |
| Chain.HeadIsNearest | pkg/cannon/iterator/backfilling_block_iterator.go:195-199 | the execution head a block builds on is the nearest revealed payload before it |
| Chain.HeadNumberMonotone | pkg/cannon/iterator/backfilling_block_iterator.go:195-199 | the execution head never moves back along the chain |
| Chain.RevealedIffInExecutionChain | pkg/cannon/ethereum/beacon.go:795-802 | a promised payload is in the execution chain exactly when its block's payload was revealed |
| CeilingWalk.PayloadParentNumber | pkg/cannon/iterator/backfilling_block_iterator.go:200-272 | the loop computes the bounded ancestor walk for the bid's parent hash |
| CeilingWalk.FetchExecutionCeiling | pkg/cannon/iterator/backfilling_block_iterator.go:152-188 | the ceiling of the finalized checkpoint, with every failure, the zero root before the first finality, and the fork in between |
| CeilingWalk.VisitOnChain | pkg/cannon/iterator/backfilling_block_iterator.go:216-245 | on a canonical chain a hop stops with a number exactly at a revealed payload and goes on only past a withheld one |
| CeilingWalk.WalkFindsNearest | pkg/cannon/iterator/backfilling_block_iterator.go:200-248 | the walk succeeds if and only if the nearest revealed payload is within the hop limit and the node holds every block back to it and its number, and then returns that number |
| CeilingWalk.CeilingIsFinal | pkg/cannon/iterator/backfilling_block_iterator.go:146-188 | a ceiling is only ever the execution block that finality of the checkpoint makes final |
| CeilingWalk.CeilingIff | pkg/cannon/iterator/backfilling_block_iterator.go:152-272 | on any answers of the node, v is the ceiling exactly if the checkpoint's block, or for the zero root the block at slot 0, carries payload number v, or is a Gloas block from whose parent at most 64 ancestors lead, past bids for other payloads, to the one that discloses v under the hash its bid builds on |
| CeilingWalk.NoCeilingBecause | pkg/cannon/iterator/backfilling_block_iterator.go:152-188 | which error the first unanswered request gives |
| CeilingWalk.PayloadCeilingFoundIff | pkg/cannon/iterator/backfilling_block_iterator.go:162-187 | a finalized block that carries its payload gives its number exactly if the node answers the lookup made for it, by root or at slot 0 for the zero root |
| CeilingWalk.GloasCeilingFoundIff | pkg/cannon/iterator/backfilling_block_iterator.go:152-248 | exactly when a finalized Gloas block gives a ceiling, by root or zero root: the lookup is answered, the nearest revealed payload is within 64 ancestors, and the node holds every block back to it and its number; the zero root gives none |
| CeilingWalk.FinalNumberMonotone | pkg/cannon/iterator/backfilling_block_iterator.go:146-188 | finality of a descendant never lowers the final execution block, across the Gloas fork too |
| CeilingWalk.CeilingNeverLowered | pkg/cannon/iterator/backfilling_block_iterator.go:146-188 | two ceilings read for a block and a descendant, whatever the node held each time, never go down |
| BlockIterator.BackfillingBlock.Next | pkg/cannon/iterator/backfilling_block_iterator.go:277-360 | the first turn that fails or finds a range decides: the seed range, else a head range, else a backfill range |
| BlockIterator.BackfillingBlock.UpdateLocation | pkg/cannon/iterator/backfilling_block_iterator.go:365-412 | the new cursor, reseeded by a head range while backfill is not positive; a failure leaves the stored one |
| BlockIterator.PickIffOwed | pkg/cannon/iterator/backfilling_block_iterator.go:116-144 | the range picked is the one owed, from the cursor and the ceiling: the ceiling for a fresh cursor, else up to maxRangeSize (0 standing for 1) blocks above it, else as many below it, down to the larger of toBlock and the dataset's minimum; none exactly if nothing is owed |
| BlockIterator.NextAnswers | pkg/cannon/iterator/backfilling_block_iterator.go:277-360 | Next gives a range exactly if some turn is answered with it owed and all before were answered with nothing owed; it fails exactly if the first turn that is not idle was not answered; it goes on waiting exactly while all turns are idle |
| BlockIterator.AdvancedIs | pkg/cannon/iterator/backfilling_block_iterator.go:371-402 | the new cursor: a head range raises the upper end to its last block and seeds the lower end where that was not positive, a backfill range lowers the lower end to its first block |
| BlockIterator.HeadRangeIff | pkg/cannon/iterator/backfilling_block_iterator.go:313-320 | a head range is non-empty if and only if finalized + maxRange < 2^64, and then starts above the cursor, has at most maxRange blocks, does not pass the ceiling, and is as long as both allow |
| BlockIterator.BackfillRangeIff | pkg/cannon/iterator/backfilling_block_iterator.go:325-344 | a due backfill range lies between the floor and the cursor, without wrap-around, if and only if the floor fits an int64, and is then as long as the limit and the floor allow |
| IteratorRuns.InvariantHolds | pkg/cannon/iterator/backfilling_block_iterator.go:277-412 | in every run, crashes included, the cursor stays within the ceiling, all blocks between its ends were processed, and any range in work is one that was due |
| IteratorRuns.NoGap | pkg/cannon/iterator/backfilling_block_iterator.go:362-412 | with arbitrary nondecreasing ceilings and crashes, no block between backfill and finalized is ever skipped |
| IteratorRuns.TakenRangesAreSound | pkg/cannon/iterator/backfilling_block_iterator.go:312-344 | every range taken in a run is non-empty, has at most maxRange blocks, does not pass the current ceiling, and a backfill range stays at or above ToBlock and the dataset minimum |
| IteratorRuns.ProcessedIsInterval | pkg/cannon/iterator/backfilling_block_iterator.go:277-412 | without crashes and reseeding, exactly the blocks from backfill to finalized were processed, each once |
| IteratorRuns.ZeroCeilingRepeats | pkg/cannon/iterator/backfilling_block_iterator.go:291-307 | from a first ceiling of 0 a crash-free run processes block 0 twice |
| IteratorRuns.ZeroFloorRepeats | pkg/cannon/iterator/backfilling_block_iterator.go:385-391 | with a floor of 0 a finished backfill starts over at the next head advance and processes blocks twice |
| IteratorRuns.ExactlyOnceIff | pkg/cannon/iterator/backfilling_block_iterator.go:277-412 | crash-free runs process no block twice if and only if the first ceiling is at least 1 and backfill, if enabled, stops above block 0 |
| IteratorRuns.RoundsCountDown | pkg/cannon/iterator/backfilling_block_iterator.go:312-344 | at a fixed ceiling a range is due exactly while rounds are left, and each round uses up one |
| IteratorRuns.CeilDivIsQuotient | pkg/cannon/iterator/backfilling_block_iterator.go:312-344 | the round count is the quotient rounded up |
| IteratorRuns.RoundFillsMissing | pkg/cannon/iterator/backfilling_block_iterator.go:312-344 | a round processes only missing blocks, each once, and they are missing no longer |
| IteratorRuns.RoundFrom | pkg/cannon/iterator/backfilling_block_iterator.go:286-344 | from a fresh or an earlier location a range is due exactly while rounds are left; a round uses up one, the seed round of a fresh location included, and processes missing blocks, which then no longer are |
| IteratorRuns.CatchUp | pkg/cannon/iterator/backfilling_block_iterator.go:277-412 | at a fixed ceiling Next and UpdateLocation alternate exactly ceil((ceiling-finalized)/R) + ceil(max(0, backfill-floor)/R) times, once more for a fresh location that starts at the ceiling, process exactly the missing blocks, each once, and leave the cursor at the ceiling and the floor |
| BeaconNode.CachedNode.GetBeaconBlock | pkg/cannon/ethereum/beacon.go:387-460 | the answer and both caches after a block read: cache, archive, node, and confirmation of a missing slot |
| BeaconNode.CachedNode.ConfirmMissedSlot | pkg/cannon/ethereum/beacon.go:466-508 | the confirmation's result and the block it caches: the first slot the node answers for decides |
| BeaconNode.CachedNode.CacheRange | pkg/cannon/ethereum/beacon.go:597-605 | the whole range is cached whatever the order of its slots, an envelope only where known, and nothing else changes |
| BeaconNode.CachedNode.ArchiveSlot | pkg/cannon/ethereum/beacon.go:575-610 | the range is cached even when it lacks the slot asked for; roots are never looked up |
| BeaconNode.CachedNode.EnvelopeFromArchive | pkg/cannon/ethereum/beacon.go:544-573 | an archived envelope answers only where a sidecar covers the slot and the envelope is known |
| BeaconNode.CachedNode.PayloadWithheld | pkg/cannon/ethereum/beacon.go:803-845 | the decision and the caches after the search for the next block |
| BeaconNode.CachedNode.FirstBlockAfter | pkg/cannon/ethereum/beacon.go:823-844 | the search loop, with other callers changing the caches between its lookups |
| BeaconNode.CachedNode.GetExecutionPayloadEnvelope | pkg/cannon/ethereum/beacon.go:707-785 | the answer and both caches after an envelope read: cache, archive, provider, and the withheld decision on a 404 |
| BeaconAnswers.ConfirmMissedIff | pkg/cannon/ethereum/beacon.go:466-508 | on any answers of the node: a slot is confirmed empty exactly if the spec is known and, within two epochs of it, the first slot answered holds a block whose parent is then known to be older |
| BeaconAnswers.WhyUnconfirmed | pkg/cannon/ethereum/beacon.go:466-532 | which error an unconfirmed slot gives |
| BeaconAnswers.ReadAnswersIff | pkg/cannon/ethereum/beacon.go:387-460 | a block read succeeds with exactly this answer: what is cached, else what is archived, else the node's block, else "none" for a root the node has nothing for or a slot confirmed empty |
| BeaconAnswers.WhyUnread | pkg/cannon/ethereum/beacon.go:428-438 | which error a failed read gives |
| BeaconAnswers.ReadIsCached | pkg/cannon/ethereum/beacon.go:428-445 | a read not answered from the cache leaves its answer cached exactly if it succeeds |
| BeaconAnswers.ReadKeepsOthers | pkg/cannon/ethereum/beacon.go:387-460 | a read leaves the entries of roots and of earlier slots the archive did not answer for as they were |
| BeaconAnswers.ArchivedBlocksAreCached | pkg/cannon/ethereum/beacon.go:575-610 | a slot's read that asks the archive caches the blocks of the whole range, but for a later slot whose block a confirmation fetched |
| BeaconAnswers.ArchivedEnvelopesAreCached | pkg/cannon/ethereum/beacon.go:597-605 | it caches all known envelopes of the range and touches no other |
| BeaconAnswers.OnlySlotsAskTheArchive | pkg/cannon/ethereum/beacon.go:575-584 | reads of roots, and reads the cache answers, take nothing from the archive |
| BeaconAnswers.WithheldIff | pkg/cannon/ethereum/beacon.go:803-878 | on any answers of the node: payloadWithheld answers exactly if a Gloas block is read, and the first later slot within two epochs whose read is not "none" holds a Gloas block that builds on one of its bid's two hashes, by which of them |
| BeaconAnswers.EnvelopeAnswersIff | pkg/cannon/ethereum/beacon.go:707-785 | an envelope read succeeds with exactly this answer: what is cached, else what is archived, else what the provider answers with, data or none, else "none" for a 404 decided to be withheld |
| BeaconAnswers.EnvelopeIsCached | pkg/cannon/ethereum/beacon.go:738-767 | a successful answer is cached under the identifier, the provider's data included; and which errors others give |
| BeaconAnswers.SidecarsAskTheArchive | pkg/cannon/ethereum/beacon.go:545-573 | an envelope read takes a range from the archive, and caches its blocks, only for a slot an envelope sidecar covers |
| BeaconReads.ConfirmedIsEmpty | pkg/cannon/ethereum/beacon.go:462-508 | a confirmation succeeds only for a slot the canonical chain has no block at, even with holes in the node's history and a node that changes between the requests; only the block found and its parent's header need be true |
| BeaconReads.ConfirmedIff | pkg/cannon/ethereum/beacon.go:466-532 | it succeeds if and only if the spec is known and the canonical block next after the empty slot is the first the node answers with, within the lookahead, and the node then has its parent's header |
| BeaconReads.ReadBlockIsRight | pkg/cannon/ethereum/beacon.go:387-610 | every block read keeps the block cache coherent, and its answer for a slot is the canonical block or "none" only where the chain is empty |
| BeaconReads.CachedIffSucceeded | pkg/cannon/ethereum/beacon.go:433-445 | a read is remembered exactly if it succeeded; an unconfirmed 404 is asked again |
| BeaconReads.EvictionKeepsCoherence | pkg/cannon/ethereum/beacon.go:443-445 | dropping cache entries keeps the caches coherent |
| BeaconReads.AnswerNamesParent | pkg/cannon/ethereum/beacon.go:862-878 | two bids are answered exactly if the later one builds on one of the earlier one's two hashes, by which of them; a bid that matches neither is an error |
| BeaconReads.ConsecutiveBidsDecide | pkg/cannon/ethereum/beacon.go:862-878 | for two consecutive canonical bids the decision is defined and true exactly if the earlier payload was withheld |
| BeaconReads.LookupDecides | pkg/cannon/ethereum/beacon.go:825-842 | a lookup up to the next canonical block fails, finds nothing, or finds that block and decides rightly |
| BeaconReads.WithheldIsRight | pkg/cannon/ethereum/beacon.go:795-845 | for a canonical Gloas block an answer of payloadWithheld is true if and only if the payload never entered the execution chain, and there is an answer exactly if the block can be read, the next canonical block is within two epochs, and every slot up to it can be read |
| BeaconReads.EnvelopeAnswerIsRight | pkg/cannon/ethereum/beacon.go:700-785 | an envelope answer for any canonical block is its payload, or "none"; it is wrong if and only if the provider reported success without data for a payload in the execution chain |
| BeaconReads.EmptyAnswerHidesPayload | pkg/cannon/ethereum/beacon.go:762-769 | a one-block chain where a revealed payload is answered and cached as absent |
| BeaconReads.NotFoundIffWithheld | pkg/cannon/ethereum/beacon.go:738-759 | a 404 is answered with "none", and cached, exactly if the payload is shown withheld; otherwise it is an error and nothing is cached for it |
| BeaconReads.ReadEnvelopeKeepsCoherence | pkg/cannon/ethereum/beacon.go:707-785 | an envelope read keeps the block cache coherent, and the envelope cache if and only if the provider does not report success without data for a revealed payload |
| CacheRuns.BlocksStayCoherent | pkg/cannon/ethereum/beacon.go:387-610 | in every state of every history of reads, archive fills, evictions and envelope stores by concurrent callers, a slot is cached as its canonical block, or as empty only if it is |
| CacheRuns.CachesStayCoherentIff | pkg/cannon/ethereum/beacon.go:387-785 | both caches are right in all states of a history up to one, envelopes being absent only if withheld, if and only if no earlier step stored "none" for a revealed payload that the provider reported success without data for |
| CacheRuns.WalkSkipsWhatBidsWithhold | pkg/cannon/ethereum/beacon.go:862-878 | the ancestors the iterator's walk goes on past are exactly those whose next bid marks their payload as withheld |
| ShardEntries.TextRoundTrip | pkg/clmimicry/sharding.go:437-468 | a written number or range is read back as exactly that number or range |
| ShardEntries.NumberTextIff | pkg/clmimicry/sharding.go:466-471 | a text is read as one number exactly if it is that decimal numeral, without blanks, below 2^64 |
| ShardEntries.RangeTextIff | pkg/clmimicry/sharding.go:437-458 | a text is read as a range exactly if it is two numerals around one dash, Unicode blanks allowed around each, in order; reversed ones are an error |
| ShardEntries.EntryMeans | pkg/clmimicry/sharding.go:423-480 | an entry is accepted exactly if it stands for some shard, and covers exactly those: an integer itself modulo 2^64, a truncated float itself, a text its number or range, another type none |
| ShardEntries.WhichError | pkg/clmimicry/sharding.go:466-480 | the error of another type, and of a text without a dash that is no number |
| ShardEntries.WhichRangeError | pkg/clmimicry/sharding.go:437-457 | the error of a text by its dashes and sides: format, start, end, or reversed |
| ShardConfig.SpanLoopEndsIff | pkg/clmimicry/sharding.go:460-465 | the range loop over a uint64 ends if and only if the range ends below 2^64 - 1 |
| ShardConfig.AddSpan | pkg/clmimicry/sharding.go:459-465 | the range loop adds exactly the range to what was seen, without duplicates |
| ShardConfig.UnmarshalActiveShards | pkg/clmimicry/sharding.go:417-486 | the list is the sorted, duplicate-free list of what the entries stand for, and an error, that of the first malformed entry, exactly if some entry stands for nothing |
| ShardConfig.IntegersStandForThemselves | pkg/clmimicry/sharding.go:422-429 | a list of non-negative integers is read to its end and stands for exactly those integers |
| ShardConfig.UnmarshalIntegers | pkg/clmimicry/sharding.go:417-486 | a list of non-negative integers is read as the sorted list of exactly those, without duplicates |
| ShardConfig.Validate | pkg/clmimicry/sharding.go:372-390 | accepts exactly a positive total with a non-empty list of shards below it, and which error it gives otherwise |
| ShardConfig.RateIsFraction | pkg/clmimicry/sharding.go:392-395 | rates compare as the fractions of active shards of all shards |
| ShardConfig.RateAndFirehose | pkg/clmimicry/sharding.go:392-400 | for a validated list the rate is in (0, 1], and it is a firehose exactly if the list is 0 to total - 1, exactly if the rate is 1 |
| Sharder.MatchTopicConfig | pkg/clmimicry/sharding.go:242-294 | nothing only if nothing applies, else the event's own entry or an applicable configuration of maximal rate, in whatever order the patterns are visited |
| Sharder.AdmitsIff | pkg/clmimicry/sharding.go:267-281 | an empty constraint admits every event, "P*" exactly those that start with P, any other only itself |
| Sharder.BestIff | pkg/clmimicry/sharding.go:242-294 | what a search may find, in terms of the configuration: for an empty topic the entry of the event's own name, else a matching pattern's with the largest share of active shards, and nothing exactly without one |
| Sharder.ProcessedIff | pkg/clmimicry/sharding.go:109-189 | a result may be given exactly if the sharding rule allows it: all events where sharding is disabled or the event unknown; by message id, or "topic:" and topic, modulo the total of a best configuration; else the group's default, shard 0 of 512 or nothing; as configured for events without keys |
| Sharder.UnifiedSharder.FindTopicConfig | pkg/clmimicry/sharding.go:221-239 | with other callers storing and counting between its atomic steps: the configuration is best for its key, and the remembered one where its load finds one; what is left in the memo and the counter |
| Sharder.LookupLeavesEntry | pkg/clmimicry/sharding.go:224-238 | whatever other callers do, a lookup changes no entry, and leaves its key without one only if the counter had reached the cap |
| Sharder.LoneLookup | pkg/clmimicry/sharding.go:230-238 | a caller nobody interferes with keeps the count exact and the memo within exactly 4096 entries |
| Sharder.UnifiedSharder.ShouldProcess | pkg/clmimicry/sharding.go:109-189 | the decision is one that a best configuration leads to, and the remembered entry's where its lookup loads one, with other callers acting in between |
| Sharder.UnifiedSharder.ShouldProcessBatch | pkg/clmimicry/sharding.go:193-212 | every result is one ShouldProcess may give, and the remembered entry's where the item's lookup loads one, with other callers changing the memo between and during the lookups |
| Sharder.ReasonTellsDecisionIff | pkg/clmimicry/sharding.go:109-189 | any two decisions with the same reason, whatever the events and instances, process alike if and only if the reason is not "no topic configuration" of group A |
| ShardPartition.OfferedDecision | pkg/clmimicry/sharding.go:120-189 | where all best configurations agree, a keyed event is processed exactly if its shard is active |
| ShardPartition.PartitionedExactlyOnce | pkg/clmimicry/sharding.go:109-189 | with disjoint active lists that cover all shards, exactly one instance processes a keyed event |
| ShardPartition.OnceIffPartition | pkg/clmimicry/sharding.go:109-189 | exactly one instance processes the event under every hash if and only if the active lists partition the shards |
| ShardPartition.SoleMatchOffers | pkg/clmimicry/sharding.go:247-294 | where one pattern applies, or the event has an entry of its own name, its total and active shards are what every search offers |
| ShardPartition.SharedPatternOnceIffPartition | pkg/clmimicry/sharding.go:109-189 | instances that share one matching pattern and its total process a keyed event exactly once, under every hash, if and only if their active lists are disjoint and cover all shards |
| ShardPartition.UnconfiguredIsNotShared | pkg/clmimicry/sharding.go:133-180 | an event no pattern applies to is processed by all instances or by none |
| ShardMemo.InvariantHolds | pkg/clmimicry/sharding.go:221-239 | in every interleaving of callers the entries are those counted plus those stored and not yet counted, admitted below the cap, and every configuration found or remembered is best for its key |
| ShardMemo.MemoIsBounded | pkg/clmimicry/sharding.go:230-238 | with N callers the memo holds at most 4096 + N - 1 entries, exactly as many as counted plus stored and uncounted |
| ShardMemo.BoundIsReached | pkg/clmimicry/sharding.go:230-238 | for every N some interleaving of N callers reaches 4096 + N - 1 entries, so the bound is exact |
| ShardMemo.ReturnsAreBest | pkg/clmimicry/sharding.go:221-239 | every call returns a best configuration, and a call for a known key what is remembered |
| ShardMemo.MemoOnlyGrows | pkg/clmimicry/sharding.go:224-238 | what is remembered for a key, nothing included, never changes |
| ShardMemo.RememberedIsStable | pkg/clmimicry/sharding.go:224-238 | once a key is remembered every later call for it returns the same configuration at once |
| ShardRuns.AnswersAreAllowed | pkg/clmimicry/sharding.go:109-239 | in every interleaving of callers each answer, and each result of every batch, is one that the direct decision or a best configuration leads to |
| ShardRuns.RememberedDecides | pkg/clmimicry/sharding.go:224-228 | an item whose key is remembered when its lookup loads gets the decision of the remembered entry, in every interleaving |
| ShardRuns.CallerMoves | pkg/clmimicry/sharding.go:193-239 | in every interleaving a caller that is not through with its batch can go on |
| ShardRuns.CallerAdvances | pkg/clmimicry/sharding.go:193-239 | each of its steps brings it nearer to its end, at most five for each item, and the steps of others leave it where it is |
| ShardRuns.SettledAnswersAgree | pkg/clmimicry/sharding.go:224-238 | answers loaded from the memo, and that of the call that filled the entry, agree in every interleaving |
| ShardRuns.BatchAgreesWithCall | pkg/clmimicry/sharding.go:193-212 | in every interleaving a batch's result for an item is what any single call answers for it, where the best configurations do not disagree |
| ShardRuns.AlwaysAgreeIffUndisputed | pkg/clmimicry/sharding.go:221-239 | with two or more callers all answers for an event agree in every interleaving if and only if every best configuration for its key leads to the same decision |
| ShardRuns.DisputedIffTied | pkg/clmimicry/sharding.go:257-293 | the best configurations disagree about an event if and only if it has no entry of its own name and two applicable patterns of equal highest rate decide it differently |
| ShardRuns.TiesDisagree | pkg/clmimicry/sharding.go:230-238 | two patterns of equal rate under which two callers get different answers for the same event |

## Left out

- BatchProcessor: the processor is a step system on values rather than a class, because its state is shared by goroutines that interleave; a Write's sequential chunk loop is the method PrepareChunk.
- BatchProcessor: export timeouts and contexts are the free choice of an export's answer and of a call giving up; a second Start, negative worker counts and nil items put into the queue from elsewhere are not modelled.
- BatchProcessor: Timer.Reset discards a pending fire, as in Go 1.23 and later.
- BatchProcessor: Shutdown's early return on its context does not stop the goroutine behind it, which is what is modelled.
- ShardConfig.UnmarshalActiveShards: requires that no range ending at 2^64 - 1 is reached, because that loop never ends (SpanLoopEndsIff).
- ShardConfig.RateAndFirehose: rates are real numbers; float64 rounding is not modelled, nor what Go does with a float outside uint64.
- The coordinator's 16 dataset records (GetMarker, createLocation) are one optional marker; unknown dataset types are not modelled.
- Beacon slots are unbounded, so slot + lookahead does not wrap around.
- Blocks before the merge carry no payload, and reading a payload number or hash from one fails; Bellatrix blocks with an empty default payload are not modelled.
- Moving names such as "head" as identifiers: cached answers are about slots and roots of one canonical chain.
- Singleflight, semaphores and preload queues of the beacon node: they only share requests.
- The SipHash of a sharding key is a function to uint64, taken modulo the shard total; a pattern's regular expression is a predicate on topics.
- Parsing "EVENT:pattern" keys into constraints and compiling regular expressions; the categorizer's table of event groups is a parameter.
- The exact wording of decision reasons and errors: each is a constructor.
- Protobuf payloads, gRPC, HTTP, Kafka, ClickHouse, logging, metrics and tracing.

# MTSC: moving a KV cache in two stages

MTSC fills the KV cache of a request on a decode worker (D) in two stages. A Store delivers the tokens `[L, A)`, and the
prefill workers (P) then write `[A, T)` straight into D's blocks. This project models the parts of the repository that
decide whether that is correct, and proves what they promise. `dafny verify dfyconfig.toml` checks the whole project.

The models follow the source file by file.

* **Direct-transfer planner** (`Topology`, `Regions`, `Copies`, `Planner`, `Resharding`). Tensor-parallel ratios, region
  expansion, block pairing, run grouping and descriptor lists. Executing a descriptor list is described, for each
  destination address, by the ordered list of source addresses stored there. For every integer ratio of P and D ranks
  that passes the region validation, and any order of the writes, each requested byte is stored once and with the byte at
  the same position of the unsharded block, and nothing else changes.
* **Sender loop** (`SendProtocol`, `SendFence`, `SendReports`, `SendResponses`, `SendOutcomes`, `SendLoop`). Each stretch of
  code between two awaits is one atomic step of a state machine; TE writes complete at any time. `SendLoop` is the loop in
  its own form, whose methods are proved to take exactly those steps.
* **Receiver loop** (`ReceiveProtocol`, `ReceiveFence`, `ReceiveResolution`, `ReceiveLoop`). The same for the receiving
  side, on top of what the sender is proved to send, and exactly which receives can finish.
* **Both loops together** (`TransferFence`, `TransferOutcomes`, `ReceivedBytes`). A D rank and a P rank run as one system,
  connected by a pull message and the responses to it: once D gives blocks back, P does not write to them, and what D
  counts as a success is a write that has succeeded. A receive that is reported as a success has brought every byte.
* **Store** (`StoreKeys`, `Chunks`, `Lookup`, `HitSearch`, `SaveEvents`, `StripedSaves`, `SaveQueue`, `LoadPrefix`,
  `CachePool`). Key names, PUT striping, lookup and hit search, what a save writes, merging of saves, the save queue, and
  the loaded prefix. What all workers save together is what a lookup finds.
* **Worker and scheduler** (`TwoStage`, `LoadStages`, `LoadSafety`, `LoadReports`, `ReleaseBarrier`, `ReleaseSafety`,
  `ReleaseChain`, `ReleasePromises`, `SaveRanges`, `SchedulerSaves`, `SaveChain`, `WorkerLoop`, `SchedulerLoop`). Coverage
  of `[0, T)` by three fillers, the order of the two stages, the fate of untrusted blocks, the report of every load, the
  release of blocks, and incremental saves, over every run of scheduler, worker, pool and transfer together.
* **Memory registration** (`RegistrationRegions`). Merging of tensor views into few registered regions.

## What is assumed

* `L` is a multiple of every group's block size, and the block tables of P and D end at the same token.
* Hashes and block tables reach the end of the range of a load or save. Bounds of saves are multiples of the scheduler's
  block size; `SaveRanges` and `SchedulerSaves` prove this of the saves that the scheduler builds.
* The hashes and block tables of a tracked request only grow, and the tables reach the tokens that are scheduled.
* The external blocks that vLLM names for a transfer plan are, in every group, the block table from `L` on.
* A D rank pulls a transfer id from a paired P rank at most once; `ReceiveLoop.Receiver.Validate` is what enforces it on D.
  Pull messages name at least one request, and published sends have a request id.
* D's requested blocks are distinct and inside registered memory, and the KV tensors of a worker do not overlap.
* The sender's worker thread is blocked while it waits in `cancel`, and the receiver's while it waits for a fence. The
  response stream that a receiver relies on is the one that `SendResponses.ResponseStreams` proves.
* vLLM finishes a request once, schedules and preempts only unfinished requests, does not allocate a request whose load is
  still outstanding, and a request that has saved something still has blocks when it finishes. A cached request keeps its
  number of KV groups.
* A Store load that the pool has accepted ends with a prefix inside its range, and its untrusted blocks are those beyond
  that prefix; `LoadPrefix.LoadWork` and `CachePool.FinalFits` prove this of every way in which a load ends.
* A transfer id belongs to one request, which P announces any number of times and then publishes or cancels once. No write
  of P but those of its paired ranks reaches the blocks of a receive, and a write that the transfer engine of a P rank
  reports as a success has executed its copies; `TransferOutcomes.OkIsWritten` proves that an ok on D comes from one.
* P reads a pull message at most once; a P rank that cannot use it refuses it and opens no handler for it.
* All workers of an engine get the same saves. `StripedSaves.SavedIsFound` and `SaveChain.ScheduledIsFound` speak of a Store
  in which everything that the saves write has arrived and still is.
* The DCP rank of a worker is its TP rank modulo the DCP size.
* A prefix-cache manager returns the greatest length within a bound that is valid for its group, aligned as asked. For
  full attention a length is valid when every chunk below it is present; `Lookup.ManagersExist` shows that such managers
  exist.

## Where the code does not do what one would expect

* Replicated producers with different P and D block lengths pass the region validation. `Regions.ReplicatedExactness`
  shows that they are copied exactly if and only if the lengths are equal; `Regions.ReplicatedGap` is a concrete gap.
* A merged save writes more than its parts when the bounds are not aligned. `SaveEvents.MergeExactIff` gives the exact
  condition and `SaveEvents.UnalignedMergeDiffers` an example.
* A receive from an engine whose TP size has no integer ratio to D's is registered before `receive_kv` raises, and is then
  stranded: it never finishes, its blocks are never given back, and a fence that waits for it never returns unless some
  other connection is lost. `ReceiveResolution.FinishesIffRatio`: a registered receive can finish if and only if the sizes
  have an integer ratio. `ReceiveResolution.ThreeAndTwoHang` is an example with three D ranks and two P ranks. For an
  engine that D has talked to before, the exception also reaches the caller of `recv`, and it strands the receives of the
  engines after it in the same call as well (`ReceiveLoop.Receiver.Start`, `ReceiveResolution.StuckNeverFinishes`).
* A save that raises with an empty message as the only error of its batch is reported as a success, because the messages
  are joined and an empty result counts as no error. `SaveQueue.ResultsTellErrors` gives the exact condition and
  `SaveQueue.EmptyMessageIsLost` an example.

## Model

| member | source | states |
|---|---|---|
| Topology.TpRatio | mtsc/kv_transfer.py:262-280 | the signed ratio exists exactly for integer ratios and multiplies the smaller size to the larger |
| Topology.TargetRanks | mtsc/kv_transfer.py:461-469 | targets exist exactly for an integer ratio in the given direction |
| Topology.SymmetricPairing | mtsc/kv_transfer.py:461-469 | P rank p is a target of D rank d exactly when d is a target of p |
| Topology.TargetsInRange | mtsc/kv_transfer.py:461-469 | targets are distinct existing ranks, and there is at least one |
| Topology.TargetsPartition | mtsc/kv_transfer.py:461-469 | every remote rank is reached by some local rank |
| Topology.NeedSendCountsContacts | mtsc/kv_transfer.py:984-985 | `need_send` of a P rank is the number of D ranks that contact it |
| Topology.EffectiveTp | mtsc/utils.py:109-115 | exists exactly for positive sizes of which one divides the other, and is the smaller one |
| Topology.ShardsAreHeld | mtsc/utils.py:109-115 | it counts the shards: every rank holds one of them and every one is held |
| Regions.ExpandTransferRegions | mtsc/kv_transfer.py:283-311 | the loop yields the K and V halves of each region, or the regions unchanged |
| Regions.ExpansionAt | mtsc/kv_transfer.py:283-311 | where each expanded region comes from and that the halves tile its blocks |
| Regions.ValidateRegionLengths | mtsc/kv_transfer.py:367-418 | accepts exactly equal lengths, or lengths in the TP ratio, except for replicated producers |
| Regions.CompatibleSliceFits | mtsc/kv_transfer.py:314-348 | the slice of an accepted pair lies inside both blocks |
| Regions.SliceCoverage | mtsc/kv_transfer.py:314-348 | of the P ranks paired with a D rank exactly one covers a given byte of its block |
| Regions.SupplierPaired | mtsc/kv_transfer.py:314-348 | that P rank is one of the D rank's targets |
| Regions.SplitPosition | mtsc/kv_transfer.py:314-348 | without replication the slice takes the byte at the same position of the unsharded block |
| Regions.SlicePosition | mtsc/kv_transfer.py:314-348 | the same with and without replication |
| Regions.ReplicatedExactness | mtsc/kv_transfer.py:386-387 | a replicated producer covers every byte if and only if both block lengths are equal |
| Regions.ReplicatedGap | mtsc/kv_transfer.py:386-387 | a concrete accepted pair that leaves bytes unwritten |
| Copies.GroupContiguousCorrect | mtsc/kv_transfer.py:421-435 | runs are consecutive on both sides and concatenate back to the pairs |
| Copies.GroupContiguousMaximal | mtsc/kv_transfer.py:421-435 | neighbouring runs could not be joined |
| Copies.RunRefinesBlocks | mtsc/kv_transfer.py:1320-1341 | one long copy of a run stores the same bytes as its block copies |
| Copies.CoalescingRefines | mtsc/kv_transfer.py:351-364 | the emitted list stores the same bytes, in the same order, as the block-by-block list |
| Copies.BlockHits | mtsc/kv_transfer.py:1320-1341 | which pair of a block-by-block list stores at an address |
| Planner.BuildRequestTransferParams | mtsc/kv_transfer.py:1262-1342 | the nested loops compute the specified descriptors or the first failure |
| Planner.RequestedBlockPaired | mtsc/kv_transfer.py:1276-1293 | a requested block is paired with the source block at the same distance from the end of its table |
| Planner.CompatiblePlanSucceeds | mtsc/kv_transfer.py:1262-1342 | planning an accepted pair of ranks never fails |
| Planner.RankHits | mtsc/kv_transfer.py:1294-1342 | all regions together store at a requested byte exactly what the slice of its own region says |
| Planner.RankMisses | mtsc/kv_transfer.py:1294-1342 | nothing is stored outside the requested blocks |
| Resharding.PlansSucceed | mtsc/kv_transfer.py:1239-1260 | every paired P rank of a valid transfer builds its descriptors |
| Resharding.ByteExact | mtsc/kv_transfer.py:1262-1342 | after all paired P ranks have written, in any order, every requested byte is the one of the unsharded block |
| Resharding.OthersUnchanged | mtsc/kv_transfer.py:1262-1342 | no other byte of D changes |
| Resharding.StoredOnce | mtsc/kv_transfer.py:1262-1342 | each requested byte is stored exactly once over all paired P ranks |
| Resharding.ExpandedRegionsApart | mtsc/kv_transfer.py:751-754 | expanded regions of disjoint tensors never share a byte |
| Resharding.RegionsTileBlock | mtsc/kv_transfer.py:283-311 | every byte of a block belongs to one of the expanded regions |
| SendFence.StepInv | mtsc/kv_transfer.py:858-1002 | every step keeps the counters equal to the writes in flight and the acknowledging ranks |
| SendFence.SourceFence | mtsc/kv_transfer.py:987-1002 | once reported finished, expired or cancelled, a source is never read again in any run |
| SendFence.CancelledNeverFinishes | mtsc/kv_transfer.py:1052-1060 | a later report of a cancelled request is due to another source that all paired ranks acknowledged |
| SendFence.FinishReportsLive | mtsc/kv_transfer.py:946-955 | a finished send was in the table and acknowledged by every paired rank |
| SendReports.ReportedIsFenced | mtsc/kv_transfer.py:987-1002 | whatever a poll reports as sent or timed out, the source that it reports is never read afterwards |
| SendReports.ReportedAfterPublish | mtsc/kv_transfer.py:987-1002 | a request is reported only after it was published |
| SendReports.AllSourcesFenced | mtsc/kv_transfer.py:987-1002 | once a request that is published once is reported, no source of it is ever read again |
| SendReports.ReportedByOnePoll | mtsc/kv_transfer.py:987-1002 | such a request is reported by at most one poll |
| SendReports.PreemptFences | mtsc/kv_transfer.py:1070-1077 | after the cancellations of a preemption no write reads a source that was ready for the request, then or later |
| SendResponses.ResponseStreams | mtsc/kv_transfer.py:886-977 | a handler answers each pulled request at most once, and all of them when its only FINISH ends the stream |
| SendResponses.NormalEnd | mtsc/kv_transfer.py:886-977 | a handler that ends without an exception has sent FINISH last |
| SendResponses.StreamPrefix | mtsc/kv_transfer.py:886-977 | what was received so far of such a stream is one as well |
| SendResponses.AnsweredNeverWritten | mtsc/kv_transfer.py:909-973 | in every run, a handler that has answered a request never again writes to its blocks |
| SendOutcomes.WakeMeans | mtsc/kv_transfer.py:914-927 | exactly the waiters whose source the table still names are read, and exactly the others expire |
| SendOutcomes.AnswerMeans | mtsc/kv_transfer.py:930-977 | a response says ok exactly for the planned requests of a write that succeeded, and error for all its others and the expired ones |
| SendOutcomes.OkIffWritten | mtsc/kv_transfer.py:886-977 | in every run a handler has said ok for a request if and only if it ended a write for it that was planned and succeeded |
| SendOutcomes.OkIsAcknowledged | mtsc/kv_transfer.py:952-960 | in every run the source of such a request counts as acknowledged by that D rank |
| SendOutcomes.LastAcknowledgementReports | mtsc/kv_transfer.py:952-963 | when the last paired D rank acknowledges a source that is in the table, its request is reported as sent |
| SendOutcomes.ReleasedForReason | mtsc/kv_transfer.py:987-1002 | a source is released only because a poll found it overdue, its cancellation returned, or every paired D rank acknowledged it |
| SendLoop.Sender.GetOrCreate | mtsc/kv_transfer.py:781-786 | `setdefault` of a source record |
| SendLoop.Sender.Prepare | mtsc/kv_transfer.py:781-786 | the step `Prepare` |
| SendLoop.Sender.Publish | mtsc/kv_transfer.py:796-800 | the step `Publish`: the record of the transfer id has the blocks and the deadline, and is ready |
| SendLoop.Sender.CancelBegin | mtsc/kv_transfer.py:1052-1056 | the step `CancelBegin`: the name is gone, its waiters wake up, and which source is drained |
| SendLoop.Sender.DrainTurn | mtsc/kv_transfer.py:1057-1060 | the drain loop ends exactly when no write reads the source |
| SendLoop.Sender.ToPreempt | mtsc/kv_transfer.py:1070-1075 | exactly the transfers that a preemption cancels, each once; `SendReports.PreemptFences` says what the cancellations achieve |
| SendLoop.Sender.FetchFinished | mtsc/kv_transfer.py:987-1002 | the step `Poll`: finished requests, and exactly the sources that are named, past their deadline and not read, are reported and dropped |
| SendLoop.Sender.Open | mtsc/kv_transfer.py:872-884 | the step `Open`: placeholders and what the handler waits for |
| SendLoop.Sender.Wake | mtsc/kv_transfer.py:909-927 | the step `Wake`: exactly the waiters whose source the table still names are read, the others expire |
| SendLoop.Sender.Finish | mtsc/kv_transfer.py:946-977 | the step `Finish`: which requests the response calls ok and which error, which sources count as sent, and which requests are finished |
| SendLoop.Sender.TimeOut | mtsc/kv_transfer.py:893-906 | the step `TimeOut`: everything still waiting is answered with an error, and the stream is finished |
| SendLoop.Sender.Abandon | mtsc/kv_transfer.py:957-959 | the step of a write that raises: reading stops without an acknowledgement |
| SendLoop.WritesOrderly | mtsc/kv_transfer.py:909-927 | in every run a write reads different live transfers and counts as reading each |
| SendLoop.AcknowledgedInTurn | mtsc/kv_transfer.py:946-955 | acknowledging in a loop equals acknowledging together, so that a pop completes one send |
| ReceiveFence.StepInv | mtsc/kv_transfer.py:1410-1528 | every step keeps `pull_tasks_count` equal to the unanswered P ranks and the tables consistent |
| ReceiveFence.FinishesSettles | mtsc/kv_transfer.py:1432-1450 | a step finishes exactly the receives whose last P rank answers in it |
| ReceiveFence.FinishedOnce | mtsc/kv_transfer.py:1410-1418 | in every run a receive is finished at most once |
| ReceiveFence.FinishedReport | mtsc/kv_transfer.py:1410-1418 | the step that finishes a receive leaves it to be collected, failed exactly when the engine is unknown or some P rank said so |
| ReceiveFence.ReportedAsAnswered | mtsc/kv_transfer.py:1004-1025 | a result is reported after all paired P ranks answered, as a success exactly when all said ok |
| ReceiveFence.NoLostCompletion | mtsc/kv_transfer.py:1452-1502 | when all connections ended without a loss, every receive of the group is finished or collected |
| ReceiveFence.DestinationFence | mtsc/kv_transfer.py:1504-1528 | once blocks are given back, every P rank that was told their addresses has answered for the request, then and later |
| ReceiveFence.ErrorAbsorbs | mtsc/kv_transfer.py:1481-1493 | a lost fence stays, wakes every waiter, and nothing is accepted, reported or given back afterwards |
| ReceiveResolution.PeersAreTargets | mtsc/kv_transfer.py:1420-1430 | in every run a group is pulled from exactly as many P ranks as the D rank has targets |
| ReceiveResolution.NoRatioNeverFinishes | mtsc/kv_transfer.py:1420-1423 | without an integer ratio a registered receive never finishes, is never given back and blocks a fence |
| ReceiveResolution.RatioCanSucceed | mtsc/kv_transfer.py:1420-1450 | with an integer ratio every run can go on so that the receive is reported as a success |
| ReceiveResolution.FinishesIffRatio | mtsc/kv_transfer.py:1420-1423 | a registered receive can finish if and only if the sizes have an integer ratio |
| ReceiveResolution.ThreeAndTwoHang | mtsc/kv_transfer.py:461-469 | a concrete accepted receive that can never finish |
| ReceiveResolution.StuckNeverFinishes | mtsc/kv_transfer.py:839-846 | receives whose turn comes after the exception never finish either |
| ReceiveResolution.LaunchIsPath | mtsc/kv_transfer.py:839-846 | what `recv` does after registering is a sequence of steps of the receiver |
| ReceiveFence.SenderIsAcceptable | mtsc/kv_transfer.py:1470-1478 | every message that the sender sends in any run is one that the receiver relies on |
| TransferFence.DeliveryIsAccepted | mtsc/kv_transfer.py:1470-1478 | in every joint run the next response of the handler is accepted by the peer that pulled |
| TransferFence.NoWriteAfterGiveBack | mtsc/kv_transfer.py:1504-1528 | in every joint run, once D gives blocks back, the P handler that was told their addresses does not write to them, then or later |
| TransferOutcomes.OksAreHeard | mtsc/kv_transfer.py:1432-1450 | in every run D counts exactly those requests of a P rank as successes that it was heard to call ok |
| TransferOutcomes.OkIsWritten | mtsc/kv_transfer.py:946-977 | in every joint run a success on D is a write for that request that ended with success, in the handler that was told D's addresses |
| ReceiveLoop.Receiver.Validate | mtsc/kv_transfer.py:810-822 | accepts exactly new request and transfer ids |
| ReceiveLoop.Receiver.Start | mtsc/kv_transfer.py:810-846 | a lost fence or a rejected event raises and changes nothing; else all events are recorded as given, one group for each engine, and started, and it raises exactly for a known engine without integer ratio |
| ReceiveLoop.Receiver.StartLoads | mtsc/kv_transfer.py:839-846 | engine by engine: unknown ones wait, known ones are pulled at once, an exception strands its engine and leaves the rest alone |
| ReceiveLoop.Receiver.ReceiveKv | mtsc/kv_transfer.py:1420-1430 | one pull task for each target rank, or an exception exactly without an integer ratio |
| ReceiveLoop.Receiver.RegisterAll | mtsc/kv_transfer.py:824-836 | one pull dictionary per engine |
| ReceiveLoop.Receiver.FinishReceive | mtsc/kv_transfer.py:1410-1418 | a receive is marked as finished, failed if asked, and its future is done |
| ReceiveLoop.Receiver.ProcessPullingResult | mtsc/kv_transfer.py:1432-1450 | the step `Process`: request by request gives the same as all at once |
| ReceiveLoop.PullingResultsOrderly | mtsc/kv_transfer.py:1432-1450 | in every run a response names outstanding requests, each once |
| ReceiveLoop.Receiver.Fetch | mtsc/kv_transfer.py:1004-1025 | exactly the finished receives with their outcome, every real block of a failed one untrusted, or the fatal error |
| ReceiveLoop.Receiver.TakeErrors | mtsc/kv_transfer.py:1039-1043 | all untrusted blocks, once, or an exception |
| ReceiveLoop.Receiver.FenceReturns | mtsc/kv_transfer.py:1516-1525 | the step `FenceEnd`: the requests are discarded unless the fence was lost |
| StoreKeys.KeyNamesDiffer | mtsc/kv_cache_pool.py:255-264 | printed keys differ for hashes without the separator, whatever the model name |
| StoreKeys.BlockNamesDiffer | mtsc/kv_cache_pool.py:336-367 | different metadata or block hashes never share a Store name |
| StoreKeys.StripedOnce | mtsc/kv_cache_pool.py:992-1007 | every key that a lookup asks for has exactly one worker whose turn it is; `StripedSaves.SavedByExactlyOne` ties it to what a save selects |
| StripedSaves.SelectsInTurn | mtsc/kv_cache_pool.py:1623-1652 | a worker saves exactly the chunks in whole segments of the range, with a hash, wanted by the template, when it is its turn |
| StripedSaves.SavedByExactlyOne | mtsc/kv_cache_pool.py:1637-1646 | for every rank that a lookup asks for exactly one worker saves such a chunk under that rank's metadata |
| StripedSaves.NothingElseSaved | mtsc/kv_cache_pool.py:1623-1652 | no worker saves anything else |
| StripedSaves.SameKeysSameShard | mtsc/kv_cache_pool.py:990-1009 | workers that share their keys hold the same heads |
| StripedSaves.SavedIsHeld | mtsc/kv_cache_pool.py:1623-1652 | once all workers have stored what an event makes them write, every rank that a lookup asks for holds every chunk it covers |
| StripedSaves.SavedIsFound | mtsc/kv_cache_pool.py:1165-1204 | after successive saves of all workers a lookup finds every aligned length up to their end |
| SaveChain.ScheduledSavesAreSuccessive | mtsc/scheduler.py:336-402 | in every run of the scheduler the saves of a request on P follow each other from its first token to where it counts as saved |
| SaveChain.ScheduledIsFound | mtsc/scheduler.py:336-402 | what the scheduler had saved of a request on P is found by a later lookup of a request with the same hashes |
| StoreKeys.WorkersAreLookedUp | mtsc/kv_cache_pool.py:1493-1521 | the keys of every worker are among those that a lookup asks for |
| Chunks.ProcessTokens | mtsc/kv_cache_pool.py:1546-1572 | the chunks in range, mask and turn, in order and no others |
| Chunks.ChunksStable | mtsc/kv_cache_pool.py:336-367 | further hashes leave the earlier chunks as they are |
| Chunks.ChunksCover | mtsc/kv_cache_pool.py:336-367 | hashes that reach a token include every chunk below it |
| Chunks.ChunkHashesDiffer | mtsc/kv_cache_pool.py:353-367 | two chunks have the same hash exactly if they have the same token hashes |
| Chunks.BlocksTile | mtsc/kv_cache_pool.py:300-318 | the blocks of a region lie one after the other from its base on, each as long as the sizes say |
| Lookup.LookupMetadata | mtsc/kv_cache_pool.py:1493-1521 | lists each rank of the topology once |
| Lookup.Candidates | mtsc/kv_cache_pool.py:1172-1192 | the chunks of all groups that start below the token count |
| Lookup.BuildKeys | mtsc/kv_cache_pool.py:1184-1191 | key `index * ranks + rank` belongs to that candidate and rank |
| Lookup.Present | mtsc/kv_cache_pool.py:1194-1203 | a candidate is present exactly when the Store holds it for every rank |
| Lookup.HitIsLoadable | mtsc/kv_cache_pool.py:1165-1205 | if all chunks below a length are present, every worker finds them under its own keys |
| Lookup.FullIsDownwardClosed | mtsc/kv_cache_pool.py:605-612 | full attention can use any aligned part of what it can use, so that asking it once is enough |
| Lookup.Lookup | mtsc/kv_cache_pool.py:1165-1205 | the length that lookup returns is the greatest that all groups can use with what the Store holds, and every worker finds every chunk of every full attention group below it |
| HitSearch.FindSingle | mtsc/kv_cache_pool.py:575-590 | a single group gives its greatest valid length |
| HitSearch.FindHit | mtsc/kv_cache_pool.py:592-639 | the loop ends with the greatest length that is valid for all groups, with and without the early exit |
| SaveEvents.MasksAgree | mtsc/kv_cache_pool.py:510-547 | the mask of fewer tokens is the beginning of the mask of more |
| SaveEvents.SuffixMask | mtsc/kv_cache_pool.py:1532-1544 | the suffix masks of incremental saves select the same chunks as whole masks |
| SaveEvents.SelectItems | mtsc/kv_cache_pool.py:1623-1652 | keys, addresses and sizes of exactly the selected chunks, in order, each of the block that the table of its group has for it, or an index error; `StripedSaves.SelectsInTurn` says which chunks |
| SaveEvents.Merge | mtsc/kv_cache_pool.py:1247-1275 | merges exactly when the tables extend and the ranges touch, with the distinct signals of both |
| SaveEvents.MergedWrites | mtsc/kv_cache_pool.py:1247-1275 | a merged event writes what its parts write, with the same keys and memory, and the chunks in the seam |
| SaveEvents.MergeExactIff | mtsc/kv_cache_pool.py:1251-1252 | merging preserves what is written if and only if no chunk lies in the seam |
| SaveEvents.AlignedMergeExact | mtsc/kv_cache_pool.py:1247-1275 | aligned bounds leave no seam |
| SaveEvents.AlignedMergeWrites | mtsc/kv_cache_pool.py:1247-1275 | then the merged event writes exactly the keys, addresses and sizes that its parts write |
| SaveEvents.UnalignedMergeDiffers | mtsc/kv_cache_pool.py:1623-1631 | a concrete merge that writes more than its parts |
| SaveEvents.PushAdds | mtsc/kv_cache_pool.py:1289-1301 | submitting adds exactly the keys, addresses and sizes that the event writes and the signals it awaits, merged or not |
| SaveEvents.CoalescingPreservesMeaning | mtsc/kv_cache_pool.py:1277-1301 | a coalesced queue writes the same keys from the same memory, and awaits the same signals, as its events one by one |
| SaveQueue.StepAccepted | mtsc/kv_cache_pool.py:1277-1314 | only accepting, reporting and preempting change what is outstanding, and works only grow |
| SaveQueue.AcceptedIsQueued | mtsc/kv_cache_pool.py:1277-1314 | submitted and pending saves are the accepted events in order, adjacent ones merged; they write exactly the same items and await the same signals |
| SaveQueue.ResultsTellErrors | mtsc/kv_cache_pool.py:1380-1401 | a result comes when everything accepted has ended, with an error exactly when some save raised, one empty message apart |
| SaveQueue.EmptyMessageIsLost | mtsc/kv_cache_pool.py:1383-1388 | a save that raises without a message is reported as a success |
| LoadPrefix.LoadedPrefix | mtsc/kv_cache_pool.py:1316-1325 | the least start of a failed block in range, or the end |
| LoadPrefix.PrefixIsClean | mtsc/kv_cache_pool.py:1237-1245 | nothing failed below the prefix, and every failed real block is reported |
| LoadPrefix.RangeBlocksMember | mtsc/kv_cache_pool.py:1327-1335 | exactly the real blocks whose index is in the range of their group |
| LoadPrefix.RequestLoadBlocks | mtsc/kv_cache_pool.py:1574-1580 | all real blocks that the load asks for |
| LoadPrefix.PlanFetches | mtsc/kv_cache_pool.py:1582-1607 | exactly the chunks in range, hashes and mask, or an exception for a missing or cut block |
| LoadPrefix.FailedFetches | mtsc/kv_cache_pool.py:1608-1620 | blocks with a negative status, or all for an unusable reply |
| LoadPrefix.LoadWork | mtsc/kv_cache_pool.py:1228-1245 | whatever the Store does, chunks below the prefix were delivered and the rest is reported |
| CachePool.Pool.Validate | mtsc/kv_cache_pool.py:1207-1217 | accepts exactly ordered ranges, known groups and registered blocks |
| CachePool.Pool.Save | mtsc/kv_cache_pool.py:1277-1301 | the step of the save queue, or an exception that changes nothing |
| CachePool.Pool.Append | mtsc/kv_cache_pool.py:1283-1300 | the pending queue takes in an event |
| CachePool.Pool.AdvanceSave | mtsc/kv_cache_pool.py:1303-1314 | a finished save is collected and the next one submitted |
| CachePool.Pool.Load | mtsc/kv_cache_pool.py:1219-1226 | a load is accepted unless an uncollected one exists |
| CachePool.Pool.PollLoads | mtsc/kv_cache_pool.py:1337-1379 | exactly the ended loads are reported and dropped, as they ended, or as failed with all their blocks untrusted if a poll found them late; the others are marked late exactly after the timeout |
| CachePool.FinalFits | mtsc/kv_cache_pool.py:1346-1362 | however a load ends, it ends in its range and leaves untrusted exactly its blocks beyond the result |
| CachePool.Pool.PollSaves | mtsc/kv_cache_pool.py:1380-1401 | all queues advance, exactly the idle ones are reported and dropped |
| CachePool.Pool.TakeErrors | mtsc/kv_cache_pool.py:1404-1408 | all untrusted blocks, once |
| CachePool.Pool.Preempt | mtsc/kv_cache_pool.py:1410-1425 | it returns once the running save and load are cancelled or have ended, and nothing of the request is left |
| CachePool.Pool.WaitForAllSaves | mtsc/kv_cache_pool.py:1427-1436 | all queues run dry, nothing accepted is dropped, no error is forgotten |
| TwoStage.SuffixBlocks | mtsc/worker.py:148-164 | group by group the blocks after the loaded prefix, cut to the window |
| TwoStage.CandidateBlocks | mtsc/worker.py:137-146 | exactly the blocks that the Store may fill |
| TwoStage.SuffixIsTail | mtsc/worker.py:148-164 | without a window the suffix is the block table from the loaded prefix on, aligned or not |
| TwoStage.SuffixIsWindow | mtsc/worker.py:148-164 | with a window it is the end of that tail, no longer than the window |
| TwoStage.LocalIsWhole | mtsc/worker.py:148-164 | a local block lies wholly in the local prefix |
| TwoStage.StoreFills | mtsc/kv_cache_pool.py:1582-1621 | every block index left to the Store was delivered, even if the prefix ends inside the block |
| TwoStage.ReceiverFills | mtsc/worker.py:166-186 | every block index left to P is requested and paired with P's block of the same index |
| TwoStage.OneWriter | mtsc/worker.py:148-164 | a local or Store block is not requested from P |
| TwoStage.TwoStageBytes | mtsc/worker.py:166-186 | once the paired P ranks have executed their copies, every byte left to P is the one of the unsharded block of the same index |
| TwoStage.HiddenIsRequested | mtsc/worker.py:421-428 | a hidden untrusted block is in the suffix that is requested from P |
| LoadSafety.PlansComeWithLoads | mtsc/scheduler.py:246-300 | a plan that waits for the Store travels with the load of the same range, blocks and number |
| LoadSafety.NeverStuck | mtsc/worker.py:254-275 | a request in transfer is loaded by the pool or received, and its stage says which |
| LoadSafety.StoreBeforeReceive | mtsc/worker.py:254-275 | a receive starts once, after the Store load ended or if none was needed, with the right suffix |
| LoadSafety.ReceivedOnce | mtsc/worker.py:217-309 | a load is reported as received once, unless metadata names the request again |
| LoadReports.NamedUntilTold | mtsc/worker.py:217-309 | in every run a load that metadata names is with the worker until it is reported, preempted, or ends with nothing to receive |
| LoadReports.BusyUntilTold | mtsc/worker.py:217-309 | so is whatever the pool, the transfer or the transfer table has |
| LoadReports.TransferUntilTold | mtsc/worker.py:277-308 | the transfer table loses a request in no other way |
| LoadSafety.PoolOnlyReports | mtsc/worker.py:421-428 | in every run, an untrusted block of a load without transfer is an error from the cycle on that reports the request |
| LoadSafety.TransferTakesOver | mtsc/worker.py:421-428 | in every run, an untrusted block of a load with transfer is in the suffix requested in the same cycle, at an index left to P |
| LoadSafety.FailedReceiveReports | mtsc/worker.py:277-308 | when the receive fails, however much later, every block that was left to P is an error |
| LoadSafety.HiddenIsReported | mtsc/worker.py:277-308 | a block that a transfer hides when the Store load ends is an error once the receive fails |
| LoadSafety.ErrorsStay | mtsc/worker.py:439-441 | an error stays one until vLLM is told |
| LoadSafety.NoSilentBadBlock | mtsc/worker.py:406-441 | an untrusted block is an error at once, or a receive is to overwrite it that at every later time is in progress, has succeeded, was preempted, or failed and made it an error |
| LoadSafety.RewrittenByReceive | mtsc/worker.py:166-186 | once the paired P ranks have executed their copies, every byte of such a block is the one of the unsharded source block |
| ReceivedBytes.SuccessIsExecuted | mtsc/kv_transfer.py:1004-1025 | a receive that is reported as a success was executed by every P rank that is paired with the D rank |
| ReceivedBytes.ReceivedBytes | mtsc/worker.py:166-186 | after a receive that is reported as a success every byte left to P is the one of the unsharded block |
| ReceivedBytes.RewrittenBySuccess | mtsc/worker.py:421-428 | the same for a block that the Store left untrusted |
| ReleaseSafety.RecordsAlwaysExact | mtsc/worker.py:196-215 | running saves are recorded exactly, sends have their wait record, waits are held only while needed |
| ReleaseSafety.ReleaseIsSafe | mtsc/worker.py:206-215 | a request is reported only with no save in the pool or on its way and no send to come |
| ReleaseSafety.DelayedIsSomewhere | mtsc/scheduler.py:487-491 | a delayed request is always waiting, announced, held or reported |
| ReleaseSafety.ReportedOnce | mtsc/worker.py:206-215 | a finished request is reported once |
| ReleaseChain.ReleaseIsFenced | mtsc/worker.py:196-215 | with the sender loop: a reported request has no save in the pool, and from the poll that reported its send on no source of it is read |
| ReleaseChain.PollsReportOutstanding | mtsc/worker.py:206-215 | what a poll of the sender loop reports is a send that was published and not reported before |
| ReleasePromises.FinishMeans | mtsc/scheduler.py:458-499 | a source is published as ready exactly for a request that finished at its length with blocks to send, and as cancelled for any other that P was to send; what its release waits for |
| ReleasePromises.CappedIsSentFirst | mtsc/worker.py:196-215 | in every run such a request reaches the worker as ready, and its release is collected only after the transfer has reported its send |
| ReleasePromises.CappedStaysDelayed | mtsc/scheduler.py:487-491 | until then its release stays delayed |
| WorkerLoop.Worker.HandlePreemptions | mtsc/worker.py:120-135 | every record of the preempted requests is dropped |
| WorkerLoop.Worker.UpdateLoadMetadata | mtsc/worker.py:311-340 | loads are recorded, new plans enter their stage, second plans are ignored |
| WorkerLoop.Worker.UpdateSaveMetadata | mtsc/worker.py:350-370 | saves are recorded and reopen a wait |
| WorkerLoop.Worker.UpdateWaits | mtsc/worker.py:396-404 | new waits start with what is running |
| WorkerLoop.Worker.AggregateSendFinished | mtsc/worker.py:196-215 | ends are marked, exactly the finished waits are reported and dropped |
| WorkerLoop.Worker.StartTransfers | mtsc/worker.py:254-275 | exactly the requests whose Store stage is over are handed to the transfer, each once |
| WorkerLoop.Worker.AggregateRecvFinished | mtsc/worker.py:217-309 | exactly the ended pool-only loads and the ended receives with tokens to receive are reported; blocks of failed receives become errors; exactly the due receives are submitted, each once with its suffix |
| WorkerLoop.Worker.RecordErrors | mtsc/worker.py:421-428 | untrusted blocks count unless a transfer may overwrite them |
| WorkerLoop.Worker.GetFinished | mtsc/worker.py:406-437 | one cycle of the worker as the two state machines describe it: which requests are reported, which blocks become errors, and exactly the due receives submitted |
| SaveRanges.AppendBlocks | mtsc/scheduler.py:320-334 | group by group, nothing without new blocks, or an exception for a changed number of groups |
| SaveRanges.SavesAreContiguous | mtsc/scheduler.py:336-361 | saves are aligned, not empty, and each starts where the one before ended |
| SaveRanges.NeverPassesKnownTokens | mtsc/scheduler.py:341-361 | no save passes the known or scheduled tokens, and each brings all hashes and blocks known then |
| SaveRanges.NothingLeft | mtsc/scheduler.py:341-351 | after every turn of a request no whole block that is due is left to be saved |
| SaveRanges.SuccessiveSavesMerge | mtsc/scheduler.py:336-361 | successive saves of a request can always be merged |
| SchedulerSaves.SavesFormLife | mtsc/scheduler.py:363-402 | in every run of the scheduler, the saves published for a tracked request are those of one life |
| SchedulerSaves.ScheduledSavesAreContiguous | mtsc/scheduler.py:336-402 | they are aligned, contiguous from the right start, and end where the request counts as saved |
| SchedulerSaves.ScheduledIsSaved | mtsc/scheduler.py:363-402 | in every run building the metadata of a step leaves no due block of a scheduled request unsaved |
| SchedulerSaves.ScheduledSavesMerge | mtsc/scheduler.py:336-402 | successive ones always merge in the pool |
| SchedulerLoop.Scheduler.GetNumNewMatchedTokens | mtsc/scheduler.py:169-226 | the decisions and the external tokens, nothing while the lookup is pending |
| SchedulerLoop.Scheduler.UpdateStateAfterAlloc | mtsc/scheduler.py:228-318 | decisions become loads and plans of one number; P announces a send once |
| SchedulerLoop.Scheduler.BuildSaves | mtsc/scheduler.py:363-402 | the saves of the scheduled requests that are neither loading nor excluded |
| SchedulerLoop.Scheduler.BuildConnectorMeta | mtsc/scheduler.py:363-456 | the metadata of a step and what is kept, without finished and preempted requests |
| SchedulerLoop.Scheduler.RequestFinished | mtsc/scheduler.py:458-499 | which source state is published, the wait of a finished request in terms of its saves, its blocks and its end, and whether its release is delayed |
| SchedulerLoop.Scheduler.UpdateConnectorOutput | mtsc/scheduler.py:515-522 | nothing of a released request is left |
| RegistrationRegions.Sort | mtsc/utils.py:67-68 | an ordered permutation |
| RegistrationRegions.MergeRanges | mtsc/utils.py:69-82 | every view lies in one region, regions are more than the gap apart, and include only small gaps |
| RegistrationRegions.RegionsUnique | mtsc/utils.py:69-82 | the views determine the regions: no other list keeps that promise |
| RegistrationRegions.RegistrationRegions | mtsc/utils.py:44-89 | the same for every storage, or an exception exactly when the regions are too many |

## Left out

- SendLoop.Sender.Publish: `SendBlockMeta` objects are records in a list whose place is the object's identity; two names for one object are two equal numbers.
- SendLoop.Sender.Wake: which requests planning rejects is chosen when the write starts, and a write without descriptors ends in a step of its own; both only add interleavings.
- ReceiveLoop.Receiver.RegisterAll: `PullReqMeta` objects are entries of their group, and the task that talks to one P rank is a peer of the group.
- CachePool.Pool.Preempt: how an awaited save or load ends is arbitrary, and whether the executor could cancel it is a parameter.
- LoadSafety.ReceivedOnce: that a load is reported at least once depends on the Store and on P, whose answers may never come.
- ReleaseChain.ReleaseIsFenced: which poll of the sender loop a worker cycle sees is given by a function.
- TransferFence.NoWriteAfterGiveBack: the joint system has one P rank and one pull message; other ranks and messages take part as arbitrary steps of the two loops.
- CachePool.Pool.WaitForAllSaves: how a running save ends is arbitrary.
- HitSearch.FindHit: groups with eagle heads, which drop a block once per search, are not modelled; the hit blocks themselves are not either, only the hit length.
- SaveEvents.MasksAgree: the template of a store mask is any list with one entry per chunk of a segment; how sliding windows and Mamba layers choose it is vLLM's.
- StripedSaves.SavedIsFound: the length that a lookup finds with groups without full attention depends on their managers, which are vLLM's.
- TwoStage.StoreFills: groups with a sliding window or Mamba layers load only part of their chunks; coverage is stated for full attention.
- SchedulerLoop.Scheduler.GetNumNewMatchedTokens: checking the transfer parameters and truncating Mamba prompts are left out; the target is.
- RegistrationRegions.RegistrationRegions: views arrive as address ranges grouped by storage.
- ZMQ sockets, msgpack, the HTTP bootstrap, executors and event-loop set-up: messages arrive and tasks complete in any order.
- Closing: `close`, `_abort_all_sends` and a fence over all receives, which also forgets the retired transfer ids.
- Tensors, device events and the Mooncake bindings: memory is a function from addresses to bytes, a ready event a number, and the Store a set of names with a status per key.
- Clocks: times are integers that the caller passes in.
- Lookup masks, which vLLM 0.23 does not have, and the lookup server and client.
- Load reports and traces, which only feed logging.
- `mtsc/connector.py`, the proxy, configuration, environment variables and Ascend set-up: they carry no property beyond single branches.

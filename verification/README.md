# Verification of verl's weight transfer, offloading, balancing and index arithmetic

A Dafny model of the parts of verl whose correctness rests on protocols, running state or index
arithmetic, with proofs of what they promise. `dafny verify dfyconfig.toml` checks everything.

## What is modelled

**Weight transfer.** `WeightChunks` splits weights into chunks and merges them back, byte by byte;
`Buckets` packs chunks into buckets and a sender's buffer; `Alignment` says where a weight comes to lie
and when it can be viewed there, `MergeConserves` what merging guards on any stream; `SendLoop` is the
part of the sending loop both transports share. `NixlChain` is the chain of ranks as a state machine (a
rank reads bucket i + 1 while it yields bucket i and exposes it to its successor), `NixlSafety` its
invariant, `NixlDelivery` safety of every reachable state, freedom from deadlock, termination and
delivery. `NcclBroadcast` and `NcclDelivery` do the same for the double-buffered broadcast. `NixlAgent`
holds the per-peer queues and the topology. Memory is a sequence of cells with an explicit value for
bytes never written, so a read of stale or uninitialised memory would show. Transfers copy single cells
at arbitrary moments between start and completion; an `await` is a guard; a run is any sequence of
enabled steps.

**Activation offloading.** `WindowMap` is the arithmetic window map, `OffloadHandler` the handler as a
class whose methods are tied to value functions, `OffloadRuns` its runs: L forward commits with arbitrary
pushes, L backward commits with the pops between them, any number of iterations.

**Balancing.** `DifferencingSpec` and `BalancedPartitions` state and prove the largest differencing
method on values; `KarmarkarKarp` is the same method on mutable set and state objects. `NoTies` shows
that no two queued states tie, `MergeOrder` which two a merge takes, `SeparatedItems` that items of one
state never meet. `GreedyPartition` and `GreedyEqualSizes` cover the greedy partitioner, `Interleave` the
bubble-reducing order, `MicroBatches`, `TokenLimit` and `DynamicBatch` micro-batches and the restoration
of the original order, `BalanceBatch` the trainer's reordering, and `GroupBalance` partitions that keep
uid groups together.

**Index arithmetic.** `QkvLayout` has both conversions of a fused query/key/value weight and
`QkvReplicated` and `QkvConcat` what they do with shared heads and with any shards, `ContextParallel` the
dynamic context-parallel split and merge, `PackPad` packing, padding and their gradients, `FanOut` the
pad, chunk, concatenate and unpad law over workers. `TorchChunk`, `Sequences`, `Arithmetic` and
`Wrappers` are shared.

## Where code and documentation part

- `merge_weight_chunks` views a weight that fits a bucket in place, and `view(dtype)` refuses an offset
  that is not a multiple of the item size. Mixed precision, which the repository allows for, is therefore
  delivered exactly when every such weight happens to be aligned (`BucketsRebuildWeights`,
  `MixedPrecisionStops`); one item size dividing the bucket size suffices (`OneItemSizeAligns`).
- `get_notification` reuses the parameter name as loop variable: the caller is served for all polls
  exactly when no other peer notifies (`NotificationServedIff`). On a chain each rank has one notifying
  peer, so its queues behave as the first-in first-out queues of the chain's links.
- `build_topology` gives a chain exactly for two or more rollout workers (`TopologyIsChainIff`).
- A group is restored exactly when tensors with equal keys have equal contents (`ReloadRestoresIff`);
  views of one storage with different lengths do not (`SharedKeyIsNotRestored`).
- With N = L the offload handler moves only the first group off the device (`OffloadedExactly`).
- With equal sizes the greedy partitioner balances counts; the weights differ by at most the ranges of
  the blocks (`EqualSizesSpread`), and by at most the largest item for all lists only with one part or
  one item per part (`EqualSizesBalanceIff`).
- Samples with one uid are in one partition whatever the lengths exactly when they are contiguous or
  there is one partition (`KeptTogetherIff`).
- The hand-written gradients are right exactly for distinct indices (`AdjointIff`), and `cu_seqlens` for
  bool masks and for integer masks that do not overlap (`CuSeqlensCutRowsIff`).
- The documentation of `seqused` counts `unused_mask` too (verl/utils/npu_flash_attn_utils.py:110); the
  code sums `attention_mask` only (line 114), and so does `UnpadInput`.
- `dynamic_cp_split_batch` fails on a rank that is left without a row: all ranks split exactly when the
  last one's slice starts inside the batch (`SplitAgreesIff`), which five sequences over four ranks at
  size 1 do not meet (`LastRankFails`), nor any size that does not divide the data-parallel size
  (`SizeMustDivide`).
- When all sequences are empty the context-parallel size is 2, not 1 (`LocalSizeIsLeastIff`).
- The docstring of `rearrange_micro_batches` says that micro-batches stay within `max_token_len`; the
  code only derives their number from it. With the default arguments they do for all batches of a size
  exactly when there are at most two samples and no forced groups (`DefaultTokenLimitIff`); with others,
  exactly when these force one sample each or a failure (`TokenLimitIff`). What is bounded is the
  heaviest workload (`HeaviestMicroBatch`). A requested minimum above the number of groups is documented
  to add empty micro-batches; the code refuses it (`MicroCountIsLeast`).

## Model

| member | source | states |
|---|---|---|
| WeightChunks.SplitWeightChunks | verl/checkpoint_engine/base.py:517-543 | the generator loop yields exactly the chunks of all weights, in order |
| WeightChunks.ChunksAreCut | verl/checkpoint_engine/base.py:529-543 | every chunk is a non-empty stretch of its weight that fits a bucket, and all but the last fill one |
| WeightChunks.ChunksTile | verl/checkpoint_engine/base.py:529-543 | laid end to end, the chunks of a weight are its bytes |
| WeightChunks.SplitIsPackable | verl/checkpoint_engine/base.py:529-543 | with distinct names, no chunk but the last of a weight leaves room in a bucket |
| WeightChunks.AssignSlice | verl/checkpoint_engine/base.py:572-580 | the in-place slice assignment: clamped bounds, broadcast of one byte, or a refusal |
| WeightChunks.Merger.Accept | verl/checkpoint_engine/base.py:558-585 | one chunk advances the merger, which writes its buffer in place, exactly as the step function does, errors included: its assertions, and a view or slice of the wrong size or at an offset that is not a multiple of the item size |
| WeightChunks.MergeWeightChunks | verl/checkpoint_engine/base.py:546-585 | the merging loop yields what the step function yields over the whole stream, and stops with the same error |
| WeightChunks.MergeConcat | verl/checkpoint_engine/base.py:558-585 | merging a concatenation is merging the second part from the state the first part leaves, or stopping where the first part stops |
| WeightChunks.MergeLargeWeight | verl/checkpoint_engine/base.py:566-585 | a weight larger than a bucket is put together from any point of its chunks on |
| WeightChunks.MergeUndoesSplit | verl/checkpoint_engine/base.py:529-585 | for every weight list and bucket size the merger yields exactly the non-empty weights in order with identical bytes, none of its assertions fires and nothing is left pending |
| WeightChunks.MergeIgnoresOffset | verl/checkpoint_engine/base.py:558-585 | beyond the alignment of the weights that fit a bucket, the offsets chunks had inside buckets do not affect merging |
| MergeConserves.MergeConservesBytes | verl/checkpoint_engine/base.py:546-585 | on any stream of chunks with the lengths they say and one shape and dtype per name, a merge that raises nothing hands out well-formed weights whose bytes are exactly the bytes brought, in order and under their own names |
| Buckets.NameIsNew | verl/checkpoint_engine/nccl_checkpoint_engine.py:276-283 | the assertion that a name is not yet in `bucket_meta` never fails |
| Buckets.LaidOutDisjoint | verl/checkpoint_engine/nccl_checkpoint_engine.py:276-283 | chunks of a bucket occupy disjoint ranges below its end |
| Buckets.BucketsPartitionStream | verl/checkpoint_engine/nccl_checkpoint_engine.py:252-298 | each bucket holds at most `bucket_size` bytes in consecutive ranges and one chunk per weight, and the buckets concatenate to the chunk stream |
| Buckets.BucketsNotEmpty | verl/checkpoint_engine/nccl_checkpoint_engine.py:252-298 | no bucket is shipped empty unless the stream is empty |
| Buckets.BucketsAreFull | verl/checkpoint_engine/nccl_checkpoint_engine.py:257-274 | a bucket is shipped before the end only when the next chunk does not fit behind its last one |
| Buckets.WriteHolds | verl/checkpoint_engine/nccl_checkpoint_engine.py:276-283 | copying a chunk to its offset leaves every chunk of the open bucket in the buffer |
| Buckets.ReadAllIsConcat | verl/checkpoint_engine/nccl_checkpoint_engine.py:340-368 | a receiver that reads the carried buckets yields their chunks in order, stale bytes of the buffers notwithstanding |
| Buckets.Sender.ShipBucket | verl/checkpoint_engine/nccl_checkpoint_engine.py:257-274 | hands the whole buffer and the metadata over, swaps the buffers and starts an empty bucket |
| Buckets.Sender.PlaceChunk | verl/checkpoint_engine/nccl_checkpoint_engine.py:276-283 | records the chunk and writes its bytes at the offset, leaving the rest of the buffer |
| Buckets.FillBuckets | verl/checkpoint_engine/nccl_checkpoint_engine.py:248-298 | the sending loop ships exactly the buckets of the stream, each intact in its buffer, the last one marked |
| Alignment.PackOnto | verl/checkpoint_engine/nccl_checkpoint_engine.py:252-283 | packing more chunks puts them behind the running offset, one after another, and leaves the packed ones |
| Alignment.WeightUsed | verl/checkpoint_engine/nccl_checkpoint_engine.py:252-283 | how far the open bucket is filled after all chunks of a weight follows from its size and the filling before |
| Alignment.MergePlaced | verl/checkpoint_engine/base.py:561-585 | merging everything packed comes exactly to the first weight that fits a bucket and is misaligned in it |
| Alignment.BucketsRebuildWeights | verl/checkpoint_engine/base.py:561-585 | a receiver of the concatenated buckets puts together exactly the non-empty weights if and only if every weight that fits a bucket is placed at a multiple of its item size; otherwise it stops at the first that is not, with the weights before it |
| Alignment.PrefixMerges | verl/checkpoint_engine/base.py:561-585 | with aligned weights no part of the stream stops the merging |
| Alignment.CommonMultipleAligns | verl/checkpoint_engine/nccl_checkpoint_engine.py:257-283 | weights are aligned if all sizes and the bucket size are multiples of a common multiple of the item sizes |
| Alignment.OneItemSizeAligns | verl/checkpoint_engine/nccl_checkpoint_engine.py:257-283 | weights of one item size are aligned if it divides the bucket size |
| Alignment.MixedPrecisionStops | verl/checkpoint_engine/base.py:566-566 | one 2-byte number before one 4-byte number in a bucket of 8 bytes: the second cannot be viewed |
| SendLoop.FillStep | verl/checkpoint_engine/nixl_checkpoint_engine.py:419-426 | placing a chunk keeps buffer, metadata and packing in agreement |
| SendLoop.ShipOne | verl/checkpoint_engine/nixl_checkpoint_engine.py:404-418 | a shipped bucket carries its chunks and the next one starts empty |
| SendLoop.ShippedIsNotEmpty | verl/checkpoint_engine/nixl_checkpoint_engine.py:395-418 | a bucket shipped before the end of the stream is not empty |
| SendLoop.PackGrows | verl/checkpoint_engine/nixl_checkpoint_engine.py:395-426 | what has been shipped never changes as more chunks arrive: the packing of a prefix is a prefix of the packing |
| SendLoop.ShipsCarryPlan | verl/checkpoint_engine/nixl_checkpoint_engine.py:395-436 | in every state the shipments carry a prefix of the buckets of the whole stream |
| SendLoop.ReadPrefix | verl/checkpoint_engine/nixl_checkpoint_engine.py:480-500 | reading part of the held buckets yields a prefix of the chunk stream |
| NixlSafety.InvKept | verl/checkpoint_engine/nixl_checkpoint_engine.py:371-526 | every step of every rank keeps the chain invariant and the assertions on its way hold |
| NixlDelivery.WritesMissBuffersInUse | verl/checkpoint_engine/nixl_checkpoint_engine.py:459-526 | no step writes a buffer that is exposed to the next rank or viewed by a tensor being yielded |
| NixlDelivery.LinkBounds | verl/checkpoint_engine/nixl_checkpoint_engine.py:143-175 | every bucket offered on a link but the open one has been read, the queues hold at most one entry, and no rank is ahead of its predecessor |
| NixlDelivery.YieldedIsPrefix | verl/checkpoint_engine/nixl_checkpoint_engine.py:452-526 | what a rank has yielded is a prefix of the chunk stream, and all of it once the rank is done |
| NixlDelivery.EveryReachableStateIsSafe | verl/checkpoint_engine/nixl_checkpoint_engine.py:371-526 | for any number of ranks and any interleaving: assertions hold and no operation is opened over an open one, writes miss buffers in use, buffers and descriptors of sender and receivers stay paired, queues are bounded, yields are prefixes |
| NixlDelivery.NoDeadlock | verl/checkpoint_engine/nixl_checkpoint_engine.py:128-236 | a reachable state that is not final has a rank with an enabled step |
| NixlDelivery.RunsEnd | verl/checkpoint_engine/nixl_checkpoint_engine.py:371-526 | every run is at most as long as a number known at the start |
| NixlDelivery.FinishedIsFinal | verl/checkpoint_engine/nixl_checkpoint_engine.py:371-526 | in a finished state nothing can move |
| NixlDelivery.ChainDelivers | verl/checkpoint_engine/nixl_checkpoint_engine.py:371-526 | a transfer takes boundedly many steps, stops exactly when all ranks are done, and then every rank has put together exactly the sender's non-empty weights if and only if they are aligned; then no merging stops on the way either |
| NixlAgent.Agent.ReadMessage | verl/checkpoint_engine/nixl_checkpoint_engine.py:128-132 | returns the oldest message of the named peer and keeps everybody's messages queued in order |
| NixlAgent.Agent.GetNotification | verl/checkpoint_engine/nixl_checkpoint_engine.py:134-140 | queues every polled notification, pops the queue of the name the polling loop left in `remote_name`, and gives the oldest notification of the peer asked for if only that peer notifies |
| NixlAgent.SinglePeerNamed | verl/checkpoint_engine/nixl_checkpoint_engine.py:134-140 | if only the peer asked for notifies, its queue is popped and its oldest notification comes out |
| NixlAgent.WrongPeerNamed | verl/checkpoint_engine/nixl_checkpoint_engine.py:134-140 | if another peer notifies first, that peer's key comes out instead |
| NixlAgent.NotificationServedIff | verl/checkpoint_engine/nixl_checkpoint_engine.py:134-140 | whatever is queued and polled from a set of notifying peers, the caller gets the oldest notification of the peer asked for if and only if nobody else is in the set |
| NixlAgent.TopologyIsChainIff | verl/checkpoint_engine/nixl_checkpoint_engine.py:289-305 | `build_topology` lays out a chain from actor 0 through the rollout workers if and only if there are at least two rollout workers |
| NcclBroadcast.InvKept | verl/checkpoint_engine/nccl_checkpoint_engine.py:230-368 | every step keeps the invariant and is safe: the broadcast in flight uses neither the buffer being filled or yielded nor the metadata dict being filled |
| NcclDelivery.YieldedIsPrefix | verl/checkpoint_engine/nccl_checkpoint_engine.py:314-368 | a rank has yielded a prefix of the chunk stream, all of it once done |
| NcclDelivery.NoDeadlock | verl/checkpoint_engine/nccl_checkpoint_engine.py:61-99 | a reachable state that is not final has an enabled step |
| NcclDelivery.RunsEnd | verl/checkpoint_engine/nccl_checkpoint_engine.py:230-368 | every run is bounded |
| NcclDelivery.FinishedIsFinal | verl/checkpoint_engine/nccl_checkpoint_engine.py:230-368 | in a finished state nothing can move |
| NcclDelivery.BroadcastDelivers | verl/checkpoint_engine/nccl_checkpoint_engine.py:230-368 | under every interleaving: steps are safe, yields are prefixes, runs are bounded, they stop exactly when all are done, and then every rank has exactly the sender's non-empty weights if and only if they are aligned; then no merging stops on the way either |
| WindowMap.BuildWindowMap | verl/utils/activation_offload.py:248-257 | the loop computes (L div N)(i + 1) - 1 + min(i + 1, L mod N) |
| WindowMap.WindowIncreases | verl/utils/activation_offload.py:248-257 | windows are strictly increasing |
| WindowMap.WindowNotEarly | verl/utils/activation_offload.py:248-257 | no group's window closes before its own layer |
| WindowMap.WindowEnds | verl/utils/activation_offload.py:248-257 | the last window closes at layer L - 1 |
| WindowMap.WindowGaps | verl/utils/activation_offload.py:248-257 | consecutive windows are L div N layers apart, one more for the first L mod N of them |
| WindowMap.WindowLeavesRoom | verl/utils/activation_offload.py:248-257 | with N < L a window closes no earlier than the commit of the next group's layer |
| WindowMap.WindowTight | verl/utils/activation_offload.py:248-257 | with N = L every window is the group's own layer |
| WindowMap.WindowOneSpare | verl/utils/activation_offload.py:502-504 | for N = L - 1 window i closes at layer i + 1 |
| OffloadHandler.ReloadRestoresIff | verl/utils/activation_offload.py:298-317 | whichever copies are kept, bulk offload then bulk reload restores a group if and only if its tensors with equal keys have equal contents |
| OffloadHandler.SharedKeyIsNotRestored | verl/utils/activation_offload.py:35-38 | a tensor and its first half share a key and cannot both be restored |
| OffloadHandler.CanReloadIff | verl/utils/activation_offload.py:355-371 | a slot can be reloaded exactly if what comes back is a well-formed tensor of its key and shape |
| OffloadHandler.AsyncHandler.TensorPush | verl/utils/activation_offload.py:263-283 | tags the tensor and stores it, with a device reference for groups below N |
| OffloadHandler.AsyncHandler.TensorPop | verl/utils/activation_offload.py:285-296 | removes and returns the tensor, or fails on a missing tag or an offload tuple |
| OffloadHandler.AsyncHandler.BulkOffloadGroup | verl/utils/activation_offload.py:298-317 | replaces the group's tensors by (key, shape) and keeps one copy per key, in any order of the dict |
| OffloadHandler.AsyncHandler.FreeGroupBuffers | verl/utils/activation_offload.py:334-338 | drops the device references of the group and nothing else |
| OffloadHandler.AsyncHandler.OnGroupCommitForward | verl/utils/activation_offload.py:319-353 | the fields after a forward commit are those of the commit function |
| OffloadHandler.AsyncHandler.BulkReloadGroup | verl/utils/activation_offload.py:355-371 | replaces the group's tuples by the kept copies and forgets the copies |
| OffloadHandler.AsyncHandler.OnGroupCommitBackward | verl/utils/activation_offload.py:373-395 | the fields after a backward commit are those of the commit function, or its error |
| OffloadRuns.InvKept | verl/utils/activation_offload.py:263-395 | every push, commit, pop and new iteration keeps the invariant and fails no assertion |
| OffloadRuns.OffloadingIsTransparent | verl/utils/activation_offload.py:263-395 | for all N <= L, any iterations and any pushes: no assertion fails, every pop returns the pushed tensor after its group was reloaded, and an iteration ends with a fresh handler after each group below N was moved once each way |
| OffloadRuns.OffloadedExactly | verl/utils/activation_offload.py:319-345 | when the backward pass starts a tensor is off the device if and only if its group is below N and N < L or it is group 0 |
| OffloadRuns.BuffersExactly | verl/utils/activation_offload.py:279-338 | in the forward pass `tensor_tag_to_buf` refers exactly to the live tensors of groups below N whose window has not ended, so a tensor lives until its copy is complete and no longer |
| OffloadRuns.DeviceGroupsBounded | verl/utils/activation_offload.py:319-395 | with N < L the state and buffer maps hold device tensors only of the groups from the first whose window has not ended up to the current one, which is within that window |
| OffloadRuns.TwoGroupsOnDevice | verl/utils/activation_offload.py:502-504 | with N = L - 1 these are at most two neighbouring groups at any time |
| DifferencingSpec.PartOrder | verl/utils/seqlen_balancing.py:87-92 | comparison of sets is a strict total order |
| DifferencingSpec.StateOrder | verl/utils/seqlen_balancing.py:122-128 | comparison of states is a strict weak order; ties have the same first set |
| DifferencingSpec.SortDescFacts | verl/utils/seqlen_balancing.py:103-103 | sorting permutes the sets into decreasing order of sum, then of item count, and keeps all items |
| DifferencingSpec.MergeSpread | verl/utils/seqlen_balancing.py:113-120 | merging never spreads more than the wider of the two states |
| DifferencingSpec.NonEmptyFirst | verl/utils/seqlen_balancing.py:87-92 | in sorted order the non-empty sets precede the empty ones |
| DifferencingSpec.MergeCount | verl/utils/seqlen_balancing.py:113-116 | merging states with x and y non-empty sets gives min(k, x + y) of them |
| DifferencingSpec.MergeKeeps | verl/utils/seqlen_balancing.py:113-116 | merging keeps order, sums, the number of non-empty sets, and all items of both states |
| DifferencingSpec.MergeEqualCounts | verl/utils/seqlen_balancing.py:113-116 | equal counts in both states give equal counts in the merged one |
| DifferencingSpec.MakeStateFacts | verl/utils/seqlen_balancing.py:95-103 | a fresh state obeys the invariant and spreads as far as its items, or down to an empty set |
| DifferencingSpec.LeastIsLeast | verl/utils/seqlen_balancing.py:158-163 | no state precedes the one that is popped |
| DifferencingSpec.CondenseFacts | verl/utils/seqlen_balancing.py:158-165 | merging until one state is left keeps all items, the invariant and the bound on the spread |
| DifferencingSpec.EvenCondense | verl/utils/seqlen_balancing.py:158-165 | and equal counts |
| NoTies.StrictlyOrdered | verl/utils/seqlen_balancing.py:122-128 | of two states without a common item and with an item in the first set one precedes the other |
| NoTies.LeastIsUnique | verl/utils/seqlen_balancing.py:158-163 | so the popped state precedes all others |
| NoTies.QueueNeverTies | verl/utils/seqlen_balancing.py:158-163 | after any number of merges one of any two queued states precedes the other, so neither pop of a merge depends on the arrangement of the heap |
| MergeOrder.StepMergesWidest | verl/utils/seqlen_balancing.py:158-163 | in every queue of at least two states a step merges two of them whose difference between largest and smallest set is the largest and the second largest, among equal ones with the largest first set, and leaves the others |
| MergeOrder.LoopMergesWidest | verl/utils/seqlen_balancing.py:122-163 | at every point of the loop the two merged states are ahead of all others by difference, then sum, number of items and first item of the first set |
| MergeOrder.CondenseIsSteps | verl/utils/seqlen_balancing.py:158-165 | the state that is left is the queue after all these merges |
| SeparatedItems.CondenseKeepsApart | verl/utils/seqlen_balancing.py:113-116 | two items of one state are never merged into one set |
| SeparatedItems.HeaviestTwoApart | verl/utils/seqlen_balancing.py:146-172 | with equal sizes over at least two partitions the only two items of positive length are separated |
| BalancedPartitions.SortAscFacts | verl/utils/seqlen_balancing.py:144-144 | sorting the (length, index) pairs permutes them into ascending lengths, and among equal lengths ascending indices |
| BalancedPartitions.ChopItems | verl/utils/seqlen_balancing.py:146-156 | the initial states hold every item once |
| BalancedPartitions.ChopStates | verl/utils/seqlen_balancing.py:146-156 | the initial states obey the invariant and the bound, with equal counts on request |
| BalancedPartitions.MaxBounds | verl/utils/seqlen_balancing.py:144-156 | the largest length bounds the range of every block |
| BalancedPartitions.DifferencingBalances | verl/utils/seqlen_balancing.py:144-172 | the method covers every index once, leaves a partition empty only beyond the number of items, gives equal counts on request, and keeps the difference of sums within the largest item, or with equal sizes the largest range of a sorted block of k |
| BalancedPartitions.HeaviestPart | verl/utils/seqlen_balancing.py:144-172 | k times the heaviest sum is at most the total plus k - 1 times the spread, for any exact cover |
| BalancedPartitions.BalancedIff | verl/utils/seqlen_balancing.py:239-254 | a request succeeds exactly when n >= k >= 1 and, with equal sizes, k divides n; so no later assertion fires |
| BalancedPartitions.BalancedPartitionsAre | verl/utils/seqlen_balancing.py:239-254 | the caller gets k non-empty increasing lists covering the indices, equal counts on request, and the bounded spread |
| BalancedPartitions.HeaviestFirst | verl/utils/seqlen_balancing.py:104-111 | the partitions come in falling order of their sums |
| KarmarkarKarp.PartSet.Add | verl/utils/seqlen_balancing.py:78-80 | appends the item and adds its value |
| KarmarkarKarp.PartSet.Merge | verl/utils/seqlen_balancing.py:82-85 | appends the other set's items and adds their sum |
| KarmarkarKarp.SortSets | verl/utils/seqlen_balancing.py:103-103 | sorts the set objects, permuting them, with the values in decreasing order |
| KarmarkarKarp.PartState.constructor | verl/utils/seqlen_balancing.py:95-103 | makes the fresh state of distinct new set objects |
| KarmarkarKarp.PartState.CrossWith | verl/utils/seqlen_balancing.py:114-115 | set i takes in the other state's set k - 1 - i, in place |
| KarmarkarKarp.PartState.Merge | verl/utils/seqlen_balancing.py:113-116 | the state's value becomes the merge of both values, on the same set objects |
| KarmarkarKarp.PartState.GetPartitions | verl/utils/seqlen_balancing.py:104-111 | collects the indices set by set |
| KarmarkarKarp.MergeLeastTwo | verl/utils/seqlen_balancing.py:159-163 | two pops, an in-place merge and a push change the queue's values by one step and no other state |
| KarmarkarKarp.PushStates | verl/utils/seqlen_balancing.py:146-156 | pushes one state per block of items |
| KarmarkarKarp.MergeAll | verl/utils/seqlen_balancing.py:158-165 | the loop ends with the state that is left when the values are merged |
| KarmarkarKarp.KarmarkarKarp | verl/utils/seqlen_balancing.py:144-172 | returns the partitions of that state, or the error the input leads to; the closing assertion holds |
| KarmarkarKarp.CheckAndSort | verl/utils/seqlen_balancing.py:241-252 | fails exactly when a partition is missing or empty or an index is not covered, and sorts each partition |
| KarmarkarKarp.GetSeqlenBalancedPartitions | verl/utils/seqlen_balancing.py:239-254 | the checks around the method, with their errors |
| GreedyPartition.SmallestSum | verl/utils/seqlen_balancing.py:199-202 | finds the first of the smallest running sums |
| GreedyPartition.GreedyPartition | verl/utils/seqlen_balancing.py:194-210 | the loops compute the greedy assignment, and fail as the closing assertions do |
| GreedyPartition.AssignedCovers | verl/utils/seqlen_balancing.py:198-204 | each item is assigned exactly once |
| GreedyPartition.AssignedIncrease | verl/utils/seqlen_balancing.py:198-204 | each part lists its items in the order they come |
| GreedyPartition.AssignedSums | verl/utils/seqlen_balancing.py:195-204 | a running sum is the real sum plus the bias per item |
| GreedyPartition.GreedySpread | verl/utils/seqlen_balancing.py:194-204 | without equal sizes the sums differ by at most the largest item |
| GreedyPartition.SumsOrderByCount | verl/utils/seqlen_balancing.py:194-202 | with the bias the running sums order the parts by count first and real sum second |
| GreedyPartition.CountsDifferByOne | verl/utils/seqlen_balancing.py:194-204 | with the bias counts never differ by more than one |
| GreedyPartition.GreedyEqualIff | verl/utils/seqlen_balancing.py:205-210 | the closing assertion holds if and only if k divides the number of items |
| GreedyEqualSizes.OneOfEachBlock | verl/utils/seqlen_balancing.py:194-204 | with the bias the t-th item of every part comes from the t-th block of k items |
| GreedyEqualSizes.EqualSizesSpread | verl/utils/seqlen_balancing.py:194-210 | with equal sizes the sums differ by at most the ranges of all blocks of k consecutive items together |
| GreedyEqualSizes.EqualSizesMayNotBalance | verl/utils/seqlen_balancing.py:194-210 | that is attained for any k: for 0, w, ..., w over and over one part takes nothing and each other one w per block |
| GreedyEqualSizes.EqualSizesBalanceIff | verl/utils/seqlen_balancing.py:194-210 | for all lists of n items the sums differ by at most the largest item if and only if there is one part or one item per part |
| Interleave.BothPermute | verl/utils/seqlen_balancing.py:460-460 | both interleavings are permutations |
| Interleave.LargestInsideIsMountain | verl/utils/seqlen_balancing.py:459-460 | a decreasing list is rearranged to rise to its largest element and fall after it |
| Interleave.UpThenDownIsMountain | verl/trainer/sft_trainer_ray.py:320-325 | an increasing list is rearranged to rise to its largest element at the junction and fall after it |
| BalanceBatch.BalanceBatch | verl/trainer/sft_trainer_ray.py:315-325 | the loop overwrites every partition by its reordering |
| BalanceBatch.SortByWorkFacts | verl/trainer/sft_trainer_ray.py:321-321 | sorting permutes a partition into ascending workloads, and among equal ones ascending indices |
| BalanceBatch.BalanceBatchOrder | verl/trainer/sft_trainer_ray.py:311-327 | the global index list permutes the batch, equally many samples per rank, the ranks' workloads within the largest range of dpSize samples in sorted order, each rank's rising to the middle sample and falling after it |
| MicroBatches.CeilDivIsLeast | verl/utils/seqlen_balancing.py:305-324 | the least integer not below a / b, for either sign of b |
| MicroBatches.RoundUpIsLeast | verl/utils/seqlen_balancing.py:327-345 | the least multiple that is at least a |
| MicroBatches.MicroCountIsLeast | verl/utils/seqlen_balancing.py:382-409 | the number of micro-batches is the least that meets every demand: an even split would fit or there is one per group, the requested minimum, the other ranks' numbers, divisibility |
| MicroBatches.MicroCountIff | verl/utils/seqlen_balancing.py:377-409 | there is a number of micro-batches exactly if the sequences fit the limit, the groups divide the batch, and some number up to that of the groups meets every demand |
| MicroBatches.WorkloadIsFlops | verl/utils/seqlen_balancing.py:26-46 | the workload is 12 h^2 n + 2 h n^2 for hidden size h = 4096, in units of 2 h |
| MicroBatches.LongOutweighsParts | verl/utils/seqlen_balancing.py:26-46 | a sequence outweighs two of together as many tokens by twice the product of their lengths |
| MicroBatches.ExpandCovers | verl/utils/seqlen_balancing.py:424-431 | expanding a cover of the groups gives a cover of the samples |
| MicroBatches.KeyIsWorkload | verl/utils/seqlen_balancing.py:441-458 | the sort key computed from every g-th index is the workload of all samples of the micro-batch |
| MicroBatches.SortByKeyFacts | verl/utils/seqlen_balancing.py:441-458 | sorting by the key permutes the micro-batches into decreasing workload |
| MicroBatches.TiesByFirst | verl/utils/seqlen_balancing.py:441-458 | among equal workloads the micro-batch with the larger first index comes first |
| MicroBatches.RearrangedIff | verl/utils/seqlen_balancing.py:382-438 | micro-batches are made exactly when the checks pass and their number is not zero |
| MicroBatches.UnbalancedKeepsOrder | verl/utils/seqlen_balancing.py:413-440 | without balancing the micro-batches come as partitioned |
| MicroBatches.RearrangedAre | verl/utils/seqlen_balancing.py:382-468 | every sample is in one micro-batch, forced groups stand together, workloads differ by at most the heaviest group, and with balancing they rise to the middle and fall after it |
| TokenLimit.HeaviestMicroBatch | verl/utils/seqlen_balancing.py:413-438 | n times the heaviest micro-batch is at most the whole workload plus n - 1 times the heaviest group |
| TokenLimit.TokenLimitAtIff | verl/utils/seqlen_balancing.py:363-409 | for each limit of at least three tokens and all other arguments, the micro-batches of all batches of a size stay within the limit if and only if the count for two limits' worth of tokens exceeds the number of groups, so that the request fails, or equals the number of single samples |
| TokenLimit.TokenLimitIff | verl/utils/seqlen_balancing.py:363-409 | the same as a promise for every limit |
| TokenLimit.DefaultTokenLimitIff | verl/utils/seqlen_balancing.py:347-357 | with the default arguments: if and only if there are at most two samples and no forced groups |
| TokenLimit.LongExceed | verl/utils/seqlen_balancing.py:398-409 | n + 1 samples of which any two exceed the limit, as 6, 6 and 5 tokens for a limit of 10, get n micro-batches |
| TokenLimit.HeavyGroupExceeds | verl/utils/seqlen_balancing.py:413-431 | a forced group of more than the limit is put into one micro-batch |
| DynamicBatch.ExpandGroups | verl/utils/seqlen_balancing.py:424-431 | the loop expands group lists to sample lists |
| DynamicBatch.RearrangeMicroBatches | verl/utils/seqlen_balancing.py:382-468 | returns the index lists, or the error |
| DynamicBatch.GetReverseIdx | verl/utils/seqlen_balancing.py:471-486 | writes the copy in place; an index beyond the end is an error |
| DynamicBatch.ReverseInvertsIff | verl/utils/seqlen_balancing.py:481-486 | the result is an inverse if and only if no index occurs twice |
| DynamicBatch.RestoreDynamicBatch | verl/utils/seqlen_balancing.py:528-551 | selects the rows by the inverted index list, or fails |
| DynamicBatch.RestoreUndoes | verl/utils/seqlen_balancing.py:528-551 | restoring the concatenated row-wise results of any exact cover gives them in the original order |
| DynamicBatch.DynamicBatchRoundTrip | verl/utils/seqlen_balancing.py:382-551 | the same for every configuration that yields micro-batches |
| GroupBalance.BuildGroups | verl/utils/seqlen_balancing.py:574-594 | the loop collects the runs of equal uids |
| GroupBalance.RunsCover | verl/utils/seqlen_balancing.py:574-594 | the runs concatenate to all indices in order |
| GroupBalance.RunsAreRuns | verl/utils/seqlen_balancing.py:574-594 | each group is a non-empty stretch of samples with one uid |
| GroupBalance.GetGroupBalancedPartitions | verl/utils/seqlen_balancing.py:572-626 | returns the sample partitions, or the error |
| GroupBalance.GroupedIff | verl/utils/seqlen_balancing.py:572-616 | a request succeeds exactly when lengths agree, there are at least k groups, and k divides their number |
| GroupBalance.GroupedFrom | verl/utils/seqlen_balancing.py:609-626 | the partitions consist of equally many whole groups, whose workloads differ by at most the largest range of k groups in sorted order |
| GroupBalance.GroupedAre | verl/utils/seqlen_balancing.py:572-626 | every sample is in one partition, in rising order, no group is torn apart, contiguous uids stay together, and the samples' workloads keep the bound of the groups |
| GroupBalance.EqualGroupsEqualParts | verl/utils/seqlen_balancing.py:609-616 | groups of equal size give partitions of equally many samples |
| GroupBalance.KeptTogetherIff | verl/utils/seqlen_balancing.py:569-570 | for every k dividing the number of groups: whatever the lengths, equal uids stay together if and only if they are contiguous or there is one partition |
| GroupBalance.OneGroupEachIff | verl/utils/seqlen_balancing.py:569-570 | with as many partitions as groups, that holds for each list of lengths |
| TorchChunk.ChunksEven | verl/utils/megatron_utils.py:961-961 | chunking n equal blocks gives exactly the blocks |
| TorchChunk.ChunksShape | verl/utils/megatron_utils.py:961-961 | at most n pieces, of the least size with which n of them hold the tensor, only the last one shorter |
| QkvLayout.ConvertQkvShard | verl/utils/megatron_utils.py:950-995 | the loops over parts and chunks compute the three shard lists, or divide by zero |
| QkvLayout.TpConcat | verl/utils/megatron_utils.py:1156-1190 | the loops over shards and chunks compute the three lists, or the error |
| QkvConcat.ConcatRefusesIff | verl/utils/megatron_utils.py:1156-1190 | an assertion fails exactly if the key/value heads do not divide the heads or the rows of a shard are not whole groups |
| QkvConcat.ConcatKeepsRows | verl/utils/megatron_utils.py:1156-1190 | whenever the concatenation succeeds, it uses every row of every shard exactly once |
| QkvLayout.ConversionIsDeinterleaving | verl/utils/megatron_utils.py:954-969 | for all head counts and every tensor-parallel size dividing the key/value heads the result collects the groups' rows in order |
| QkvLayout.TpSizeDoesNotMatter | verl/utils/megatron_utils.py:954-969 | two tensor-parallel sizes give the same result |
| QkvLayout.ConversionsAgree | verl/utils/megatron_utils.py:1156-1190 | the concatenation of the ranks' shards equals the conversion of the whole tensor |
| QkvLayout.RowsOnce | verl/utils/megatron_utils.py:954-969 | every fused row is used exactly once |
| QkvLayout.UndoesInterleaving | verl/utils/megatron_utils.py:954-969 | de-interleaving undoes the fused layout of any list of groups |
| QkvReplicated.KeepsFirst | verl/utils/megatron_utils.py:989-991 | a rank keeps its key and value rows exactly if it is the first of those that share them |
| QkvReplicated.ReplicatedHeadsOnce | verl/utils/megatron_utils.py:971-991 | with one query group per rank and each key and value head copied to equally many ranks, the conversion gives all queries in order and each head once |
| PackPad.Scatter | verl/utils/npu_flash_attn_utils.py:57-67 | the writes leave zero where no index points and a written value where one does |
| PackPad.GatherUndoesScatter | verl/utils/npu_flash_attn_utils.py:68-74 | gathering what was scattered to distinct places gives it back |
| PackPad.AdjointIff | verl/utils/npu_flash_attn_utils.py:23-74 | each of the two hand-written backward passes is the adjoint of its forward if and only if no index occurs twice |
| PackPad.DuplicateBreaks | verl/utils/npu_flash_attn_utils.py:36-49 | a duplicate and the vectors on which the pass differs from the gradient |
| PackPad.PackedByRow | verl/utils/npu_flash_attn_utils.py:112-129 | the packed tokens are the rows' selected tokens, row after row |
| PackPad.EitherMaskSelects | verl/utils/npu_flash_attn_utils.py:112-112 | a position is selected exactly if either mask selects it; integer masks count it once for each |
| PackPad.CuSeqlensCutRowsIff | verl/utils/npu_flash_attn_utils.py:113-117 | the slices between consecutive `cu_seqlens` are the rows' selected tokens if and only if the masks are bool tensors or no entry of their integer sum exceeds one |
| PackPad.MaxSeqlenIsFullest | verl/utils/npu_flash_attn_utils.py:116-116 | for masks of zeros and ones the maximal length is the number of selected tokens of the fullest row |
| PackPad.SeqUsedCountsIff | verl/utils/npu_flash_attn_utils.py:114-114 | `seqused` has the numbers of tokens that `attention_mask` alone selects in each row, exactly for entries of at most one |
| PackPad.PadInput | verl/utils/npu_flash_attn_utils.py:81-95 | scatters the tokens and cuts the result into rows |
| PackPad.PadAfterUnpad | verl/utils/npu_flash_attn_utils.py:81-129 | padding after unpadding restores the selected tokens and zeroes the rest |
| PackPad.UnpadAfterPad | verl/utils/npu_flash_attn_utils.py:81-129 | gathering after padding gives the packed tokens back |
| ContextParallel.LocalSizeIsLeastIff | verl/utils/megatron_utils.py:1622-1630 | the rounded size covers the longest sequence, and is the least such power of two if and only if some sequence is not empty |
| ContextParallel.LocalSizeHolds | verl/utils/megatron_utils.py:1612-1632 | the size the batch is split by is a power of two that holds every sequence of the batch, and the least such exactly if some sequence is not empty |
| ContextParallel.UntouchedIff | verl/utils/megatron_utils.py:1617-1632 | a batch is left untouched exactly if it is not empty and has fewer sequences than ranks; a larger one is refused exactly if no power of two up to the data-parallel size holds every sequence, or that size is 1 and all are empty |
| ContextParallel.SlicesTile | verl/utils/megatron_utils.py:1634-1642 | the slices of the ranks of one residue tile the batch in order, for every size up to the data-parallel size |
| ContextParallel.SlicesAreShortest | verl/utils/megatron_utils.py:1634-1642 | the slices are the consecutive stretches of the least length with which the groups hold the batch, cut off at its end |
| ContextParallel.SplitAgreesIff | verl/utils/megatron_utils.py:1602-1646 | the ranks that do not fail choose one size and keep the rows above, and none fails if and only if the slice of the last rank starts inside the batch or the size is the data-parallel size |
| ContextParallel.SizeMustDivide | verl/utils/megatron_utils.py:1633-1642 | a smaller size that does not divide the data-parallel size always leaves the last rank without a row |
| ContextParallel.LastRankFails | verl/utils/tensordict_utils.py:496-499 | five sequences over four ranks at size 1: the third rank keeps one, the fourth fails |
| ContextParallel.MergeOutput | verl/utils/megatron_utils.py:1658-1677 | the loop over the keys merges every output |
| ContextParallel.MergedIsResidue | verl/utils/megatron_utils.py:1665-1673 | whatever the ranks produced, the merge joins the outputs of the ranks with this rank's place in their groups, in the order of the ranks |
| ContextParallel.MergeRestores | verl/utils/megatron_utils.py:1602-1677 | all ranks split if and only if the last one has rows or the size is the data-parallel size, and then the merge on every rank restores every output in the original order of the sequences |
| FanOut.ConcatBatches | verl/protocol.py:917-935 | concatenates column by column |
| FanOut.Chunk | verl/protocol.py:864-903 | cuts every column into the same equal pieces, or fails when they cannot be equal |
| FanOut.CutsOfSplitEvenly | verl/protocol.py:880-893 | numpy splits the other columns where torch split the tensors |
| FanOut.PadToDivisor | verl/protocol.py:85-99 | the loop ends and appends exactly the rows needed, cycling through the batch |
| FanOut.MakePadding | verl/utils/tensordict_utils.py:841-855 | the padding loop terminates with the requested number of cycled rows |
| FanOut.PadReachesMultiple | verl/utils/tensordict_utils.py:841-855 | the padded length is the least multiple of the divisor |
| FanOut.ConcatUndoesChunk | verl/protocol.py:917-935 | concatenating the chunks gives the batch back |
| FanOut.FanOutLaw | verl/protocol.py:102-106 | unpadding the concatenation of a row-wise function over the chunks of the padded batch equals the function on the batch, for every batch, divisor and number of workers dividing it |

## Left out

- Sockets, NCCL, NIXL, Ray and CUDA streams: channels are reliable and ordered per peer, a started
  transfer completes, uuid keys are fresh numbers, and a synchronisation has the effect it waits for.
- NcclDelivery.BroadcastDelivers: a rank's broadcast completes once its own copy is there, and the
  sender's once all ranks have copied; the collective's inner schedule is not modelled.
- NixlDelivery.ChainDelivers: the consumer of a rank finishes with a yielded tensor before it asks for
  the next one, as the generators require. A rank whose merging raises, which only misaligned weights cause,
  stops reading; the runs here let it read on, and what the other ranks then wait for is not modelled.
- Alignment.BucketsRebuildWeights: the buckets are tensors with storage offset 0, as both engines
  allocate them.
- OffloadRuns.OffloadingIsTransparent: tensors pushed into one group with equal keys have equal contents,
  and the callers' order of commits and pops is the run shape above; autograd and activation
  checkpointing, which produce that order, are not part of this model.
- KarmarkarKarp.KarmarkarKarp: lengths are non-negative integers; the trainer that passes workloads as a
  float32 tensor adds them in float32, which is not part of this model. The heap is a list from which
  the least state is taken (it is unique, `QueueNeverTies`).
- TokenLimit.TokenLimitAtIff: limits of one and two tokens; `TokenLimitIff` quantifies over all limits.
  The padded width is the limit, or the lengths are those of a nested tensor.
- DynamicBatch.RearrangeMicroBatches: the sequence lengths, the padded width and the other ranks' counts
  are parameters; selecting the tensors of a micro-batch is row selection.
- QkvLayout.ConversionIsDeinterleaving: for fewer key/value heads than tensor-parallel ranks
  `ReplicatedHeadsOnce` speaks instead; when the query groups equal the key/value heads there, the method
  divides by zero, and no layout is claimed.
- PackPad.CuSeqlensCutRowsIff: masks of mixed dtypes, which torch adds as integers.
- PackPad.Scatter: tokens are single values, as all columns are treated alike; which of two values
  written to one place survives is left open.
- ContextParallel.SplitAgreesIff: an empty selection fails on the nested `input_ids`; a plain column that
  comes first would raise an `IndexError` for the empty index tensor instead.
- ContextParallel.LocalSizeIsLeastIff: the quotient is exact, while the code divides in floating point.
- FanOut.Chunk: auto-padding of unequal chunks, the padded fallback for nested tensors, meta information
  and devices.
- Mooncake, HCCL and Kimi checkpoint engines; the first polls payload bytes for completion, the second
  is the synchronous case of NCCL, the third rests on external bucket generation.
- `SynchronizedGroupOffloadHandler`'s own push and pop, which the asynchronous handler overrides.
- `get_transformer_layer_offset`, the gate and expert branches of `default_tp_concat_fn`, weight loading,
  logging, configuration and the trainers' loops: input and output or single-branch arithmetic.

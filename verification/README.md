# Verified model of the training library's algorithms

This project models the algorithmic parts of verl and Alpha-Stabler and proves what they promise: the
sequence-length partitioner, the asynchronous activation offload handler, the checkpoint layout and layer-numbering
code, the Alpha-Stabler controller, the padded batch protocol, the packed parameter buffer, the packed loss and the
DAPO generation loop. Tensors are sequences of rows, floating-point numbers are reals. Classes whose fields the
library updates in place are Dafny classes with the same fields; loops over lists and dictionaries are loops, proved
against specification functions or relations; the properties are then proved about those.

`dafny verify dfyconfig.toml` checks everything.

| file | what it covers |
|---|---|
| `ActivationOffload.dfy`, `OffloadRun.dfy` | the offload handler, and an invariant over every forward and backward run |
| `Partition.dfy`, `Differencing.dfy`, `DifferencingRun.dfy`, `KarmarkarKarp.dfy`, `GreedyPartition.dfy` | partitions and their approximation bounds, the states of the differencing heap, what a run of it is and that it leaves no choice, the objects and the heap, the greedy scheduler |
| `MicroBatchTokens.dfy`, `MicroBatchCounts.dfy`, `MicroBatchOrder.dfy`, `MicroBatches.dfy` | tokens per micro-batch; how many micro-batches on all ranks; their order; splitting and restoring |
| `PipelineShards.dfy`, `LayerOffsets.dfy`, `CheckpointEntries.dfy`, `CheckpointMerge.dfy`, `StateDictMerge.dfy` | stage sizes, layer offsets, renumbering when shards are merged, and the merged model parameter by parameter |
| `Tensors.dfy`, `QkvLayout.dfy` | chunks and slices, and the fused attention and MLP layouts |
| `Subspace.dfy`, `Quantiles.dfy`, `Predictor.dfy`, `AlphaStabler.dfy`, `CalibrationOutcome.dfy`, `RankAgreement.dfy`, `Causality.dfy`, `CollectiveRun.dfy`, `StablerController.dfy`, `StablerResume.dfy`, `MonitoredRun.dfy`, `PooledStatistics.dfy` | the controller: projection and energies, medians, hysteresis, one step and its collectives, what calibration makes of the replies, agreement of ranks, runs of all ranks together, the object, saving and resuming it, whole runs, and what the replies are statistics of |
| `PackedLoss.dfy`, `BatchProtocol.dfy`, `MemoryBuffers.dfy` | the two loss paths, padding and chunking, the packed buffer |
| `GroupFilter.dfy`, `DapoLoop.dfy` | dynamic sampling |
| `Wrappers.dfy`, `Arithmetic.dfy`, `Reals.dfy`, `Sorting.dfy` | shared datatypes, arithmetic and a stable sort |

## Where the code does not do what it or its documentation says

- `rearrange_micro_batches` documents `max_token_len` as a bound on each micro-batch; lengths 6, 6, 6 with limit 10
  always give a micro-batch of at least 12 tokens (`MicroBatches.TokenLimitCanBeExceeded`). The bound is kept when
  the rows are light enough for the number of micro-batches (`MicroBatchTokens.SafeRowsFit`), cannot be kept when they
  have too many tokens (`MicroBatchTokens.TooManyTokens`), and for rows of one length is kept exactly when
  the average number of rows, rounded up, fits (`MicroBatchTokens.EqualRowsExactlyWhen`). In any
  case 24577 times the tokens are at most 2 - 1/k times the workload of a row as long as the limit
  (`MicroBatchTokens.TokensAtMost`).
- `get_dynamic_pipeline_shards` says it is as uniform as possible; it is exactly when there are at most two stages or
  an even split falls at most two layers short (`PipelineShards.UniformExactlyWhen`), and for some inputs, such as five
  layers on four stages (`PipelineShards.FiveLayersOnFourStages`), it indexes an empty list
  (`PipelineShards.GetDynamicPipelineShards` says which).
- `get_transformer_layer_offset` is wrong for three kinds of interleaved configurations: on one stage every offset is 0
  (`LayerOffsets.OneStageInterleaved`), on two stages that both have their sizes set the second divides by zero
  (`LayerOffsets.BothEndsInterleaved`), and with only the last-stage size set ranks 0 and 1 get the same offset
  (`LayerOffsets.LastOnlyInterleaved`). `LayerOffsets.OffsetsTileExactlyWhen` is the exact condition.
- The mergers count a chunk without layers as one layer; they give back the model that was split exactly when no chunk
  without layers comes before one with layers (`CheckpointMerge.MergeRebuildsExactlyWhen`).
- `DataProto.chunk` with padding enabled and tensors fails on some uneven sizes, such as five rows in four chunks
  (`BatchProtocol.FiveRowsInFourChunks`); `BatchProtocol.ChunkProto` says exactly when.
- Packing tokens changes the loss of some batch exactly when the loss mask asks for a target that follows a token that
  is not attended, or that is not attended itself while the logits before it are not all equal
  (`PackedLoss.SameExactlyForLogits`).

## Model

| member | source | states |
|---|---|---|
| ActivationOffload.WindowMapIsValid | verl/utils/activation_offload.py:248-257 | for every L >= G >= 1 the window map increases strictly, ends at L-1, and entry i is at least i, at least i+1 when L > G |
| ActivationOffload.WindowBounds | verl/utils/activation_offload.py:248-257 | bounds of one window of the closed form (L/G)(i+1)-1+min(i+1, L%G) |
| ActivationOffload.WindowStrictlyIncreasing | verl/utils/activation_offload.py:248-257 | later windows end later, by at least the difference of their numbers |
| ActivationOffload.OffloadHandler.constructor | verl/utils/activation_offload.py:228-261 | the loop with its running constant computes the closed form, and the handler starts in the initial state |
| ActivationOffload.OffloadHandler.TensorPush | verl/utils/activation_offload.py:263-283 | a tracked tensor gets a fresh tag and is recorded; others are handed back |
| ActivationOffload.OffloadHandler.TensorPop | verl/utils/activation_offload.py:285-296 | a tag yields its tensor and is forgotten everywhere |
| ActivationOffload.OffloadHandler.DropGroup | verl/utils/activation_offload.py:303-311 | every tensor of the group is replaced by key and shape, and one tensor per key is collected |
| ActivationOffload.OffloadHandler.BulkOffloadGroup | verl/utils/activation_offload.py:298-317 | the group leaves the device and every key of it has a host copy of a tensor with that key |
| ActivationOffload.OffloadHandler.BulkReloadGroup | verl/utils/activation_offload.py:355-371 | the group's tensors come back with the host copy's contents in their own shapes, and its copies are dropped |
| ActivationOffload.OffloadHandler.FreeBufs | verl/utils/activation_offload.py:335-338 | exactly the buffers of the group just offloaded are released |
| ActivationOffload.OffloadHandler.PassWindow | verl/utils/activation_offload.py:328-345 | at the end of a window the buffers are released, the next group is offloaded and the counter moves; nothing else changes |
| ActivationOffload.OffloadHandler.OnGroupCommitForward | verl/utils/activation_offload.py:319-352 | the forward commit: first offload, window hit, next offload, counters |
| ActivationOffload.OffloadHandler.OnGroupCommitBackward | verl/utils/activation_offload.py:373-395 | the backward commit: reload when the window is reached, counters, reset at group 0 |
| OffloadRun.StepKeeps | verl/utils/activation_offload.py:263-395 | every push, pop, commit and start of a new step keeps the run invariant |
| OffloadRun.RunKeeps | verl/utils/activation_offload.py:263-395 | the invariant holds at every point of every run |
| OffloadRun.LegalIsEnabled | verl/utils/activation_offload.py:276-395 | under the invariant no assertion, key or window index of a legal step can fail |
| OffloadRun.NothingFails | verl/utils/activation_offload.py:276-395 | in every run for every L >= G >= 1, the next step of the protocol never fails: no offloaded tuple is popped, the window map is never indexed out of range |
| OffloadRun.PopReturnsWhatWasPushed | verl/utils/activation_offload.py:285-296 | every pop in every run returns a tensor with the data type, shape and contents that were pushed |
| OffloadRun.StepsCompose | verl/utils/activation_offload.py:319-395 | a training step offloads groups 0..G-1 once each in order, reloads G-1..0 once each, and ends in the initial state, so steps compose |
| OffloadRun.AtMostTwoGroupsResident | verl/utils/activation_offload.py:500-504 | with G = L-1, as set at line 543, two groups on the device at any point of any run are neighbours: at most two are resident |
| OffloadRun.ReloadKeepsValues | verl/utils/activation_offload.py:355-371 | a reload loses no value that a live tag stands for |
| OffloadRun.OffloadKeepsValues | verl/utils/activation_offload.py:298-317 | an offload keeps every live value recoverable, also when tensors share storage |
| Partition.HeaviestPart | verl/utils/seqlen_balancing.py:85-86 | spread at most b bounds k * heaviest by total + (k-1) * b |
| Partition.NearTheAverage | verl/utils/seqlen_balancing.py:161-165 | with spread at most the largest item, k * heaviest <= total + (k-1) * largest |
| Partition.WithinTwiceTheBest | verl/utils/seqlen_balancing.py:161-165 | the heaviest part is at most (2 - 1/k) times that of any other assignment |
| Partition.LoadsOfCover | verl/utils/seqlen_balancing.py:141-158 | the loads of an exact cover add up to the total length |
| Partition.CheckEqual | verl/utils/seqlen_balancing.py:133-137 | the equal-size assertion passes exactly when every part has n/k items |
| Differencing.StateLessAsymmetric | verl/utils/seqlen_balancing.py:88-94 | the heap order is asymmetric |
| Differencing.StateNotLessTransitive | verl/utils/seqlen_balancing.py:88-94 | not-less is transitive, so a heap has a first element |
| Differencing.MergeKeepsSpread | verl/utils/seqlen_balancing.py:79-86 | merging never raises the spread above the larger of the two |
| Differencing.MergeKeepsItems | verl/utils/seqlen_balancing.py:79-82 | merging keeps every item exactly once |
| Differencing.MergeKeepsFilledPrefix | verl/utils/seqlen_balancing.py:53-82 | a merged state has exactly min(k, m+n) non-empty sets, and they come first even when sums are zero |
| Differencing.MergeKeepsEvenlyFilled | verl/utils/seqlen_balancing.py:79-82 | states whose sets all have m and n items merge to sets of m+n items |
| Differencing.EmptySetsLast | verl/utils/seqlen_balancing.py:53-58 | behind an empty set all sets are empty |
| Differencing.MergeKeepsPoolInv | verl/utils/seqlen_balancing.py:124-129 | replacing any two states of the heap by their merge keeps the loop invariant |
| Differencing.FinalSets | verl/utils/seqlen_balancing.py:131-132 | the last state's item lists are an exact cover, and its sums are their loads |
| Differencing.BlockSpreads | verl/utils/seqlen_balancing.py:114-119 | the bound in equal-size mode is the spread of some sorted block of k, or 0, and no block has a larger one |
| KarmarkarKarp.Set.Merge | verl/utils/seqlen_balancing.py:48-51 | the loop appends all items and adds their values |
| KarmarkarKarp.SortDecreasing | verl/utils/seqlen_balancing.py:68 | a decreasing permutation of the sets |
| KarmarkarKarp.State.constructor | verl/utils/seqlen_balancing.py:61-68 | a state holds its items, one per set, in decreasing order |
| KarmarkarKarp.State.Merge | verl/utils/seqlen_balancing.py:79-82 | largest with smallest, then sorted again |
| KarmarkarKarp.Heap.Push | verl/utils/seqlen_balancing.py:119-129 | the state joins the heap |
| KarmarkarKarp.Heap.First | verl/utils/seqlen_balancing.py:88-94 | the position of a state such that no other has a larger difference between its largest and its smallest sum, nor the same and a larger first set |
| KarmarkarKarp.Heap.Pop | verl/utils/seqlen_balancing.py:125-126 | such a state leaves the heap, the rest stay |
| KarmarkarKarp.PushSingles | verl/utils/seqlen_balancing.py:121-122 | one new state per item, in the order of the items |
| KarmarkarKarp.PushBlocks | verl/utils/seqlen_balancing.py:114-119 | one new state per block of k sorted items, and the blocks are all items |
| KarmarkarKarp.MergeTwo | verl/utils/seqlen_balancing.py:124-129 | the largest state leaves, then the largest of the others, and what they merge to comes back |
| KarmarkarKarp.MergeAll | verl/utils/seqlen_balancing.py:124-129 | the loop is a chain of such turns from the states pushed to the one state left, which keeps the invariant |
| KarmarkarKarp.GetPartitions | verl/utils/seqlen_balancing.py:70-77 | the index lists of the sets |
| KarmarkarKarp.KarmarkarKarpPartition | verl/utils/seqlen_balancing.py:37-138 | every error case, and otherwise an exact cover with spread at most the largest item, no empty part when n >= k; in equal-size mode spread at most that of a sorted block of k and n/k items in every part; the parts are read off the last state of a chain of merges, each of two states of largest difference of sums |
| DifferencingRun.NotLessIsAtMost | verl/utils/seqlen_balancing.py:53-58 | the order of sets: by sum, then by number of items, then by the first pair that differs |
| DifferencingRun.NotLessIsNoLarger | verl/utils/seqlen_balancing.py:88-94 | the order of states: by the difference of sums, the larger first, then by the first set |
| DifferencingRun.PartitionIsUnique | verl/utils/seqlen_balancing.py:103-132 | the partition is a function of the lengths: wherever a heap keeps its states and whichever of several least ones it hands out, there is only one that a run can end with |
| GreedyPartition.Smallest | verl/utils/seqlen_balancing.py:147-150 | the first part of least sum |
| GreedyPartition.AddingKeepsSpread | verl/utils/seqlen_balancing.py:147-152 | giving an item to the lightest part keeps the spread at most the largest item |
| GreedyPartition.SmallestHasFewest | verl/utils/seqlen_balancing.py:142-150 | with the bias the lightest part has the fewest items |
| GreedyPartition.Greedy | verl/utils/seqlen_balancing.py:141-158 | an exact cover, spread at most the largest item, or with the bias n/k items in every part; the assertion fires exactly when k does not divide n; item after item goes to the first part that is lightest by then |
| GreedyPartition.ScheduleOnce | verl/utils/seqlen_balancing.py:145-152 | and that determines the parts |
| MicroBatches.CheckAndSort | verl/utils/seqlen_balancing.py:189-199 | passes exactly for k non-empty parts that reach 0..n-1, and then sorts each |
| MicroBatches.GetSeqlenBalancedPartitions | verl/utils/seqlen_balancing.py:161-202 | succeeds exactly when 1 <= k <= n, and k divides n in equal-size mode: no later assertion can fire; the parts are a sorted exact cover without empty parts, each the sorted part of the differencing run |
| MicroBatches.SortedPartsOnce | verl/utils/seqlen_balancing.py:161-202 | and that determines them |
| MicroBatches.PartitionQuality | verl/utils/seqlen_balancing.py:161-202 | k * heaviest <= total + (k-1) * largest, and at most (2 - 1/k) times the heaviest part of any other assignment |
| MicroBatchOrder.ReorderedShape | verl/utils/seqlen_balancing.py:325-326 | every second reversed, then the others: workloads rise and then fall |
| MicroBatchOrder.ReorderedMultiset | verl/utils/seqlen_balancing.py:326 | the reordering is a permutation of the micro-batches |
| MicroBatches.RearrangeMicroBatches | verl/utils/seqlen_balancing.py:261-334 | succeeds exactly under the stated conditions on limit, divisor and count; the micro-batches cover every row once, none is empty, workloads are within the largest of each other, and rise then fall when balanced; they are the parts of the differencing run, when balanced with the heaviest in the middle and the others by turns left and right of it; the tokens of each are bounded as in the rows below |
| MicroBatches.ArrangedOnce | verl/utils/seqlen_balancing.py:313-326 | and that determines the micro-batches and their order |
| MicroBatchCounts.LocalCountIs | verl/utils/seqlen_balancing.py:298-303 | what one rank needs is the least number with room for all its tokens, or one per row if that is less; a minimum raises it no further than to itself |
| MicroBatchCounts.CountIs | verl/utils/seqlen_balancing.py:298-309 | the number of micro-batches is the largest need of any rank, or with a divisor the first multiple of it from there |
| MicroBatchCounts.RanksMakeTheSame | verl/utils/seqlen_balancing.py:304-309 | in any world of ranks, each knowing the needs of the others, any two ranks make the same number |
| MicroBatchCounts.CountCoversTokens | verl/utils/seqlen_balancing.py:299-311 | whatever the minimum, the other ranks and the divisor, there are enough micro-batches for all tokens if no row is longer than the limit |
| MicroBatchTokens.WorkOfLongerRow | verl/utils/seqlen_balancing.py:28-34 | one token is 24577 units of work, and rows of a and b tokens in one cost 2ab more than apart |
| MicroBatchTokens.SafeRowsFit | verl/utils/seqlen_balancing.py:275 | the limit holds when all tokens fit one micro-batch, when every row gets its own, or when total workload plus (k-1) times the largest is below k times that of limit + 1 tokens |
| MicroBatchTokens.TooManyTokens | verl/utils/seqlen_balancing.py:275 | the limit holds only if there are at most k * limit tokens, in any split |
| MicroBatchTokens.EqualRowsExactlyWhen | verl/utils/seqlen_balancing.py:275 | rows of one length s stay within the limit iff s * ceil(n/k) <= limit |
| MicroBatchTokens.LargestSize | verl/utils/seqlen_balancing.py:317-318 | balancing rows of one length by workload gives the largest micro-batch exactly ceil(n/k) rows |
| MicroBatchTokens.TokensAtMost | verl/utils/seqlen_balancing.py:275 | for every input: 24577 * k * tokens <= (2k-1) * (24576 + limit) * limit |
| MicroBatches.TokenLimitCanBeExceeded | verl/utils/seqlen_balancing.py:275 | lengths 6, 6, 6 with limit 10: two micro-batches, and one has at least 12 tokens in every split |
| MicroBatches.GetReverseIdx | verl/utils/seqlen_balancing.py:337-352 | the in-place loop leaves the last position written for every index |
| MicroBatches.OverwrittenEntries | verl/utils/seqlen_balancing.py:347-350 | entry j is the last i with idx[i] = j, or unchanged if there is none |
| MicroBatches.ReverseInverts | verl/utils/seqlen_balancing.py:337-345 | for every permutation the result is its inverse, on both sides |
| MicroBatches.RestoreDynamicBatch | verl/utils/seqlen_balancing.py:394-416 | fails exactly on a wrong length or an index out of range, and otherwise picks the rows by the reverse mapping |
| MicroBatches.MicroBatchingIsTransparent | verl/utils/seqlen_balancing.py:394-416 | splitting by any exact cover, applying a function per row and restoring gives the function applied to the rows in their original order |
| PipelineShards.CandidateExists | verl/model_merger/megatron_model_merger.py:81-96 | for three or more stages there is a candidate iff ceil(N/pp) * (pp-2) <= N-2, and the least one is ceil(N/pp) |
| PipelineShards.DiffGrows | verl/model_merger/megatron_model_merger.py:87-96 | larger middle stages are further from the first, so the sort picks the least |
| PipelineShards.Collect | verl/model_merger/megatron_model_merger.py:82-93 | the search loop appends exactly the candidates, in order |
| PipelineShards.GetDynamicPipelineShards | verl/model_merger/megatron_model_merger.py:57-98 | every error case exactly, and the shards otherwise, with ceil(N/pp) layers in every middle stage |
| PipelineShards.ShardsSplit | verl/model_merger/megatron_model_merger.py:64-65 | pp positive sizes that add up to N |
| PipelineShards.ShardsLargestIsLeast | verl/model_merger/megatron_model_merger.py:64-65 | no split of N layers into pp stages has a smaller largest stage |
| PipelineShards.ShardsExactly | verl/model_merger/megatron_model_merger.py:57-98 | the shards are the one split of N layers with the rounded-up average in every middle stage and the rest in two halves, the smaller first |
| PipelineShards.UniformExactlyWhen | verl/model_merger/megatron_model_merger.py:64-65 | the result is as uniform as any split exactly when pp <= 2 or ceil(N/pp) * pp - N <= 2 |
| PipelineShards.NineLayersOnFourStages | verl/model_merger/megatron_model_merger.py:64-65 | a split less uniform than necessary |
| LayerOffsets.OffsetsTileExactlyWhen | verl/utils/megatron_utils.py:979-1105 | when the divisions come out even: every offset is the number of layers in all earlier chunks, and the chunks have all N layers, iff the configuration is not interleaved, or interleaved evenly over several stages, or unevenly with the first-stage size and a middle stage, or leaves no layers to misplace |
| LayerOffsets.OneStageInterleaved | verl/utils/megatron_utils.py:1103-1105 | interleaved on one stage every offset is 0 |
| LayerOffsets.BothEndsInterleaved | verl/utils/megatron_utils.py:1018-1055 | interleaved on two stages with both sizes set, the second stage divides by zero |
| LayerOffsets.OffsetOfChunk | verl/utils/megatron_utils.py:979-1105 | in the configurations above, for one chunk |
| LayerOffsets.EveryLayerOnce | verl/utils/megatron_utils.py:979-1105 | sizes laid end to end put every layer in exactly one chunk |
| LayerOffsets.LastOnlyInterleaved | verl/utils/megatron_utils.py:1018-1055 | interleaved with only the last-stage size set, ranks 0 and 1 get the same offset |
| LayerOffsets.ShardConfigDivides | scripts/converter_hf_to_mcore.py:450-457 | the configuration derived from the dynamic shards divides evenly and gives every rank its shard |
| LayerOffsets.ShardOffsets | scripts/converter_hf_to_mcore.py:506-508 | its offsets are the cumulative sums of the shards |
| LayerOffsets.FileNumbersTile | verl/model_merger/megatron_model_merger.py:428-453 | every file number from 1 to the total is written by exactly one rank, for exactly one of its chunks |
| CheckpointEntries.EntryAddsParts | verl/model_merger/megatron_model_merger.py:371-413 | a parameter that is not skipped adds its one, two or three parts under their own names, and nothing else |
| CheckpointMerge.MergeChunk | scripts/legacy_model_merger.py:619-658 | fails exactly on an unknown name; otherwise one chunk's entries, fused tensors in parts, under their shifted names, everything else kept, and its largest local layer number |
| StateDictMerge.MergeStateDicts | verl/model_merger/megatron_model_merger.py:358-420 | fails exactly on an unknown name; otherwise every part of every layer parameter of every chunk under its own global number, the last of every other parameter but extra state and, with tied embeddings, the output layer, and nothing else; starting at 0, whatever model was cut into the chunks comes back exactly when no chunk without layers is in front of one with layers |
| StateDictMerge.MergedModelExactlyWhen | verl/model_merger/megatron_model_merger.py:358-420 | that for the parameters of one model: the result has exactly their parts iff no chunk without layers comes before one with layers |
| StateDictMerge.ModelIsEntries | scripts/legacy_model_merger.py:622-656 | a dictionary holds the parts of a model's parameters exactly when it is the model's entries |
| CheckpointMerge.RangesAreDisjoint | scripts/legacy_model_merger.py:617-658 | layers of one chunk never land on a name an earlier chunk has taken |
| CheckpointMerge.CountIsOffsetWhen | scripts/legacy_model_merger.py:658 | a running count is the number of layers before the chunk iff no chunk before it is empty |
| CheckpointMerge.CountsAreOffsetsWhen | scripts/legacy_model_merger.py:617-658 | all running counts, also those of empty chunks, are right iff no chunk but the last is empty |
| CheckpointMerge.EmptyChunkShiftsLayers | scripts/legacy_model_merger.py:658 | behind an empty chunk every layer number is too high |
| CheckpointMerge.CountsAreLayerOffsets | scripts/legacy_model_merger.py:617-658 | for chunks in the order vp outer, pp inner the running count equals get_transformer_layer_offset |
| CheckpointMerge.MergeUndoesSplit | scripts/legacy_model_merger.py:610-658 | merging at the chunks' own starts gives back exactly the model that was split |
| CheckpointMerge.MergeRebuildsExactlyWhen | scripts/legacy_model_merger.py:617-658 | with the counts that the mergers compute the result is the model that was split iff no chunk without layers comes before one with layers |
| CheckpointMerge.LastLayerIsBeyond | scripts/legacy_model_merger.py:658 | otherwise the last layer of all lands on a number that the model does not have |
| Tensors.PiecesOfConcat | verl/utils/megatron_utils.py:776-786 | cutting undoes concatenating equal pieces |
| Tensors.ChunkOfMultiple | verl/utils/megatron_utils.py:776-786 | a tensor of n * size rows chunks into n pieces of that size |
| Tensors.Regroup | verl/utils/megatron_utils.py:776-786 | cutting n * m equal blocks into n pieces joins them in runs of m |
| QkvLayout.SplitShard | scripts/legacy_model_merger.py:544-554 | every chunk of a shard is split into query, key and value rows, or the split fails on a chunk of another size |
| QkvLayout.MergeAcrossTp | scripts/legacy_model_merger.py:531-559 | the nested loops over shards and groups, with every assertion and error, against one specification |
| QkvLayout.MergeErrors | scripts/legacy_model_merger.py:536-545 | each assertion and division that fails before a shard is split, and exactly when |
| QkvLayout.SplitTensors | verl/model_merger/megatron_model_merger.py:330-354 | the single-rank loop is the same function of one shard |
| QkvLayout.ConvertQkvShard | verl/utils/megatron_utils.py:544-574 | the slicing loops against a specification on slices |
| QkvLayout.QkvRoundTrip | scripts/converter_hf_to_mcore.py:149-162 | for any tp dividing the query groups: interleave, cut into tp shards, and merge or slice gives back q, k, v exactly |
| QkvLayout.SplitRoundTrip | verl/model_merger/megatron_model_merger.py:330-354 | the single-rank splitter gives back q, k, v from the fused weight |
| QkvLayout.MoreRanksThanGroups | scripts/legacy_model_merger.py:544-545 | with more ranks than query groups the mergers always fail |
| QkvLayout.MergeGateUp | scripts/legacy_model_merger.py:520-530 | the halves of every shard, joined; fails exactly if a shard does not chunk in two |
| QkvLayout.ConvertGateUpShard | verl/utils/megatron_utils.py:592-607 | the slicing loop for gate and up |
| QkvLayout.GateUpRoundTrip | verl/utils/megatron_utils.py:797-806 | both readers give back gate and up from paired shards |
| Subspace.ProjectedIsOrthogonal | verl/utils/alpha_stabler.py:54-59 | the projected gradient is orthogonal to every basis vector |
| Subspace.ProjectIsIdempotent | verl/utils/alpha_stabler.py:54-59 | projecting twice is projecting once |
| Subspace.ProjectionIsUnique | verl/utils/alpha_stabler.py:55 | only the component in the span is removed: nothing else is orthogonal and differs by a combination |
| Subspace.EnergySplits | verl/utils/alpha_stabler.py:62-65 | total energy is energy in the span plus energy of the projection |
| Subspace.EnergiesAreProper | verl/utils/alpha_stabler.py:62-65 | principal energy is between zero and total energy |
| Subspace.EnergiesOfConcat | verl/utils/alpha_stabler.py:44-51 | energies of split rows add up to those of all rows |
| Subspace.PsiInRange | verl/utils/alpha_stabler.py:136 | the ratio lies in [0, 1) |
| Predictor.CountIsStreak | verl/utils/alpha_stabler.py:195 | the counter is the length of the current run of valid checks above warning |
| Predictor.ActiveExactlyWhenRaised | verl/utils/alpha_stabler.py:192-199 | after any checks: active iff an earlier check ended persistence valid ones above warning and no valid one since was below release |
| Predictor.InvalidCheck | verl/utils/alpha_stabler.py:140-141 | an invalid check resets the counter and changes neither average nor flag |
| Predictor.EmaClosedForm | verl/utils/alpha_stabler.py:194 | beta^t times the start plus every measurement weighted by its age |
| Predictor.EmaInRange | verl/utils/alpha_stabler.py:194 | the average stays in any range of its start and its inputs |
| Predictor.PowDecays | verl/utils/alpha_stabler.py:194 | beta^n <= 1 / (1 + n (1 - beta)) |
| Predictor.ForcedRelease | verl/utils/alpha_stabler.py:192-199 | inputs delta below release switch control off after a computable number of valid checks, and it stays off |
| Predictor.ForcedActivation | verl/utils/alpha_stabler.py:192-199 | inputs delta above warning switch control on after that many valid checks and then persistence in a row, and it stays on |
| Quantiles.MedianIs | verl/utils/alpha_stabler.py:181 | the median is the middle of the values in rising order, or half way between the two in the middle |
| Quantiles.OneMedianAndDeviation | verl/utils/alpha_stabler.py:181-182 | values have one median and one median of the distances from it |
| CalibrationOutcome.MeasureIs | verl/utils/alpha_stabler.py:89-92 | a pooled energy is measured iff it has tokens and more than the least shift per token, and then as principal / (total + epsilon) |
| CalibrationOutcome.PsisAre | verl/utils/alpha_stabler.py:173-177 | the measurements of a layer are those of the replies that count, in order |
| CalibrationOutcome.LayerNeedsReplies | verl/utils/alpha_stabler.py:155-177 | a layer is not calibrated before all its replies have come |
| CalibrationOutcome.LayerOutcome | verl/utils/alpha_stabler.py:155-188 | when they have, exactly one of: too few tokens, no valid measurement, thresholds out of order, or the shared basis with the thresholds of the median and deviation of the measurements |
| CalibrationOutcome.EveryLayerItsReplies | verl/utils/alpha_stabler.py:155-189 | every layer is calibrated to its own replies, behind those of the layers before it |
| CalibrationOutcome.WarmUpOfLayer | verl/utils/alpha_stabler.py:102-122 | a warm-up step adds a layer's reference tokens to its moments and at a check its shift to its records |
| CalibrationOutcome.EndOfWarmUp | verl/utils/alpha_stabler.py:101-189 | after the last warm-up step, with m and d the median and deviation of a layer's valid measurements: the average starts at m, and x is above warning iff x - m > warning_mad * (1.4826 d + epsilon), below release iff x - m < release_mad * (1.4826 d + epsilon) |
| RankAgreement.StepsAgree | verl/utils/alpha_stabler.py:94-151 | for every sequence of replies two agreeing ranks issue the same collectives on tensors of the same shapes, stop at the same one, and agree again |
| RankAgreement.RunsAgree | verl/utils/alpha_stabler.py:94-190 | the same over whole runs: whatever is replied, as long as it is the same to both, bases, thresholds, averages, counts and flags stay identical |
| Causality.StepSteady | verl/utils/alpha_stabler.py:94-190 | a step uses one reply per collective, in order; what it sends does not depend on later replies; and it sends only so often |
| CollectiveRun.StepCompletes | verl/utils/alpha_stabler.py:44-172 | for any number of agreeing ranks, all-reduces that reply with the sum and broadcasts that reply with rank 0's tensor bring every step to its end on all ranks, with every reply received |
| CollectiveRun.CourseIsUnique | verl/utils/alpha_stabler.py:94-190 | no other sequence of such replies completes the step |
| CollectiveRun.RunCompletes | verl/utils/alpha_stabler.py:94-190 | the replies exist for every number of ranks and of steps |
| CollectiveRun.NobodyWaits | verl/utils/alpha_stabler.py:94-190 | with them no rank ever waits for good |
| CollectiveRun.FleetAgrees | verl/utils/alpha_stabler.py:94-190 | and all ranks send the same collectives, end alike and keep identical bases, thresholds, averages, counts and flags |
| RankAgreement.MomentsInStep | verl/utils/alpha_stabler.py:155-172 | eigenvectors that differ between ranks do not matter, because the basis is broadcast |
| RankAgreement.UnneededObservation | verl/utils/alpha_stabler.py:85-87 | when no observation is asked for, the step does not depend on it |
| RankAgreement.NeededObservation | verl/utils/alpha_stabler.py:85-87 | when one is asked for, it makes a difference |
| StablerResume.RunTurns | verl/utils/alpha_stabler.py:85-151 | any number of steps of the object, each with its hooks, are the run of the specification: state, collectives, projection bases and failure |
| StablerResume.SaveAndResume | verl/utils/alpha_stabler.py:216-237 | a checkpoint taken after any steps and loaded into any other object of the same configuration: with the same turns both have the same state, collectives, results and hook bases after every step, and together with the first part that is the uninterrupted run |
| StablerController.Controller.constructor | verl/utils/alpha_stabler.py:69-80 | the initial state: step 0, nothing calibrated, an empty record list per layer |
| StablerController.Controller.RecordWarmUp | verl/utils/alpha_stabler.py:101-122 | the warm-up loop, with its errors |
| StablerController.CalibrateOne | verl/utils/alpha_stabler.py:155-188 | three pooled moments, one broadcast, one pooled energy per record, then the thresholds, as the rows on calibration say of the replies |
| StablerController.Controller.Calibrate | verl/utils/alpha_stabler.py:153-190 | the fields are replaced only when every layer has succeeded |
| StablerController.CalibrationCovers | verl/utils/alpha_stabler.py:182-189 | a calibration covers exactly the layers, thresholds in order, nothing counted or active |
| StablerController.Controller.Monitor | verl/utils/alpha_stabler.py:130-147 | one pooled energy and one check per layer, predictor updated in place |
| StablerController.Controller.UpdatePredictor | verl/utils/alpha_stabler.py:192-199 | the field by field update is the predictor's step |
| StablerController.Controller.ObserveUpdate | verl/utils/alpha_stabler.py:94-151 | state, collectives and failure of every step, and the cached bases stay the current ones |
| StablerController.Controller.BackwardHook | verl/utils/alpha_stabler.py:201-214 | the hook projects with the current basis exactly when control is on, calibrated and active |
| StablerController.Controller.LoadStateDict | verl/utils/alpha_stabler.py:229-237 | refused exactly on a mismatch, otherwise the saved state, with no stale cached basis |
| MonitoredRun.MonitorStepsEachLayer | verl/utils/alpha_stabler.py:131-141 | each layer's predictor takes one step with its own reply; nothing else changes |
| MonitoredRun.CheckIs | verl/utils/alpha_stabler.py:133-136 | the check of a layer is its reply's share of energy in the subspace, if there are tokens and enough shift per token |
| MonitoredRun.LayerRunsItsChecks | verl/utils/alpha_stabler.py:126-141 | over any run a layer's predictor runs through exactly its own checks |
| MonitoredRun.ActiveInTraining | verl/utils/alpha_stabler.py:126-199 | after any run a layer is controlled iff its checks raised it and none since released it |
| MonitoredRun.PooledIsEnergyOfAll | verl/utils/alpha_stabler.py:133 | pooling over ranks is the energy of all their tokens |
| MonitoredRun.PooledMeasureInRange | verl/utils/alpha_stabler.py:132-137 | with an orthonormal basis a pooled measurement lies in [0, 1) |
| MonitoredRun.AveragesInTraining | verl/utils/alpha_stabler.py:126-199 | after any run with orthonormal bases whose replies pool the ranks' energies, the average of every layer is in [0, 1] |
| PooledStatistics.RowSumAt | verl/utils/alpha_stabler.py:118 | an entry of the sum over tokens is the sum of its column |
| PooledStatistics.GramAt | verl/utils/alpha_stabler.py:119 | an entry of the second moments is the product of its two columns |
| PooledStatistics.EnergiesAre | verl/utils/alpha_stabler.py:62-65 | the energies of a shift are the sums of the squares of all entries of shift @ basis and of the shift, and the number of rows |
| PooledStatistics.AddedRows | verl/utils/alpha_stabler.py:116-119 | moments added step by step are those of the tokens of all steps |
| PooledStatistics.WarmUpSees | verl/utils/alpha_stabler.py:102-119 | a warm-up step leaves every layer with the moments of all reference tokens it has seen since the start |
| PooledStatistics.MonitoringSeesAllTokens | verl/utils/alpha_stabler.py:131-133 | when all-reduces reply with the sum of what the ranks send, a layer's reply in a monitoring step is the energy of the shifts of all tokens of all ranks against its basis |
| PooledStatistics.CalibrationSeesAllTokens | verl/utils/alpha_stabler.py:155-177 | and at the end of the warm-up a layer's replies are the number, sum and second moments of the tokens of all ranks, the basis the first rank computes from them, and per recorded step the energy of the shifts of all ranks |
| PackedLoss.SelectedAt | verl/utils/npu_utils.py:115 | an attended token is found at its place among the selected ones |
| PackedLoss.IndexPutFirstAxis | verl/utils/npu_utils.py:56-66 | the values at their indices in a new buffer, zero elsewhere |
| PackedLoss.ScatterIsUnique | verl/utils/npu_utils.py:56-66 | that determines the buffer |
| PackedLoss.PackedLoss | verl/trainer/fsdp_sft_trainer.py:466-518 | unpad, roll, loss per token, pad back, drop the last column, mask |
| PackedLoss.PackedEqualsPadded | verl/trainer/fsdp_sft_trainer.py:443-518 | the packed loss is the padded loss entry by entry when every counted target is attended and so is the token before it |
| PackedLoss.UncoveredDiffers | verl/trainer/fsdp_sft_trainer.py:443-518 | for a target that counts but is not covered, one other token in a batch of equal tokens tells the two paths apart, for every loss that tells it from what the packed path uses instead |
| PackedLoss.SameExactlyWhenHarmless | verl/trainer/fsdp_sft_trainer.py:443-518 | for every loss function and masks the two agree on all tokens iff no target that counts is one the loss can tell apart |
| PackedLoss.SameExactlyForLogits | verl/trainer/fsdp_sft_trainer.py:443-518 | for the cross entropy of any logits: iff every target that counts follows an attended token, and is attended or follows logits that are all equal |
| PackedLoss.SameExactlyWhenCovered | verl/trainer/fsdp_sft_trainer.py:443-518 | so unless logits are all equal somewhere: iff every target that counts is attended and follows an attended token |
| BatchProtocol.PadToDivisor | verl/protocol.py:73-99 | the rows over and over up to the next multiple: padded row i is row i mod n, tensors and objects aligned |
| BatchProtocol.SizeIsLength | verl/protocol.py:345-352 | the size of a batch is the number of its tensor rows, else of the items of any object column, else 0, and all columns agree |
| BatchProtocol.RowsOfConcat | verl/protocol.py:924-968 | concatenation keeps all items in order, each with its own objects |
| BatchProtocol.ChunkProto | verl/protocol.py:871-910 | both error cases exactly; otherwise all items in order over the chunks, in equal parts if they divide; else tensors in rounded-up averages with the rest last, objects alone in parts that never grow and differ by at most one |
| BatchProtocol.ChunkCount | verl/protocol.py:886-908 | the tensors come in the asked number of chunks iff the last would not be empty |
| BatchProtocol.CutIsAlike | verl/protocol.py:885-910 | cutting all columns at the same points keeps every item once |
| BatchProtocol.PaddedChunksWell | verl/protocol.py:82-90 | after padding to the number of workers chunking cannot fail |
| BatchProtocol.PaddingIsTransparent | verl/trainer/main_generation.py:129-135 | pad, chunk, any row-wise function per chunk, concat and unpad is the function on the original rows |
| MemoryBuffers.PaddedNumel | verl/utils/memory_buffer.py:55-59 | the least multiple of 128 bits that holds the elements |
| MemoryBuffers.PaddedBits | verl/utils/memory_buffer.py:55-59 | the same in bits, for every data type |
| MemoryBuffers.ViewsAreApart | verl/utils/memory_buffer.py:72-141 | every view is in its buffer, aligned, and overlaps no other |
| MemoryBuffers.BuildMemoryBuffer | verl/utils/memory_buffer.py:72-98 | one separate buffer per data type that occurs, of exactly the padded total |
| MemoryBuffers.BuildMemoryReference | verl/utils/memory_buffer.py:117-141 | no request is refused, and every view is where the prefix sums say |
| MemoryBuffers.BuildMemoryReferenceFromModule | verl/utils/memory_buffer.py:101-114 | the same views, and after the copies in place every parameter reads its old contents |
| GroupFilter.SpreadMeansDifferent | recipe/dapo/dapo_ray_trainer.py:259-267 | the standard deviation is positive iff two responses score differently |
| GroupFilter.CollectMetrics | recipe/dapo/dapo_ray_trainer.py:252-257 | the metrics of every uid, in order |
| GroupFilter.KeptExactlyWhen | recipe/dapo/dapo_ray_trainer.py:259-267 | a prompt stays iff two of its responses score differently or it has just one |
| GroupFilter.KeptCount | recipe/dapo/dapo_ray_trainer.py:259-268 | and that many prompts of a batch stay |
| GroupFilter.FilterGroups | recipe/dapo/dapo_ray_trainer.py:252-275 | a row stays as often as it occurs iff two rows with its uid score differently or it is the only one with it, and how many uids that is |
| GroupFilter.FilteringKeepsGroups | recipe/dapo/dapo_ray_trainer.py:252-275 | filtering a batch keeps whole prompts in order and counts them |
| DapoLoop.Accumulate | recipe/dapo/dapo_ray_trainer.py:268-276 | the accumulated rows are the whole kept prompts of all batches since the last update |
| DapoLoop.UpdateIsWholePrompts | recipe/dapo/dapo_ray_trainer.py:278-296 | every filtered update is exactly train_batch_size prompts of n rows, each with a spread or alone |
| DapoLoop.Fit | recipe/dapo/dapo_ray_trainer.py:130-403 | updates use consecutive batches without gaps, no more than needed and no more than the limit; the run ends at the last step, or else with the error exactly if that many batches in a row have too few prompts with different scores or one response, or else when the batches are used up |

## Left out

- Streams, events, device and host memory: transfers are taken as complete when they are issued.
- Floating-point rounding, reduced precision and eigenvectors: reals; the eigenvector function may differ per rank.
- NaN and infinities, and the finiteness checks on activations and energies.
- ActivationOffload.OffloadHandler.constructor: `num_offload_group` is between 1 and the number of layers, as its comment
  demands; tensors with equal keys have equal flat contents, on which deduplication relies.
- `SynchronizedGroupOffloadHandler` on its own, fake and functional tensors beyond their being handed back, the
  activation checkpointing wrapper.
- KarmarkarKarp.KarmarkarKarpPartition: lengths are non-negative and k is not negative; the heap is a list that a least
  state is taken from, and where heapq keeps its entries is not modelled: it makes no difference to the partition.
- KarmarkarKarp.State.constructor: the assertion on the number of items is a precondition, which both callers meet.
- MicroBatchTokens.SafeRowsFit: sufficient only; for rows of different lengths no exact condition is given, because the
  token counts then depend on which rows the partitioner puts together.
- MicroBatches.RearrangeMicroBatches: nested tensors are not modelled; `dp_group` is the list of the other ranks' counts.
- `log_seqlen_unbalance`, `prepare_dynamic_batch` beyond the index lists.
- LayerOffsets.OffsetsTileExactlyWhen: a custom pipeline layout and the flags that count embedding and loss as layers are not
  modelled.
- StateDictMerge.MergeStateDicts: a name is a layer number, if any, with an identifier that stands for its name in the
  merged model, so the string mapping, with that of experts, is not modelled; tensors are already merged across
  ranks and split, as `QkvLayout` says.
- QkvLayout.ConvertQkvShard: the branch with fewer key-value heads than ranks.
- Router, norm and second MLP weights, vision towers, `safe_copy`.
- StablerController.Controller.constructor: the ValueErrors of the configuration and of an empty or repeated layer list
  are preconditions; `principal_fraction` is part of the eigenvector function.
- StablerController.Controller.LoadStateDict: the checkpoint is one that a controller wrote.
- CollectiveRun.StepCompletes: the bases that ranks compute from equal moments have equal shapes; a collective on tensors
  of different shapes is not modelled, because it does not happen.
- StablerResume.SaveAndResume: a checkpoint is a copy, as writing it to a file and reading it back makes it;
  `state_dict` itself hands out the live dictionaries, which two objects in one process would share.
- Metrics and the pooled intrusion over all layers that is only logged; a step after an exception; the token sampling,
  mask selection and module hooks of `AlphaStablerRuntime`.
- PackedLoss.IndexPutFirstAxis: indices that occur twice, for which the last writer is not determined.
- PackedLoss.PackedLoss: Ulysses padding, slicing and gathering are the identity; logits are named by their position,
  which is the assumption that the packed model computes the same logits; cross entropy is known by being positive
  and by its differences; the final normalisation is common to both.
- BatchProtocol.ChunkProto: chunking a batch with tensors but no rows, whose behaviour is a foreign library's.
- BatchProtocol.RowsOfConcat: batches with different columns, and the merging of meta information.
- `union`, `pop`, `rename`, `reorder`, `repeat`, `DataProtoFuture`: they would only add easy members.
- MemoryBuffers.BuildMemoryReference: the buffers are those of `build_memory_buffer` for the same parameters.
- DapoLoop.Fit: generation, rewards, KL terms, critic and actor updates, validation, checkpoints and profiling; uids are
  distinct within a generated batch.
- Ray, NCCL, FSDP, Megatron internals, rollout engines, tokenizers, file formats and launch scripts.

# A verified model of verl's weight synchronisation, activation offload, replay and data plumbing

These Dafny modules model the parts of verl whose correctness depends on the order in which things happen, or on
arithmetic that is easy to get wrong, and prove what those parts are relied on for.

- **Weight synchronisation** (`verl/checkpoint_engine/`). Named byte tensors are split into chunks, packed into
  fixed-size buckets, sent through two swapped buffers and merged again (`WeightChunks`, `Buckets`, `Alignment`,
  `BucketSender`).
  Two state machines carry the buckets: the chain of ranks in which each rank reads from its predecessor while its
  successor reads from it (`RelayChain*`, with `Topology` and `NixlAgent`), and the broadcast from one rank to all
  others (`Broadcast*`). Their steps are single suspension points of the coroutines and single bytes of the
  transfers; a run is any interleaving. A coroutine crashes where the code raises: rank 0 at a name that is taken, a
  receiver at a view that is not aligned. In every run nobody writes a buffer that is still being read, and a receiver
  has merged a part of the non-empty weights; every rank gets done, with all of them, if and only if there is nothing to
  crash at.
- **Activation offload** (`verl/utils/activation_offload.py`). `OffloadWindow` is the arithmetic of the window map,
  `OffloadModel` the handler as a value, `OffloadHandler` the object that refines it method by method,
  `OffloadProofs` and `OffloadRuns` the invariant and the results about any sequence of passes, `OffloadBound` the
  exact condition for at most two groups on the device.
- **Replay buffer** (`verl/trainer/main_ppo_sync.py`). `ReplayBuffer` is the class with its polling loop,
  `TrajectoryKeys` the text of the keys, `ReplaySystem` the interleaving of workers, store, poller and trainer,
  `ReplayTheorems` completeness, exactly-once and progress of the training samples.
- **Batches and dynamic sampling** (`verl/protocol.py`, `src/dapo_ray_trainer.py`). `RowOps`, `DataProtos` and
  `Padding` show that a columnar batch behaves as a sequence of rows; `Spread` and `DynamicSampling` are the loop
  that filters and accumulates prompt groups.
- **Algorithms.** `FracRewriter` and `BoxedAnswer` (`src/custom_think_rm.py`), `SafetensorsLoad` and `ModuleInit`
  (`verl/utils/fsdp_utils.py`), `PipelineShards` and `QkvSplit` (`verl/model_merger/megatron_model_merger.py`), `KimiSchedule`
  (`verl/checkpoint_engine/kimi_checkpoint_engine.py`), `BoundingBox` (`verl/tools/image_zoom_in_tool.py`).

Imperative code is written as methods with loops and as classes whose methods are proved against specification
functions; the lemmas are about those functions.

## What turned out not to hold

Where a property fails for some inputs, the members named here say for which, and most of them come with a witness.

- An empty weight is dropped: the round trip gives back all weights if and only if none of them is empty
  (`WeightChunks.RoundTripExactlyWithoutEmptyWeights`, and `WeightChunks.EmptyWeightIsLost` for one that is).
- A weight that fits one bucket is viewed in place, as its dtype, and such a view fails unless it starts at a multiple
  of the item size; the senders place chunks side by side without regard to that. The packed weights come back if and
  only if all such chunks are aligned (`Buckets.PackedWeightsComeBack`). Weights of one item size are always aligned
  exactly if the bucket size is a multiple of it, or smaller (`Alignment.OneItemSizeExactly`); a bucket size counted in
  megabytes is. With several item sizes an odd weight shifts the next one (`Alignment.OddWeightMisaligns`); a unit that
  the bucket size and all weights share keeps them aligned (`Alignment.UnitKeepsAlignment`).
- A receiver that crashes at such a view takes no further bucket, and rank 0 waits for it. On the chain rank 0 gets done
  if and only if no bucket holds a name twice and no view before the last two buckets is misaligned
  (`RelayChainTheorems.SenderDoneExactly`); in the broadcast, if and only if no bucket holds a name twice and the wires
  can take what the receiver leaves (`BroadcastTheorems.SenderDoneExactly`).
- Two weights of one name in one bucket stop the sender (`Buckets.SameNameTwice` is an example). All ranks get done if and
  only if no bucket holds a name twice and all views are aligned (`RelayChainTheorems.ChainDeliversWeights`,
  `BroadcastTheorems.BroadcastDeliversWeights`).
- With one rollout worker the topology cannot be dispatched: the slice from `-1 + 1` is the whole list
  (`Topology.DispatchableExactlyFromTwoRollouts`, `Topology.SingleRolloutGetsTrainerAsSuccessor`).
- `get_notification` reuses its parameter as a loop variable, so with several senders it can return another agent's
  notification (`NixlAgent.AwaitedAgentServedExactlyIfLast`, `NixlAgent.MisdirectedNotification`). On the chain
  only the successor sends notifications, and there the call is right (`NixlAgent.SingleSourceIsAwaited`).
- The documented bound of two activation groups on the device holds in every run if and only if there is one group
  fewer than layers, as the code sets it up, or there are as many and at most three (`OffloadBound.TwoGroupsExactly`).
  With as many groups as layers every group but the first stays (`OffloadRuns.OnlyGroupZeroIsOffloaded`).
- Ranks that load a checkpoint agree on who holds what if and only if the index fits what the files contain
  (`SafetensorsLoad.RanksAgreeExactly`); a file with one parameter more than the index lists splits them
  (`SafetensorsLoad.UnlistedParameterSplitsRanks`).
- A single number of copies for a whole batch is accepted for non-tensor columns, but with tensors only if it is 0 or
  there is one row (`DataProtos.SampleLevelRepeatIsRepeatBy`).
- `get_dynamic_pipeline_shards` fails with an empty candidate list for admissible inputs such as 5 layers on 4 ranks
  (`PipelineShards.DynamicPipelineShards` gives the exact condition, `PipelineShards.FiveLayersOnFourRanks` the witness).
- An answer in an `\fbox` is searched for but never extracted (`BoxedAnswer.ExtractedExactly`).
- Splitting a fused query/key/value weight fails, assertions aside, exactly when the key rows do not divide among the
  groups (`QkvSplit.SplitQkv`; `QkvSplit.IndivisibleKeyRows` passes every assertion and fails).
- Rounding can push an acceptable, enlarged box over the limit of the aspect ratio (`BoundingBox.RoundingCanReject`), and
  it can make up the missing height of a box that could not grow to the minimum (`BoundingBox.RoundingCanAccept`).
  `BoundingBox.AcceptedExactly` gives both conditions: a box that has grown to the minimum is rejected exactly if its
  short side begins on a whole pixel and its long side rounds to more than 2800; one that has not is accepted exactly if
  the image is 28 long and the short side's end lies more than 27 behind its rounded start.
- The entries of prompts are never removed from the replay buffer; only trajectories are
  (`ReplayTheorems.PromptEntriesAccumulate`).  A removed trajectory comes back into the buffer, and stays, exactly if the
  poller merges a listing it made before the store was cleared (`ReplayTheorems.RemovedComesBackExactly`).

## Model

| member | source | states |
|---|---|---|
| WeightChunks.SplitWeightChunks | verl/checkpoint_engine/base.py:464-490 | the nested loops yield the chunks of every weight in order: consecutive ranges of at most the bucket size, nothing for an empty weight |
| WeightChunks.SplitSized | verl/checkpoint_engine/base.py:476-490 | every chunk carries as many bytes as its metadata says, at least one and at most the bucket size |
| Shapes.NumelOfVector | verl/checkpoint_engine/base.py:508 | a vector has as many elements as it is long, a scalar one |
| Shapes.NumelMultiplies | verl/checkpoint_engine/base.py:508 | joining two shapes multiplies their numbers of elements |
| WeightChunks.Merger.Feed | verl/checkpoint_engine/base.py:506-532 | one turn of the merge loop on the merge buffer: either one of its assertions, views or slice assignments fails, the view of a misaligned chunk included, or the new state and the completed weight are those of the merge function |
| WeightChunks.TurnSucceedsExactly | verl/checkpoint_engine/base.py:506-532 | for any state and chunk, well formed or not: a turn of the merge loop goes through if and only if nothing is pending and an aligned chunk has all bytes of a weight that fits one bucket, or the chunk begins a larger weight at 0, or it carries on the pending one by name and offset with room for its bytes |
| WeightChunks.MergeWeightChunks | verl/checkpoint_engine/base.py:493-532 | the whole loop yields the weights of the merge function and stops at the first failure |
| WeightChunks.MergeUndoesSplit | verl/checkpoint_engine/base.py:464-532 | merging the chunks of any valid weights yields exactly the non-empty ones, name, shape, dtype and bytes, with no assertion failing, whatever freshly allocated memory holds |
| WeightChunks.RoundTripExactlyWithoutEmptyWeights | verl/checkpoint_engine/base.py:476-490 | the round trip is the identity if and only if no weight is empty |
| WeightChunks.EmptyWeightIsLost | verl/checkpoint_engine/base.py:476-490 | a weight without elements does not come back |
| WeightChunks.MergeIgnoresAlignedPlaces | verl/checkpoint_engine/base.py:506-532 | the offsets chunks were given in their buckets do not influence merging, as long as every chunk that is viewed starts at a multiple of its item size |
| WeightChunks.MisalignedViewEndsMerge | verl/checkpoint_engine/base.py:511-515 | a chunk viewed at any other offset ends a merge that would otherwise succeed, with only a part of the weights yielded |
| Buckets.PackTiles | verl/checkpoint_engine/nccl_checkpoint_engine.py:272-279 | in every bucket the chunks lie side by side from byte 0 to the end, within the bucket size |
| Buckets.PackConserves | verl/checkpoint_engine/nccl_checkpoint_engine.py:247-279 | reading all buckets back by offset gives exactly the chunks that were packed, in order |
| Buckets.PackIsNextFit | verl/checkpoint_engine/nccl_checkpoint_engine.py:249-270 | a bucket together with the first chunk of the next one exceeds the bucket size |
| Buckets.NextFitBoundsBuckets | verl/checkpoint_engine/nccl_checkpoint_engine.py:249-270 | any two neighbouring buckets hold more than one bucket size together, which bounds the number of buckets by the bytes |
| Buckets.PackingIsSound | verl/checkpoint_engine/nixl_checkpoint_engine.py:391-431 | for any weights and any positive bucket size: at least one bucket, all tiled and within size, nothing lost, next-fit, and the bound on their number |
| Buckets.NoNameTwiceInABucket | verl/checkpoint_engine/nccl_checkpoint_engine.py:272-273 | with distinct weight names no bucket holds two chunks of one weight, so the duplicate assertion never fires |
| Buckets.PackedWeightsComeBack | verl/checkpoint_engine/nccl_checkpoint_engine.py:247-361 | end to end without a transport: split, pack, read back and merge yields the non-empty weights without error if every view is aligned, and fails at the first one that is not |
| Buckets.PartComesBack | verl/checkpoint_engine/nccl_checkpoint_engine.py:297-361 | from any part of the packed chunks whose views are aligned, a part of the non-empty weights has been merged, without error |
| Buckets.SameNameTwice | verl/checkpoint_engine/nccl_checkpoint_engine.py:272-273 | two one-byte weights of one name share a bucket |
| Alignment.UnitKeepsAlignment | verl/checkpoint_engine/nccl_checkpoint_engine.py:249-279 | all views are aligned if some unit divides the bucket size and every weight, and is whole items of every weight |
| Alignment.UnevenBucketsMisalign | verl/checkpoint_engine/nccl_checkpoint_engine.py:249-279 | if items fit the bucket and do not divide it, two weights suffice for a misaligned view |
| Alignment.OneItemSizeExactly | verl/checkpoint_engine/nccl_checkpoint_engine.py:249-279 | all weights of one item size, under distinct names, are aligned if and only if the bucket size is a multiple of the item size or smaller |
| Alignment.OddWeightMisaligns | verl/checkpoint_engine/base.py:511-515 | a three-byte weight before a two-byte item: the merge fails |
| BucketSender.Sender.Accept | verl/checkpoint_engine/nccl_checkpoint_engine.py:247-279 | one turn of the sender's loop on the two arrays: posts the full buffer and goes on in the other one, or places the chunk, or reports a duplicate name; a bucket never overflows |
| BucketSender.Sender.SendWeights | verl/checkpoint_engine/nccl_checkpoint_engine.py:243-294 | the loop posts exactly the packed buckets, alternating between the two buffers, the last one marked; it fails if and only if some bucket would hold a name twice |
| BucketSender.YieldBucket | verl/checkpoint_engine/nccl_checkpoint_engine.py:344-347 | the receiver's inner loop yields the view of every metadata entry in order |
| BucketSender.ViewsOfPrefix | verl/checkpoint_engine/nccl_checkpoint_engine.py:344-347 | a buffer that starts with the bucket's bytes yields the bucket's chunks, whatever the rest of it holds |
| Topology.DispatchableExactlyFromTwoRollouts | verl/checkpoint_engine/nixl_checkpoint_engine.py:287-305 | the lists have one entry per worker if and only if there are at least two rollout workers |
| Topology.TopologyIsOneChain | verl/checkpoint_engine/nixl_checkpoint_engine.py:287-331 | from two rollout workers on, every worker's assertions hold and the links form one chain with mutually inverse predecessors and successors |
| Topology.InitAcceptsExactly | verl/checkpoint_engine/nixl_checkpoint_engine.py:318-331 | a rank of a chain of at least two is accepted if and only if it has a predecessor exactly when it is above 0 and a successor exactly when it is in the chain below the last |
| Topology.SingleRolloutGetsTrainerAsSuccessor | verl/checkpoint_engine/nixl_checkpoint_engine.py:303-331 | with one rollout worker it would be given a successor, and its assertion would fail |
| NixlAgent.Agent.GetNotification | verl/checkpoint_engine/nixl_checkpoint_engine.py:134-140 | the loop with its reused variable: which queue is popped, and what is queued afterwards |
| NixlAgent.AbsorbExactly | verl/checkpoint_engine/nixl_checkpoint_engine.py:137-138 | a batch goes to the ends of the queues of its agents, in order |
| NixlAgent.SingleSourceIsAwaited | verl/checkpoint_engine/nixl_checkpoint_engine.py:134-140 | if only the awaited agent sends notifications, a call waits exactly until there is one, takes the oldest, and leaves the others in their order |
| NixlAgent.AwaitedAgentServedExactlyIfLast | verl/checkpoint_engine/nixl_checkpoint_engine.py:134-140 | the awaited agent is served if its queue is not empty, otherwise the agent that the first batch to bring anything lists last, the awaited one or not |
| NixlAgent.MisdirectedNotification | verl/checkpoint_engine/nixl_checkpoint_engine.py:134-140 | a batch for which another agent's notification is returned |
| RelayChainProofs.StepKeepsInv | verl/checkpoint_engine/nixl_checkpoint_engine.py:371-519 | every step of every rank, every byte moved and every completion keeps the invariant of the chain |
| RelayChainProofs.NoWriteIntoBusyBuffer | verl/checkpoint_engine/nixl_checkpoint_engine.py:393-432 | in every reachable state no step writes a buffer that the successor has yet to read to the end or that the rank is yielding from |
| RelayChainProofs.NotificationsMatch | verl/checkpoint_engine/nixl_checkpoint_engine.py:170-174 | whenever a rank takes a notification it is the one of its own open operation |
| RelayChainProofs.CrashReason | verl/checkpoint_engine/nixl_checkpoint_engine.py:172-174 | whatever names and places the buckets hold, a rank crashes only at a name that is taken, or at a view that is not aligned |
| RelayChainProofs.NoRankCrashes | verl/checkpoint_engine/nixl_checkpoint_engine.py:172-174 | rank 0 never crashes if no bucket holds a name twice, nor any other rank if all views are aligned |
| RelayChainProofs.SourceIsIntact | verl/checkpoint_engine/nixl_checkpoint_engine.py:465-500 | while a rank reads, the buffer it reads holds the whole bucket at its predecessor |
| RelayChainTheorems.NoDeadlock | verl/checkpoint_engine/nixl_checkpoint_engine.py:371-519 | if no bucket holds a name twice and all views are aligned, a reachable state in which nothing can happen is one in which every rank is done |
| RelayChainTheorems.ChainTerminates | verl/checkpoint_engine/nixl_checkpoint_engine.py:371-519 | the number of steps of any run is bounded by a measure of the buckets and the ranks |
| RelayChainTheorems.RunCanBeCompleted | verl/checkpoint_engine/nixl_checkpoint_engine.py:371-519 | from any state of a run the run can be carried on until nothing is enabled |
| RelayChainTheorems.EveryReceiverYieldsThePackedChunks | verl/checkpoint_engine/nixl_checkpoint_engine.py:445-519 | at any time, crashed or not, a receiver has yielded a prefix of the packed chunks, metadata and bytes; when it is done, all of them |
| RelayChainTheorems.DuplicateStopsSender | verl/checkpoint_engine/nixl_checkpoint_engine.py:421-426 | if a bucket holds a name twice rank 0 never gets done, in any interleaving |
| RelayChainTheorems.MisalignedViewStopsSender | verl/checkpoint_engine/nixl_checkpoint_engine.py:470-505 | if a view before the last two buckets is misaligned rank 0 never gets done, in any interleaving |
| RelayChainTheorems.SenderDoneExactly | verl/checkpoint_engine/nixl_checkpoint_engine.py:385-436 | when nothing can happen any more, rank 0 is done if and only if no bucket holds a name twice and no view before the last two buckets is misaligned |
| RelayChainTheorems.AllDoneExactly | verl/checkpoint_engine/nixl_checkpoint_engine.py:371-519 | when nothing can happen any more, every rank is done if and only if no bucket holds a name twice and all views are aligned |
| RelayChainTheorems.MergedAtAnyTime | verl/checkpoint_engine/base.py:300-303 | for any weights, in every interleaving and at any time, a receiver has merged a part of the non-empty weights without error; when it is done, all of them |
| RelayChainTheorems.ChainDeliversWeights | verl/checkpoint_engine/nixl_checkpoint_engine.py:371-519 | end to end, for any weights: when nothing can happen any more, every rank is done if and only if no bucket holds a name twice and all views are aligned, and then every receiver has merged exactly the non-empty weights |
| RelayChainTheorems.ChainDeliversUnitWeights | verl/checkpoint_engine/nixl_checkpoint_engine.py:371-519 | weights of distinct names that share a unit with the bucket size are delivered to every receiver |
| BroadcastProofs.StepKeepsInv | verl/checkpoint_engine/nccl_checkpoint_engine.py:77-361 | every step of rank 0, of a receiver and of their operations keeps the invariant of the broadcast |
| BroadcastTheorems.SenderNeverWritesOpenBuffer | verl/checkpoint_engine/nccl_checkpoint_engine.py:249-279 | rank 0 never fills the buffer of the broadcast it launched last, whatever names and places the buckets hold |
| BroadcastTheorems.CrashReason | verl/checkpoint_engine/nccl_checkpoint_engine.py:272-273 | rank 0 crashes only at a name that is taken, a receiver only at a view that is not aligned |
| BroadcastTheorems.OneBroadcastAtATime | verl/checkpoint_engine/nccl_checkpoint_engine.py:252-265 | a broadcast is launched only when the one before is over |
| BroadcastTheorems.ReceiverNeverYieldsFromOpenBuffer | verl/checkpoint_engine/nccl_checkpoint_engine.py:332-361 | a receiver never yields from the buffer that is being received into |
| BroadcastTheorems.EveryReceiverYieldsThePackedChunks | verl/checkpoint_engine/nccl_checkpoint_engine.py:314-361 | a receiver, crashed or not, yields bucket k exactly as it was packed, having yielded all buckets before it; when it is done it has yielded all |
| BroadcastTheorems.NoDeadlock | verl/checkpoint_engine/nccl_checkpoint_engine.py:77-361 | for any capacity of the wires, if no bucket holds a name twice and all views are aligned: when nothing can happen any more rank 0 has sent and every receiver has received everything |
| BroadcastTermination.BroadcastTerminates | verl/checkpoint_engine/nccl_checkpoint_engine.py:230-361 | the number of steps of any run is bounded by a measure of the buckets, the bytes and the receivers |
| BroadcastTermination.RunCanBeCompleted | verl/checkpoint_engine/nccl_checkpoint_engine.py:230-361 | from any state of a run the run can be carried on until nothing is enabled |
| BroadcastTheorems.DuplicateStopsSender | verl/checkpoint_engine/nccl_checkpoint_engine.py:272-276 | if a bucket holds a name twice rank 0 never has sent everything, in any interleaving |
| BroadcastTheorems.MisalignedViewStopsSender | verl/checkpoint_engine/nccl_checkpoint_engine.py:314-361 | if a view in bucket j is misaligned and the wires cannot take the buckets from j + 2 on, rank 0 never has sent everything |
| BroadcastTheorems.SenderDoneExactly | verl/checkpoint_engine/nccl_checkpoint_engine.py:230-294 | when nothing can happen any more, rank 0 has sent everything if and only if no bucket holds a name twice and for every bucket j with a misaligned view the wires can take the buckets from j + 2 on |
| BroadcastTheorems.AllThroughExactly | verl/checkpoint_engine/nccl_checkpoint_engine.py:230-361 | when nothing can happen any more, rank 0 has sent and all have received everything if and only if no bucket holds a name twice and all views are aligned |
| BroadcastTheorems.MergedAtAnyTime | verl/checkpoint_engine/base.py:300-303 | for any weights, in every interleaving and at any time, a receiver has merged a part of the non-empty weights without error; when it is done, all of them |
| BroadcastTheorems.BroadcastDeliversWeights | verl/checkpoint_engine/nccl_checkpoint_engine.py:230-361 | end to end, for any weights: when nothing can happen any more, all are through if and only if no bucket holds a name twice and all views are aligned, and then every receiver has merged exactly the non-empty weights |
| BroadcastTheorems.BroadcastDeliversUnitWeights | verl/checkpoint_engine/nccl_checkpoint_engine.py:230-361 | weights of distinct names that share a unit with the bucket size are delivered to every receiver |
| OffloadWindow.BuildWindowMap | verl/utils/activation_offload.py:248-257 | the loop computes the closed form (L/N)(i+1) - 1 + min(i+1, L mod N) |
| OffloadWindow.WindowIncreasing | verl/utils/activation_offload.py:248-257 | the window map is strictly increasing |
| OffloadWindow.WindowIsBalanced | verl/utils/activation_offload.py:246-257 | the load is balanced: each window ends L div N layers behind the one before, and the first L mod N of them one layer later |
| OffloadWindow.WindowEndsAtLastLayer | verl/utils/activation_offload.py:248-257 | the last group's window is the last layer |
| OffloadWindow.WindowBehindGroup | verl/utils/activation_offload.py:248-257 | no window lies before its group, and each lies behind it if and only if there are fewer groups than layers |
| OffloadWindow.WindowAsUsed | verl/utils/activation_offload.py:543 | with one group fewer than layers, group i's window is layer i + 1 |
| OffloadHandler.AsyncOffloadHandler.TensorPush | verl/utils/activation_offload.py:263-283 | the fields change as in the model; fails exactly when the tag is taken; a tensor that is not to be offloaded is returned itself, and nothing changes |
| OffloadHandler.AsyncOffloadHandler.TensorPop | verl/utils/activation_offload.py:285-296 | the fields change as in the model; fails exactly when the tag is unknown or its tensor is still on the host; a tensor given instead of a tag is returned itself |
| OffloadHandler.AsyncOffloadHandler.BulkOffloadGroup | verl/utils/activation_offload.py:298-317 | the two loops over the dictionaries do what the model's offload of a group does |
| OffloadHandler.AsyncOffloadHandler.OnGroupCommitForward | verl/utils/activation_offload.py:319-352 | a forward commit: kick-start, release, next offload and counters as in the model |
| OffloadModel.CommitForwardExactly | verl/utils/activation_offload.py:298-352 | a forward commit fails if and only if all groups are released already, or the first group when nothing is committed yet, or the one behind the window reached, has a tensor on the host |
| OffloadHandler.AsyncOffloadHandler.BulkReloadGroup | verl/utils/activation_offload.py:354-371 | the group's copies replace its entries and its mapping is gone; fails exactly when the mapping or a key is missing |
| OffloadHandler.AsyncOffloadHandler.OnGroupCommitBackward | verl/utils/activation_offload.py:373-395 | a backward commit: reload at the window, counters as in the model |
| OffloadModel.CommitBackwardExactly | verl/utils/activation_offload.py:354-395 | a backward commit fails if and only if there is no group to go back to, none counts as offloaded, or the group whose window it returns to has no host copies or one that cannot be viewed in its shape |
| OffloadRuns.RunsNeverFail | verl/utils/activation_offload.py:263-395 | for all 1 <= N <= L, in any sequence of complete passes no assertion fails and no lookup misses, and between passes all fields are back at their initial values |
| OffloadRuns.PopsReturnWhatWasPushed | verl/utils/activation_offload.py:263-296 | every pop returns shape and elements of the tensor pushed under that tag |
| OffloadModel.DirectPassesThrough | verl/utils/activation_offload.py:281-288 | a tensor that is not to be offloaded is its own handle, and neither pushing nor popping it changes the handler |
| OffloadRuns.DirectTensorsComeBack | verl/utils/activation_offload.py:281-288 | in any run, such a tensor is popped from any later state exactly as it was pushed |
| OffloadRuns.ReloadedAtItsWindow | verl/utils/activation_offload.py:373-395 | a backward commit reloads exactly the group whose window is the layer it returns to, once |
| OffloadRuns.AtMostTwoGroupsInAnyRun | verl/utils/activation_offload.py:503-504 | with N = L - 1 the handler never holds more than the current group and the one before on the device |
| OffloadRuns.OnlyGroupZeroIsOffloaded | verl/utils/activation_offload.py:298-345 | with N = L every group but the first stays on the device |
| OffloadBound.TwoGroupsExactly | verl/utils/activation_offload.py:501-504 | for 1 <= N <= L: at most two groups are on the device in every run if and only if N = L - 1, or N = L and L <= 3; otherwise a run with one tensor per layer exceeds them |
| OffloadRuns.HostGroupsLeave | verl/utils/activation_offload.py:298-371 | with N < L, at any time in any run, a tensor is on the host exactly while its group has a host copy |
| ReplayBuffer.Buffer.Add | verl/trainer/main_ppo_sync.py:215-227 | the loop merges the tags of every item into the partition; other partitions are unchanged |
| ReplayBuffer.AddExactly | verl/trainer/main_ppo_sync.py:222-227 | after adding items every listed key has the tags its item gives and, where it gives none, those of before; the other keys keep theirs, and new keys follow the old ones in the order of the items |
| ReplayBuffer.Buffer.Remove | verl/trainer/main_ppo_sync.py:229-240 | the loop over the list of keys: a key is left if and only if it was there and is not listed, with its tags, and in the order of before; other partitions are unchanged |
| ReplayBuffer.Buffer.Poll | verl/trainer/main_ppo_sync.py:258-275 | one turn of the sampling loop: a missing tag, a running prompt, or the successful keys of the step in order |
| ReplayBuffer.ScanIsExact | verl/trainer/main_ppo_sync.py:264-275 | a batch is returned if and only if none of the step's entries is running, and then holds exactly the step's successful keys, each once |
| ReplayBuffer.ScanStopsExactly | verl/trainer/main_ppo_sync.py:264-275 | with tags missing too: the first key without a step, or of the step without a status, ends the turn in an error, the first running one makes it wait, and with neither the turn returns a batch |
| TrajectoryKeys.SplitKeyUndoesText | verl/trainer/main_ppo_sync.py:147-151 | splitting a key from the right gives back uid, session and index, whatever the uid contains |
| TrajectoryKeys.TextIsInjective | verl/trainer/main_ppo_sync.py:401-416 | different keys have different texts when uids contain no underscore |
| ReplayTheorems.AddIsMerge | verl/trainer/main_ppo_sync.py:222-227 | adding a dictionary key by key is the single merge of the interleaving model |
| ReplayTheorems.RemoveIsSubtraction | verl/trainer/main_ppo_sync.py:229-240 | removing the keys of the batch, in whatever list, is the removal of the interleaving model |
| ReplayTheorems.PollingIsExact | verl/trainer/main_ppo_sync.py:258-275 | in every run the polling turn finds every tag it looks up, waits exactly while a prompt of the step is running, and otherwise returns the model's batch |
| ReplaySystem.StepKeeps | verl/trainer/main_ppo_sync.py:202-275 | every dispatch, put, snapshot, merge, sample, clear and remove keeps the invariant |
| ReplayTheorems.SampleIsComplete | verl/trainer/main_ppo_sync.py:258-275 | when a step is sampled every prompt of the step is finished or failed, all outputs of all sessions of each finished one are in the batch, and nothing but successful trajectories of that step |
| ReplayTheorems.NoTrajectoryTwice | verl/trainer/main_ppo_sync.py:1584-1607 | two samples of one run share no key and their steps increase, even when a stale snapshot is merged after the cleanup |
| ReplayTheorems.EveryStepIsSampled | verl/trainer/main_ppo_sync.py:1584-1607 | in every run each step from 1 on is sampled exactly once before the next is dispatched, and what is cleaned up is what the step sampled |
| ReplayTheorems.SampledKeysLeaveTheStore | verl/trainer/main_ppo_sync.py:1584-1586 | once a step is cleared none of the trajectories it sampled is in the store, and none comes back there |
| ReplayTheorems.RemovedComesBackExactly | verl/trainer/main_ppo_sync.py:202-240 | after the removal a sampled trajectory is in the buffer again if and only if the poller held a listing with it when the removal happened and has merged it since; then it stays |
| ReplayTheorems.SamplesStayComplete | verl/trainer/main_ppo_sync.py:335-353 | a sample contains everything that is ever put for its finished prompts |
| ReplayTheorems.OutcomeIsFinal | verl/trainer/main_ppo_sync.py:202-227 | a prompt's outcome in the buffer is never replaced or set back to running by later snapshots |
| ReplayTheorems.SampledExactlyWhenDecided | verl/trainer/main_ppo_sync.py:202-213 | after one turn of the poller the step can be sampled if and only if every prompt of it has an outcome |
| ReplayTheorems.PromptEntriesAccumulate | verl/trainer/main_ppo_sync.py:1584-1586 | the entry of a dispatched prompt stays in the buffer for good |
| RowOps.TileAt | verl/protocol.py:989-994 | row j of a stacked repetition is row j mod n |
| RowOps.RepeatEachAt | verl/protocol.py:983-988 | row i * times + c of an interleaved repetition is row i |
| DataProtos.SliceIsSlice | verl/protocol.py:675-719 | slicing every column slices the rows: those from the start to before the stop, both counted from the end if negative and cut off at the ends |
| RowOps.DownExactly | verl/protocol.py:703-716 | a downward slice takes the rows from the start, at most the last one, down to behind the stop, in reverse |
| DataProtos.StridedIsStrided | verl/protocol.py:675-719 | with a step, upwards or downwards and with or without bounds, it takes those rows; fails exactly for a step of 0, or for a negative one with tensors |
| RowOps.EveryAt | verl/protocol.py:703-716 | element j of those a step picks is element j * step |
| DataProtos.SelectIsGather | verl/protocol.py:635-673 | selecting indices selects those rows, counted from the end if negative; fails if and only if one is out of range |
| RowOps.MaskedExactly | verl/protocol.py:662-671 | the same of one column |
| DataProtos.SelectMaskIsMasked | verl/protocol.py:635-673 | there are as many rows as the mask has trues, and a row under a true goes behind those before it; fails if and only if the mask has another length |
| DataProtos.RepeatIsRepeat | verl/protocol.py:971-1013 | repeating every column in its own library's way repeats the rows, interleaved or stacked |
| DataProtos.SampleLevelRepeatIsRepeatBy | verl/protocol.py:1054-1100 | accepted, if there is a column, if and only if the list is not empty and has a number for every row, or a single one without tensors, or a single 0; then every row is repeated in place, a single number counting for all |
| DataProtos.SampleLevelRepeatRow | verl/protocol.py:1054-1100 | row i occurs times[i] times, from the sum of the counts before it on |
| DataProtos.ConcatIsConcat | verl/protocol.py:917-961 | the rows of a joined batch are the rows of its parts, one after the other |
| DataProtos.ChunksJoin | verl/protocol.py:864-903 | a batch can be chunked if and only if it divides evenly; the parts have equal size, the same columns, and joined they are the batch |
| Padding.PadToDivisor | verl/protocol.py:74-99 | the loop pads to the next multiple of the divisor with the rows repeated cyclically; all columns alike |
| Padding.CyclicAt | verl/protocol.py:87-93 | row j of the padded batch is row j mod n |
| Padding.UnpadRows | verl/protocol.py:102-106 | unpadding removes exactly the last rows |
| Padding.PaddedWorkIsTheRowMap | src/dapo_ray_trainer.py:336-339 | pad, chunk, let every worker map its rows, join, unpad is the row map, for any batch and any number of workers |
| Padding.Batch.Reorder | verl/protocol.py:963-969 | in place, the rows become the selected rows; fails and changes nothing without tensors or for an index out of range |
| Padding.Batch.Pad | verl/protocol.py:849-862 | in place, copies of the first or last row are appended; fails exactly when there is no row to copy |
| Padding.ReorderUndone | verl/protocol.py:963-969 | reordering by a permutation and by its inverse gives back the batch |
| Spread.SpreadIsPositive | src/dapo_ray_trainer.py:744-752 | in exact arithmetic the deviation is positive if and only if two values differ |
| DynamicSampling.GeneratedIsGrouped | src/dapo_ray_trainer.py:599-604 | fresh uids repeated in place make a generation batch of whole consecutive groups, one for every prompt |
| DynamicSampling.FilterIsUsefulOnes | src/dapo_ray_trainer.py:720-760 | grouping metrics by uid and selecting trajectories keeps exactly the whole groups with differing metrics or one trajectory, in order, and counts them |
| DynamicSampling.CutBetweenGroups | src/dapo_ray_trainer.py:778-781 | truncating to a multiple of n never cuts a group |
| DynamicSampling.Sampler.CollectMetrics | src/dapo_ray_trainer.py:720-725 | the dictionary from uid to the metrics of its trajectories, in order |
| DynamicSampling.Sampler.Filter | src/dapo_ray_trainer.py:720-760 | the loops of the filter return the useful groups and their number |
| DynamicSampling.Sampler.Accumulate | src/dapo_ray_trainer.py:720-781 | one generation batch: the batch stays a concatenation of as many whole useful groups as counted; trains, with exactly train_batch_size whole groups, if and only if there are as many, gives up if and only if there are fewer and a positive limit of generation batches is reached, and goes on otherwise |
| DynamicSampling.Sampler.Step | src/dapo_ray_trainer.py:541-781 | the step trains if and only if the batches taken hold train_batch_size useful groups, with the first of them, and gives up if and only if they do not and the limit is reached; no fewer batches do either; the counters are reset |
| FracRewriter.ConvertFrac | src/custom_think_rm.py:187-231 | the loops compute the rewriting function on every string |
| FracRewriter.RewriteOnce | src/custom_think_rm.py:190-230 | every rewrite shortens the string by at least four characters, so the loop ends |
| FracRewriter.ScanExactly | src/custom_think_rm.py:200-209 | the scan ends at the first closing brace that takes the depth to zero, if there is one |
| FracRewriter.FractionIsRewritten | src/custom_think_rm.py:187-231 | a string whose first `\frac` is followed by two balanced groups, spaces allowed, is rewritten to (X)/(Y) there and nowhere else |
| FracRewriter.RewrittenIsFraction | src/custom_think_rm.py:187-231 | no other string is rewritten |
| FracRewriter.OthersAreUnchanged | src/custom_think_rm.py:197-223 | a string without `\frac`, or whose first one lacks a group, is returned unchanged |
| FracRewriter.ConvertReachesAFixpoint | src/custom_think_rm.py:187-231 | the result cannot be rewritten further, is not longer, and rewriting is idempotent |
| FracRewriter.ConvertRewritesEveryFraction | src/custom_think_rm.py:187-231 | the printed form of any nested expression of text, groups and fractions becomes the same expression with every fraction as (N)/(D) |
| BoxedAnswer.LastBoxedOnlyString | src/custom_think_rm.py:436-462 | the search and the brace-counting loop compute the specification on every string |
| BoxedAnswer.LastBoxedExactly | src/custom_think_rm.py:436-462 | the box starts at the last `\boxed` or, without one, at the last `\fbox`, and ends at the first brace that closes the depth opened from there on; without such a brace there is none |
| BoxedAnswer.NoBoxAtAll | src/custom_think_rm.py:436-441 | without either there is none |
| BoxedAnswer.ExtractedExactly | src/custom_think_rm.py:436-477 | an answer is extracted if and only if the last `\boxed` is directly followed by a brace group that ends; an `\fbox` alone never gives one |
| BoxedAnswer.BoxedContentIsExtracted | src/custom_think_rm.py:436-477 | the content of the last box is extracted whole, however deeply its braces nest |
| SafetensorsLoad.LoadSafetensors | verl/utils/fsdp_utils.py:296-315 | the loops over ranks, files and parameters build the dictionary in which file i belongs to its owner |
| SafetensorsLoad.EveryFileHasOneOwner | verl/utils/fsdp_utils.py:296-300 | every file is in the chunk of exactly one rank, for any number of files and ranks |
| SafetensorsLoad.FilesAreShared | verl/utils/fsdp_utils.py:299-300 | no rank reads more than the number of files divided by the number of ranks, rounded up |
| SafetensorsLoad.RanksAgreeExactly | verl/utils/fsdp_utils.py:281-315 | two or more ranks agree on the parameters and their holders if and only if the files of each rank contain what the index lists for them, and contain nothing else unless it is listed for a later file |
| SafetensorsLoad.AllRanksAgree | verl/utils/fsdp_utils.py:302-315 | if so, all ranks have the same parameters and the same idea of who holds each |
| SafetensorsLoad.ValidCheckpointIsAgreedOn | verl/utils/fsdp_utils.py:281-315 | in particular if the index lists exactly what each file contains |
| SafetensorsLoad.UnlistedParameterSplitsRanks | verl/utils/fsdp_utils.py:302-315 | one file with a parameter that the index does not list, and two ranks |
| SafetensorsLoad.OneRankHoldsEach | verl/utils/fsdp_utils.py:302-315 | of every listed parameter exactly the owner holds the tensor, as a file of its own contains it, and that is the listed file if the index is exact; all others hold the owner's number |
| ModuleInit.Initializer.InitModule | verl/utils/fsdp_utils.py:360-397 | the traversal with its popped dictionaries issues the broadcasts of the specification and fails exactly where it does |
| ModuleInit.InitExactly | verl/utils/fsdp_utils.py:360-397 | the traversal goes on to the first visit that has no name or whose state, if it is to be broadcast or is a buffer, is not loaded, and fails there; up to there exactly the unshared meta states and the shared ones at their first visit are broadcast, in visiting order, each under the name its visit takes |
| ModuleInit.SameBroadcastsOnAllRanks | verl/utils/fsdp_utils.py:331-399 | on the same module all ranks issue the same broadcasts from the same sources, and stop at the same error, shared parameters included |
| ModuleInit.BroadcastsSendTheFiles | verl/utils/fsdp_utils.py:341-358 | every broadcast comes from the owner of the parameter's file, and the owner sends that file's tensor |
| ModuleInit.EachStateIsSentOnce | verl/utils/fsdp_utils.py:376-386 | no parameter or buffer is broadcast twice, however often a shared one is met |
| PipelineShards.DynamicPipelineShards | verl/model_merger/megatron_model_merger.py:57-98 | both errors and the small cases; from three ranks on, a split is found if and only if ceil(L/p)(p-2)+2 <= L, and it is the one with ceil(L/p) middle layers |
| PipelineShards.StableSortSorts | verl/model_merger/megatron_model_merger.py:96 | the stable sort permutes, orders, and puts the first of the smallest first |
| PipelineShards.SplitIsComplete | verl/model_merger/megatron_model_merger.py:96-98 | the split uses every layer, leaves no rank empty and has first <= last <= middle |
| PipelineShards.NoSmallerMaximum | verl/model_merger/megatron_model_merger.py:66 | no split whatever has a smaller largest part |
| PipelineShards.FiveLayersOnFourRanks | verl/model_merger/megatron_model_merger.py:83-96 | an admissible input without any candidate |
| QkvSplit.SplitQkv | verl/model_merger/megatron_model_merger.py:330-354 | succeeds if and only if the assertions hold and every group has whole key and value rows; then weaving the three results group by group gives back the fused rows |
| QkvSplit.IndivisibleKeyRows | verl/model_merger/megatron_model_merger.py:330-342 | sizes that pass every assertion and cannot be split |
| QkvSplit.WeaveAt | verl/model_merger/megatron_model_merger.py:343-354 | in the fused rows, the rows of group g are its query, key and value rows, one after the other |
| QkvSplit.WeaveIsInjective | verl/model_merger/megatron_model_merger.py:343-354 | the fused rows determine the three results |
| KimiSchedule.NamedTensorBuckets | verl/checkpoint_engine/kimi_checkpoint_engine.py:37-63 | the generator yields exactly the rank's tensors in order, in non-empty buckets within the limit unless one tensor alone exceeds it, none begun too early |
| KimiSchedule.MineIsEvery | verl/checkpoint_engine/kimi_checkpoint_engine.py:51-53 | a rank's tensors are the one at the place of its number and every world-th from there on |
| KimiSchedule.EveryTensorIsSentOnce | verl/checkpoint_engine/kimi_checkpoint_engine.py:51-53 | together the ranks send every tensor exactly once |
| KimiSchedule.ScheduleHasEachBucketOnce | verl/checkpoint_engine/kimi_checkpoint_engine.py:103-127 | the rounds broadcast every bucket exactly once |
| KimiSchedule.ScheduleAt | verl/checkpoint_engine/kimi_checkpoint_engine.py:110-127 | the i-th bucket of a rank is broadcast in round i, behind the earlier rounds and the ranks ahead that take part |
| KimiSchedule.RanksInOrder | verl/checkpoint_engine/kimi_checkpoint_engine.py:103-107 | the ranks take their turns in the order in which they first appear |
| KimiSchedule.OwnListIsItsGroup | verl/checkpoint_engine/kimi_checkpoint_engine.py:95-108 | the list a rank copies from is the list all ranks expect it to broadcast from |
| KimiSchedule.Receiver.Broadcast | verl/checkpoint_engine/kimi_checkpoint_engine.py:125-157 | one broadcast into one half while the bucket before it is handed out of the other half, however early its bytes arrive: own bytes come from the host buffer, others' from the wire |
| KimiSchedule.Receiver.ReceiveTensors | verl/checkpoint_engine/kimi_checkpoint_engine.py:110-169 | every rank follows the same schedule and hands out every bucket once, in order, as it arrived; what it launches of its own are the right bytes, whatever arrives; fails exactly for an empty list |
| KimiSchedule.EveryRankGetsEveryBucket | verl/checkpoint_engine/kimi_checkpoint_engine.py:125-138 | when each broadcast brings what its owner launched, every rank gets every bucket with the right bytes |
| BoundingBox.ClampedIsIntersection | verl/tools/image_zoom_in_tool.py:218-222 | the clamped box is what the box and the image have in common |
| BoundingBox.MaybeResizeBbox | verl/tools/image_zoom_in_tool.py:205-297 | None for an invalid clamped box, the clamped box itself if it is large enough, otherwise the rounded enlarged box exactly under the condition below; every result lies inside the image, contains the clamped box and has both floored sides at least 28 |
| BoundingBox.TargetSize | verl/tools/image_zoom_in_tool.py:238-257 | both sides are scaled by one factor of at least 1: the one that brings the shorter side to 28, or the largest that fits the image |
| BoundingBox.Place | verl/tools/image_zoom_in_tool.py:259-276 | the interval is as near to the centre as the image allows |
| BoundingBox.EnlargedIsUnique | verl/tools/image_zoom_in_tool.py:233-276 | these conditions determine the enlarged box |
| BoundingBox.AcceptedExactly | verl/tools/image_zoom_in_tool.py:278-297 | an enlarged box is accepted after rounding if and only if, grown to the minimum, it does not begin on a whole pixel with more than 2800 along the other side, or, limited by the image, the image is 28 long and rounding makes up the other side; wide and tall |
| BoundingBox.RoundingCanReject | verl/tools/image_zoom_in_tool.py:278-285 | a valid box whose enlarged form is rejected after rounding |
| BoundingBox.RoundingCanAccept | verl/tools/image_zoom_in_tool.py:278-297 | a box that cannot grow to the minimum and is accepted after rounding |

## Left out

- Transports: ZMQ, NCCL, RDMA, Ray and CUDA streams are FIFO queues, byte-wise copies and awaited operations; messages are neither lost nor reordered, and timing, devices and memory registration do not appear.
- A consumer that keeps a yielded view after asking for the next item: views are taken as used when they are yielded. The consumer of the merged weights does not fail.
- A transfer or an operation in the background goes on after its coroutine has crashed; timeouts and the end of the process are left out.
- Freshly allocated memory is a parameter of the merge; a buffer's bytes behind the bucket are arbitrary but fixed.
- WeightChunks.Merger.Feed: after a failure the fields are left unspecified, because the generator is abandoned.
- OffloadHandler.AsyncOffloadHandler.OnGroupCommitForward: after a failed assertion the fields are left unspecified.
- OffloadRuns.PopsReturnWhatWasPushed: a reloaded tensor is a new copy, so its storage address is not the pushed one's; tensors of one group with the same storage key are taken to have the same elements.
- Stream synchronisation of the offload handler: copies are complete when the method that starts them returns.
- ReplaySystem.StepKeeps: the train partition only; validation reuses one step number, and sampling by batch size, the upsampling of batches and the metrics of tags are left out.
- ReplayBuffer.Buffer.Poll: one turn of the waiting loop.
- A put of a prompt's outcome that itself raises: outcomes are put once.
- `DataProto.split` and `union`, automatic padding, meta_info, and joining batches whose columns differ.
- DataProtos.SelectIsGather: a batch without any column, to which the code applies no index, is treated like the others; so in DataProtos.SelectMaskIsMasked.
- DynamicSampling.Sampler.Step: scores are exact reals, and fresh uids are distinct; logging, REMAX and the branch without filtering are left out.
- FracRewriter.ConvertRewritesEveryFraction: texts hold no brace and no `\frac`, and two texts are not adjacent; what happens to other strings is covered by the statements about all strings.
- SafetensorsLoad.LoadSafetensors: every file of the index is there; a missing one makes its owner fail.
- KimiSchedule.EveryRankGetsEveryBucket: the collective that carries the owner's half to the other ranks is library code that is not part of this model; that it brings what was launched is the premise.
- ModuleInit.Initializer.InitModule: the sub-modules are given as the list of parameters and buffers in traversal order.
- The gate/up branch of `_split_tensors`, which cuts a tensor in two halves.
- KimiSchedule.NamedTensorBuckets: a bucket is a list, so tensor names are taken as distinct; the assignment of buckets to ranks and the layout of tensors inside a bucket are library code that is not part of this model.
- BoundingBox.MaybeResizeBbox: real numbers instead of floating point.
- The engines `mooncake` and `hccl`, grading of extracted answers, loss functions, tokenizers, configuration and metrics.

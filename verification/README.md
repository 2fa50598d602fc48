# Verification of the KV-cache replay tooling

This project models the algorithms with which the repository prepares, replays and measures
conversations against a tiered KV cache, and proves what those algorithms are for. Python floats are
real numbers, Python dictionaries are sequences of pairs in insertion order or maps, and Python's sort
is the stable sort `Sequences.Sort`.

| file | what it models |
|---|---|
| Occupancy.dfy | the sweep that turns session intervals into a peak of retained blocks |
| PrefixSearch.dfy, HighLoad.dfy | cached peaks of timestamp-ordered prefixes, and the searches over them |
| Resampling.dfy | one-second views of a sweep and of request arrivals |
| LinearSessions.dfy, Grouping.dfy, Arrangement.dfy | parent walks, the two ways of cutting a trace into sessions, and the order of their records |
| Reconstruction.dfy, Rebuildable.dfy | what a trace's hashes become when it is replayed, and which traces can be |
| BlockStore.dfy, ReplayPlan.dfy | the block store and the replay plan, which compute just that |
| SessionRun.dfy | attribution of one output stream to the turns of a session, and its timing checks |
| ResumeProtocol.dfy | the sequential turn-2 resume, as interleaved steps of coordinator, producers and tasks |
| CumemAllocator.dfy | chunked allocation on ROCm: splitting, mapping with rollback, unmapping |
| BuildTime.dfy | weighted build times of a ninja log |
| KvBudget.dfy, Ballast.dfy | the persistent KV budget, demotion thresholds, and the ballast planner |
| Sequences.dfy, TraceRecords.dfy | sums, filters, the stable sort; the trace record |

Three chains of results carry most of the weight.

* **Occupancy.** `TotalDemand` says what all sessions hold at one instant, without any event.
  `LevelIsTotalDemand` and `PeakIsPeak` show that the event sweep computes its maximum over all times, so
  `PeakMonotone` holds, and only because of that are the binary searches of `PrefixPeakIndex` and
  `FindHighLoadPrefix` right. The searches are proved for sessions whose timestamps never go back, which
  is what the classifier lets through (`LinkedSessionsAreChronological`).
* **Reconstruction.** One block store is shared by all sessions. After every turn every complete block of
  the prompt is the stored block of its hash, whatever the other sessions did before or do afterwards, so
  prompts that share leading hashes share leading tokens (`SharedHashesSharedTokens`). An unfinished last
  block is the head of a stored block too, that of the last turn that added tokens (`TurnsTail`); the hash
  that a later turn of unchanged length carries for it is never looked up. The methods compute the
  functions of `Reconstruction`, so what is proved of those says which traces are built (`BuiltTraces`).
* **Weighted time.** `WeightedDuration` is an integral: every stretch of time in which a task runs, divided
  by the number of tasks running. It is the same whatever partition it is taken over
  (`PartitionDoesNotMatter`), the single pass computes it, and the durations add up to exactly the time in
  which something runs.

Findings about the code:

* `mixed_hot_start_threshold_blocks` is documented as the smallest occupancy reaching a utilization. Because
  of its tolerance it is that exactly when the product of blocks and utilization is whole or more than
  1e-12 above a whole number (`StartIsLeastIff`; `StartCanBeTooLow` is an input where it is not). In the
  same way `mixed_hot_stop_target_blocks` is the largest occupancy within a utilization exactly when the
  product is not within 1e-12 of the next whole number (`StopIsGreatestIff`, `StopCanBeTooHigh`). Every
  ratio of integers below 10^12 is safe for both (`ThresholdsExactForRatios`).
* `create_and_map` is all-or-nothing only when the error code is zero once the device context has been
  ensured. Otherwise it stops after creating the first handle and keeps it; `CreateAndMap` states both
  cases. A failure to set access is never undone.
* The chunks of an allocation tile it exactly when none of the three 64-bit sums of the splitting wraps
  (`SplitChunks`). Two settings of the chunk size that the program lets through break it: with
  17592186044414 megabytes and a granularity of 2 MiB an allocation of 4 MiB gets no chunk
  (`HugeChunkMakesNone`), and with 17592186044415 the program divides by zero (`LargestChunkIsZero`).
* Turn-2 exclusion holds until an exception has left the coordinator and its caller has set every event.
  Whether two sessions can then be in turn 2 at once depends on where the coordinator stopped and on which
  tasks still live: `ReleaseLosesExclusionIff` says exactly when.
* A session that the classifier accepts can still fail to be replayed: a turn may go on with a block hash
  that another session began in its own way (`AcceptedSessionsCanConflict`). `AcceptedFailsOnConflict` shows
  that this is the only way to fail. Whether it happens is settled by the trace, except for collisions of
  token ids (`BuiltTraces`), and it does not happen when every unfinished block is continued by its own
  hash or by one that no earlier turn asks for.

## Model

| member | source | states |
|---|---|---|
| Occupancy.SweepRetainedOccupancy | experiments/scripts/analyze_qwen_bailian_workload.py:535-588 | the batch sweep reports the two peaks and samples exactly the distinct event times, in order, each with the counts then in force |
| Occupancy.LevelIsTotalDemand | experiments/scripts/analyze_qwen_bailian_workload.py:538-555 | at any time the running count is the sum over sessions of the block demand of the turn last arrived, or of one for a session between its first and last turn |
| Occupancy.SamplesArePointwise | experiments/scripts/analyze_qwen_bailian_workload.py:558-578 | every sample is what the sessions hold at that instant, so never negative, and the last one is empty |
| Occupancy.EmptyAtTheEnd | experiments/scripts/analyze_qwen_bailian_workload.py:549-555 | whatever the order of timestamps, everything opened is closed by the last event |
| Occupancy.PeakIsPeak | experiments/scripts/analyze_qwen_bailian_workload.py:570-571 | the peak bounds the demand at all times, not only event times, and is attained |
| Occupancy.PeakMonotone | experiments/scripts/analyze_qwen_bailian_workload.py:1108-1138 | a longer prefix of chronological sessions never has a lower peak |
| PrefixSearch.OrderedItems | experiments/scripts/analyze_qwen_bailian_workload.py:415-421 | the index holds exactly the given sessions, by first timestamp and then by root, and keeps chronological sessions chronological |
| PrefixSearch.PrefixPeakIndex.PeakOf | experiments/scripts/analyze_qwen_bailian_workload.py:1118-1138 | the clamped prefix's entry, cached or not, is what a fresh sweep finds |
| PrefixSearch.PrefixPeakIndex.SmallestN | experiments/scripts/analyze_qwen_bailian_workload.py:1140-1153 | for an upward-closed condition the least prefix length meeting it, or none if no prefix does |
| PrefixSearch.PrefixPeakIndex.LargestN | experiments/scripts/analyze_qwen_bailian_workload.py:1155-1168 | for a downward-closed condition the greatest prefix length meeting it, or none if no prefix does |
| PrefixSearch.PrefixPeakIndex.SmallestReaching | experiments/scripts/analyze_qwen_bailian_workload.py:1170-1196 | for "ge" the least prefix whose peak is at least the target, for "gt" the least whose peak is above it, with its peaks, the full peaks if there is none, and an error for any other comparison |
| PrefixSearch.EntryMonotone | experiments/scripts/analyze_qwen_bailian_workload.py:1108-1138 | both peaks of the timestamp-ordered prefixes grow with the prefix |
| HighLoad.ClosestPrefixToPeak | experiments/scripts/analyze_qwen_bailian_workload.py:1280-1305 | no prefix in the searched range has a peak nearer to the target: the chosen peak lies between every other and its mirror image; of equally near ones, how the choice falls |
| HighLoad.FindHighLoadPrefix | experiments/scripts/analyze_qwen_bailian_workload.py:1308-1422 | the range is satisfied exactly when some prefix peak lies in the band; then no prefix in it is nearer to its middle, counted in half blocks, and otherwise the choice is the neighbour nearest to the band among all prefixes, with ties settled; the neighbours are the last prefix below and the first above the band |
| HighLoad.MidpointIsCentre | experiments/scripts/analyze_qwen_bailian_workload.py:1349-1354 | being nearer to the program's target is being nearer to the middle of the band |
| HighLoad.SearchesFind | experiments/scripts/analyze_qwen_bailian_workload.py:1336-1341 | what the four searches find: the first prefix to reach or exceed, and the last within or below, each bound |
| HighLoad.WithinBandDistance | experiments/scripts/analyze_qwen_bailian_workload.py:1355-1379 | a peak is within a distance of the band exactly when it is in the band widened by it |
| HighLoad.BandIsInterval | experiments/scripts/analyze_qwen_bailian_workload.py:1336-1347 | the prefixes in the band are exactly those between the two search results |
| HighLoad.FallbackIsNearest | experiments/scripts/analyze_qwen_bailian_workload.py:1355-1379 | with none in the band, one neighbour exists and the nearer one is nearest of all prefixes, so the no-candidate branch is never taken |
| Resampling.ResampleStepMaxima | experiments/scripts/analyze_qwen_bailian_workload.py:643-705 | for any samples, every bucket is the largest sample the single pass reaches in its second, or the value carried in when it reaches none, and never below zero |
| Resampling.ResamplingKeepsPeak | experiments/scripts/analyze_qwen_bailian_workload.py:676-697 | the largest bucket equals the largest sample |
| Resampling.ScalingIsExact | experiments/scripts/analyze_qwen_bailian_workload.py:667-673 | scaled times start at zero and are as far apart as before, times the scale |
| Resampling.SweepPeakIsLargestSample | experiments/scripts/analyze_qwen_bailian_workload.py:570-578 | the largest sample of a sweep is the peak reported beside it |
| Resampling.SampleTimesWithin | experiments/scripts/analyze_qwen_bailian_workload.py:712-723 | the samples that are resampled lie in order within the span of the records and never count below zero |
| Resampling.ProperSamplesAsTheyAre | experiments/scripts/analyze_qwen_bailian_workload.py:667-697 | of samples in order, within the span and never negative, none is moved, dropped or clipped |
| Resampling.ResampledPeakIsSweepPeak | experiments/scripts/analyze_qwen_bailian_workload.py:535-705 | at every positive time scale and span the largest bucket of a sweep's samples is the peak of the sweep |
| Resampling.ResampledOccupancy | experiments/scripts/analyze_qwen_bailian_workload.py:708-723 | sweeping and resampling the same sessions reports one peak twice: the sweep's and the largest bucket |
| Resampling.OneSecondBucketArrivals | experiments/scripts/analyze_qwen_bailian_workload.py:599-640 | the buckets sum to the number of requests and each counts the arrivals of its own second, so the index cap moves none |
| LinearSessions.ResolveRoot | experiments/scripts/analyze_qwen_bailian_workload.py:282-297 | on every parent graph the walk ends with the root, or a missing parent, or a cycle exactly when it would never end |
| LinearSessions.RootFinder.FindRoot | experiments/scripts/qwen_bailian_trace.py:110-134 | the memoised search gives the same answer as the plain walk and keeps every cached root right |
| LinearSessions.RevisitNeverEnds | experiments/scripts/qwen_bailian_trace.py:117-130 | a walk that comes back to a record it has seen never reaches a root or a missing record |
| LinearSessions.RootOfVisited | experiments/scripts/qwen_bailian_trace.py:132-134 | every record on a walk to a root has that root, which is what the memo stores |
| Grouping.GroupByPartitions | experiments/scripts/qwen_bailian_trace.py:136-138 | each group holds, in order, exactly the records with its root, and every root has one group |
| Grouping.GroupLinearSessions | experiments/scripts/qwen_bailian_trace.py:98-160 | succeeds exactly on traces with unique ids, resolvable roots and properly linked sessions, and then returns those sessions; otherwise the error is that of the first record or session at fault |
| Arrangement.SessionsAreInOrder | experiments/scripts/qwen_bailian_trace.py:142-142 | a session holds its group's records by ascending turn, then timestamp, then id |
| Arrangement.OneOrder | experiments/scripts/qwen_bailian_trace.py:142-142 | records with different ids can be in that order in one way only |
| Arrangement.ArrangedTraceIsGrouped | experiments/scripts/qwen_bailian_trace.py:98-160 | however the file orders its records: if they can be arranged into chains, each from a root turn by turn, the trace is accepted with exactly those chains |
| Grouping.LinearSessionIssue | experiments/scripts/analyze_qwen_bailian_workload.py:300-322 | no issue exactly for a rooted, linked, growing chain; otherwise the first of the checks that fails, at the first turn that fails it |
| Grouping.GrowthIssueMeans | experiments/scripts/analyze_qwen_bailian_workload.py:307-321 | what is found between two turns: nothing exactly when the second is the child, next in turn, not earlier, no shorter, and with the same complete-block hashes |
| Grouping.OneReason | experiments/scripts/analyze_qwen_bailian_workload.py:300-322 | a session is refused for one reason only |
| Grouping.LinkedRefusals | experiments/scripts/analyze_qwen_bailian_workload.py:306-322 | of a rooted, linked chain only the root turn, a shrunk input or a changed prefix can be reported |
| Grouping.ClassifyLinearSessions | experiments/scripts/analyze_qwen_bailian_workload.py:325-374 | the complete sessions are exactly those that pass, in order, and each of the others has, in order, its own report with the first check it fails |
| Grouping.CleanTraceIsGroupable | experiments/scripts/analyze_qwen_bailian_workload.py:325-374 | a trace with no duplicates and nothing incomplete is accepted by the grouping, with the same sessions |
| Grouping.GroupableTraceClassified | experiments/scripts/qwen_bailian_trace.py:140-160 | of a trace the grouping accepts, the classifier refuses sessions only for root turn, shrinking input or changed prefix |
| Grouping.LinkedSessionsAreChronological | experiments/scripts/qwen_bailian_trace.py:145-158 | sessions that pass either check never go back in time |
| BlockStore.HashTokenBlockStore.GetBlock | experiments/scripts/qwen_bailian_trace.py:190-213 | a stored block is returned unchanged or refused for its prefix, a new one keeps the required prefix, and no stored block changes |
| BlockStore.AppendFromBlock | experiments/scripts/qwen_bailian_trace.py:245-254 | one round fills the current block from the store, or fails exactly on a conflicting tail; every complete block stays equal to the store's, and an unfinished one is the head of the stored block of its hash |
| BlockStore.ExtendSessionTokens | experiments/scripts/qwen_bailian_trace.py:216-258 | fails exactly on a turn error or a conflicting tail; otherwise the delta extends the tokens to the recorded length, every complete block is the stored block of its hash, and an unfinished block that was added to is the head of the stored block of its hash |
| BlockStore.ReflectsLonger | experiments/scripts/qwen_bailian_trace.py:246-254 | adding part of a stored block where the tokens stop keeps the agreement with the store |
| BlockStore.ReflectsOther | experiments/scripts/qwen_bailian_trace.py:235-243 | a turn that preserves its parent's complete-block hashes is served by the tokens already there |
| Reconstruction.GrowFailsOnTail | experiments/scripts/qwen_bailian_trace.py:245-254 | within a turn only the unfinished block can conflict |
| Reconstruction.TurnErrorMeans | experiments/scripts/qwen_bailian_trace.py:224-243 | each error of a turn exactly when it applies |
| Reconstruction.ReplayFailsAtATurn | experiments/scripts/qwen_bailian_trace.py:276-302 | a replay from the empty store fails exactly when some turn that it reaches fails its checks or conflicts on its unfinished block, and with that error |
| Rebuildable.GrowStores | experiments/scripts/qwen_bailian_trace.py:201-213 | a turn keeps every stored block and adds exactly those that it asks for |
| Rebuildable.StoredByEarlierTurns | experiments/scripts/qwen_bailian_trace.py:201-213 | when a turn is reached, the store holds exactly the hashes that an earlier turn of the trace asked for |
| Rebuildable.TurnsTail | experiments/scripts/qwen_bailian_trace.py:245-254 | after every turn the unfinished block is the head of the stored block of the last turn that added tokens |
| Rebuildable.AcceptedFailsOnConflict | experiments/scripts/qwen_bailian_trace.py:216-258 | a chain the classifier accepts can only fail on an unfinished block continued by another hash, which an earlier turn asked for |
| Rebuildable.ContinuedTailsAreReplayed | experiments/scripts/qwen_bailian_trace.py:261-302 | if every unfinished block is continued by its own hash or by one no earlier turn asks for, the whole trace is replayed |
| Rebuildable.TraceAloneDecides | experiments/scripts/qwen_bailian_trace.py:180-213 | what goes through with every token named by its hash goes through with any digest and seed, and nothing else does unless tokens collide |
| Rebuildable.AcceptedSessionsCanConflict | experiments/scripts/qwen_bailian_trace.py:201-206 | sessions that the classifier accepts and that cannot be replayed |
| ReplayPlan.ReplaySession | experiments/scripts/qwen_bailian_trace.py:276-301 | every turn's prompt has the recorded length and agrees with the store, earlier turns included; prompts, store and error are those of the reconstruction |
| ReplayPlan.BuildReplayPlan | experiments/scripts/qwen_bailian_trace.py:261-302 | the error of every rejected input, and otherwise success exactly when the reconstruction from the empty store succeeds, with its error or its prompts, all from one block store and with tokens in range |
| ReplayPlan.BuiltTraces | experiments/scripts/qwen_bailian_trace.py:261-302 | which traces are built, whatever the vocabulary, seed and digest: a sufficient condition on accepted traces, and an exact one when token ids do not collide |
| ReplayPlan.PlanDealMeans | experiments/scripts/qwen_bailian_trace.py:182-188 | the token of a hash at a place of its block, from the seed, the digest and the range of token ids |
| ReplayPlan.SharedHashesSharedTokens | experiments/scripts/qwen_bailian_trace.py:163-213 | two prompts of any sessions that agree on their first n complete-block hashes begin with the same tokens |
| ReplayPlan.BuiltPlanIsWellOrdered | experiments/scripts/qwen_bailian_trace.py:276-302 | at every positive time scale a built plan has one root per session, send times and turns that do not go back, and no send time below zero |
| ReplayPlan.PlanIsToScale | experiments/scripts/qwen_bailian_trace.py:276-301 | any two turns of a built plan are as far apart as their records' timestamps, times the time scale |
| ReplayPlan.PlanStartsAtZero | experiments/scripts/qwen_bailian_trace.py:274-301 | some turn of a built plan is due at zero |
| ReplayPlan.FlattenedPlanKeepsSessions | experiments/scripts/qwen_bailian_trace.py:305-311 | the flattened plan is a permutation of all turns, ascending in send time, then root, then turn, whose restriction to a session is that session's turns in order |
| SessionRun.TurnsSpellTheStream | experiments/scripts/run_qwen_bailian_replay.py:938-971 | the token lists of the turns, end to end, followed by the later tokens, are the whole stream |
| SessionRun.Run.Receive | experiments/scripts/run_qwen_bailian_replay.py:942-971 | each output's tokens, times, finish and finish reason go to the turn with as many finishes before it, for any stream, and the session's first output is that of its first token |
| SessionRun.Run.Send | experiments/scripts/run_qwen_bailian_replay.py:911-931 | each turn's send time and lateness are those of its own send, in turn order, and the largest lateness is kept |
| SessionRun.RecordAvailable | experiments/scripts/run_qwen_bailian_replay.py:646-685 | the recorded results are those of the turns both sent and finished, which are the first ones, in order; each is what the stream says of its turn |
| SessionRun.RunSession | experiments/scripts/run_qwen_bailian_replay.py:863-1002 | the whole result, cancelled or not: completed turns are the finishes capped at the turn count, results and lateness record what the stream says of each turn, an error exactly when a turn was not finished or not sent, and with a monotone clock and no early output a clean result |
| SessionRun.BuiltSessionsAreTimely | experiments/scripts/qwen_bailian_trace.py:276-302 | the sessions of a built plan meet the condition on send times under which a run is clean |
| SessionRun.ValidateTimingAndTurns | experiments/scripts/run_qwen_bailian_replay.py:1061-1118 | no errors exactly when every session has all its turns and no negative or misplaced time, and each kind of error exactly when some session has that fault |
| ResumeProtocol.SequentialResumeTracker.StartTurn2 | experiments/scripts/run_hkv_gsm8k_resume_quality.py:145-150 | the tracker's whole new state when a session starts turn 2 |
| ResumeProtocol.SequentialResumeTracker.FinishTurn2 | experiments/scripts/run_hkv_gsm8k_resume_quality.py:152-153 | the tracker's whole new state when a session finishes turn 2 |
| ResumeProtocol.Take | experiments/scripts/run_hkv_gsm8k_resume_quality.py:532-582 | one step tells the tracker object exactly what the protocol's tracker records |
| ResumeProtocol.RunSteps | experiments/scripts/run_hkv_gsm8k_resume_quality.py:440-582 | under any schedule the tracker left behind is that of a run, without overlap and in plan order unless released |
| ResumeProtocol.CoordinatorInv | experiments/scripts/run_hkv_gsm8k_resume_quality.py:381-499 | the coordinator's steps keep the protocol invariant |
| ResumeProtocol.ProducerInv | experiments/scripts/run_hkv_gsm8k_resume_quality.py:532-549 | a producer that passes its resume event finds no other session active |
| ResumeProtocol.ConsumerInv | experiments/scripts/run_hkv_gsm8k_resume_quality.py:551-570 | an output, of whichever turn it is taken for, keeps the invariant |
| ResumeProtocol.TaskEndInv | experiments/scripts/run_hkv_gsm8k_resume_quality.py:571-582 | a task that ends at any moment, setting every event, keeps the invariant |
| ResumeProtocol.OneTurn2AtATime | experiments/scripts/run_hkv_gsm8k_resume_quality.py:440-499 | in every interleaving, until the caller has released every event, at most one session is in turn 2, none overlapped, and they started in plan order |
| ResumeProtocol.MovesOnWhenFinished | experiments/scripts/run_hkv_gsm8k_resume_quality.py:479-499 | the coordinator is past a session only if it started and finished its turn 2; at the end all did, and were resumed, in plan order |
| ResumeProtocol.ReachedCanFinish | experiments/scripts/run_hkv_gsm8k_resume_quality.py:440-499 | from every reached state in which the tasks from the coordinator's session on live, some continuation serves everybody, in plan order and without overlap |
| ResumeProtocol.PlanCanFinish | experiments/scripts/run_hkv_gsm8k_resume_quality.py:440-499 | every plan can be served to the end |
| ResumeProtocol.RunEventsAgree | experiments/scripts/run_hkv_gsm8k_resume_quality.py:551-582 | in every run a task that has ended has set every event, and a turn that is counted has set its own |
| ResumeProtocol.RunIsItsHistory | experiments/scripts/run_hkv_gsm8k_resume_quality.py:532-582 | in every run a task has ended as some step ended it, a producer has started if some step started it, and turns are counted by the outputs that finished them |
| ResumeProtocol.WaitsMean | experiments/scripts/run_hkv_gsm8k_resume_quality.py:381-499 | the coordinator goes on only with a living session, or with the event set and a task that has not failed, and raises otherwise |
| ResumeProtocol.OverlapAfterReleaseIff | experiments/scripts/run_hkv_gsm8k_resume_quality.py:1200-1217 | over all continuations of a released run, an overlap can be reached exactly when a session whose task lives has not started turn 2 and another is in it, or lives and has not started it either |
| ResumeProtocol.ReleaseLosesExclusionIff | experiments/scripts/run_hkv_gsm8k_resume_quality.py:1200-1217 | setting every event gives up exclusion exactly when two sessions after the one the coordinator stopped at still live, or one does and the coordinator's own is in turn 2 or can still start it |
| ResumeProtocol.DeadSessionKeepsExclusion | experiments/scripts/run_hkv_gsm8k_resume_quality.py:467-478 | a coordinator that stops because its session has died keeps exclusion unless two later sessions live |
| ResumeProtocol.OneSessionNeverOverlaps | experiments/scripts/run_hkv_gsm8k_resume_quality.py:1200-1217 | a plan of one session never overlaps, released or not |
| ResumeProtocol.ReleaseCanOverlap | experiments/scripts/run_hkv_gsm8k_resume_quality.py:1200-1217 | with two sessions there is a run after whose release both can be in turn 2 |
| CumemAllocator.AlignUpRoundsUp | external/vllm/csrc/cumem_allocator.cpp:343 | rounding up to the granularity is right exactly when the 64-bit sum does not wrap, and gives zero when it does |
| CumemAllocator.SplitChunks | external/vllm/csrc/cumem_allocator.cpp:343-393 | on every input: division by zero exactly when the chunk size rounds to zero; the chunks tile the rounded size, all but the last full, exactly when no 64-bit sum wraps, and otherwise there is no chunk at all |
| CumemAllocator.CountReaches | external/vllm/csrc/cumem_allocator.cpp:371-372 | the chunk count reaches the aligned size with none too many unless its sum wraps, and is then zero |
| CumemAllocator.OrdinaryRequestsFit | external/vllm/csrc/cumem_allocator.cpp:343-372 | requests that a signed size can hold, with granularity and chunk size that are not enormous, tile |
| CumemAllocator.HugeChunkMakesNone | external/vllm/csrc/cumem_allocator.cpp:25-43 | a chunk setting that is let through and makes no chunk for an allocation of two granules |
| CumemAllocator.LargestChunkIsZero | external/vllm/csrc/cumem_allocator.cpp:25-43 | a chunk setting that is let through and makes the program divide by zero |
| CumemAllocator.EveryByteHasOneChunk | external/vllm/csrc/cumem_allocator.cpp:184-203 | the running offsets give disjoint ranges that cover the allocation exactly |
| CumemAllocator.Allocator.CreateAll | external/vllm/csrc/cumem_allocator.cpp:174-183 | a distinct new handle for every chunk; or, at the first refusal, exactly the handles made before it that the driver refuses to release; or the one kept handle of a call entered with an error |
| CumemAllocator.Allocator.MapAll | external/vllm/csrc/cumem_allocator.cpp:184-203 | every chunk mapped at its running offset with its own handle, or exactly what the driver refuses to unmap and to release, which is nothing if it refuses nothing |
| CumemAllocator.Allocator.CreateAndMap | external/vllm/csrc/cumem_allocator.cpp:119-217 | all-or-nothing under any create or map failure when entered without error and no clean-up is refused, exactly what remains otherwise, and access set for the size and address given; it gets that far whenever there is room and the driver refuses nothing |
| CumemAllocator.AccessCoversChunks | external/vllm/csrc/cumem_allocator.cpp:205-210 | the range whose access is set holds every chunk of a tiling and ends with the last |
| CumemAllocator.Allocator.UnmapAndRelease | external/vllm/csrc/cumem_allocator.cpp:219-263 | every chunk is tried; exactly what the driver agrees to is unmapped and released, and the error code becomes the first refusal; without one the state is that before the mapping |
| CumemAllocator.Allocator.MapThenUnmap | external/vllm/csrc/cumem_allocator.cpp:119-263 | mapping and unmapping the same chunk list restores handles and mappings |
| BuildTime.WeighTargets | external/vllm/tools/report_build_time_ninja.py:229-256 | one pass gives every target its share of the time in which it runs, the total is the busy time, and nothing is left running; it fails exactly when a target ends before it starts |
| BuildTime.SummarizeEntries | external/vllm/tools/report_build_time_ninja.py:198-256 | every target's weighted duration and their total, from unsorted targets, and the extent of the build; fails exactly on an empty list and on a target that ends before it starts |
| BuildTime.WeightedTimeIsBusyTime | external/vllm/tools/report_build_time_ninja.py:238-256 | conservation: the weighted durations add up to exactly the time in which a task runs |
| BuildTime.WeightedDurationsAreFair | external/vllm/tools/report_build_time_ninja.py:74-89 | the busy time is within the extent of the build and each weighted duration is between zero and the task's own |
| BuildTime.StretchIsConstant | external/vllm/tools/report_build_time_ninja.py:201-206 | between consecutive events the same tasks run throughout |
| BuildTime.PartitionDoesNotMatter | external/vllm/tools/report_build_time_ninja.py:201-206 | weighted durations and busy time are the same over any two partitions, so they are integrals that belong to the tasks alone |
| BuildTime.DurationsBelongToTheTasks | external/vllm/tools/report_build_time_ninja.py:229-256 | what the program computes over its own events is what any partition gives |
| BuildTime.StatusIsRuns | external/vllm/tools/report_build_time_ninja.py:223-230 | once time moves on, the tasks started and not stopped are those running at that time |
| KvBudget.BudgetIsExactAndMaximal | experiments/scripts/run_qwen_bailian_replay.py:164-214 | the derived storages sum to the budget less the slack, the slack is within the rounding tolerance, and one more block would exceed the budget |
| KvBudget.StoragesOfBudget | experiments/scripts/run_qwen_bailian_replay.py:164-214 | each storage of the budget in bytes, from the arguments and the layout of the model |
| KvBudget.BudgetErrors | experiments/scripts/run_qwen_bailian_replay.py:153-199 | which error a refused request gets |
| KvBudget.RefusesOnlyWhenNothingFits | experiments/scripts/run_qwen_bailian_replay.py:156-199 | a well-formed request is refused exactly when not one block fits beside the fixed part |
| KvBudget.LargerWarmPoolHoldsMore | experiments/scripts/run_qwen_bailian_replay.py:164-199 | a larger WARM pool never lowers HOT plus WARM blocks, and never raises HOT |
| KvBudget.TableCoversModelLength | experiments/scripts/run_qwen_bailian_replay.py:77-86 | the slot table is the smallest aligned one that holds the longest sequence |
| KvBudget.ValidRuntimeWithinBudget | experiments/scripts/run_qwen_bailian_replay.py:785-831 | runtime figures that validate sum to their total, stay within the budget and leave no room for a block |
| KvBudget.RuntimeValidatesIff | experiments/scripts/run_qwen_bailian_replay.py:785-831 | runtime figures validate exactly when each is the derived one |
| KvBudget.StartIsLeastIff | experiments/scripts/analyze_qwen_bailian_workload.py:942-960 | the start threshold is the least occupancy reaching the utilization exactly when the product is whole or clear of the tolerance |
| KvBudget.StopIsGreatestIff | experiments/scripts/analyze_qwen_bailian_workload.py:963-977 | the stop target is the greatest occupancy within the utilization exactly when the product is not within the tolerance of the next whole number |
| KvBudget.StartCanBeTooLow | experiments/scripts/analyze_qwen_bailian_workload.py:942-960 | an input whose start threshold is below the documented one |
| KvBudget.StopCanBeTooHigh | experiments/scripts/analyze_qwen_bailian_workload.py:963-977 | an input whose stop target is above the documented one |
| KvBudget.ThresholdsExactForRatios | experiments/scripts/analyze_qwen_bailian_workload.py:942-977 | both thresholds are exact for every ratio of integers below 10^12 |
| KvBudget.ThresholdsWithinTolerance | experiments/scripts/analyze_qwen_bailian_workload.py:942-977 | for any arguments the thresholds are exact up to the tolerance, and none or all of the blocks at the ends of the range |
| KvBudget.DemotionBalances | experiments/scripts/analyze_qwen_bailian_workload.py:984-1024 | demoted and remaining blocks sum to the peak, and the stop target is reached exactly when the WARM pool can hold the demotion |
| KvBudget.PressureOf | experiments/scripts/analyze_qwen_bailian_workload.py:984-1024 | what has to be demoted, what can be, what is left, and which limits the peak is above |
| Ballast.SharesAreEven | experiments/scripts/hkv_gsm8k.py:633-645 | the shares sum to the total, differ by at most one and never grow |
| Ballast.PlanIsSafe | experiments/scripts/hkv_gsm8k.py:648-766 | a plan without refusals reaches the start threshold and its margin, stays within HOT, and launches no request above the model length |
| Ballast.PlanOf | experiments/scripts/hkv_gsm8k.py:667-766 | what any plan is: the blocks missing to the threshold and its margin, shared out in mixed mode, and each refusal exactly when it applies |
| Ballast.RequestsHoldShares | experiments/scripts/hkv_gsm8k.py:697-724 | each request holds its share of blocks in tokens, and generates only if it holds any |
| Ballast.LongestIsLaunched | experiments/scripts/hkv_gsm8k.py:725-729 | the longest launched request is one of them |
| Ballast.PlanErrors | experiments/scripts/hkv_gsm8k.py:661-666 | which arguments the planner refuses |
| Ballast.ReportReasons | experiments/scripts/hkv_gsm8k.py:824-886 | every reason of a report exactly when it applies, so a report is feasible exactly when none does |
| Ballast.FeasibleReportIsSafe | experiments/scripts/hkv_gsm8k.py:769-935 | a feasible mixed report has even shares, a peak between threshold and capacity, history that fits the WARM pool, prompts that are not empty, and sequences within the limit |

## Left out

- The HOT/WARM migration described in the repository's README: the scheduler and the WARM allocator are not part of this model.
- Floating-point rounding: timestamps, times and utilizations are real numbers; only the tolerance of the threshold functions is kept.
- asyncio itself, wall clocks and timeouts: a protocol step is what runs between two awaits, a clock is a value that comes with each event, and a wait may time out at any moment.
- ResumeProtocol: sessions are named by plan position, tasks are always given to the coordinator as its caller does, and the residency snapshot and its validation errors are not modelled.
- ResumeProtocol.CanStart: a task that ends closes its engine stream, which cancels its producer (external/vllm/vllm/v1/engine/async_llm.py:633-635); an exception raised by the consumer's own loop body, after which the stream is closed only when it is collected, is not modelled.
- Coordinator and session tasks of the resume protocol are one state machine over values, because their interleaving is the point; only the tracker is an object, which each step updates.
- SessionRun.RunSession: sampling parameters, the output digest, run-wide timing fields and the text of errors are not modelled; an empty finish reason stands for none.
- HashTokenBlockStore: the digest is an arbitrary function of seed, hash and offset.
- JSON parsing, record construction and file handling: records arrive validated.
- Grouping.GroupLinearSessions: chat ids named in error messages are not modelled, only the kind of error.
- CumemAllocator.SplitChunks: the text of the chunk setting is taken as parsed, the width of the loop counter (an int, which more than 2^31 chunks would overflow) is not modelled, and nor are host memory allocation, reference counts and the CUDA branch.
- CumemAllocator.Driver: a refused call changes nothing; what a real driver does with overlapping ranges is taken to be a refusal.
- ReadTargets and GetExtension of the ninja report: line parsing, detection of a new build, and grouping by extension.
- HighLoad.FindHighLoadPrefix: the text of the note, which depends only on the fields modelled.
- Percentiles, medians, statistics tables, figures, recommendation prose and printed output.
- CapacityReport fields that only repeat inputs for display.

# Verified model of the PLE row reader and its hand-off protocols

The runtime this project models reads rows of a large per-layer embedding table (PLE) from SSD
into GPU memory, hands them to the ranks that consume them, and moves vocabulary scores between
ranks in a compact form. Each module models one component of it in Dafny and proves what that
component is for, over all inputs, all runs or all reachable states.

`dafny verify dfyconfig.toml` checks the whole project.

## Components

- Pages, Spans: byte, page and row arithmetic; sorted pages and how they merge
- PagePlan, LanePacking, GreedyPlacement, GatherPlan, NativeRead: the native read planner, its lanes and gather offsets, and slot ownership
- WorkerPool, PoolProgress: the generation-numbered worker pool and its barrier; that every request ends
- EndToEnd: planner, pool and gather together against the naive lookup; and from the source table to the output
- CrossingRows: what the planner answers for rows that cross a page boundary
- ReferencePlan: the reference page planner
- ChunkedRead, ChunkSuccess: the Python reader: slot queue, chunked reads, rebinding, closing; when its chunks succeed
- DirectOutput: the in-process reads of the input-driven connector, into one output shared by all slots
- TwoRank, TpPleTransport: the two-rank broadcast with 0/1 flags, and the object that drives it
- TicketRing, RingProgress, LateSignal: the slot ring of the in-process connector, how slots come back, and what a late signal does to it
- IpcResults: results of the producer process
- InputDriven: accounting of the input-driven connector
- PipelineFifo: the pipeline handler, its delayed queue and its pinned ring
- Scores, FilterMeaning, CompactFilter, GreedyFilter, TopkTransport: lossless score transport and the filters behind it, told by sorting and by counting
- NgramPlan: row ids from token windows, and the CPU token history
- Artifact, ArtifactMeaning, SliceSpec: source spec, artifact layout, conversion, validation; what they mean in terms of the listed shards; slicing a source spec
- Projection: the source rewrite that delays one matrix product
- Options: an optional value

Host threads are sequences of critical sections, CUDA streams are ordered queues of operations, an
event is a mark in such a queue, a flag is an integer, a file is a sequence of bytes. All of them
interleave freely. Scores form a total order with minus and plus infinity, and NaN apart from it;
softmax, cumulative sum and comparison are one unknown function of the sorted scores; hash mixes and
kernels are unknown functions. Where the source updates fields or arrays, a class or an array does so
here, and its methods are proved against functions about which the theorems are stated.

## What the proofs say about the code

Main results: the native read refines the naive lookup under any interleaving of the workers
(`EndToEnd.ThreadedReadIsLookup`), every request of the pool ends and a planned one can return normally
(`PoolProgress.EveryRequestEnds`, `PoolProgress.PlannedReadReturns`), and together with conversion the
read delivers the rows of the source table (`EndToEnd.SourceToOutput`); the reference plan is correct,
minimal and never trips its own assertions (`ReferencePlan.PlanPageRequests`,
`ReferencePlan.FewestRanges`); chunked reads equal unchunked ones (`ChunkedRead.Reader.ReadAll`), also in
place in an output shared by all slots (`DirectOutput.ProduceInProcess`); the two-rank protocol is safe
exactly under one visible condition (`TwoRank.SafeIffGuarded`); compact filtering and transport lose
nothing (`CompactFilter.CompactIsExact`, `TopkTransport.TransportIsLossless`), and what they keep is told
by counting higher scores (`CompactFilter.CompactKeepsTop`, `TopkTransport.ArrivesAsTop`); the ring gives
every slot back once its threads are idle (`RingProgress.SettledRingGivesBack`); row ids are spelled out
entry by entry (`NgramPlan.PlanIsExactly`) and do not depend on how a history is cut
(`NgramPlan.ChunkingInvariant`).

Where a promise does not hold as stated, the code was followed and the exact condition proved:

- The native planner checks only the page a row starts on. A row that crosses into another range is
  delivered wrong for some file unless it happens to be staged contiguously
  (`GatherPlan.RowIntactIffContiguous`, `EndToEnd.RowDeliveredIff`). With the default artifact geometry
  and a range limit of one page, the planner's own answer is such a plan for every crossing row
  (`CrossingRows.SplitPlanIsReturned`, `CrossingRows.SplitRowIsWrong`). The reference planner checks both
  pages.
- The comment in `iter_read_at` says every chunk fits staging. With no gap bridged it does fit the slot
  (`ChunkedRead.ChunkFitsStaging`, `ChunkedRead.ChunksNeverTooLarge`), but fitting the slot is not fitting
  its lanes, and that failure is not turned into the chunking error (`ChunkSuccess.LanesRefuseChunk`).
  With gaps bridged it need not fit the slot either (`ChunkSuccess.BridgingRefusesChunk`).
  `ChunkSuccess.ChunkSucceedsIff` tells exactly when a chunk is read,
  `CrossingRows.CrossingChunkPlansIff` turns that into a count for rows far apart, and
  `ChunkSuccess.SmallChunksSucceed` gives limits under which every chunk is.
- Rebinding larger outputs leaves the native row capacity as it was: a read fails for it exactly when
  its first chunk exceeds that capacity (`ChunkedRead.CapacityIff`), which a successful rebinding can
  bring about (`ChunkedRead.Reader.RebindAndRead`).
- A transfer that directly follows a dummy run on rank 1 must be serialized; otherwise the receiver can
  consume zeros (`TwoRank.UnguardedLosesRows`).
- The compact transport is exact for k-th scores that are not NaN. When the k-th score is NaN it is exact
  if and only if no score above -inf is beaten by K others of its shard (`TopkTransport.LosslessIff`,
  `TopkTransport.NaNsHideALoss`).
- `produce_prefetch` sets `submission_ready` after it has left the lock. If the slot is discarded and
  reserved again in between, the flag is set for the new prefetch, whose consumer then copies the slot
  before it is produced (`LateSignal.LateSignalCopies`, `LateSignal.LateSignalFrees`). A reservation can
  lead there if and only if the control thread is signalling on that very slot
  (`LateSignal.ReserveBreaksIff`); in all other runs the ring is safe (`TicketRing.CopySeesProduction`
  and its companions).
- The one-token planner does not check that its ids are in the table, unlike the others
  (`NgramPlan.OneTokenOutside`). They are for all hash mixes exactly when every head lies inside the
  table (`NgramPlan.OneTokenSafeIff`).
- The shadow context is right exactly for slices that start within the accepted tokens
  (`NgramPlan.ContextRightIff`).
- With a producer process a slot is given up before its dispatched read has completed exactly when it is
  cancelled, or discarded in state ready or error, without that completion (`IpcResults.FreedEarlyIff`,
  `IpcResults.DiscardFreesEarly`).
- A source spec may list its shards in any order, since the validation sorts them; slicing walks them as
  listed and stops at the first that starts past the wanted rows. It can then drop wanted shards, all of
  them even, and the result is refused (`SliceSpec.SliceLosesRows`). The slice is valid, with the same first
  rows, if and only if no shard past them is listed before one that is wanted
  (`SliceSpec.SliceIsValidIff`, `SliceSpec.SlicedSpecValidIff`).
- The projection rewrite checks names, not buffers, and finds no name in an argument that is an
  expression. The exact condition is on buffers (`Projection.DelayIsRightIff`); a second name of the
  output, a write to the saved weight and an expression argument each pass the check and change the
  meaning (`Projection.SecondNameBreaks`, `Projection.WrittenWeightBreaks`, `Projection.ExpressionBreaks`).

## Model

| member | source | states |
|---|---|---|
| `PagePlan.AbsoluteOffset` | csrc/ple_gds/ple_gds_persistent.cpp:401-412 | the checked address is the block/row formula exactly when that sum fits 64 bits, and an overflow error otherwise |
| `PagePlan.AddressOf` | csrc/ple_gds/ple_gds_persistent.cpp:401-412 | row r of block b lies at base + b*stride + r*row_bytes |
| `PagePlan.CollectPages` | csrc/ple_gds/ple_gds_persistent.cpp:414-424 | succeeds exactly for ids in range with addressable rows; yields exactly the first and last pages of the rows, at most two per row; otherwise stops at the first bad id |
| `PagePlan.PagesHoldRowEnds` | csrc/ple_gds/ple_gds_persistent.cpp:414-424 | a page is planned exactly when it holds the first or the last byte of a requested row |
| `PagePlan.CollectedMeaning` | csrc/ple_gds/ple_gds_persistent.cpp:414-424 | the pages of a request: defined exactly for ids in range with addressable rows, and then exactly the first and last pages of the rows |
| `PagePlan.CollectedError` | csrc/ple_gds/ple_gds_persistent.cpp:414-421 | the error names what is wrong with the first bad id: it is no row of the table, or a row whose address does not fit 64 bits |
| `Spans.IncreasingSetIsUnique` | csrc/ple_gds/ple_gds_persistent.cpp:425-427 | the sorted, duplicate-free page list is determined by the set of pages alone |
| `Spans.GrowLast` | csrc/ple_gds/ple_gds_persistent.cpp:438-442 | extending the last range over the next page keeps the complete description of a merge (order, limit, planned ends, every page held, neighbours joined exactly when allowed) |
| `Spans.StartNew` | csrc/ple_gds/ple_gds_persistent.cpp:444-445 | starting a range where the last may not reach the page keeps the same description |
| `PagePlan.MergePages` | csrc/ple_gds/ple_gds_persistent.cpp:429-446 | the ranges are a merge of the planned pages under the gap and size limits, laid back to back, and the cursor is their total size |
| `PagePlan.MergedMeaning` | csrc/ple_gds/ple_gds_persistent.cpp:429-446 | the ranges of a page list hold every planned page, end on planned pages, keep the size limit, join neighbours exactly when gap and limit allow, and lie back to back |
| `LanePacking.SelectLane` | csrc/ple_gds/ple_gds_persistent.cpp:464-471 | returns a least-loaded lane among those with room, the first such lane, or none when no lane has room |
| `LanePacking.PackLanes` | csrc/ple_gds/ple_gds_persistent.cpp:451-477 | the placement is one function of the ranges: largest first, each on the first least-loaded lane with room; on success the same transfers, each inside one lane, lanes filled without holes or overlap and within capacity; on failure a range that fits no lane, with the loads at that moment |
| `GreedyPlacement.PackingIsGreedy` | csrc/ple_gds/ple_gds_persistent.cpp:451-477 | of the placed ranges, compared with each other only: each fits behind those placed before it, in the first of the least-loaded lanes with room |
| `LanePacking.PackedIsDisjoint` | csrc/ple_gds/ple_gds_persistent.cpp:475-476 | no two placed transfers write the same staging byte and all stay inside the slot |
| `LanePacking.LaneIs` | csrc/ple_gds/ple_gds_persistent.cpp:475-476 | a lane is a stretch of staging of the lane capacity |
| `LanePacking.FailureMeansFull` | csrc/ple_gds/ple_gds_persistent.cpp:472-474 | a range of s pages is refused only when every lane of L pages already holds at least L-s+1 |
| `LanePacking.SmallPlansPack` | csrc/ple_gds/ple_gds_persistent.cpp:451-477 | a plan of T pages with largest range m always packs into W lanes of L pages when T < W*(L-m+1)+m |
| `LanePacking.LongRangesNeedLanes` | csrc/ple_gds/ple_gds_persistent.cpp:462-477 | conversely, ranges longer than half a lane need a lane each, however they are placed |
| `LanePacking.PackingOkIff` | csrc/ple_gds/ple_gds_persistent.cpp:462-474 | packing succeeds if and only if every range, when its turn comes, finds a lane with room |
| `LanePacking.UniformPacksIff` | csrc/ple_gds/ple_gds_persistent.cpp:451-477 | ranges of one size pack if and only if they number at most lanes times the ranges one lane holds |
| `GatherPlan.GatherOffset` | csrc/ple_gds/ple_gds_persistent.cpp:480-499 | the offset found is that of the row inside the one range holding its first page, with room for the row, or the exact error |
| `GatherPlan.GatherAtMeaning` | csrc/ple_gds/ple_gds_persistent.cpp:480-499 | for a planned page the range found is the one that holds it, and the only error is too little room behind the offset |
| `GatherPlan.RowIntactIffContiguous` | csrc/ple_gds/ple_gds_persistent.cpp:491-498 | for every file the gathered bytes are the row exactly when all its bytes are staged contiguously from that offset, which the code never checks |
| `GatherPlan.SameRangeContiguous` | csrc/ple_gds/ple_gds_persistent.cpp:491-498 | a row whose first and last page share a range is staged contiguously |
| `GatherPlan.ShortRunsShareRange` | csrc/ple_gds/ple_gds_persistent.cpp:430-445 | neighbouring pages share a range whenever no run of planned pages exceeds the size limit |
| `NativeRead.PlanRead` | csrc/ple_gds/ple_gds_persistent.cpp:370-501 | a plan with every promised property, or an error whose exact cause is stated; two neighbouring planned pages share a range exactly when their gap is at most the gap limit and the size from the first page of the range through the second is at most the lane and, unless it is zero, the range limit of the request; the two coverage errors never occur |
| `NativeRead.NeighboursShareIff` | csrc/ple_gds/ple_gds_persistent.cpp:430-446 | in every plan with those properties two neighbouring pages share a range if and only if gap, lane capacity and requested limit (none when zero) allow it, and no range is longer |
| `NativeRead.PlanIsGreedy` | csrc/ple_gds/ple_gds_persistent.cpp:451-477 | each planned range stands behind the larger ones, or equal ones earlier in the file, in the first least-loaded lane that has room for it |
| `NativeRead.PlanPassesReadChecks` | csrc/ple_gds/ple_gds_persistent.cpp:533-550 | every planned range passes the alignment, bounds and lane checks repeated by read |
| `NativeRead.AllRowsContiguous` | csrc/ple_gds/ple_gds_persistent.cpp:429-500 | rows within one page suffice for every row to be intact, and so does it that no run of pages is longer than the lane and, unless it is zero, the requested limit |
| `NativeRead.UntornPlans` | csrc/ple_gds/ple_gds_persistent.cpp:447-500 | rows that no placement can tear are refused by the size of the staging slot or of its lanes only, never by their gather offsets |
| `NativeRead.RowsReceived` | csrc/ple_gds/ple_gds_persistent.cpp:629-650 | after delivery and gather, every contiguously staged row stands in the output at its request position |
| `NativeRead.FillAndGather` | csrc/ple_gds/ple_gds_persistent.cpp:567-585 | fills staging range by range and gathers; bytes outside the request span are untouched; a short read leaves the output alone |
| `NativeRead.Slot.ReadIds` | csrc/ple_gds/ple_gds_persistent.cpp:526-665 | the answer is determined by request, file size and owner: refused in the order of the checks, otherwise the plan; success takes ownership of a released slot and delivers the rows, failure leaves owner and output unchanged |
| `NativeRead.Slot.ReadAnswerIs` | csrc/ple_gds/ple_gds_persistent.cpp:533-550 | a planned read is refused exactly for an owned slot, then for an output too small, then for a file too short |
| `NativeRead.Slot.Release` | csrc/ple_gds/ple_gds_persistent.cpp:709-719 | succeeds exactly for an owned slot, which becomes released with its consumer event recorded |
| `WorkerPool.NextInv` | csrc/ple_gds/ple_gds_persistent.cpp:897-1032 | every step of the caller or of a worker keeps the barrier and data invariants |
| `WorkerPool.EveryRunIsOrderly` | csrc/ple_gds/ple_gds_persistent.cpp:897-968 | in every run each worker handles each generation exactly once, and the pending count is the number of workers not yet finished |
| `WorkerPool.NoUseAfterClear` | csrc/ple_gds/ple_gds_persistent.cpp:1018-1022 | while any worker is not waiting, the range list it reads is still set |
| `WorkerPool.NormalReturn` | csrc/ple_gds/ple_gds_persistent.cpp:1003-1032 | a normal return means each range was read in full exactly once and the byte count is the total; the count mismatch error never occurs |
| `WorkerPool.LanesPartition` | csrc/ple_gds/ple_gds_persistent.cpp:938-960 | the workers together account for all ranges and bytes, each range by the worker of its lane |
| `PoolProgress.StepShrinks` | csrc/ple_gds/ple_gds_persistent.cpp:857-968 | every step but a new request takes the pool closer to the end of the request it has |
| `PoolProgress.EveryRequestEnds` | csrc/ple_gds/ple_gds_persistent.cpp:897-1032 | in every schedule, whatever fails, a request of n ranges takes at most n+5 steps of each worker and one of the caller |
| `PoolProgress.NeverStuck` | csrc/ple_gds/ple_gds_persistent.cpp:897-1032 | while a request is posted some thread can take a step |
| `PoolProgress.PostedCanReturn` | csrc/ple_gds/ple_gds_persistent.cpp:1003-1032 | between requests any well-placed request whose file is long enough can be posted and return normally |
| `EndToEnd.ReceivedIsLookup` | csrc/ple_gds/ple_gds_persistent.cpp:629-633 | rows received one by one are the concatenated naive lookup |
| `EndToEnd.PlanIsGoodRequest` | csrc/ple_gds/ple_gds_persistent.cpp:533-550 | what the planner returns is a request that the pool of the same configuration may be given |
| `EndToEnd.ThreadedReadIsLookup` | csrc/ple_gds/ple_gds_persistent.cpp:370-510 | planner, lanes, worker pool under any interleaving and gather together refine the naive lookup, when no row crosses a page or no run of pages is longer than the lane and the requested limit |
| `PoolProgress.PlannedReadReturns` | csrc/ple_gds/ple_gds_persistent.cpp:370-510 | after any run that ended between two requests the planned ranges of a request can be posted and the read return normally, so the refinement is not vacuous |
| `EndToEnd.SourceToOutput` | src/ple_gds/compact.py:69-201 | output row r is row ids[r] of the source table the artifact was converted from |
| `EndToEnd.RowDeliveredIff` | csrc/ple_gds/ple_gds_persistent.cpp:480-500 | row i of a request is intact for every file if and only if the plan returned for that request stages its second page right behind its first |
| `CrossingRows.SplitPlanIsReturned` | csrc/ple_gds/ple_gds_persistent.cpp:437-477 | with 160-byte rows, 512 to a block, and a range limit of one page, the planner returns for any page-crossing row the plan that puts its two pages in two lanes |
| `CrossingRows.SplitRowIsWrong` | csrc/ple_gds/ple_gds_persistent.cpp:491-498 | for each such row there are a file and a staging slot for which, under the returned plan, every gathered output holds the wrong row |
| `CrossingRows.CrossingChunkPlansIff` | csrc/ple_gds/ple_gds_persistent.cpp:447-474 | page-crossing rows far apart, at two pages of staging each, are planned if and only if they number at most lanes times the two-page ranges one lane holds; otherwise the lanes are exceeded |
| `CrossingRows.LanesRefuseThreeRows` | csrc/ple_gds/ple_gds_persistent.cpp:472-474 | for every range limit of two pages or more, three crossing rows that need the six pages of a slot exactly are refused by two lanes of three pages |
| `CrossingRows.BridgingOverflowsStaging` | csrc/ple_gds/ple_gds_persistent.cpp:447-449 | for every range limit of six pages or more, with gaps of one page bridged, the same rows overflow the slot |
| `ReferencePlan.PlanPageRequests` | src/ple_gds/compact.py:281-355 | first unknown id, else unknown component, else always a correct plan: both internal assertions are unreachable |
| `ReferencePlan.MergeNeighbours` | src/ple_gds/compact.py:312-319 | ranges cover exactly the sorted pages, in order, with an unplanned page between any two, and the sizes sum to pages times alignment |
| `ReferencePlan.PlaceRanges` | src/ple_gds/compact.py:320-326 | ranges lie back to back in staging and the page map sends exactly the covered pages to their bytes |
| `ReferencePlan.RowInOneRange` | src/ple_gds/compact.py:334-338 | all pages of a requested row lie in one range, whatever the row size |
| `ReferencePlan.RowIsGathered` | src/ple_gds/compact.py:328-339 | coverage and contiguity assertions hold for every requested row and the offset addresses the whole row |
| `ReferencePlan.GatheredIsFileRow` | src/ple_gds/compact.py:339-341 | once the ranges are read, the bytes at the gather offset are the row in the file |
| `ReferencePlan.FewestRanges` | src/ple_gds/compact.py:284 | no list of ranges that reads the same pages and no others is shorter |
| `ReferencePlan.NativeAgreesIffShort` | csrc/ple_gds/ple_gds_persistent.cpp:429-446 | with no gap allowed the native planner forms exactly the reference ranges if and only if each fits the native size limit |
| `ChunkedRead.NoGapReadsPlannedPages` | csrc/ple_gds/ple_gds_persistent.cpp:429-449 | bridging no gap, the ranges hold at most the planned pages |
| `ChunkedRead.ChunkRowsIs` | src/ple_gds/persistent_reader.py:445-447 | a chunk is the largest number of rows that fit the output and, at two pages each, the staging |
| `ChunkedRead.ChunkFitsStaging` | src/ple_gds/persistent_reader.py:445-447 | the bound in the comment: with no gap bridged a chunk needs at most two pages of staging per row and so fits |
| `ChunkedRead.ChunksNeverTooLarge` | src/ple_gds/persistent_reader.py:445-464 | with no gap bridged no chunk of a request that fits the output is sent back as too large |
| `ChunkedRead.CapacityIff` | src/ple_gds/persistent_reader.py:446-464 | a chunked read fails for want of native row capacity if and only if its first chunk has more rows than the native reader was built for |
| `ChunkedRead.ReadIsLookup` | src/ple_gds/persistent_reader.py:341-358 | a successful native read of untorn rows leaves the naive lookup in the output |
| `ChunkedRead.LookupConcat` | src/vllm_ple_gds.py:375-382 | lookups of consecutive slices concatenate to the lookup of the whole list |
| `ChunkedRead.AppendChunk` | src/ple_gds/persistent_reader.py:455-464 | a chunk written behind an earlier part, touching nothing else, extends the lookup in place |
| `ChunkedRead.Reader.ReadPrepared` | src/ple_gds/persistent_reader.py:313-382 | leases the head of the free queue, or fails with exactly the error determined by arguments, queue, reader and native planner; slot accounting, native ownership and queue length are kept on every path |
| `ChunkedRead.LeaseErrorIs` | src/ple_gds/persistent_reader.py:313-382 | which error a lease fails with, each told by its own condition on offset, size, free slots, closing and the native answer; only staging overflow asks for chunks |
| `ChunkedRead.Reader.CallNative` | src/ple_gds/persistent_reader.py:341-371 | a failed native call gives the slot back; only a staging overflow becomes the chunking error, and a handed-out slot is never refused as owned |
| `ChunkedRead.Reader.ReadAll` | src/ple_gds/persistent_reader.py:430-464 | fails exactly with the error of the first failing chunk; otherwise the leases of all chunks tile the requested span without gap or overlap, all but the last full, their rows are the unchunked lookup, and an output that all slots share holds it in place |
| `ChunkedRead.Reader.Release` | src/ple_gds/persistent_reader.py:512-519 | succeeds exactly for an owned slot, which joins the end of the queue |
| `ChunkedRead.Reader.Rebind` | src/ple_gds/persistent_reader.py:466-510 | replaces all outputs only when open, of matching number and equal nonzero size, and no slot is owned; the error otherwise is the first of these that fails |
| `ChunkedRead.Reader.RebindAndRead` | src/ple_gds/persistent_reader.py:466-510 | after a successful rebinding to outputs whose first chunk exceeds the native row capacity, the read fails with that error |
| `ChunkedRead.Reader.Close` | src/ple_gds/persistent_reader.py:541-546 | refused exactly while a slot is owned; idempotent |
| `DirectOutput.BindOutput` | src/vllm_ple_gds_runner.py:1069-1070 | binds one output to every slot of an open reader without consumers, unless it is empty |
| `DirectOutput.ProduceInProcess` | src/vllm_ple_gds_runner.py:1436-1511 | one lease, or chunks when that is asked for: neither size check ever fails, the error is exactly the one the reader determines, and on success a shared output holds the lookup of all rows from its start |
| `DirectOutput.AssembleErrorIs` | src/vllm_ple_gds_runner.py:1483-1504 | only a request that outgrows the output or the staging is read again in chunks; any other failure is final |
| `DirectOutput.Account` | src/vllm_ple_gds_runner.py:1469-1511 | adding up the leases accepts them exactly when they make up the expected bytes, and tells too many from too few |
| `ChunkSuccess.ChunkSucceedsIff` | src/ple_gds/persistent_reader.py:341-371 | a chunk of rows that cannot be torn is read if and only if it is within the row capacity, its ids and range limit are valid, its ranges fit the slot, each in its turn finds a lane with room, and the file is long enough |
| `ChunkSuccess.ReadAllSucceedsIff` | src/ple_gds/persistent_reader.py:430-464 | a chunked read of such rows succeeds if and only if each of its chunks does |
| `ChunkSuccess.SmallChunksSucceed` | src/ple_gds/persistent_reader.py:445-464 | it succeeds when no gap is bridged and the pages of a chunk, two to a row, fit one range |
| `ChunkSuccess.LanesRefuseChunk` | src/ple_gds/persistent_reader.py:445-447 | inputs without gaps, for every range limit a reader accepts from three pages up and every output of three rows or more, whose only chunk fits the slot by count and fails for want of a lane |
| `ChunkSuccess.BridgingRefusesChunk` | src/ple_gds/persistent_reader.py:445-447 | inputs with gaps bridged, for every range limit a reader accepts from six pages up, whose only chunk is sent back as requiring chunks |
| `TwoRank.ProgramOps` | src/tp_ple_transport.py:77-89 | the per-position stream operations are exactly those the host calls enqueue |
| `TwoRank.OwnerStepKeeps` | src/vllm_ple_gds_runner.py:1174-1223 | every host or stream step of rank 0 keeps its ordering and memory invariant |
| `TwoRank.RemoteStepKeeps` | src/tp_ple_transport.py:84-89 | every step of rank 1 keeps its invariant under guarded schedules |
| `TwoRank.OwnerAlwaysSafe` | src/tp_ple_transport.py:78-87 | under every schedule rank 0 consumes, and sends, exactly the current generation: a flag left raised by the previous one can never release a broadcast |
| `TwoRank.OwnerOutputHeld` | src/tp_ple_transport.py:123-129 | the reader overwrites the output only after the broadcast and consumption of every earlier generation |
| `TwoRank.FlagDownMeansCurrent` | src/tp_ple_transport.py:85-86 | on rank 1 a lowered flag seen by the receiver means all earlier outputs were consumed |
| `TwoRank.MailboxNeverFull` | src/vllm_ple_gds_runner.py:1213-1223 | the one-place request queue is empty at every launch |
| `TwoRank.EveryScheduleCompletes` | src/tp_ple_transport.py:42-129 | from the start every number of generations of every schedule can be completed: the protocol is not safe by being stuck |
| `TwoRank.UnguardedLosesRows` | src/tp_ple_transport.py:84-86 | a transfer right after a dummy run that is not serialized has a run in which rank 1 consumes zeros instead of its rows |
| `TwoRank.SafeIffGuarded` | src/tp_ple_transport.py:42-129 | both ranks see exactly their own generation in every reachable state if and only if every transfer directly after a dummy run is serialized |
| `TpPleTransport.GuardedIff` | src/tp_ple_transport.py:49-50 | for the generations a sequence of calls starts, that condition holds if and only if every transfer behind a dummy run was made with serialization on and had more than 112 tokens or the flag set |
| `TpPleTransport.StartsNext` | src/tp_ple_transport.py:49-50 | an accepted call extends the history by a transfer serialized exactly when serialization is on and the input is flagged or has more than 112 tokens |
| `TpPleTransport.Transport.PrepareForward` | src/tp_ple_transport.py:42-109 | accepted exactly when open, inactive and in range; records the call, and a generation serialized exactly when serialization is on and the flag is set or there are more than 112 tokens; appends exactly its operations to the streams and nothing otherwise |
| `TpPleTransport.Transport.SignalDummyOutputs` | src/tp_ple_transport.py:110-116 | a dummy generation zeroes the output and raises the flag without using the broadcast stream |
| `TpPleTransport.Transport.ConsumeOutput` | src/tp_ple_transport.py:117-122 | accepted exactly for an active output long enough; waits for the flag |
| `TpPleTransport.Transport.ReleaseOutputs` | src/tp_ple_transport.py:123-129 | waits for the broadcast of a real generation before lowering the flag |
| `Scores.TopKReaches` | src/q38_compact_ops.py:32 | at least k entries reach any value at or below the k-th largest |
| `Scores.TopKCovers` | src/q38_compact_ops.py:32 | every entry above the k-th largest is among the top k, and fewer than k are |
| `Scores.BelowIs` | src/q38_compact_ops.py:42-48 | the order of scores: negative infinity lowest, NaN highest, finite scores by value |
| `Scores.StableSortIsStable` | src/q38_compact_ops.py:42-44 | the sort ascends and keeps the relative order of equal keys |
| `Scores.TopsCoincide` | src/q38_compact_ops.py:43-51 | two ordered lists with the same entries at or above a threshold agree, right-aligned, entry by entry there and are below it elsewhere |
| `Scores.SameTopFilters` | src/q38_compact_ops.py:45-58 | such lists give the same scattered output for every function standing for softmax, cumulative sum and comparison |
| `CompactFilter.FilterSorted` | src/q38_compact_ops.py:45-58 | the in-place masking, right-aligning and scattering computes the filter of the sorted candidates, of which `CompactFilter.CompactKeepsTop` and `FilterMeaning.FullFilterIs` say what it keeps |
| `CompactFilter.FilterRow` | src/q38_compact_ops.py:36-58 | answers exactly when the vocabulary has a finite k-th largest score, neither NaN nor +inf, and no shard more than 128 scores reaching it; the answer keeps the scores with fewer than k higher ones in the whole vocabulary, minus those whose place in the ascending vector is marked, the highest excepted |
| `CompactFilter.CompactIsExact` | src/q38_compact_ops.py:36-58 | whenever it answers, the answer is that of the same filter on the full vocabulary, for any number of ties and any drop function |
| `CompactFilter.CompactKeepsTop` | src/q38_compact_ops.py:45-58 | told by counting: the filtered candidates hold, at each position of the vocabulary, the score there if fewer than k scores are higher and its place is not marked, and -inf otherwise |
| `FilterMeaning.FullFilterIs` | src/q38_compact_ops.py:45-58 | the same of the sorting filter on a whole vocabulary whose k-th largest score is not NaN |
| `FilterMeaning.NothingMarked` | src/q38_compact_ops.py:48-58 | with nothing marked position q holds its score if fewer than k scores are higher, and -inf otherwise |
| `FilterMeaning.PlacesAreIndices` | src/q38_compact_ops.py:42-51 | each place of the ascending vector is that of exactly one position |
| `FilterMeaning.KthIs` | src/q38_compact_ops.py:45 | the entry k from the end of the sorted scores is the score that fewer than k exceed and k or more reach |
| `CompactFilter.OmittedIffFew` | src/q38_compact_ops.py:39-46 | the omitted scores are all below a threshold exactly when no shard has more than 128 scores reaching it |
| `CompactFilter.GivesUpIff` | src/q38_compact_ops.py:46-47 | it gives up exactly when the full vocabulary holds NaN or +inf, its k-th largest score (fewer than k higher, k or more reaching it) is not finite, or some shard has more than 128 scores reaching that score |
| `GreedyFilter.PackGreedy` | src/q38_compact_ops.py:8-11 | sends the first maximum of the shard with its global index |
| `GreedyFilter.Winner` | src/q38_compact_ops.py:25-26 | the smallest index among the pairs with the largest value |
| `GreedyFilter.GreedyIsArgmax` | src/q38_compact_ops.py:13-29 | the winner is the first maximum of the whole vocabulary |
| `GreedyFilter.Filter` | src/q38_compact_ops.py:13-29 | gives up exactly when a sent value is NaN; otherwise the output is zero at the winner and -inf elsewhere, position by position |
| `GreedyFilter.NaNIsSeen` | src/q38_compact_ops.py:23-24 | some sent value is NaN exactly when some score is |
| `TopkTransport.BitWordRoundTrip` | src/q38_topk_transport.py:26 | bit b of packed word w tells whether score 32*w+b ties with the threshold |
| `TopkTransport.WordFits` | src/q38_topk_transport.py:21-27 | the sum of the 32 shifted bits never overflows the unsigned 32-bit word |
| `TopkTransport.PackWord` | src/q38_topk_transport.py:21-27 | the loop over 32 columns computes that word |
| `TopkTransport.UnpackTopk` | src/q38_topk_transport.py:71-77 | ties first, then top entries overwritten, gives the restored scores of both shards |
| `TopkTransport.ShardRoundTrip` | src/q38_topk_transport.py:60-77 | packing then unpacking a shard gives each score that is at least the shard K-th largest, and -inf elsewhere |
| `TopkTransport.Exchange` | src/q38_topk_transport.py:60-77 | both shards packed, gathered and unpacked satisfy that round trip: each score with fewer than 20 higher ones in its shard arrives, and -inf elsewhere |
| `TopkTransport.ArrivesAsTop` | src/q38_topk_transport.py:1-8 | what arrives of a shard are its scores with fewer than 20 higher ones in it, and -inf elsewhere |
| `TopkTransport.TransportIsLossless` | src/q38_topk_transport.py:1-8 | for every k up to K the global k-th largest is unchanged, and so is the result of any top-k/top-p filter |
| `TopkTransport.LosslessIff` | src/q38_topk_transport.py:25 | every filter result is unchanged if and only if the global k-th largest is not NaN, or no score above -inf is beaten by K others of its shard |
| `TopkTransport.UnchangedIff` | src/q38_topk_transport.py:60-77 | what arrives is what was sent if and only if no score above -inf is beaten by K others of its shard |
| `TopkTransport.NaNsHideALoss` | src/q38_topk_transport.py:60-77 | an input for which some filter result changes: a shard of K NaN scores and a zero |
| `TicketRing.StepKeeps` | src/vllm_ple_gds_runner.py:2052-2424 | every thread section, the late setting of submission_ready and every stream step keep the slot, queue and event invariant, unless a slot is reserved while the control thread is signalling on it |
| `TicketRing.SlotsInEveryRun` | src/vllm_ple_gds_runner.py:484-526 | in every run without such a reservation a free slot has no ticket and no prefetch, every other slot has exactly one, and free or queued slots have no GPU work left |
| `TicketRing.GivenUpOnlyWhenDone` | src/vllm_ple_gds_runner.py:2650-2664 | in such runs a slot loses its identity only after all recorded producer and consumer work on it has completed |
| `TicketRing.ProductionStartsQuiet` | src/vllm_ple_gds_runner.py:2588-2642 | in such runs a write to a slot is enqueued only when no earlier operation on it is outstanding |
| `TicketRing.CopySeesProduction` | src/vllm_ple_gds_runner.py:2371-2384 | in such runs, when the copy to the consumer executes, the read of that slot has been enqueued and completed |
| `TicketRing.ConsumedInOrder` | src/vllm_ple_gds_runner.py:2328-2372 | in every run step ids are consumed strictly increasing, each at most once |
| `TicketRing.ReapGivesBack` | src/vllm_ple_gds_runner.py:2650-2664 | before a call does its work a slot is free exactly when it is not in use, and a slot in use is untouched |
| `RingProgress.SettledRingGivesBack` | src/vllm_ple_gds_runner.py:2645-2665 | in every such run, once the threads are idle, nothing is consumed and all streams have executed, the next call finds every discarded or releasing slot free, and only undiscarded results keep a slot |
| `TicketRing.Connector.Submit` | src/vllm_ple_gds_runner.py:2052-2088 | accepted exactly for a newer step while some slot is not in use (queued, producing, consuming, ready to be consumed, or with recorded work outstanding); takes the first such slot, gives the other ones back, and is otherwise refused |
| `TicketRing.Connector.ReservePrefetch` | src/vllm_ple_gds_runner.py:2090-2120 | accepted exactly while some slot is not in use; reserves the first such slot under a fresh sequence number with a job for it, and gives the others back |
| `TicketRing.Connector.Consume` | src/vllm_ple_gds_runner.py:2328-2408 | takes the first slot of the expected step if its whole identity matches and it is ready; otherwise tells a consumed step, a missing ticket, another batch and a slot to wait for apart, and changes nothing |
| `TicketRing.ConsumeAnswerIs` | src/vllm_ple_gds_runner.py:2328-2372 | which answer a consumption gets, each told by its own condition on the step, the first slot with a ticket for it, that ticket and its state |
| `TicketRing.ClaimTakes` | src/vllm_ple_gds_runner.py:2363-2384 | a taken slot is the only one that changes: it is being consumed, and its copy is enqueued behind a wait for its production |
| `TicketRing.Connector.ReleaseOutput` | src/vllm_ple_gds_runner.py:2410-2424 | moves the consumed slot to releasing behind its consumer event |
| `TicketRing.Connector.DiscardPrefetches` | src/vllm_ple_gds_runner.py:2301-2326 | marks exactly the prefetches of the request that are in use, frees those ready with their production executed, gives back what is no longer in use, and counts the newly marked |
| `LateSignal.ReserveBreaksIff` | src/vllm_ple_gds_runner.py:2113-2209 | a reservation can be followed, with no other late signal, by a copy of a slot that has not been produced if and only if the control thread is signalling on that slot |
| `LateSignal.OrderlyRunsFlow` | src/vllm_ple_gds_runner.py:2133-2209 | the premises of that equivalence hold in every reachable state of the runs it speaks of |
| `LateSignal.LateSignalCopies` | src/vllm_ple_gds_runner.py:2203-2209 | a run of one slot in which the flag is set after the slot was reserved again: the stale copy is enqueued, and still outstanding when the read is |
| `LateSignal.LateSignalFrees` | src/vllm_ple_gds_runner.py:2252-2271 | in that run the copy executes while the read is outstanding, and the slot is freed before the read has executed |
| `IpcResults.SlotKeeps` | src/vllm_ple_gds_runner.py:1943-2034 | an accepted message advances the slot flags and the accepted prefix together |
| `IpcResults.AcceptedIsPrefix` | src/vllm_ple_gds_runner.py:1921-2045 | whatever messages arrive, those accepted for a done value form a prefix of submitted, completed |
| `IpcResults.AcceptedIffNext` | src/vllm_ple_gds_runner.py:1937-2020 | a progress message is accepted if and only if its slot holds something under its done value, has not failed, and it is the next message after those accepted |
| `IpcResults.DoneValuesDiffer` | src/vllm_ple_gds_runner.py:2116-2117 | done values of a run strictly increase, so none repeats |
| `IpcResults.StaleIsRejected` | src/vllm_ple_gds_runner.py:1937-1948 | a progress message for a reset slot, or with another done value, changes nothing |
| `IpcResults.FreedOnlyWhenBothDone` | src/vllm_ple_gds_runner.py:2650-2664 | a slot neither discarded nor cancelled becomes free only after its completion message and its consumer event |
| `IpcResults.TakenOverIff` | src/vllm_ple_gds_runner.py:2650-2664 | a slot that holds something can be taken over exactly when its completion was accepted and it was released with its consumer work done, or discarded in state ready or error |
| `IpcResults.UsedOnlyWhenSubmitted` | src/vllm_ple_gds_runner.py:2350-2372 | a ticket is claimed, and any slot released, only after its submission was accepted |
| `IpcResults.FreedEarlyIff` | src/vllm_ple_gds_runner.py:2122-2324 | a step gives a slot up before its dispatched read has completed if and only if it cancels it, or discards it in state ready or error, without that completion |
| `IpcResults.DiscardFreesEarly` | src/vllm_ple_gds_runner.py:2319-2321 | a run in which a discarded slot is handed out again while the read for its first owner is going on |
| `IpcResults.Receiver.HandleIpcResult` | src/vllm_ple_gds_runner.py:1921-2045 | the branches of the handler accept exactly the stated messages and change exactly the stated flags |
| `InputDriven.StepKeeps` | src/vllm_ple_gds_runner.py:1174-1273 | every critical section of either thread keeps the accounting invariant |
| `InputDriven.EveryRunAccounts` | src/vllm_ple_gds_runner.py:1174-1273 | no run fails by a full queue, a mismatched hand-off, or a stale or duplicate result; launched equals released plus the active one |
| `InputDriven.TurnsAreAccepted` | src/vllm_ple_gds_runner.py:1174-1371 | in every run a launch is accepted exactly when no output is held, and a release exactly when one is |
| `InputDriven.SampledWhenBothDone` | src/vllm_ple_gds_runner.py:1642-1664 | a real request is sampled once, and its record dropped, exactly when it is both released and completed, in either order |
| `InputDriven.ReadyIsOwnCompletion` | src/vllm_ple_gds_runner.py:1225-1249 | the host wait can return exactly when the active request has itself completed, and its record is still there |
| `InputDriven.QuietMeansAllSampled` | src/vllm_ple_gds_runner.py:1642-1664 | with nothing active or under way no record is left and samples equal real launches |
| `InputDriven.WaitPreventsOverflow` | src/vllm_ple_gds_runner.py:1213-1223 | leaving prepare_forward before the hand-off, the next launch finds the queue full if and only if the worker has not taken the previous request |
| `InputDriven.WithoutWaitingQueueOverflows` | src/vllm_ple_gds_runner.py:1213-1223 | the first launch reaches such a moment |
| `InputDriven.Connector.PrepareForward` | src/vllm_ple_gds_runner.py:1174-1220 | refused exactly after an error or while an output is held; otherwise records the launch and fills the queue, a full queue being an error |
| `InputDriven.Connector.ReleaseOutputs` | src/vllm_ple_gds_runner.py:1350-1371 | marks the active record released, clears the active output and finalizes |
| `InputDriven.Connector.HandleCompleted` | src/vllm_ple_gds_runner.py:1597-1637 | accepts one completion of a live real record and finalizes, else fails |
| `PipelineFifo.CollectivesMatch` | src/vllm/v1/worker/gpu/pp_utils.py:133-245 | over every run in which the two ends agree at each step, no sample being wider than the fixed width, they issue the same collectives in the same order and shapes |
| `PipelineFifo.StepMatchesIff` | src/vllm/v1/worker/gpu/pp_utils.py:133-245 | a step posts the same collectives on both ends if and only if they agree on whether a sample is needed and, if so, on the rows and the number of drafts, and the sample is no wider than the fixed width, which the source asserts |
| `PipelineFifo.PostedIs` | src/vllm/v1/worker/gpu/pp_utils.py:143-170 | a step posts nothing when no row is wanted, else the padded samples, the counts and, if the model drafts, the drafts |
| `PipelineFifo.NeededMeansWanted` | src/vllm/v1/worker/gpu/pp_utils.py:35-52 | the mask is true exactly for the wanted rows, and some is needed exactly when some is wanted |
| `PipelineFifo.ReceiveLeavesEntry` | src/vllm/v1/worker/gpu/pp_utils.py:133-187 | the specified receive leaves such an entry, or nothing |
| `PipelineFifo.StepKeeps` | src/vllm/v1/worker/gpu/pp_utils.py:89-187 | every get, receive and free keeps queue, log and ring in agreement |
| `PipelineFifo.OnlyLatenessFails` | src/vllm_ple_gds_runner.py:3410-3488 | with a ring at least as deep as the pipeline the queue length stays and no overrun, divergence or double use can occur |
| `PipelineFifo.GetIsDelayed` | src/vllm/v1/worker/gpu/pp_utils.py:89-131 | a get returns what receive left pp_size steps earlier, on the GPU and on the CPU side |
| `PipelineFifo.DroppedIffFreed` | src/vllm/v1/worker/gpu/pp_utils.py:104-122 | a received row comes out as its index, or as -1 exactly when not wanted or freed since (fewer than 2^32 times), identically on both sides; a warm-up step has no CPU side |
| `PipelineFifo.NothingIffAllDropped` | src/vllm/v1/worker/gpu/pp_utils.py:107-116 | a get returns nothing at all exactly when every row was not wanted or freed since |
| `PipelineFifo.ShallowRingOverruns` | src/vllm_ple_gds_runner.py:3407 | a ring shallower than the pipeline does overrun |
| `PipelineFifo.PpHandler.GetPrevSampledOutputs` | src/vllm/v1/worker/gpu/pp_utils.py:89-131 | computes the specified step: queue shift, filtered indices, polled slot |
| `PipelineFifo.PpHandler.Receive` | src/vllm/v1/worker/gpu/pp_utils.py:133-187 | leaves the entry none exactly when no row is wanted: a decode row is wanted when one more token leaves it below its maximum length, a row finishing its prefill when one token behind it does, a row inside its prefill never; otherwise the entry holds the rows, which of them are wanted, their generations and the next ring slot |
| `PipelineFifo.PpHandler.OnRequestFreed` | src/vllm/v1/worker/gpu/pp_utils.py:92-93 | freeing a request index counts up its generation and changes nothing else |
| `NgramPlan.PlanReference` | src/vllm_ple_gds.py:232-329 | the packed, searched and gathered computation equals the sliding-window meaning token by token, with the same refusals |
| `NgramPlan.PlanOneToken` | src/vllm_ple_gds.py:265-285 | the one-token path equals the same meaning (and, as in the code, skips the range check) |
| `NgramPlan.OneTokenSafeIff` | src/vllm_ple_gds.py:265-285 | the unchecked one-token ids are rows of the table for all hash mixes if and only if every head lies inside the table |
| `NgramPlan.OneTokenInTableIff` | src/vllm_ple_gds.py:265-285 | for given mixes they are rows of the table if and only if the ids of the one window are |
| `NgramPlan.OneTokenOutside` | src/vllm_ple_gds.py:265-328 | inputs that fail: with a head of one row past the table a one-token batch is planned with that row, and every other valid batch is refused |
| `NgramPlan.OneTokenOutsideInput` | src/vllm_ple_gds.py:265-285 | one such input: a table of one row, two heads, and the answer is row five |
| `NgramPlan.PlanSeven` | src/vllm_ple_gds.py:332-363 | the seven-token path equals it, including padded and empty queries |
| `NgramPlan.Plan` | src/vllm_ple_gds.py:332-363 | the dispatching planner answers with exactly the ids that `NgramPlan.PlanIsExactly` spells out, or their refusal, on every input |
| `NgramPlan.PlanIsExactly` | src/vllm_ple_gds.py:232-363 | of the answer, without windows: entry p*2*heads+j is the offset of head j plus the remainder of the 2-gram mix of the token and its predecessor for the first half of the heads, of the 3-gram mix with both predecessors for the second, predecessors being those of the request in its own context and tokens, the second read as end-of-text when the first is; or the ids leave the table; or the exact refusal |
| `NgramPlan.IdsAreExactly` | src/vllm_ple_gds.py:281-326 | those ids, and no other sequence, are what the sliding windows give |
| `NgramPlan.BatchIsConcatenation` | src/vllm_ple_gds.py:288-326 | a batch plan is the concatenation of the plans of its requests alone |
| `NgramPlan.GoodTablePlans` | src/vllm_ple_gds.py:327-328 | with positive head sizes whose intervals lie in the table every valid batch is planned and every id is in range |
| `NgramPlan.SliceSeesHistory` | src/vllm_ple_gds_runner.py:398-411 | a slice with the shadow context has the windows of the whole history |
| `NgramPlan.ContextRightIff` | src/vllm_ple_gds_runner.py:406-409 | the shadow context is right for every draft if and only if the slice starts no later than the accepted tokens end |
| `NgramPlan.ContextInside` | src/vllm_ple_gds_runner.py:398-409 | up to the end of the accepted tokens the context is the two tokens before the start, end-of-text before the first |
| `NgramPlan.ContextPast` | src/vllm_ple_gds_runner.py:398-409 | one token past them it holds the last accepted token only, and further on none |
| `NgramPlan.ChunkingInvariant` | src/vllm_ple_gds_runner.py:374-433 | any consecutive cut of a history gives, concatenated, the row ids of the whole |
| `NgramPlan.CpuTokenShadow.PlanStep` | src/vllm_ple_gds_runner.py:374-433 | the batch built is valid and each request in it is exactly its slice with its padded context; otherwise the refusal is that of the first slice refused (unknown request, negative slice, underflow, in this order), or else the padding is too small |
| `NgramPlan.CpuTokenShadow.CheckedLengthIs` | src/vllm_ple_gds_runner.py:391-404 | for what a slice is refused: an unknown request, a negative start or length, or an end past the accepted tokens and the draft |
| `NgramPlan.CpuTokenShadow.StepRefusedFor` | src/vllm_ple_gds_runner.py:374-433 | a step is refused for its first refused slice, and else exactly for padding below the sum of the lengths |
| `NgramPlan.CpuTokenShadow.AppendSampled` | src/vllm_ple_gds_runner.py:343-372 | extends each request by the sampled tokens of its rows, in order, up to the first included row that is stale or has an impossible count, and succeeds exactly when there is none |
| `NgramPlan.CpuTokenShadow.AddOrReplace` | src/vllm_ple_gds_runner.py:306-324 | records the tokens under a new generation, unless the computed position lies outside them |
| `NgramPlan.CpuTokenShadow.Remove` | src/vllm_ple_gds_runner.py:326-331 | forgets exactly that request, and starts a new epoch only if it was known |
| `Artifact.ValidateSpec` | src/ple_gds/manifest.py:259-310 | accepts exactly the specs whose shards cover the rows contiguously inside their files, with row sizes that agree with element type and shape |
| `Artifact.PowerOfTwoIff` | src/ple_gds/manifest.py:260 | the alignments accepted are exactly the powers of two |
| `ArtifactMeaning.ShapeMeans` | src/ple_gds/manifest.py:286-292 | the row size expected is the element size times every dimension but the first |
| `Artifact.PlanLayout` | src/ple_gds/compact.py:81-116 | the layout always satisfies the metadata validation, matches its sources and wastes nothing: every extent starts at the first aligned offset behind the one before, with the smallest aligned blocks |
| `Artifact.ValidateMetadata` | src/ple_gds/compact.py:211-244 | accepts exactly the stated geometry |
| `ArtifactMeaning.MetadataOkIff` | src/ple_gds/compact.py:211-244 | what is accepted: just enough blocks for the rows, aligned blocks large enough, named apart, extents aligned and each behind the one before, and a data size that is the last end rounded up |
| `Artifact.ExtentsDisjoint` | src/ple_gds/compact.py:222-244 | validated component and global extents are disjoint and inside the file |
| `Artifact.ReadRows` | src/ple_gds/manifest.py:313-333 | returns exactly the wanted source rows, across shard boundaries |
| `Artifact.CopyShards` | src/ple_gds/compact.py:158-162 | the whole-shard path puts all source rows in place and touches nothing else |
| `Artifact.CopyBlocks` | src/ple_gds/compact.py:164-171 | the per-block path puts every row at its block and row offset and touches nothing else |
| `Artifact.StoreComponent` | src/ple_gds/compact.py:156-171 | whichever path is taken, every row is stored at base + (r div block_rows)*stride + (r mod block_rows)*row_bytes |
| `Artifact.ConvertCompact` | src/ple_gds/compact.py:69-201 | succeeds exactly for valid specs; the result passes validation and holds every row and global |
| `Artifact.StoredRowIsSourceRow` | src/ple_gds/compact.py:164-171 | the lookup address of row r in a converted artifact holds source row r |
| `ArtifactMeaning.ConvertedRow` | src/ple_gds/compact.py:69-201 | every row of every shard, as the source spec lists it, stands byte for byte at the address that the metadata give for the component of that name |
| `ArtifactMeaning.ConvertedGlobal` | src/ple_gds/compact.py:172-175 | so does every global tensor |
| `SliceSpec.SliceSourceSpec` | src/ple_gds/compact.py:47-66 | refused unless the number of rows is between one and that of the table; otherwise every row component is cut as its shards are listed |
| `SliceSpec.SliceIsPrefix` | src/ple_gds/compact.py:54-64 | of shards in row order, cutting at n leaves a valid table with the same first n rows |
| `SliceSpec.SliceIsValidIff` | src/ple_gds/compact.py:54-64 | for shards listed in any order the validation accepts: the cut component is valid, with the same first rows, if and only if no shard at or past n is listed before one that starts below n |
| `SliceSpec.SlicedSpecValidIff` | src/ple_gds/compact.py:47-66 | the same for a whole source spec: the sliced spec is valid if and only if every row component is so listed, and then describes the same first rows |
| `SliceSpec.SliceLosesRows` | src/ple_gds/compact.py:57-60 | an input that fails: ten rows in two shards, the second listed first, sliced to five keep no shard at all |
| `Projection.Instrument` | src/projection_runtime.py:45-82 | no candidate leaves the program alone; a checked pair is rewritten; a refusal means no checked pair exists |
| `Projection.JoinableIff` | src/projection_runtime.py:67-75 | a pair is rewritten exactly when a wide product is followed by a narrow one of the same input, no statement in between is written with the input or first output where these are plain names, and the new name is unused |
| `Projection.BetweenDelayed` | src/projection_runtime.py:67-72 | between the sites the rewritten program stays exactly one product behind the original |
| `Projection.RewritePreserves` | src/projection_runtime.py:46-82 | from every state the rewritten program ends in the same state, with the same kernel launches, or stops likewise, provided the shared input and the weight are not written in between, the first output neither read nor written, and both operands still mean the same buffers |
| `Projection.DelayIsRightIff` | src/projection_runtime.py:69-75 | between the two sites that condition is exact: the meaning is kept for all kernels and all contents if and only if it holds |
| `Projection.SecondNameBreaks` | src/projection_runtime.py:71-72 | the check on names passes and the meaning changes: a second name of the first output is read in between |
| `Projection.WrittenWeightBreaks` | src/projection_runtime.py:73-75 | the check on names passes and the meaning changes: the saved weight is written in between under another name |
| `Projection.ExpressionBreaks` | src/projection_runtime.py:71-72 | the check passes because the shared input is an expression: the very name in it is written in between |

## Left out

- PagePlan.AbsoluteOffset: 64-bit wrap-around is modelled for row addresses only; sums of range sizes and staging offsets are unbounded integers, and the block stride is taken to be positive.
- NativeRead.FillAndGather: modes `async` and `batch`, host reads into pinned memory and measured runs are not modelled; the gather kernel copies row by row.
- WorkerPool.NormalReturn: says what a normal return means; start-up and shutdown of the workers are not modelled.
- EndToEnd.ThreadedReadIsLookup: needs rows of at most one page, as the native planner looks at no more than two pages of a row.
- ChunkedRead.Reader.ReadAll: the consumer releases each lease before it takes the next; a consumer that holds several is covered by `ChunkedRead.Reader.ReadPrepared` alone. Streams and metrics are left out, and a full wait for a free slot is an outcome.
- DirectOutput.ProduceInProcess: the leases are added up after the read, where the source adds each as it comes; the flag that hands the output over is that of InputDriven.
- ReferencePlan.PlanPageRequests: the metadata are taken as validated (positive alignment, block size and row sizes); the ratio of bytes read to bytes requested is left out.
- TwoRank.SafeIffGuarded: the CPU rendezvous of a serialized transfer is modelled by draining the stream, which allows more interleavings than the rendezvous does; the byte comparison used while warming up is left out.
- TicketRing.GivenUpOnlyWhenDone: in-process mode and runs without failures; consume and release alternate, a claimed prefetch is not discarded, and cancelling after a full queue is left out. It and the other ring theorems exclude the runs of which `LateSignal` shows that they break them.
- TicketRing.Connector.Consume: one look at the slots; waiting until a slot is ready, and giving up after the timeout, are the caller's repetition of it.
- IpcResults.FreedOnlyWhenBothDone: slots that were discarded, cancelled or put in error are excluded, of which `IpcResults.FreedEarlyIff` speaks; closing the connector is left out.
- InputDriven.EveryRunAccounts: runs without planner or reader errors, time-outs or closing; every sample is kept, where the source keeps the last 4096.
- PipelineFifo.OnlyLatenessFails: speculative decoding on; with it off the ring is emptied by another thread at its own pace, and that thread is not modelled.
- NgramPlan.Plan: n-gram size 3 only; token products and mixes are unknown functions; the positions the shift helpers compute are given by the windows they stand for.
- NgramPlan.CpuTokenShadow.AppendSampled: arrays of the wrong shape or of different lengths, `update_computed` and snapshots are left out.
- CompactFilter.FilterRow: one row of a batch; for several rows the source gives up when any row is unsafe. Signed zeros are identified.
- GreedyFilter.Winner: indices are exact in single precision below 2^24, as the source states; larger vocabularies are not considered.
- Artifact.ValidateSpec: JSON parsing, file identity and hashes, and atomic publication are left out; the table of element sizes is given by the size it yields.
- Projection.RewritePreserves: one generated function as straight-line statements; matching of source text, nested blocks, and the dispatch to other kernels inside `proj` are left out. An expression argument is a view of one buffer.
- Projection.DelayIsRightIff: for originals that get past both sites and whose second product writes a buffer of its own; where it overwrites the first product, nobody can see whether that was delayed.
- Kernel arithmetic (matrix products, all-reduce, softmax and sampling), CUDA, cuFile and NCCL themselves.
- The older block-manifest artifact: `plan_row_requests`, `convert` and `validate_manifest` of src/ple_gds/manifest.py repeat the layout of Artifact with per-block tables.
- Metrics, tracing, environment parsing, preloading and warm-up, launch policy, memory-mapped fallback.
- Upstream files that are mostly configuration and plumbing.

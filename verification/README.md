# A verified model of the GPU back end's hard parts

This project models, in Dafny, three parts of the XLA plug-in for Intel GPUs and proves what they are
meant to guarantee.

**In-process collectives.** One host thread per rank enters a rendezvous keyed by communicator id; the
last arriver sorts the participants, puts barriers around their streams, runs one kernel for everybody
and wakes the rest.

- `Rendezvous.dfy` (modules `Participants` and `Rendezvous`): the manager as a class, and all threads
  of all communicators as a state machine. The wait has no predicate and one condition variable serves
  every communicator, so rounds can mix. The project proves exactly when: per run, and per set of
  communicators.
- `Streams.dfy`, `AsyncExecutor.dfy`: streams as in-order queues with barrier events. A schedule gives
  every submission a start and a finish; the theorems quantify over every schedule the barriers allow and
  every order of arrival at every call.
- `Kernels.dfy`, `CollectivePermute.dfy`: the kernels as loops over arrays, for any order of work items
  and any reduction function.
- `Clique.dfy`, `CollectiveConfig.dfy`: clique initialisation as a state machine over threads and
  groups; the degeneracy test.

**Graph rewrites.** Each rewrite is proved to keep the value of the program.

- `Shapes.dfy`, `Tensors.dfy`: general-rank index arithmetic and DotGeneral, Reshape and Transpose as in
  the XLA Operation Semantics.
- `DotExpandDims.dfy`, `DotExpandOperand.dfy`, `DotExpandMeaning.dfy`: the dimension-expanding pass, what
  it makes of one operand, and exactly when it keeps the meaning of a dot.
- `FmhaRewriter.dfy`, `FmhaMinorBatch.dfy`: the operand transposes and the canonicalisation of the
  attention rewriter.
- `VectorBias.dfy`, `HloGraph.dfy`, `EpilogueFusion.dfy`, `FusionProgress.dfy`, `BiasLayout.dfy`,
  `PartialColumns.dfy`: the layout test for a vector bias; a graph language whose values are physical
  buffers; the epilogue fusions as steps on graphs, sound in every order; what each takes out and how long
  they can go on; the link from the layout test to the fusion step; and a bias fused through a slice of part
  of the columns.
- `F8Search.dfy`: the search with a shared visited set.

**Buffer ownership.**

- `GpuExecutable.dfy`: the output loop with donation and copy protection, the thunks that run after it
  and the clean-up.
- `PinnedPool.dfy`, `PinnedOwnership.dfy`: the pool of pinned slots shared by concurrent calls, with
  copies that may outlive the call that issued them.

`Arithmetic.dfy`, `Ordering.dfy` and `Wrappers.dfy` hold what the others rest on.

Some properties turn out to hold only under a condition that the code does not test. Each has its exact
condition as a theorem:

- Rounds of different communicators mix unless at most one communicator is in use, or all in use have a
  single rank (`Rendezvous.SafeExactlyWhenExclusive`; a mixed round in `Rendezvous.MixedRoundWitness`).
- A vector bias may be fused through a slice exactly when the slice keeps the column dimensions whole
  (`VectorBias.SliceFusionExactly` on indices, `BiasLayout.SlicedFusionExactly` on graphs; a miscompiled
  graph in `PartialColumns.PartialColumnsAreMiscompiled`). Values alone are kept exactly when every element
  sees its bias element (`BiasLayout.SlicedValuesExactly`).
- The expanding pass keeps a dot that it accepts exactly when the batch sizes come in the order of the lhs
  dimensions and, on each side, there is a single free dimension or the free size is one and the batch
  dimensions are where the pass takes them to be (`DotExpandMeaning.ExpandDotDimsExactly`; dots that break
  in `DotExpandMeaning.LeadingUnitDimensionBreaks`, `DotExpandMeaning.TwoFreeDimensionsBreak` and
  `DotExpandMeaning.UnsortedBatchBreaks`).
- An operand transpose of the attention rewriter that trades a dimension for a batch dimension keeps the
  dot exactly when the three dimensions involved have size one (`FmhaRewriter.MinorBatchExactly`,
  `FmhaMinorBatch.FirstLhsExactly`, `FmhaMinorBatch.SecondProductExactly`).
- Outputs are the buffers that the thunks write, with the contents they compute, exactly when no copy
  protection follows another output of the same allocation (`GpuExecutable.OutputsAreTheThunksBuffers`,
  `GpuExecutable.ContentsExactly`; a stale output in `GpuExecutable.DisplacedOutputIsStale`).
- Calls read back their own metadata exactly when no call returns with a copy in flight to a pinned slot
  (`PinnedOwnership.MetadataOwnedExactly`; an overwritten slot in `PinnedOwnership.BadReturnBreaks`).

## Model

| member | source | states |
|---|---|---|
| Rendezvous.Manager.Arrive | xla/service/gpu/ccl_ops.cc:500-524 | The critical section of a collective call, as an update of the communicator-indexed lists: the last arriver, and only it, takes the sorted list out |
| Rendezvous.EnterTakesAllOrNothing | xla/service/gpu/ccl_ops.cc:500-524 | A caller either waits and leaves its entry behind, or fires with every pending entry and its own, each once and sorted, leaving none; other communicators' lists are untouched |
| Participants.SortByRank | xla/service/gpu/ccl_ops.cc:520-523 | The participants sorted by rank: sorted, and a permutation of those that arrived |
| Participants.SortedRoundIsComplete | xla/service/gpu/ccl_ops.cc:519-523 | Whatever the order of arrival, n participants with distinct ranks below n sort into the list that has rank i at position i |
| Rendezvous.RoundIntegrity | xla/service/gpu/ccl_ops.cc:500-524 | For any communicators, call counts and interleaving: in every state of a run all fired rounds are complete and of one call, and no thread goes on before its round has fired, if and only if no round of the run fires while a thread of another communicator waits |
| Rendezvous.SafeExactlyWhenExclusive | xla/service/gpu/ccl_ops.cc:516-517 | Every run of a set of communicators is safe if and only if at most one of them is in use or all in use have one rank |
| Rendezvous.StuckMeansDone | xla/service/gpu/ccl_ops.cc:640-642 | No deadlock and no lost round: when such a set can take no further step, every rank has made all its calls, all rounds have fired and nothing is pending |
| Rendezvous.RunsAreFinite | xla/service/gpu/ccl_ops.cc:500-524 | No run of any communicators is longer than twice the number of calls of all ranks, so a state without a further step is reached |
| Rendezvous.MixedRoundWitness | xla/service/gpu/ccl_ops.cc:59-74 | A run of a two-rank communicator beside a one-rank one in which a fired round holds two calls of the same rank |
| Streams.Queue.StreamWaitStreamlist | xla/service/gpu/ccl_ops.cc:472-481 | Submits a barrier on every stream but the first and then one on the first that waits for all of them |
| Streams.Queue.StreamlistWaitStream | xla/service/gpu/ccl_ops.cc:483-492 | Submits a barrier on the first stream and then one on every other stream that waits for it |
| Streams.Queue.Fire | xla/service/gpu/ccl_ops.cc:519-640 | What the last arriver submits for one call of a batch, for any order of arrival: after sorting, one kernel, with barriers before the first call's kernel and after the last call's only |
| Streams.SortedStreams | xla/service/gpu/ccl_ops.cc:519-525 | Whoever arrives first, sorting yields the streams in rank order, so the first stream is that of rank 0 |
| Streams.OneKernelPerCall | xla/service/gpu/ccl_ops.cc:525-640 | Whatever the orders of arrival and whatever is submitted between the calls, each call adds exactly one kernel, its own, on the stream of rank 0, in call order; everything else it adds is a barrier on a participant's stream, one per participant for the first call and for the last and none in between; nothing submitted earlier is touched |
| Streams.BatchLaunches | xla/service/gpu/ccl_ops.cc:525-640 | If nothing else launches kernels, the kernels of the log are those from before the batch and then those of calls 0 to maxCall - 1, each once and in order |
| Streams.BatchOrdering | xla/service/gpu/ccl_ops.cc:640-640 | With another order of arrival at every call and anything submitted in between: under every schedule with start and finish times, every submission of a call that is a kernel starts after all work submitted before the batch on any participant's stream has finished, and finishes before any work submitted after it on any of them starts |
| Streams.KernelsOnFirstStream | xla/service/gpu/ccl_all_reduce_thunk.cc:57-75 | For any orders of arrival, all kernels of the batch sit on the stream of rank 0 |
| Streams.BatchHasSchedule | xla/service/gpu/ccl_ops.cc:472-492 | The barriers of a batch wait only for earlier submissions, so a legal schedule of it exists |
| AsyncExecutor.Executor.Execute | xla/service/gpu/ccl_collective_thunk.cc:231-251 | Submits event, wait, collective and done event, fails if the device has a done event already, and records the new one otherwise; it is the run of the protocol made of a begin, one submission per command and a finish |
| AsyncExecutor.Executor.Await | xla/service/gpu/ccl_collective_thunk.cc:253-262 | Takes out the device's done event and makes the compute stream wait for it; fails without one; it is the step done of the protocol |
| AsyncExecutor.StartedIsRun | xla/service/gpu/ccl_collective_thunk.cc:231-251 | What a start submits, and the event it records, are those of that run, from every state |
| AsyncExecutor.StartedLayout | xla/service/gpu/ccl_collective_thunk.cc:231-251 | A start adds the event on the compute stream, the wait for it on the communication stream, each command of the collective once and in order on the communication stream, and the done event there |
| AsyncExecutor.StartedOrders | xla/service/gpu/ccl_collective_thunk.cc:231-251 | Under every schedule of a log that begins with it, all compute work from before the start finishes before any command of the collective starts, and every command finishes before the recorded done event |
| AsyncExecutor.ChecksPassExactlyWhenAlternating | xla/service/gpu/ccl_collective_thunk.cc:231-262 | For every interleaving over devices: neither check fails if and only if every device alternates start and done |
| AsyncExecutor.StartDoneOrders | xla/service/gpu/ccl_collective_thunk.cc:231-262 | Under every schedule and with any steps of all devices in between: compute work before a start finishes before any work of the start on the communication stream starts, and that finishes before compute work after the matching done starts |
| AsyncExecutor.KernelsBetweenStartAndDone | xla/service/gpu/ccl_collective_thunk.cc:231-262 | For every participant of a batch: its compute work before its start precedes every kernel of the batch, on whichever device that runs, and every kernel precedes its compute work after its done |
| AsyncExecutor.RunHasSchedule | xla/service/gpu/ccl_collective_thunk.cc:231-262 | Every run of the protocol has a legal schedule |
| AsyncExecutor.BatchRunHasSchedule | xla/service/gpu/ccl_collective_thunk.cc:231-262 | So has a run of the protocol around a batch |
| Kernels.AllReduceItem | xla/service/gpu/ccl_ops.cc:93-113 | One work item leaves in its element of every receive buffer the left fold in rank order, and changes nothing else |
| Kernels.AllReduce | xla/service/gpu/ccl_ops.cc:79-324 | For every order of the work items and every group size, all receive buffers end up with the left fold in rank order over what rank 0's receive buffer held and the other ranks' sends; nothing beyond the tensor is written; other rank counts are refused |
| Kernels.AllReduceInPlace | xla/service/gpu/ccl_ops.cc:519-524 | From the arrivals, in any order: sorted by rank and in place, all receive buffers end up with the left fold over send 0 to n - 1 |
| Kernels.LaunchSize | xla/service/gpu/ccl_ops.cc:83-87 | The rounded-up launch covers the tensor with less than one group to spare |
| Kernels.AllReducedMeans | xla/service/gpu/ccl_ops.cc:93-113 | What all-reduce leaves, without the fold, for any number of ranks: with addition the sum over all ranks, with maximum the element of some rank that no rank exceeds, and with a reduction that records its inputs every rank once in rank order |
| Kernels.ReduceScatterItem | xla/service/gpu/ccl_ops.cc:433-445 | One work item leaves in its element of rank r's buffer the fold over element r * size + index, and changes nothing else |
| Kernels.ReduceScatter | xla/service/gpu/ccl_ops.cc:409-450 | For every order of the work items, rank r receives chunk r of the reduction |
| Kernels.ReduceScatteredMeans | xla/service/gpu/ccl_ops.cc:433-445 | The same for element index of rank r's chunk, from element r * size + index of all sends |
| Kernels.AllGather | xla/service/gpu/ccl_ops.cc:329-355 | Every receive buffer ends up with all send buffers end to end |
| Kernels.GatheredAt | xla/service/gpu/ccl_ops.cc:342-345 | Element i of rank r's buffer is element r * size + i of the gathered buffer |
| Kernels.ReduceScatterThenAllGather | xla/service/gpu/ccl_all_reduce_thunk.cc:341-355 | Reduce-scatter followed by all-gather equals all-reduce element for element, for any binary function, any number of ranks and any chunk size, with no associativity |
| CollectivePermute.BuildIdMap | xla/service/gpu/ccl_collective_permute_thunk.cc:70-80 | The map holds, for every id, the last source that targets it and its last target |
| CollectivePermute.PermuteKernel | xla/service/gpu/ccl_ops.cc:455-470 | Each rank with a source receives that rank's send buffer; the others' buffers are untouched |
| CollectivePermute.CollectivePermute | xla/service/gpu/ccl_collective_permute_thunk.cc:221-230 | End to end, for every order of arrival: map, sort, copy and zero leave each receive buffer as the pair list says |
| CollectivePermute.DeliveredToTheTarget | xla/service/gpu/ccl_collective_permute_thunk.cc:58-83 | With distinct sources and targets, each target receives exactly its source's data and every other rank zeros |
| CollectivePermute.DegenerateExactly | xla/service/gpu/ccl_collective_permute_thunk.cc:88-102 | The degeneracy test holds if and only if the permute is the identity on all data |
| CollectiveConfig.DegenerateExactly | xla/service/gpu/ccl_collective_thunk.cc:56-102 | In all four group modes, the test holds if and only if every device is alone in its group |
| Clique.CliqueInitialisation | xla/service/gpu/ccl_utils.cc:165-219 | In every state of every run of any number of groups: `ready` is notified at most once; a thread is past the barrier only when all local communicators are in the map; each was created once and all by one group; two threads never hold one communicator |
| Clique.NeverCreatedAgain | xla/service/gpu/ccl_utils.cc:184-212 | Once ready, no later group creates a communicator |
| Clique.GroupCanGoOn | xla/service/gpu/ccl_utils.h:90-119 | No deadlock: while a group holds the clique, one of its threads, or the holder of a communicator it needs, can take a step |
| Clique.HeldForSoLong | xla/service/gpu/ccl_utils.cc:165-219 | A group cannot hold the clique for more steps than the threads that have entered have before them |
| Clique.GroupReachesRelease | xla/service/gpu/ccl_utils.cc:184-218 | Every run in which a group holds the clique goes on to its release, within that many steps, and `ready` has then been notified exactly once with all communicators in the map |
| Shapes.CalculateTFStrides | xla/service/onednn_util.h:30-38 | Each stride is the product of the dimensions to its right |
| Shapes.StridesAreBijective | xla/service/onednn_util.h:30-38 | Index dot strides maps the index box one to one onto [0, product of dimensions) |
| DotExpandDims.CollectSizes | xla/service/gpu/dot_expand_dims.cc:54-71 | The size loop computes batch sizes, the contracting size and the product of free sizes |
| DotExpandDims.ExpandDotDims | xla/service/gpu/dot_expand_dims.cc:39-178 | The whole pass computes the plan whose meaning the next rows decide |
| DotExpandMeaning.ExpandDotDimsExactly | xla/service/gpu/dot_expand_dims.cc:39-178 | For every dot that the pass accepts, of any rank and with any batch and contracting dimensions: the new dot is well typed with the shape announced, its reshapes keep the number of elements and it equals the original dot for all operands, if and only if the batch sizes come in the order of the lhs dimensions and each side meets a test on its dimension numbers and sizes |
| DotExpandOperand.PlacedExactly | xla/service/gpu/dot_expand_dims.cc:75-166 | What the pass makes of an operand with free size one is well formed with the right batch sizes if and only if the batch dimensions are placed where the pass takes them to be |
| DotExpandOperand.ReadsTheSame | xla/service/gpu/dot_expand_dims.cc:75-166 | A placed operand, with batch dimensions in any order, is read after expansion at the same place in memory for every index |
| DotExpandMeaning.TestIsNeeded | xla/service/gpu/dot_expand_dims.cc:54-178 | If the new dot is well typed with the shape announced, the test is met |
| DotExpandMeaning.ExpandDotDimsPreservesMeaning | xla/service/gpu/dot_expand_dims.cc:54-178 | Every canonical dot that is accepted, with at most one free dimension per operand and no explicit one of size one, keeps its meaning |
| DotExpandMeaning.LeadingUnitDimensionBreaks | xla/service/gpu/dot_expand_dims.cc:75-110 | The dot (1, k, b) times (b, k, n) with batch dimensions 2 and 0 is accepted and not kept |
| DotExpandMeaning.TwoFreeDimensionsBreak | xla/service/gpu/dot_expand_dims.cc:54-178 | The dot (x, y, k) times (k, n), such as (2, 3, 4) times (4, 5), is accepted and announced with rank two |
| DotExpandMeaning.UnsortedBatchBreaks | xla/service/gpu/dot_expand_dims.cc:60-70 | The dot (a, b, m, k) times (a, b, k, n) with batch dimensions 1 and 0 is accepted, and kept if and only if a equals b |
| DotExpandMeaning.RowVectorIsRefused | xla/service/gpu/dot_expand_dims.cc:75-104 | The dot (1, k) times (k, n) is refused |
| FmhaRewriter.BuildSwapPerm | xla/service/gpu/fused_mha_rewriter.cc:639-644 | iota and swap build the transposition, which is a permutation |
| FmhaRewriter.CanonicalizationPreservesMeaning | xla/service/gpu/fused_mha_rewriter.cc:626-676 | For any rank with one free dimension per operand, the transposed dot of the exchanged operands is the original dot |
| FmhaRewriter.RhsTransposePreservesMeaning | xla/service/gpu/fused_mha_rewriter.cc:705-735 | Exchanging the rhs contracting and free dimensions and renumbering keeps the dot, for any rank; the second product's rhs at lines 782-800 goes through the same exchange |
| FmhaRewriter.LhsTransposePreservesMeaning | xla/service/gpu/fused_mha_rewriter.cc:740-765 | The same for the lhs |
| FmhaRewriter.MinorBatchExactly | xla/service/gpu/fused_mha_rewriter.cc:705-735 | If the minor-most dimension is a batch dimension, then for any positive dimensions the transpose keeps every dot of these shapes if and only if that dimension, the contracting and the free one all have size one |
| FmhaMinorBatch.FirstLhsExactly | xla/service/gpu/fused_mha_rewriter.cc:744-762 | The same for the first product's lhs |
| FmhaMinorBatch.SecondProductExactly | xla/service/gpu/fused_mha_rewriter.cc:782-800 | The same for the second product's rhs, where the free dimension trades places with the batch dimension |
| FmhaRewriter.MinorBatchDimension | xla/service/gpu/fused_mha_rewriter.cc:705-735 | If the minor-most dimension is a batch dimension, the rewritten dot is well typed if and only if the three sizes involved coincide |
| VectorBias.Find | xla/service/gpu/gemm_rewriter.cc:1135-1140 | The first position of a dimension among the broadcast dimensions, or the end |
| VectorBias.AcceptsBias | xla/service/gpu/gemm_rewriter.cc:1117-1146 | The layout test accepts if and only if the bias has one dimension per column dimension and its layout lines up with the gemm's |
| VectorBias.BroadcastIsModulo | xla/service/gpu/gemm_rewriter.cc:1117-1146 | For any rank, dimensions and layouts accepted, the broadcast bias at an index is the bias buffer at the physical offset modulo the size of the column dimensions |
| VectorBias.AlignedExactly | xla/service/gpu/gemm_rewriter.cc:1117-1146 | Conversely, with no dimension of size one and one bias dimension per column dimension: the layouts line up if and only if every element of the broadcast is the bias buffer at the offset modulo the size of the column dimensions |
| VectorBias.SliceFusionExactly | xla/service/gpu/gemm_rewriter.cc:1159-1162 | With a slice in between, every element sees its bias element, and the bias has the length expected, if and only if the slice keeps the column dimensions whole |
| VectorBias.OffsetOnto | xla/service/gpu/gemm_rewriter.cc:1117-1146 | Under any layout every buffer position belongs to some index |
| BiasLayout.AcceptedBiasMayFuse | xla/service/gpu/gemm_rewriter.cc:1117-1146 | A broadcast the layout test accepts, added to the gemm itself, meets the condition under which fusing it is sound: bias as long as the rows, element i modulo the columns |
| BiasLayout.SlicedFusionExactly | xla/service/gpu/gemm_rewriter.cc:1101-1166 | On graphs: where the code's tests pass through a slice, the graph it makes is well formed and computes the same if and only if the slice keeps the column dimensions whole |
| BiasLayout.AcceptedSlicedBiasMayFuse | xla/service/gpu/gemm_rewriter.cc:1159-1162 | Whole columns are enough |
| BiasLayout.SlicedValuesExactly | xla/service/gpu/gemm_rewriter.cc:1117-1162 | Values alone, for every slice: the fused call keeps the sum for all factors and all biases if and only if every element of the slice sees its bias element |
| PartialColumns.PartialColumnsAreMiscompiled | xla/service/gpu/gemm_rewriter.cc:1117-1162 | A 2 x 4 gemm, its columns 2 and 3 and a bias of two elements: all tests pass, the sum is one and the fused call gives zero |
| PartialColumns.LeadingColumnsKeepTheValue | xla/service/gpu/gemm_rewriter.cc:1117-1162 | Columns 0 and 1 of the same gemm: all values are kept although the columns are not whole |
| HloGraph.DenotationsAreValuation | xla/service/gpu/gemm_rewriter.cc:488-571 | An acyclic graph whose sizes fit has a valuation: every instruction holds what its operation computes from its operands', in the size its shape says |
| HloGraph.DenotationIsUnique | xla/service/gpu/gemm_rewriter.cc:488-571 | No valuation gives it another |
| BiasLayout.UnslicedFusionSound | xla/service/gpu/gemm_rewriter.cc:1101-1166 | Where the code's tests pass for a bias added to the gemm itself, fusing it yields a closed, acyclic graph with the operand convention in which the result and every surviving instruction keep their values |
| EpilogueFusion.MatrixBiasSound | xla/service/gpu/gemm_rewriter.cc:1004-1099 | The same for a matrix bias, which goes to operand index 2 |
| EpilogueFusion.MoveBitcastSound | xla/service/gpu/gemm_rewriter.cc:506-561 | The same for moving a bitcast past an addition |
| EpilogueFusion.ReluSound | xla/service/gpu/gemm_rewriter.cc:1168-1203 | The same for fusing a maximum with zero, also through a slice or bitcast |
| EpilogueFusion.GeluSound | xla/service/gpu/gemm_rewriter.cc:1205-1239 | The same for the GELU pattern, including the pair output whose second component replaces the gemm for its other users |
| EpilogueFusion.GeluNodes | xla/service/gpu/gemm_rewriter.cc:439-486 | The matched multiply pattern, with operands in any order and bitcasts wherever the pattern admits them, computes the GELU of the gemm |
| EpilogueFusion.RemoveUnusedSound | xla/service/gpu/gemm_rewriter.cc:1004-1239 | Removing an unused instruction keeps all of that |
| EpilogueFusion.StepSound | xla/service/gpu/gemm_rewriter.cc:488-594 | Every step does |
| EpilogueFusion.FusionsPreserveMeaning | xla/service/gpu/gemm_rewriter.cc:1004-1239 | After every sequence of fusions, of any length and in any order, the graph is closed and acyclic, has 2 + (beta is 1) + (bias epilogue) operands per gemm with a bias of one element per column, has a valuation, and in every valuation the result and all surviving instructions have their original values |
| FusionProgress.FusionReplaces | xla/service/gpu/gemm_rewriter.cc:1004-1239 | Every step takes its instruction out of the graph with all its uses, and every fusion puts in the gemm with a vector bias, a matrix bias or an activation more |
| FusionProgress.FusionTerminates | xla/service/gpu/gemm_rewriter.cc:488-594 | No sequence of steps is longer than a load computed from the graph it starts with, but for seven steps for each bitcast that it moves |
| F8Search.NaiveIsPath | xla/service/gpu/gemm_rewriter.cc:106-132 | The search without a visited set returns a path whose last and only FP8 instruction is its end, along operand 0 of unary instructions, divides and pads and operands 0 and 1 of multiplies |
| F8Search.NaiveFinds | xla/service/gpu/gemm_rewriter.cc:106-132 | It returns one whenever any path along such operands leads to an FP8 instruction |
| F8Search.NaiveByPosition | xla/service/gpu/gemm_rewriter.cc:117-129 | Short of an FP8 instruction it continues with operand 0 of unary instructions, divides and pads, and with the first operand of a multiply that leads anywhere |
| F8Search.FindF8SubgraphRecursive | xla/service/gpu/gemm_rewriter.cc:106-132 | With a visited set of fruitless instructions, the search returns exactly what the naive one does, and each entry marks an instruction not marked before |
| F8Search.FindF8Subgraph | xla/service/gpu/gemm_rewriter.cc:106-132 | From an empty visited set it returns the naive search's path, nothing if and only if no FP8 instruction is reachable, and enters no instruction twice |
| GpuExecutable.GenerateBufferAllocations | xla/service/gpu/gpu_executable.cc:411-433 | Every allocation gets a place of its own: the argument's buffer, the constant's, or a fresh one; the contents of memory in use are untouched |
| GpuExecutable.AssignOutputs | xla/service/gpu/gpu_executable.cc:534-628 | The output loop, step by step, as a function of the outputs, the arguments and the table |
| GpuExecutable.FailsExactly | xla/service/gpu/gpu_executable.cc:562-568 | The loop fails if and only if some must-alias output finds its parameter not, or no longer, donated, among owned inputs |
| GpuExecutable.OutputsAreTheThunksBuffers | xla/service/gpu/gpu_executable.cc:534-628 | Every output is the buffer the thunks use for its allocation if and only if no output gets a fresh copy of an allocation that an earlier output already gave out |
| GpuExecutable.ContentsExactly | xla/service/gpu/gpu_executable.cc:534-631 | Every thunk program returns the right contents in every output if and only if the same holds |
| GpuExecutable.Prepare | xla/service/gpu/gpu_executable.cc:514-628 | Table and loop together, from the caller's memory: allocations start with the contents of the arguments and constants in it, nothing in use is overwritten, with the exact failure condition and the outputs' buffers |
| GpuExecutable.ThunksSimulate | xla/service/gpu/gpu_executable.cc:630-631 | Running any thunks in memory through the table is running them on the contents of the allocations |
| GpuExecutable.ThunksInOrder | xla/service/gpu/gpu_executable.cc:630-631 | The last thunk works on what the earlier ones leave, gives the allocations it writes what it computes from that and leaves the others alone |
| GpuExecutable.ReturnedContents | xla/service/gpu/gpu_executable.cc:534-631 | What an output holds at the end depends only on the contents at the start |
| GpuExecutable.DonationIsInvisible | xla/service/gpu/gpu_executable.cc:534-628 | For any thunk program, two successful runs from the same contents return the same contents, whatever each donates and wherever its buffers are |
| GpuExecutable.UndonatedInputsKeepContents | xla/service/gpu/gpu_executable.cc:588-612 | Inputs whose ownership was not taken keep their contents |
| GpuExecutable.Execute | xla/service/gpu/gpu_executable.cc:514-631 | End to end, from the caller's memory to the memory after the thunks: fails exactly on an undonated must-alias output; if no copy protection follows another output of its allocation, every output holds what the thunks compute for its allocation from the contents of the arguments and constants the caller passed; arguments that no output takes over still hold what the caller put there |
| GpuExecutable.BuffersAccounted | xla/service/gpu/gpu_executable.cc:633-635 | Each buffer the run allocates is either returned or freed, not both, and nothing else is freed |
| GpuExecutable.DisplacedOutputIsStale | xla/service/gpu/gpu_executable.cc:588-612 | Two outputs of one undonated parameter, the second an alias: the first is left with the contents from before the thunks ran |
| PinnedPool.Pool.EnsurePinnedBuffersAllocated | xla/service/gpu/gpu_transfer_manager.cc:72-87 | The first call fills the free list with exactly the places for a buffer in the chunk, each once; later calls change nothing |
| PinnedPool.Pool.CheckOut | xla/service/gpu/gpu_transfer_manager.cc:148-169 | The critical section hands out destinations as the function `Take` says |
| PinnedPool.Pool.ReadDynamicShapes | xla/service/gpu/gpu_transfer_manager.cc:89-192 | One call from beginning to end: it succeeds exactly when all leaves have metadata and the copies complete; then every leaf has its own dimensions, and in any case all slots are back |
| PinnedPool.ReturnConserved | xla/service/gpu/gpu_transfer_manager.cc:141-146 | The clean-up of a call, at whatever point, leaves each slot exactly once in the free list or in another call's list |
| PinnedPool.SlotsAreDisjoint | xla/service/gpu/gpu_transfer_manager.cc:79-86 | The slots lie in the chunk and do not overlap |
| PinnedPool.SlotsFillTheChunk | xla/service/gpu/gpu_transfer_manager.cc:79-86 | An address is a slot if and only if it is a whole number of buffers from the start of the chunk and a whole buffer fits between it and the end |
| PinnedPool.TakeSplits | xla/service/gpu/gpu_transfer_manager.cc:152-168 | The old free list is the new one followed by the slots handed out in reverse, as many as there are small leaves and slots to give |
| PinnedPool.TakeAssigns | xla/service/gpu/gpu_transfer_manager.cc:152-168 | Every leaf gets a destination of its own that it fits into |
| PinnedPool.FallsBackExactly | xla/service/gpu/gpu_transfer_manager.cc:152-168 | A leaf falls back to unpinned memory if and only if it is too big or the slots have run out |
| PinnedPool.PoolConserved | xla/service/gpu/gpu_transfer_manager.cc:137-186 | In every state of every interleaving, with calls returning at any point and copies landing at any time, also after their call has returned: each slot is exactly once in the free list or in one call's list, every leaf fits its buffer, and no two leaves of live calls share one |
| PinnedPool.AddressesInChunk | xla/service/gpu/gpu_transfer_manager.cc:79-169 | In every state of every run, the addresses in the free list and in the live calls' lists are exactly the places for a buffer in the chunk, and any two of them are at least one buffer apart |
| PinnedOwnership.MetadataOwnedExactly | xla/service/gpu/gpu_transfer_manager.cc:171-186 | Whatever decides when calls may return: in every run every dimension written comes from the call's own metadata if and only if no call ever returns with a copy in flight to a slot |
| PinnedOwnership.BadReturnBreaks | xla/service/gpu/gpu_transfer_manager.cc:171-186 | After a return with a copy in flight to a slot there is a run in which the slot is handed out again, the stray copy overwrites it and the new call writes dimensions that are not its own |
| PinnedPool.IdlePoolIsWhole | xla/service/gpu/gpu_transfer_manager.cc:141-146 | When no call is live, the free list is a permutation of all slots |

## Left out

- Spurious wake-ups of the operating system's condition variable: a waiting thread is woken only by a notify.
- Uniqueness of communicator ids over the cliques of a run: distinct communicators have distinct ids.
- Complex element types in the collectives, where thunk and kernel both account for the doubled element count.
- The all-to-all kernel and its entry point, a copy loop without a fold.
- Kernels.AllReduce: work items run one at a time in any order; since they touch different elements, finer interleavings are not modelled.
- Kernels.ReduceScatter: at least two ranks, because the kernel reads the second participant's buffer.
- Device-wide integer width of element counts and offsets: integers are unbounded.
- `RendezvousSingle`, `GetParticipatingDevices` and `BufferAllocations::TearDown` are not part of this model's code; they appear as the contracts their callers rely on.
- The divisibility check of reduce-scatter's operand, and all type and status plumbing around the collectives.
- Floating-point rounding in the rewrites: dots are over integers, epilogues over reals with an uninterpreted multiplication that commutes; in the collectives the reduction is an arbitrary function, so rounding is covered there.
- FmhaRewriter.CanonicalizationPreservesMeaning: beta 0 and the default epilogue, because the code drops the epilogue from the new configuration.
- EpilogueFusion.FusionsPreserveMeaning: shapes appear as element counts, broadcasts and slices as the positions they read; alpha is part of the uninterpreted product; the output-to-operand aliasing annotation, instruction names and the constant folding of a bias are not modelled; the near-match of the GELU constants counts as exact.
- EpilogueFusion.StepSound: a bias of one element per column is part of the guard, although the code does not test it through a slice; `BiasLayout.UnslicedFusionSound` and `BiasLayout.SlicedFusionExactly` say when the code's own tests are enough. Reading past the end of a bias gives zero in the model.
- BiasLayout.SlicedFusionExactly: arrays without empty dimensions, as in all results of that module.
- FP8 custom-call creation, the softmax, mask and dropout patterns, and the QKV sibling fusion.
- GpuExecutable.DonationIsInvisible: fresh buffers are taken to start with the same contents in both runs, and buffers are not empty, so no address is null.
- GpuExecutable.Execute: what fresh buffers hold at first is a parameter; thunks run one after the other, each as a function of the contents of all allocations; the clean-up after them is `GpuExecutable.BuffersAccounted`.
- FusionProgress.FusionTerminates: no bound on the number of bitcasts moved, because the addition of two gemms, one under a bitcast, allows a move back and forth once unused bitcasts are gone.
- VectorBias.AlignedExactly: dimensions of size one are excluded, since their place in a layout does not change any offset.
- GpuExecutable.AssignOutputs: the set of aliased indices, which matters only for outputs that are never committed, and error paths after the loop.
- GpuExecutable.GenerateBufferAllocations: thread-local and missing-constant buffers, alignment checks and allocation failures.
- PinnedOwnership.MetadataOwnedExactly: metadata holds at least as many words as the rank, as the code takes for granted; copies into a call's own unpinned buffers that land after its return are not followed further.
- PinnedPool.Pool.ReadDynamicShapes: the check of the final shape against the original one, and the traversal that finds the dynamic leaves.
- Everything behind library calls: oneDNN, oneMKL, SYCL and LLVM; the PJRT wrapper, the pass pipeline, and the convolution, FFT and Cholesky thunks.

# Verification of the PCIe-CCL graph executor and the multipath orchestrator

This project models the two parts of the repository that carry its hardest guarantees and proves
them in Dafny 4.11. `dafny verify dfyconfig.toml` checks everything.

**PCIe-CCL (Ascend build).** A collective is a list of copy and reduce instructions of all ranks.
Every rank compiles the same list into a dataflow graph: each write of a chunk produces a new
version, each read gets a reader id, each write is guarded by the version it overwrites, and
in-place outputs that alias live input are staged and copied back. The ranks' executors then run
their nodes in 1 MiB slices, in any order the shared progress counters allow, with DMA lanes, an
out-of-order host copy engine and a lead window. The project proves that the one-pass compiler
computes a closed-form graph, the same on every rank (`Compiler`, `Graphs`, `GraphFacts`); that no
interleaving of ranks, lanes and completions contains a race (`Safety`, `RaceFreedom`), that all
complete runs leave the memory of the sequential program (`Determinism`, `Compiled`), that runs
always go on and end (`Progress`, `Terminals`), and exactly which graphs and programs do
(`Deadlock`, `Completion`); that in-place staging preserves the meaning (`InPlace`, `Staging`, `InPlaceGather`); that what a rank
holds when it leaves its loop is what the instructions mean as they are written (`Meaning`); and
that one executor, as the object it is, takes only steps of that system (`RankExecutor`). Around it:
the event ring, the host copy engine, the consume counter, barriers, epochs, the host staging
allocator, chunk maps, layouts and slices (`Slices`) and the split of an on-device reduction.

**Orchestrator.** Each collective is split between a fast backend and PCIe. The project proves that
the split leaves the unsplit result (`Hybrid`, `Buffers`, `VCollectives`), when the byte plan is
launchable (`Planner`), that all ranks launch every collective with the same plan although only
rank 0 learns (`ParamRound`, `Controller`, `Launches`), and when the value-token ring orders the
two streams (`ValueSync`).

## How it is modelled

Concurrency is a step system: a state, actions with an enabling condition, and `Reaches` or
`Reachable` for every finite interleaving from the start. Objects the source updates in place are
classes (`RankExecutor.GraphExecutor`, `RankExecutor.SharedState`, `EventRing.SlotRing`,
`H2HEngine.CompletionQueue`, `Compiler.Versions`, `Controller.AdaptiveController`,
`ValueSync.Context`), loops are loops, and each is proved against the function the theorems are
about. Device and host memory are functions from chunk and slice to an uninterpreted value, so the
results hold for every element type and reduction.

Every access to a shared counter is one step, and all ranks see these steps in one order. The
source uses release and acquire accesses, which promise less where a reader raises its own counter
and then reads the other readers' (`shared_state.hpp`, lines 256-275): two readers could miss each
other's raise. That the consume counter ends up exact (`Consume.ExactAtRest`) rests on the assumed
order.

The theorems about compiled graphs ask what a caller can check of an instruction list
(`Compiled.Executable`): ranks exist, no chunk is written more than 15 times, and no chunk is cut so
short that a slice of it is empty. Race freedom and agreement of all finished runs need no more.
The ones about progress and about the list order as the meaning also ask that the list is in order
(`Compiled.Runnable`): instructions read input chunks or chunks written earlier in the list, and
reductions find a value to reduce into. The next section says what happens without that.

## What turned out not to hold as the source suggests

- A slice of a chunk that is shorter than the longest chunk can be empty, and an empty slice is
  published at once, ahead of copies of earlier slices still in flight. Published progress counts
  only slices in memory *if and only if* no copying node has an empty trailing slice
  (`EmptySlices.SafeExactlyWhenWellSliced`); 524289 four-byte elements in two chunks fail it
  (`Layout.OneElementTooMany`).
- Counters exist for 16 versions of a chunk and the compiler does not limit the number of versions.
  Up to 15 writes of each chunk everything here holds. With 17 a reader of the last version is let
  through by the first one: a program of 17 D2Hs into one host chunk and an H2D from it has a run in
  which the H2D is in flight before the version it was compiled to read is written
  (`VersionWrap.ReadTooEarly`).
- A copy of a chunk onto itself waits for its own read. A reduction into a chunk that is no input
  and has no earlier writer is compiled to read the chunk's final version, and hangs together with
  all later writers of it (`Completion.FirstWriterIsStuck`). A graph can finish *if and only if* no
  non-empty set of nodes is stuck in such a way (`Deadlock`); a program without reads of chunks
  written only later can *if and only if* it is in order (`Completion.FinishesExactlyWhenInOrder`).
  Two one-rank programs that hang: a D2D of input chunk 0 onto itself
  (`Completion.CopyOntoItselfHangs`), and a reduction of it into an output chunk that only a later
  copy writes (`Completion.ReduceIntoNothingHangs`).
- An output chunk that no instruction writes keeps its rank's executor in its loop for ever. All
  ranks of an in-order program can leave their loops *if and only if* every output chunk of every
  rank is written or staged (`Completion.CompletesExactlyWhenWritten`).
- A conservative in-place program of the all-gather kind stages output that lies on input which is
  read, but its copybacks wait for earlier writers of the output only, not for the readers of that
  input. For all-gathers, which are what this kind is for, this does no harm: what they bring back to
  a rank's own segment is the input itself (`InPlaceGather.FinishedGatherMeans`). A program that
  swaps two chunks can lose one of them (`InPlaceGather.SwapGoesWrong`).
- With several user streams an input wait can pass too early, on the token of the submission 64
  later. It never does *if and only if* every submission from the 65th on has one of the 64 before
  it on its own user stream (`ValueSync.InputSafeExactlyWhenPaced`). The same condition decides
  whether the streams can get stuck (`ValueSync.CompletesExactlyWhenPaced`). Completion waits are
  always right. 64 submissions on one stream and then one on another fail it
  (`ValueSync.NewcomerIsUnpaced`). The orchestrator's README (lines 180 and 254) speaks of stream
  events; the code uses value tokens, and the model follows the code.
- With split-ratio control and a negative initial and a negative minimum alpha in the environment,
  rank 0 and the other ranks can come to different alphas: after two failed runs rank 0 has halved
  its own twice. All ranks use the same alpha *if and only if* the configuration is not of this kind
  (`Launches.SameAlphaExactly`); the plans are the same with every configuration
  (`Launches.SameLaunches`).
- A plan that uses PCIe is launchable *if and only if* the fast share, rounded up to 128 bytes, is
  less than the message, and both rounded parts together stay in the 64-bit range
  (`Planner.CreatePlan`). Minimum chunks below 128 bytes can fail the first.
- The tail of an on-device reduction is shared out once for every rotation *if and only if* there
  is no tail or the block count is at most 2^31 (`ReducePartition.TailSharedExactly`).

## Model

| member | source | states |
|---|---|---|
| Safety.ReachesInv | pcie-ccl-ascend/src/executor/graph_executor.cpp:749-810 | In every state any interleaving of all ranks can reach, write progress equals the slices published in order, reader progress the slices released, and every submitted slice has found its inputs, guard and window ready |
| Safety.ReadyIsStable | pcie-ccl-ascend/src/executor/graph_executor.cpp:749-767 | A slice found ready stays ready under every step of every rank, so reading the counters one after the other is as good as reading them at once |
| Safety.PublishesInOrder | pcie-ccl-ascend/src/executor/graph_executor.cpp:903-982 | Whatever is published, by lane, by the host engine or at once, is the node's first unpublished slice, is already in memory or is so by that step, and its rank owes no release: slices are published as a contiguous prefix |
| RaceFreedom.RaceFree | pcie-ccl-ascend/src/executor/graph_executor.cpp:749-767 | In every reachable state, two different nodes of which one writes what the other reads or writes never have the same slice in flight |
| RaceFreedom.ReadsItsVersion | pcie-ccl-ascend/src/ir/compiler.cpp:447-490 | While a slice is in flight, the version its node was compiled to read, and all older ones, are in memory and no newer one has been written there |
| VersionWrap.ReadTooEarly | pcie-ccl-ascend/src/memory/shared_state.hpp:365-367 | That no chunk has 16 versions or more is needed: in a run of 17 D2Hs into one host chunk and an H2D from it the H2D is in flight although the version it was compiled to read is not written |
| RaceFreedom.WritersInVersionOrder | pcie-ccl-ascend/src/ir/compiler.cpp:486-490 | A node never submits more slices than every writer of an older version of its chunk has published |
| RaceFreedom.ReadersBeforeOverwrite | pcie-ccl-ascend/src/ir/compiler.cpp:447-490 | A node never submits more slices than every reader of an older version of its chunk has released |
| RaceFreedom.LeadWindow | pcie-ccl-ascend/src/executor/graph_executor.cpp:1123-1153 | A windowed D2H is never more than four slices ahead of its slowest registered reader |
| Determinism.Confluence | pcie-ccl-ascend/src/executor/graph_executor.cpp:1088-1436 | Any two orders of the same slices that respect the dataflow leave the same memory |
| Determinism.RunsAgree | pcie-ccl-ascend/src/executor/graph_executor.cpp:1088-1436 | Any two complete runs of all ranks leave the same memory |
| Determinism.RunIsSequential | pcie-ccl-ascend/src/executor/graph_executor.cpp:1088-1436 | A complete run leaves what executing whole nodes one at a time leaves, in any order that respects the dataflow |
| Progress.NeverStuck | pcie-ccl-ascend/src/executor/graph_executor.cpp:1088-1153 | With acyclic edges and existing producers and readers some step is enabled in every reachable unfinished state, lead window included |
| Progress.RunsEnd | pcie-ccl-ascend/src/executor/graph_executor.cpp:1088-1436 | Every run has at most 3 steps a rank and 6 a slice, so no run goes on for ever |
| Progress.HeldBackExactly | pcie-ccl-ascend/src/executor/graph_executor.cpp:1114-1153 | In every reachable state a non-empty slice is held back if and only if its lane already has 64 copies in flight, or it is a windowed D2H and some registered reader is four slices behind it |
| Progress.LaneFitsRing | pcie-ccl-ascend/src/executor/graph_executor.cpp:958-998 | In every reachable state a lane has at most 64 copies in flight, as many as its event ring holds |
| Terminals.RunsUntilComplete | pcie-ccl-ascend/src/executor/graph_executor.cpp:1425-1436 | As long as some rank's exit test fails, some step is enabled, for any terminal keys that have a writer |
| Terminals.FinishedTerminal | pcie-ccl-ascend/src/executor/graph_executor.cpp:1431-1434 | After all slices, a terminal key is complete exactly when a node of some rank produces it or it is an input chunk |
| Terminals.UnwrittenTerminalNeverCompletes | pcie-ccl-ascend/src/executor/graph_executor.cpp:1431-1434 | A terminal key without a writer keeps its rank in the loop in every reachable state |
| Completion.TerminalHasWriter | pcie-ccl-ascend/src/ir/compiler.cpp:525-555 | A terminal key that compilation emits has a writer if and only if its output chunk is written by an instruction or staged |
| Completion.RunsUntilOutputs | pcie-ccl-ascend/src/executor/graph_executor.cpp:1425-1436 | In an in-order program whose output chunks are all written or staged, some step is enabled until every rank's exit test on its own terminal keys holds |
| Completion.UnwrittenOutputNeverCompletes | pcie-ccl-ascend/src/executor/graph_executor.cpp:1431-1434 | An output chunk neither written nor staged keeps its rank in the loop in every reachable state, in order or not |
| Completion.CompletesExactlyWhenWritten | pcie-ccl-ascend/src/executor/graph_executor.cpp:1425-1436 | All ranks of an in-order program can leave their loops if and only if every output chunk is written or staged |
| Completion.ExitMeansCopied | pcie-ccl-ascend/src/executor/graph_executor.cpp:1425-1436 | In every reachable state of a compiled program in which a rank's exit test holds, every slice of every node of that rank has been copied |
| Completion.AllExitsMeanFinished | pcie-ccl-ascend/src/executor/graph_executor.cpp:1425-1436 | When the exit tests of all ranks hold, the whole work is finished |
| Completion.ExitMeansTerminal | pcie-ccl-ascend/src/executor/graph_executor.cpp:1431-1434 | When a rank's exit test holds, every slice of the node that produces one of its terminal keys has been copied, whichever node it is |
| Completion.ExitMeansOutput | pcie-ccl-ascend/src/executor/graph_executor.cpp:1425-1436 | When a rank's exit test holds, each of its output chunks holds in every slice what any finished run leaves there, however far the other ranks are |
| Meaning.OutputWrittenExactly | pcie-ccl-ascend/src/ir/compiler.cpp:525-555 | The condition of these theorems is one on the instruction list: an output chunk is written or staged if and only if some H2D, D2D or D2DReduce of its rank names it as destination |
| EmptySlices.SafeExactlyWhenWellSliced | pcie-ccl-ascend/src/executor/graph_executor.cpp:1114-1121 | Published slices are in memory in all reachable states if and only if no node that copies has an empty slice |
| EmptySlices.EveryOrderIsARun | pcie-ccl-ascend/src/executor/graph_executor.cpp:1088-1436 | For every order of the nodes of a one-slice graph in which each comes after what it waits for, there is a run of all executors that copies them in that order and finishes: the waits of the graph are all that orders copies |
| Deadlock.FinishesExactlyWhenAcyclic | pcie-ccl-ascend/src/executor/graph_executor.cpp:749-767 | Some run finishes if and only if there is no non-empty set of nodes that all wait for a node of the set or for a version nobody writes |
| Deadlock.SelfCopyIsStuck | pcie-ccl-ascend/src/ir/compiler.cpp:486-490 | A node that reads, as a registered reader, the very version its guard protects is such a set on its own |
| Completion.CopyOntoItselfIsStuck | pcie-ccl-ascend/src/ir/compiler.cpp:404-490 | Every instruction that copies an input or an already written chunk onto itself compiles to such a node |
| Completion.CopyOntoItselfHangs | pcie-ccl-ascend/src/ir/compiler.cpp:404-490 | A concrete program: one rank, a D2D of input chunk 0 onto input chunk 0 |
| Deadlock.FirstReduceIsStuck | pcie-ccl-ascend/src/ir/compiler.cpp:430-441 | So is a node one of whose inputs is its own output version, as a reduction compiles to that is the only writer of its chunk |
| Completion.FirstWriterIsStuck | pcie-ccl-ascend/src/ir/compiler.cpp:344-354 | In every compiled program, a reduction into a chunk that is no input and has no earlier writer, or a copy of such a chunk onto itself, is stuck together with all later writers of the chunk |
| Completion.ReduceIntoNothingHangs | pcie-ccl-ascend/src/ir/compiler.cpp:430-441 | A concrete program: one rank, a reduction of input chunk 0 into output chunk 0 before the copy that writes it |
| Completion.ReadOfNothingIsStuck | pcie-ccl-ascend/src/ir/compiler.cpp:344-354 | An instruction that reads a chunk nobody writes and that is no input is stuck |
| Completion.FinishesExactlyWhenInOrder | pcie-ccl-ascend/src/ir/compiler.cpp:394-555 | Without reads of chunks written only later, some run of all ranks finishes if and only if the program is in order |
| GraphFacts.CompiledIsWellFormed | pcie-ccl-ascend/src/ir/compiler.cpp:394-515 | Every compiled graph has one producer per version, one reader per reader id below the counted readers, and fewer than 16 versions, if no chunk is written 16 times |
| GraphFacts.CompiledIsVersioned | pcie-ccl-ascend/src/ir/compiler.cpp:447-555 | In every compiled graph each version is guarded by the one before it and each copyback is the only node on its chunk |
| Compiled.CompiledReadersExist | pcie-ccl-ascend/src/ir/compiler.cpp:447-462 | Every reader id a guard counts belongs to a node of some rank |
| Compiled.CompiledIsAcyclic | pcie-ccl-ascend/src/ir/compiler.cpp:394-555 | A program that reads only inputs and chunks written earlier compiles to a graph ordered by the instruction list |
| Compiled.CompiledRunsAreRaceFree | pcie-ccl-ascend/src/ir/compiler.cpp:344-375 | Race freedom of every run of every compiled program without empty slices: forward references, copies onto themselves and reductions into nothing included |
| Compiled.CompiledRunsGoOn | pcie-ccl-ascend/src/executor/graph_executor.cpp:1088-1153 | No reachable unfinished state of an in-order program is stuck |
| Compiled.RunIsListing | pcie-ccl-ascend/src/ir/compiler.cpp:394-555 | A finished run of an in-order program leaves what executing its nodes in list order on whole chunks leaves |
| Compiled.OutOfPlaceRun | pcie-ccl-ascend/src/ir/compiler.cpp:394-515 | A finished run of an out-of-place program leaves exactly what interpreting the lowered instruction list leaves, versions and guards gone |
| Meaning.NodeOfInstruction | pcie-ccl-ascend/src/ir/compiler.cpp:394-515 | Every instruction compiles to a node of its opcode and rank that reads and writes the chunks it names: the host chunk of the NUMA node on the host side, the device buffer or, for staged output, its staging copy on the device side |
| Meaning.FinishedRunMeans | pcie-ccl-ascend/src/ir/compiler.cpp:394-515 | A finished run of an out-of-place program leaves everywhere what performing its instructions one after the other leaves, each read straight off its opcode, ranks, buffers, NUMA nodes and chunks |
| Meaning.FinishedInPlaceMeans | pcie-ccl-ascend/src/ir/compiler.cpp:525-555 | A finished run of a conservative in-place program leaves the same in every written output chunk of the shared buffer |
| Meaning.ExitMeans | pcie-ccl-ascend/src/executor/graph_executor.cpp:1425-1436 | A rank that has left its loop holds this in all its output chunks, while other ranks may still be working |
| Meaning.ExitMeansInPlace | pcie-ccl-ascend/src/executor/graph_executor.cpp:1425-1436 | So does a rank of an in-place collective |
| Meaning.HostRoundTrip | pcie-ccl-ascend/src/ir/compiler.cpp:405-414 | A D2H followed by an H2D from the same host chunk leaves the original source in the destination, whichever ranks do it |
| Completion.CompiledRunsAgree | pcie-ccl-ascend/src/ir/compiler.cpp:331-354 | Any two finished runs of a compiled program leave the same memory, with forward references too |
| Completion.CompiledRunIsSchedule | pcie-ccl-ascend/src/ir/compiler.cpp:331-354 | And it is what executing whole nodes one by one leaves, in any order in which each comes after what it waits for |
| Completion.FinishedRunHasSchedule | pcie-ccl-ascend/src/ir/compiler.cpp:331-354 | If some run finishes there is such an order |
| InPlace.InputReadBeforeOverwrite | pcie-ccl-ascend/src/ir/compiler.cpp:525-546 | In every order the executors can take, an input slice is read before output is written to the same bytes |
| InPlace.CopybackAfterReaders | pcie-ccl-ascend/src/executor/graph_executor.cpp:757-767 | A copyback submits a slice only after every reader of the aliased input slice has released it |
| InPlace.PlacedIsHeld | pcie-ccl-ascend/src/ir/compiler.cpp:287-305 | With input and output in the same bytes these hold the output once written and the input before, at every point of every such order |
| Staging.SameUpToStaging | pcie-ccl-ascend/src/ir/compiler.cpp:175-239 | After any prefix the staged program holds in a staging copy what the plain program holds in the output chunk |
| Staging.InPlaceMatchesOutOfPlace | pcie-ccl-ascend/src/ir/compiler.cpp:525-555 | A finished run of a conservative in-place program leaves in the shared buffer the output that the plain program computes on separate buffers |
| InPlaceGather.FinishedGatherMeans | pcie-ccl-ascend/src/ir/compiler.cpp:214-239 | A finished run of an in-place all-gather leaves in the shared buffer what its instructions mean, although its copybacks do not wait for the readers of the input they land on |
| InPlaceGather.SwapGoesWrong | pcie-ccl-ascend/src/ir/compiler.cpp:525-546 | That the program gathers is needed: a one-rank program that swaps its chunks has a finished run that leaves the second chunk in both places |
| Compiler.MaxInputChunkCount | pcie-ccl-ascend/src/ir/compiler.cpp:100-109 | The loop computes the declared count raised by what a D2D names with this raw source rank |
| GraphFacts.InputCountIsLeast | pcie-ccl-ascend/src/ir/compiler.cpp:100-109 | It is the least count that is at least the declared one and covers every input chunk that a D2D or D2DReduce names with this raw source rank |
| Compiler.MarkInputReads | pcie-ccl-ascend/src/ir/compiler.cpp:175-212 | Exactly the input chunks that some instruction reads are marked |
| Compiler.StagedChunks | pcie-ccl-ascend/src/ir/compiler.cpp:214-239 | Exactly the written output chunks that alias a live input chunk are staged, in either alias mode |
| Compiler.CountProduced | pcie-ccl-ascend/src/ir/compiler.cpp:331-342 | The pre-pass leaves the number of writes in the whole list for exactly the written chunks |
| Compiler.SeedInputs | pcie-ccl-ascend/src/ir/compiler.cpp:377-392 | Version 0 is known for exactly the input chunks of all ranks, and the ready list is this rank's |
| Compiler.Versions.Latest | pcie-ccl-ascend/src/ir/compiler.cpp:344-354 | A read sees the number of earlier writes of its chunk, or the final number if there is none yet, and the maps stay right |
| Compiler.Versions.Produce | pcie-ccl-ascend/src/ir/compiler.cpp:364-375 | A write gets one more than the version known so far, and only that entry changes |
| Compiler.AssignKeys | pcie-ccl-ascend/src/ir/compiler.cpp:404-490 | One instruction gets the keys, guard and reader id of the closed form, or the too-many-readers error exactly when its version already has 32 readers |
| Compiler.MainPass | pcie-ccl-ascend/src/ir/compiler.cpp:394-515 | The pass stops with the first error of the list, or ends with this rank's nodes and all reader counts |
| Compiler.CopyBackPass | pcie-ccl-ascend/src/ir/compiler.cpp:525-555 | Copybacks and terminal keys are those of the closed form, in chunk order |
| Compiler.CompileGraph | pcie-ccl-ascend/src/ir/compiler.cpp:111-571 | One rank's compilation fails with the list's first error or returns exactly its share of the closed-form graph, the reader counts, terminals and ready inputs |
| Compiler.CompileOnTwoRanks | pcie-ccl-ascend/src/ir/compiler.cpp:307-375 | Two ranks both fail, with one error, or agree on reader counts and on one list of nodes of which each holds its own |
| Compiler.NoErrorMeans | pcie-ccl-ascend/src/ir/compiler.cpp:421-456 | Compiling succeeds if and only if every copy and reduction stays on its rank and no version has more than 32 readers |
| RankExecutor.GraphExecutor.constructor | pcie-ccl-ascend/src/executor/graph_executor.cpp:871-887 | Starting a work publishes this rank's input chunks, whole, and nothing else |
| RankExecutor.GraphExecutor.InputsReady | pcie-ccl-ascend/src/executor/graph_executor.cpp:749-755 | The loop over the inputs answers whether all their write counters have reached the slice |
| RankExecutor.GraphExecutor.OverwriteReady | pcie-ccl-ascend/src/executor/graph_executor.cpp:757-767 | It answers whether the guarded version is written and released by all its readers |
| RankExecutor.GraphExecutor.LeadBlocked | pcie-ccl-ascend/src/executor/graph_executor.cpp:1123-1153 | It answers whether the lead window holds the slice back |
| RankExecutor.GraphExecutor.TrySubmitNode | pcie-ccl-ascend/src/executor/graph_executor.cpp:1088-1423 | It submits exactly when the step system allows the node's next slice, and then the world takes exactly that step; otherwise nothing changes |
| RankExecutor.GraphExecutor.PollDeviceLane | pcie-ccl-ascend/src/executor/graph_executor.cpp:958-998 | Polling retires exactly the finished prefix of the lane, oldest first |
| RankExecutor.GraphExecutor.TakeCompletion | pcie-ccl-ascend/src/executor/graph_executor.cpp:927-953 | Taking in the report of a finished copy marks it and publishes exactly the contiguous run it makes possible |
| RankExecutor.GraphExecutor.OthersKeepValid | pcie-ccl-ascend/src/executor/graph_executor.cpp:1425-1436 | Whatever step another rank or the hardware takes between two calls, the executor's own fields still describe its part of the world |
| RankExecutor.SharedState.GetConsumeProgress | pcie-ccl-ascend/src/memory/shared_state.hpp:272-287 | The minimum over the registered readers |
| RankExecutor.SubmitIsSteps | pcie-ccl-ascend/src/executor/graph_executor.cpp:1088-1423 | A submission, from a reachable world, leads to a reachable world |
| RankExecutor.DrainLaneIsSteps | pcie-ccl-ascend/src/executor/graph_executor.cpp:958-998 | So does polling a lane |
| RankExecutor.DrainH2HIsSteps | pcie-ccl-ascend/src/executor/graph_executor.cpp:903-956 | So does publishing a run of completions |
| RankExecutor.CompletionIsSteps | pcie-ccl-ascend/src/executor/graph_executor.cpp:927-953 | And so does marking a finished copy and then publishing the run it completes |
| EventRing.SlotRing.Submit | pcie-ccl-ascend/src/executor/event_ring.hpp:57-67 | Taking the next slot of a ring that is not full appends to the queue it stands for |
| EventRing.SlotRing.ReleaseOldest | pcie-ccl-ascend/src/executor/event_ring.hpp:69-79 | Releasing returns the oldest record, the one stored with that event, and leaves the rest in order |
| EventRing.SlotRing.IsFull | pcie-ccl-ascend/src/executor/event_ring.hpp:57-60 | Full exactly when the queue has as many records as the array has slots |
| H2HEngine.CutIntoShards | pcie-ccl-ascend/src/executor/h2h_engine.cpp:125-170 | The shards tile the request without empty ones and are as many as the countdown starts from: the early exit is never taken |
| H2HEngine.LastShardStartsInside | pcie-ccl-ascend/src/executor/h2h_engine.cpp:134-160 | With shards of at least 64 KiB and at most 32 workers the last shard starts inside the request |
| H2HEngine.TilesCoverOnce | pcie-ccl-ascend/src/executor/h2h_engine.cpp:145-165 | Every byte of a request belongs to exactly one shard |
| H2HEngine.ShardCountIs | pcie-ccl-ascend/src/executor/h2h_engine.cpp:134-136 | One shard for each worker, unless shards would become smaller than the larger of 64 KiB and the configured size |
| H2HEngine.CompletionQueue.Poll | pcie-ccl-ascend/src/executor/h2h_engine.cpp:210-232 | Polling sweeps the stored reports as the specification says, and the hint is never zero while a report is stored |
| H2HEngine.SweepConserves | pcie-ccl-ascend/src/executor/h2h_engine.cpp:210-232 | A poll neither invents, duplicates nor loses a report of a current work |
| H2HEngine.SweepTakesOwn | pcie-ccl-ascend/src/executor/h2h_engine.cpp:210-232 | It takes only this work's reports, and all of them unless the limit is reached |
| H2HEngine.ReportedExactlyWhenCopied | pcie-ccl-ascend/src/executor/h2h_engine.cpp:325-338 | In every run of the pool a submitted request is reported at most once, and exactly when all its shards are copied |
| H2HEngine.UnreportedIsInHand | pcie-ccl-ascend/src/executor/h2h_engine.cpp:325-338 | As long as a submitted request is not reported, one of its shards is queued or in a worker's hands |
| H2HEngine.UnreportedGoesOn | pcie-ccl-ascend/src/executor/h2h_engine.cpp:325-338 | In every reachable state of the pool with an unreported request any given worker can go on, or one that holds a shard of the request can |
| Consume.NeverAhead | pcie-ccl-ascend/src/memory/shared_state.hpp:256-287 | However calls overlap, the consume counter never passes any reader |
| Consume.ExactAtRest | pcie-ccl-ascend/src/memory/shared_state.hpp:256-287 | When no call is in progress it is exactly the slowest reader: no update is lost |
| Consume.CallsGoOn | pcie-ccl-ascend/src/memory/shared_state.hpp:256-287 | A call in progress can always take its next step, whatever the others do |
| Barrier.NobodyLeavesEarly | pcie-ccl-ascend/src/memory/shared_state.cpp:168-211 | No party returns from its k-th call before every party has entered its k-th |
| Barrier.RoundStartsAtZero | pcie-ccl-ascend/src/memory/shared_state.cpp:168-211 | Before anyone has added itself in a round the count is zero |
| Barrier.NeverStrands | pcie-ccl-ascend/src/memory/shared_state.cpp:168-211 | Once all have entered a waiter's round, it can leave or the last party has its releasing step enabled |
| Barrier.ReleaseIsFinal | pcie-ccl-ascend/src/memory/shared_state.cpp:168-211 | A waiter that can leave stays able to, whatever others do in later rounds |
| Barrier.SenseRefines | multipath-orchestrator/libampccl/core/shm_store.cc:463-494 | Every run of the sense-reversing barrier is a run of the generation barrier, seen through parities |
| Barrier.SenseNobodyLeavesEarly | multipath-orchestrator/libampccl/core/shm_store.cc:463-494 | Nobody returns from its k-th BarrierSync before everybody has entered it |
| Barrier.SenseNeverStrands | multipath-orchestrator/libampccl/core/shm_store.cc:463-494 | And no waiter whose round all have entered is stranded |
| Epochs.NothingErasedWhileRunning | pcie-ccl-ascend/src/executor/graph_executor.cpp:1468-1483 | While any rank runs a work, over any sequence of works, no rank can reset progress or touch reader counts in either parity |
| Epochs.CountsMatchPlan | pcie-ccl-ascend/src/executor/graph_executor.cpp:422-427 | From the start barrier on, every key of every rank's graph has exactly the plan's reader count |
| Epochs.FreshAtStart | pcie-ccl-ascend/src/memory/shared_state.cpp:486-532 | When all ranks are at the start barrier, every key of the work counts from zero |
| Epochs.NeverStuck | pcie-ccl-ascend/src/executor/graph_executor.cpp:1468-1483 | Over any sequence of works some rank can always handle one more key or move on |
| HostStaging.FirstFit | pcie-ccl-ascend/src/memory/shared_state.cpp:344-379 | The scan ends and returns the lowest offset free of all other regions, aligned and inside the capacity, or there is none |
| HostStaging.TryPlace | pcie-ccl-ascend/src/memory/shared_state.cpp:316-400 | An attempt succeeds if and only if every node has room somewhere |
| HostStaging.HeldRegionIsSafe | pcie-ccl-ascend/src/memory/shared_state.cpp:316-444 | Over all runs of all communicators, a lease holder's region is the one in the table, 2 MiB aligned, within capacity and disjoint from every other live region |
| HostStaging.NeverStuck | pcie-ccl-ascend/src/memory/shared_state.cpp:316-444 | Communicators that each fit into an empty area never block each other for good |
| HostChunks.BuildDenseHostChunkMap | pcie-ccl-ascend/src/ir/compiler.cpp:74-88 | Exactly the used chunks get slots, in order, one to one onto 0 to k - 1 |
| HostChunks.HostBytesInside | pcie-ccl-ascend/src/executor/graph_executor.cpp:713-732 | A host address resolves exactly for used chunks and its bytes lie in the chunk's slot |
| HostChunks.HostSlicesFollow | pcie-ccl-ascend/src/executor/graph_executor.cpp:728-731 | Slice 0 resolves to the start of the chunk's slot and every next slice 1 MiB after the one before |
| HostChunks.HostSlicesDisjoint | pcie-ccl-ascend/src/executor/graph_executor.cpp:713-732 | The bytes of two different slices, of one chunk or of two, never overlap |
| HostChunks.HostSlicesTile | pcie-ccl-ascend/src/executor/graph_executor.cpp:706-732 | Each of the first bytes of the slot, as many as the copy is long, belongs to exactly one slice of the copy, and no byte behind them to any |
| HostChunks.HostChunksDisjoint | pcie-ccl-ascend/src/executor/graph_executor.cpp:713-732 | Bytes of two different chunks never overlap |
| HostChunks.HostAddressInLease | pcie-ccl-ascend/src/executor/graph_executor.cpp:1440-1465 | What a lease holder touches through a host address lies in its region and in no other communicator's |
| Layout.MakeDeviceLayout | pcie-ccl-ascend/src/ir/compiler.cpp:27-45 | The loop fills the chunk table with the proportional cut of the active part |
| Layout.ChunksTileActivePart | pcie-ccl-ascend/src/executor/graph_executor.cpp:734-746 | The chunks of a segment start right after the reserved prefix, follow each other and end with the segment |
| Layout.ChunksDisjoint | pcie-ccl-ascend/src/executor/graph_executor.cpp:734-746 | Distinct chunks share no byte |
| Layout.DeviceSlicesDisjoint | pcie-ccl-ascend/src/executor/graph_executor.cpp:734-746 | Addresses of slices follow each other 1 MiB apart from the chunk's start, stay in the chunk, and different slices of the same or of different chunks share no byte |
| Layout.AddressBeyondTable | pcie-ccl-ascend/src/executor/graph_executor.cpp:738-746 | A chunk beyond the table stands at its number in the segment times the chunk size |
| Layout.CopiesTheChunk | pcie-ccl-ascend/src/ir/compiler.cpp:52-63 | A copy into an input, output or scratch chunk of the table moves exactly the chunk's share of the elements, any other copy the maximal chunk size |
| Slices.SlicesTileChunk | pcie-ccl-ascend/src/executor/graph_executor.cpp:706-711 | Non-empty slices are contiguous from the chunk's start and end exactly with it |
| Layout.D2HStaysInActivePart | pcie-ccl-ascend/src/ir/compiler.cpp:125-134 | Copies of the maximal chunk size stay in the active part from every chunk if and only if the output side's largest chunk is no larger than the input side's |
| Layout.NoEmptySlices | pcie-ccl-ascend/src/ir/compiler.cpp:27-45 | No chunk of a table has an empty slice if and only if the rounded-down share reaches into the last slice |
| Layout.AllCopiesFull | pcie-ccl-ascend/src/ir/compiler.cpp:52-63 | Every copy fills all slices if and only if every device chunk does |
| Layout.OneElementTooMany | pcie-ccl-ascend/src/ir/compiler.cpp:135-137 | A concrete size with an empty trailing slice |
| ReducePartition.PartitionsTile | pcie-ccl-ascend/reduceKernel_aclrt/inc/pccl_aicore_reduce.h:17-40 | The partitions are contiguous, cover exactly the 32-byte-aligned prefix and differ by at most one unit |
| ReducePartition.UnitHasOneBlock | pcie-ccl-ascend/reduceKernel_aclrt/inc/pccl_aicore_reduce.h:17-40 | Every aligned byte belongs to exactly one block |
| ReducePartition.PrefixAndTail | pcie-ccl-ascend/reduceKernel_aclrt/inc/pccl_aicore_reduce.h:45-58 | Prefix and tail elements together are all elements of the buffer, for elements of 1, 2, 4 or 8 bytes |
| ReducePartition.TailIsShared | pcie-ccl-ascend/reduceKernel_aclrt/inc/pccl_aicore_reduce.h:45-58 | Up to 2^31 blocks the tail elements add up to the tail for every rotation |
| ReducePartition.TailSharedExactly | pcie-ccl-ascend/reduceKernel_aclrt/inc/pccl_aicore_reduce.h:45-58 | They do so for all rotations if and only if there is no tail or the 32-bit sum of index and count cannot wrap |
| ParamRound.CachesAgree | multipath-orchestrator/libampccl/core/virtual_collective.h:39-64 | Ranks that have left the barrier of the same round hold equal caches, whenever they look |
| ParamRound.CacheIsMergeOfRounds | multipath-orchestrator/libampccl/core/shm_store.cc:496-591 | A rank's cache at its k-th collective is the merge of the first k announcements and later ones do not change it |
| ParamRound.StartMeansAnnounced | multipath-orchestrator/libampccl/core/shm_store.cc:448-461 | A rank other than 0 starts a round only after rank 0 has announced that very round |
| ParamRound.MergesAnnounced | multipath-orchestrator/libampccl/core/shm_store.cc:496-562 | Whoever merges reads exactly the entry announced for its round |
| ParamRound.NoRewriteWhilePending | multipath-orchestrator/libampccl/core/shm_store.cc:430-446 | Rank 0 never writes or announces while a rank has yet to read |
| ParamRound.NeverStuck | multipath-orchestrator/libampccl/core/shm_store.cc:430-591 | In every reachable state some rank can take a step of the protocol |
| Launches.SameLaunches | multipath-orchestrator/libampccl/core/virtual_collective.h:66-92 | In every run, any two ranks launch their i-th collective for the operation the program names, with PCIe on or off alike and with the same byte plan, cached or not, whatever was measured; with the same alpha, too, unless rank 0 is involved and the configuration is the one of the next row |
| Launches.SameAlphaExactly | multipath-orchestrator/libampccl/core/virtual_collective.h:66-92 | All ranks use the same alpha in every run of every program if and only if it is not split-ratio with both a negative initial and a negative minimum alpha |
| Launches.NegativeAlphasDiffer | multipath-orchestrator/libampccl/controller/algo_split_ratio_control.h:39-50 | For every such configuration, two ranks whose third launch has different alphas after two failed runs |
| Launches.ControllersStayValid | multipath-orchestrator/libampccl/core/virtual_collective.h:39-92 | In every reachable state every rank's controller satisfies what its methods ask: instances of operations without a parameter are as new, static ones always |
| Launches.LaunchUsesAnnouncement | multipath-orchestrator/libampccl/core/virtual_collective.h:66-92 | What is learned reaches the launches: in every run a rank's i-th collective uses the PCIe switch and, in the algorithm's range, the alpha last announced for its operation up to that round |
| Launches.LaunchBeforeAnnouncement | multipath-orchestrator/libampccl/core/virtual_collective.h:66-92 | Before the first announcement for its operation a collective uses PCIe and the initial alpha |
| Launches.NeverStuck | multipath-orchestrator/libampccl/core/virtual_collective.h:39-92 | Until all ranks have launched the whole program some rank can go on |
| Controller.SuggestionIgnoresOwnExactly | multipath-orchestrator/libampccl/controller/controller.h:21-29 | The suggestion for a cached entry does not depend on what the instance went through if and only if the algorithm is inverse-proportion, or split-ratio with a positive cached alpha or a minimum that leaves no choice |
| Controller.AdaptiveController.SuggestAlpha | multipath-orchestrator/libampccl/controller/controller.h:21-29 | Inverse-proportion suggests the cached alpha itself inside [0.001, 0.39] and the nearer bound outside; split-ratio a positive cached alpha, else its own, raised to the minimum and cut at 0.999; static and uncached operations the initial alpha; other operations' algorithms are untouched |
| Controller.AdaptiveController.Update | multipath-orchestrator/libampccl/controller/controller.h:32-57 | Only this operation's entry changes: it gets what its instance learned of the measurements, and PCIe goes off when disabled, follows success and timing when the run used it, and otherwise stays |
| Controller.LearnsInTheRightDirection | multipath-orchestrator/libampccl/controller/algo_inverse_proportion.h:59-92 | Alpha stays in its range, grows only after a run in which PCIe was clearly faster, and shrinks only after a failure, a clearly slower PCIe, or a rate beyond a hold rate that is too low |
| Controller.AimsAtTheFastTime | multipath-orchestrator/libampccl/controller/algo_inverse_proportion.h:59-92 | From the third usable run on, inside the range, a clearly faster PCIe gets as much as takes 0.96 of the fast side's time, a clearly slower one half as much, and any other as much as before |
| Controller.FailureTakesItsFraction | multipath-orchestrator/libampccl/controller/algo_inverse_proportion.h:60-64 | After a failure alpha is the configured fraction of what it was, half of it with split-ratio, or the lower bound |
| Controller.FasterNeverLosesExactly | multipath-orchestrator/libampccl/controller/algo_inverse_proportion.h:79-91 | A faster PCIe never loses bytes, for all alphas and rates, if and only if the upper hold rate is at least 1 / 0.96 |
| Controller.BalancedExactly | multipath-orchestrator/libampccl/controller/algo_split_ratio_control.h:78-82 | The target of split-ratio control is the one split at which both sides take equally long, and an overloaded PCIe has more than it |
| Controller.SplitLearnsTowardsBalance | multipath-orchestrator/libampccl/controller/algo_split_ratio_control.h:63-98 | A usable run moves alpha towards an allowed target, never past it from below, and leaves it there once reached |
| Controller.SmoothingKeepsDistance | multipath-orchestrator/libampccl/controller/algo_split_ratio_control.h:67-75 | The bandwidth estimate starts with the first usable run, ignores later ones below 4 MiB, and otherwise lies between old and new at 1 - smooth of their distance from the new one |
| Controller.SplitKeepsDistance | multipath-orchestrator/libampccl/controller/algo_split_ratio_control.h:77-98 | Inside the range, alpha keeps the fraction 1 - eta of its distance from the balance, or gives up a tenth if PCIe is overloaded, after the warm-up and with at least 16 MiB |
| Planner.CreatePlan | multipath-orchestrator/libampccl/core/planner.h:19-80 | For every 64-bit size PCIe is used exactly when the gates and the remaining share allow it, and such a plan splits the message if and only if the rounded-up fast share is less than the message and rounding stays in the 64-bit range |
| Planner.ShareIsProportional | multipath-orchestrator/libampccl/core/planner.h:37-43 | The bytes cut off for PCIe are at most alpha times the message and more than that less one byte, for every alpha |
| Planner.FastShareIsRest | multipath-orchestrator/libampccl/core/planner.h:41-50 | The fast side gets the rest, within a byte, unless that is less than the minimum chunk: then it gets nothing |
| Planner.BigChunksSplitWell | multipath-orchestrator/libampccl/core/planner.h:36-77 | With a minimum chunk of at least 128 bytes the split is a good one, up to 256 bytes before the end of the 64-bit range, and cuts no element of size 1, 2, 4 or 8 |
| Planner.SmallChunksCanFail | multipath-orchestrator/libampccl/core/planner.h:36-77 | A concrete plan with a smaller minimum that leaves nothing for PCIe |
| ValueSync.Context.NextTicket | multipath-orchestrator/libampccl/core/value_sync.cc:35-45 | Sequence numbers from 1 without gaps, each with the slot of its number modulo 64, and none at the very end |
| ValueSync.CompletionWaitIsSafe | multipath-orchestrator/libampccl/core/virtual_collective.h:129-146 | In every reachable state a user stream that has passed its completion wait waited for the matching write, although slots repeat |
| ValueSync.ExecutedIsEnqueued | multipath-orchestrator/libampccl/core/virtual_collective.h:108-146 | In every reachable state the streams have executed only what the host had enqueued, the operations of a submission in their order |
| ValueSync.InputSafeExactlyWhenPaced | multipath-orchestrator/libampccl/core/virtual_collective.h:108-127 | Input waits never pass early in any reachable state if and only if the submissions are paced |
| ValueSync.OneStreamIsPaced | multipath-orchestrator/libampccl/core/virtual_collective.h:108-127 | Submissions of one user stream always are |
| ValueSync.NewcomerIsUnpaced | multipath-orchestrator/libampccl/core/virtual_collective.h:108-127 | 64 submissions on one user stream followed by one on another are not |
| ValueSync.NeverDeadlocks | multipath-orchestrator/libampccl/core/virtual_collective.h:242-267 | With paced submissions some stream or the host can go on until all waits have passed |
| ValueSync.CompletesExactlyWhenPaced | multipath-orchestrator/libampccl/core/virtual_collective.h:242-267 | From every reachable state all submissions can still complete if and only if they are paced: otherwise an older token lands on a newer one of its slot and the PCIe stream waits for ever |
| Hybrid.AllGatherV | multipath-orchestrator/libampccl/core/virtual_collective.h:351-388 | The split through AllGatherV leaves the concatenation of all send buffers, the unsplit AllGather |
| Buffers.ConcatAt | multipath-orchestrator/libampccl/core/virtual_collective.h:351-388 | Element x of rank j's buffer stands x elements after j whole buffers |
| Hybrid.StagedAllGather | multipath-orchestrator/libampccl/core/virtual_collective.h:389-441 | So does the split through a line buffer and the segmented merge |
| Hybrid.SegmentedMerge | multipath-orchestrator/libampccl/core/virtual_collective.h:162-183 | Block r of the line buffer goes to the front of segment r and nothing else changes |
| Hybrid.AnyOrderIsUnsplit | multipath-orchestrator/libampccl/core/virtual_collective.h:351-441 | Whatever the order in which the two backends write their parts, the buffer ends up holding the unsplit result |
| Hybrid.AllToAllV | multipath-orchestrator/libampccl/core/virtual_collective.h:736-772 | The split AllToAll leaves every rank's block for this rank, in rank order |
| Hybrid.AllReduce | multipath-orchestrator/libampccl/core/virtual_collective.h:240-266 | The split AllReduce leaves at each position the reduction of what all ranks hold there |
| Hybrid.ReduceScatterV | multipath-orchestrator/libampccl/core/virtual_collective.h:533-570 | The split ReduceScatter leaves at each position of this rank's block the reduction of what all ranks hold there |
| Hybrid.PackedReduceScatter | multipath-orchestrator/libampccl/core/virtual_collective.h:571-627 | So does the split through packed buffers |
| Hybrid.ReducedAt | multipath-orchestrator/libampccl/core/virtual_collective.h:240-266 | What the reductions leave at a position is the reduction of the column of all ranks' elements there |
| Hybrid.Pack | multipath-orchestrator/libampccl/core/virtual_collective.h:600-610 | Packing puts the fast parts of all blocks side by side |
| VCollectives.AllToAllV | multipath-orchestrator/libampccl/backend/nccl_p2p_v_collectives.cc:134-195 | One send and one receive for every other rank with a non-empty block, a local copy of the own block, or a rejected call |
| VCollectives.AllGatherV | multipath-orchestrator/libampccl/backend/nccl_p2p_v_collectives.cc:75-132 | The same postings as the AllToAllV in which everybody gets the same block |
| VCollectives.MatchesExactlyWhenCountsAgree | multipath-orchestrator/libampccl/backend/nccl_p2p_v_collectives.cc:134-195 | The messages two ranks post to and expect of each other pair up if and only if their counts agree |
| VCollectives.DeliversV | multipath-orchestrator/libampccl/backend/nccl_p2p_v_collectives.cc:134-195 | After local copy and group the receive buffer holds every rank's block for this rank in its place |
| VCollectives.GatherDelivers | multipath-orchestrator/libampccl/backend/nccl_p2p_v_collectives.cc:75-132 | After an AllGatherV the receive buffer holds every rank's send buffer at that rank's displacement |
| VCollectives.ReductionsLineUp | multipath-orchestrator/libampccl/backend/nccl_p2p_v_collectives.cc:197-234 | Two ranks take part in the same rooted reductions if and only if their count tables agree |
| VCollectives.EqualBlocksAreReduceScatter | multipath-orchestrator/libampccl/backend/nccl_p2p_v_collectives.cc:197-234 | With equal blocks the rooted reductions are the ReduceScatter the hybrid split relies on |
| VCollectives.ReducedBlocksAt | multipath-orchestrator/libampccl/backend/nccl_p2p_v_collectives.cc:197-234 | Each of its elements is the reduction of the ranks' elements for this root, wherever each keeps them |

## Left out

- Vendor calls (ACL, CUDA, HCCL, NCCL), hooks, environment and XML parsing, logging, tracing, NUMA pinning and memory mapping: streams are FIFO queues, event queries are answers given from outside.
- Timeouts, error results and the switches that skip DMA or drain at a cold start: the successful paths only.
- The experimental H2H range path, ring-buffered host chunks (the flag is always false) and NOP nodes in graphs (the compiler makes none).
- SCRATCH buffers: the runtime binds them to the output buffer, which keys do not tell apart.
- In-place policies that overwrite the input directly: their soundness rests on checks outside the compiler.
- The list of active progress keys of a graph is given to `Epochs`, not computed in `Compiler`.
- `RankExecutor` holds lanes as FIFO sequences; `EventRing` proves the array ring that implements one.
- A slice copy is one atomic step of `Executor`: race freedom is what makes this a faithful view of copies that overlap in time.
- `Epochs`, `HostStaging` and `ParamRound` use barriers through the property proved in `Barrier`, not through its steps.
- InPlaceGather.FinishedGatherMeans: assumes that what the instructions leave in the staged chunks of a rank's own segment is its input, which holds for every all-gather, and that no chunk has an empty slice.
- Staging.InPlaceMatchesOutOfPlace: assumes no chunk has an empty slice, zero-sized chunks included, and the same-base alias mode with equal chunk counts that the API layer admits.
- Controller.AdaptiveController.Update: the best-alpha and bandwidth fields of an entry, which nothing that is modelled reads, are not kept; algorithm objects are values in the controller's map, and their run counters do not overflow.
- Planner.CreatePlan: the byte fields of plans that do not use PCIe are not described, because nothing is launched from them.
- RankExecutor.SharedState.GetConsumeProgress: computes the minimum when asked, where the source reads a counter that readers advance separately and that can lag behind; `Consume` models that counter and proves that it is never ahead.
- Consume.ExactAtRest: assumes one order of all counter accesses, see above.
- Compiled.CompiledRunsAreRaceFree: chunks are told apart by key, so buffers that are bound to the same bytes (SCRATCH, in-place) are outside it; `InPlace` treats the in-place ones.
- Ranks whose parameter store could not be attached, which learn and choose on their own.
- The staged AllToAll that sends and receives in one buffer: it depends on the vendor's in-place behaviour.
- The statistics round of rank 0 and the attach-time reset of the parameter store: only the parameter round's safety is modelled.
- A vendor reduction is one function of the ranks' values at an element; its order of operations is the vendor's.
- Hash functions, lane selection, bandwidth reports, Python scripts, the trace tool and size limits.

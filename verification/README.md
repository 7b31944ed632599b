# Snitch cluster runtime: trace sequencer, protocols, streams and kernels

A Dafny 4.11 model of the parts of the Snitch cluster repository whose
correctness is not visible from one function body, with proofs of what they
promise. `dafny verify dfyconfig.toml` checks everything.

| files | component |
|---|---|
| `Sequencer*.dfy` | the FREP sequencer emulator of the trace tool: nested hardware loops replayed one instruction per call |
| `EventUnit*.dfy` | OpenMP fork/join over parked worker cores |
| `PartialBarrier.dfy`, `Submask.dfy`, `ClusterBarrier.dfy` | the software barriers within and between clusters |
| `DataMover*.dfy` | the data-mover core, its ring of tasks and its client |
| `Ssr.dfy` | stream registers: loop setup and address generator |
| `Vexpf*.dfy` | the software-pipelined exponential |
| `Stencil*.dfy` | 2-D stencils, direct and with indirect streams |
| `Lcg.dfy`, `Xoshiro.dfy` | parallel random number generators |
| `StaticSchedule.dfy`, `StaticScheduleCode.dfy` | OpenMP static loop scheduling |
| `DmaTrace.dfy` | DMA accounting in the trace tool |
| `Wrappers.dfy`, `Words.dfy`, `Arithmetic.dfy`, `Counting.dfy` | shared definitions |

## How the pieces are modelled

- **Sequencer.** `Sequencer` is a class that updates the queue, the loop stack
  and the read pointer as the original does; a Python exception is `None`. A
  program is a sequence of single instructions and chain-shaped nests (each loop
  directly contains at most one loop), of any depth and any bounds, whose
  innermost body is not empty and whose FREPs give the static size of their
  bodies. Offloads, decodings and issues interleave freely; the one assumption
  is that a FREP is decoded before the next FREP is offloaded, because
  `decode_frep` fills the configuration pushed last.
- **Protocols** (event unit, barriers, data mover) are state machines. A step is
  one shared access of one core, or the completion of one DMA transfer, in any
  interleaving; a spin loop and `wfi` are guards. Memory is sequentially
  consistent, each core has one sticky interrupt bit, and `wfi` blocks until it
  is set. Section 3.3.3 of the RISC-V Privileged Architecture v1.12 also allows
  `wfi` to return early; that is excluded. Theorems hold for every number of
  cores, every sequence of calls and every schedule.
- **Streams and kernels.** Addresses and bounds are 32-bit words. The
  exponential's floating-point operations are uninterpreted, so its theorem
  holds for any rounding; what it computes is stated for a reading of words as
  reals in which they are exact. The stencils use reals. The kernel runs with the
  allocator, the stream configuration and the buffer rotation of the original.
- **Static scheduling** is modelled in the code's 32-bit arithmetic (`Given`).
  Overflows wrap around, also where C leaves those of signed integers undefined.

## Findings

Properties that the code does not have, each with an input that shows it and,
but for the two cases named below, the exact condition under which it does have
them.

- **The emulator loses iterations of a loop that starts with its inner loop.**
  The scan that re-enters inner loops runs only when the read pointer advances
  (util/trace/sequencer.py:121-128), not when it is reset (132-138, 176-180).
  `SequencerTheorems.ImmediateRunFails` is a run of two nested two-iteration
  loops that issues three instructions instead of four.
  `SequencerTheorems.ShowsMeaningExactly`: a run shows the program exactly when
  every loop that iterates has an instruction in front of its inner loop, unless
  no loop inside it iterates.
- **A hidden inner loop.** By the same omission a loop of one iteration directly
  inside a loop that iterates is shown only in the first iteration: from the second
  on its instructions carry the outer loop's status
  (`SequencerTheorems.InnerLoopHidden`), even where they are issued as often as they
  should be. `SequencerTheorems.ShowsStatusExactly`: the status is right exactly when
  every loop that iterates and has an inner loop has an instruction in front of it.
- **The inter-cluster barrier needs a power of two.** `snrt_comm_create` takes
  `size - 1` as the mask (sw/runtime/src/sync.h:93-95) and the last arrival wakes
  the submasks of that mask only. With three clusters cluster 1 is never woken
  (`Submask.ThreeClustersFail`). `ClusterBarrier.NeverTrapsExactly`: no schedule
  traps a cluster exactly when the size is a power of two.
- **Five copies in a row can block for ever.** `dm_memcpy_async` spins on a full
  ring without waking the data mover (sw/runtime/src/dm.h:270-273).
  `DataMoverBlocking.FiveCopiesBlock` gives the schedule;
  `DataMoverBlocking.NeverBlocksExactly`: a client never blocks for good exactly
  when it makes at most four copies between two `dm_start` or `dm_wait`.
- **`eu_exit` does not run a pending region.** It calls `eu_run_empty` only when
  there is nothing to run (sw/runtime/src/omp/eu.h:187), contrary to its comment.
  `EventUnitRuns.ExitLosesRegion` is a run that loses one;
  `EventUnitRuns.ExitDropsPendingRegion`: runs that leave at once and runs that run
  the region first end alike exactly when no region is pending.
- **Unchunked static scheduling does not scale the remainder by the step**
  (sw/runtime/src/omp/kmp.c:282). `StaticScheduleCode.UnscaledRemainderFails` is a
  loop of five iterations; `StaticScheduleCode.PartitionsExactly` gives the condition.
- **Empty shares wrap around.** A thread without iterations gets a range behind the
  loop's start; at the largest `int` it becomes everything
  (`StaticScheduleCode.EmptyShareOverflows`). The second half of the condition of
  `StaticScheduleCode.PartitionsExactly` excludes exactly these loops.
- **The length of a loop can overflow**, as for the loop over all `int` values
  (`StaticScheduleCode.LengthOverflows`). Section 2.6 of OpenMP 4.5 leaves a loop
  unspecified whose bounds are further apart than an `int`.
  `PartitionsExactly` covers every loop it specifies, and those with a step of one
  or minus one short of 2^32 iterations. For the rest no condition short of
  computing the ranges is known: the code takes a wrong length, and whether the
  ranges come out right depends on residues modulo 2^32
  (`StaticScheduleCode.RightByCoincidence`).
- **Chunks wrap around.** A stride of 2^32 is stored as 0
  (`StaticScheduleCode.StrideOverflows`), and a chunk behind the largest `int`
  starts at the smallest (`StaticScheduleCode.ChunkOverflows`).
  `StaticScheduleCode.FirstChunkExactly` says when a thread's first chunk is right,
  as long as the stride fits. For the flag only a sufficient condition on the
  bounds is proved (`ChunkedFits`): outside of it the code takes remainders of
  wrapped distances, which are right or wrong by their residues.
- **The last-iteration flags.** With chunks nobody is flagged in a loop from 1 to 4
  (`StaticScheduleCode.FlagMissed`); `StaticScheduleCode.FlagExactly` gives the
  condition. Without, a thread that counts down is flagged only if it runs one
  iteration (`StaticScheduleCode.FlagMissedGoingDown`, `StaticScheduleCode.FlagByCode`).
- **The DMA metrics divide by zero** for a transfer whose last response comes in
  the cycle of its first request (util/trace/gen_trace.py:735-737):
  `DmaTrace.SameCycleRaises`. `DmaTrace.MetricsExactly` gives the condition.
- **Rotating stencil offsets need balanced core grids.** With an odd number of
  cores along an axis the rotated offset is odd
  (sw/saris/stencils/istc.issr.hpp:477-479), the first cell of the row or the first
  row is computed by nobody, and the last block sticks out of the interior, with its
  coefficients missing. `StencilCores.OddGridFails` is such a step;
  `StencilCores.EachOnceExactly`: every cell is computed exactly once in every time
  step if and only if the grid of cores is balanced (`Balanced`).

## Model

| member | source | states |
|---|---|---|
| SequencerModel.Sequencer.constructor | util/trace/sequencer.py:12-28 | A new emulator has no loop, no configuration and an empty queue. |
| SequencerModel.Sequencer.PushInsn | util/trace/sequencer.py:31-47 | An offload appends the instruction and, for a FREP, an empty configuration; nothing else changes. |
| SequencerModel.Sequencer.DecodeFrep | util/trace/sequencer.py:49-66 | Fills exactly the configuration pushed last, raises exactly when there is none, and returns the number of issues of that loop. |
| SequencerModel.Sequencer.EnterLoopsAtPtr | util/trace/sequencer.py:85-92 | Pops every FREP at the read pointer, entering one loop for each, and raises exactly when an index is out of range. |
| SequencerModel.Sequencer.AdvanceLoop | util/trace/sequencer.py:109-119 | Advances the active loop and, lazily, every enclosing loop up to the first whose inner loop is not in its last iteration. |
| SequencerModel.Sequencer.ReenterLoops | util/trace/sequencer.py:121-128 | Re-enters all inner loops that start at the read pointer and touches nothing else. |
| SequencerModel.Sequencer.LeaveLoop | util/trace/sequencer.py:140-180 | Leaves every finished loop; at the outermost it deletes the nest, otherwise it steps on or starts the next iteration. |
| SequencerModel.Sequencer.EmulateStep | util/trace/sequencer.py:78-188 | One call changes the fields as the state transformer `Emulate`, about which everything below is proved, and returns its issue, loop status included; it raises exactly when `Emulate` does. |
| SequencerModel.Sequencer.TerminateCheck | util/trace/sequencer.py:190-200 | Warns exactly when a configuration or an instruction is left. |
| SequencerStep.EmulateInNest | util/trace/sequencer.py:94-188 | At any point of any nest one call returns the head of what is left of the nest's trace, with the active loop's FREP, iteration and index, and leaves the closed-form state of the next point, or only what is queued behind the nest. |
| SequencerProgram.StepLoaded | util/trace/sequencer.py:78-188 | On a fully loaded program one call issues the head of what is left and leaves the state of the tail. |
| SequencerQueue.EmulatePart | util/trace/sequencer.py:78-188 | A call that succeeds on a partly loaded state returns the same issue as on the loaded one and stays part of it. |
| SequencerTiming.SucceedsExactly | util/trace/sequencer.py:85-100 | In any partly loaded state an issue succeeds exactly when the next instruction is offloaded and the loops it enters are decoded. |
| SequencerLabels.PlaceOf | util/trace/sequencer.py:78-188 | The place of the m-th issue is a position of the stream that holds the instruction issued. |
| SequencerTheorems.RunsExactly | util/trace/sequencer.py:31-188 | For every program and interleaving, no call raises exactly when every issue comes after the offload at its place and the decoding of the FREPs before that place. |
| SequencerTheorems.RunIssuesInOrder | util/trace/sequencer.py:31-188 | What a timely run shows, loop status included, is a prefix of the program's trace, which is defined by recursion on the nests alone. |
| SequencerTheorems.RunDrains | util/trace/sequencer.py:140-200 | Once everything is loaded the emulator can go on until the whole trace is shown, is then back in its initial state, and `terminate` warns exactly when something was not issued. |
| SequencerTheorems.ShowsMeaningExactly | util/trace/sequencer.py:78-188 | A drained run shows the program counters and sections of the recursive unrolling exactly when every iterating loop has an instruction before its inner loop or nothing inside it iterates. |
| SequencerTheorems.ShowsStatusExactly | util/trace/sequencer.py:94-188 | A drained run shows the unrolling with every instruction's innermost loop, that loop's iteration and the offset in its static body, and no status for single instructions, exactly when every iterating loop around another has an instruction before it. |
| SequencerTrace.TracedIsUnrolled | util/trace/sequencer.py:94-188 | What the emulator shows for a nest is the annotated unrolling exactly under that condition. |
| SequencerTheorems.TwoByTwo | util/trace/sequencer.py:101-105 | Two iterations of a loop of two instructions are shown as (0, 0), (0, 1), (1, 0), (1, 1): iteration first, offset second. |
| SequencerTheorems.InnerLoopHidden | util/trace/sequencer.py:101-138 | A loop of two iterations that is nothing but a loop of one: the instruction is issued twice, as it should be, but the second time with the status of the outer loop. |
| SequencerTheorems.ImmediateRunFails | util/trace/sequencer.py:121-138 | Two directly nested loops of two iterations around one instruction: the run ends in the initial state after three issues while the meaning has four. |
| EventUnitSafety.WorkerKeeps | sw/runtime/src/omp/eu.h:199-242 | Every step of a worker keeps its place in the protocol and its contribution to every counter. |
| EventUnitSafety.InvStep | sw/runtime/src/omp/eu.h:64-303 | Every step of any core keeps the protocol's invariant. |
| EventUnitRuns.RegionsRunExactlyOnce | sw/runtime/src/omp/eu.h:199-303 | Whenever the master is between calls every core has run exactly the regions whose team it is in, once each, in order. |
| EventUnitRuns.NeverAhead | sw/runtime/src/omp/eu.h:274-303 | At any moment a core is at most the pending region ahead, and only while `eu_run_empty` runs. |
| EventUnitRuns.WakeUpsAreNotLost | sw/runtime/src/omp/eu.h:119-132 | Interrupts are set only when every worker sleeps without one, and a clear only clears an interrupt already slept on. |
| EventUnitRuns.EventWrittenUnobserved | sw/runtime/src/omp/eu.h:253-303 | The event is written only while no worker can read it. |
| EventUnitRuns.SleepersHaveFinished | sw/runtime/src/omp/eu.h:291-297 | While the master waits for `fini_count`, a worker asleep without interrupt has run its share, and the counter counts exactly the finished workers. |
| EventUnitRuns.NoDeadlock | sw/runtime/src/omp/eu.h:64-303 | A state nobody can leave has all calls done, every region run, and workers asleep or, after `eu_exit`, returned. |
| EventUnitRuns.FuelDrops | sw/runtime/src/omp/eu.h:64-303 | Every step of any core uses up a natural number, so no run goes on for ever. |
| EventUnitRuns.Completes | sw/runtime/src/omp/eu.h:64-303 | However a run has begun, some schedule completes all calls, every core having run its share. |
| EventUnitRuns.ExitDropsPendingRegion | sw/runtime/src/omp/eu.h:181-192 | Whatever the schedules, the runs that leave with `eu_exit` at once and those that call `eu_run_empty` first end with the same work done on every core exactly when no region is pending; otherwise every core of its team has missed it. |
| EventUnitRuns.ExitLosesRegion | sw/runtime/src/omp/eu.h:181-192 | A region pushed for one core, then `eu_exit`: however the run begins, it can complete both calls without any core running anything. |
| EventUnitRuns.ForkJoinRuns | sw/runtime/src/omp/eu.h:253-303 | Regions pushed and run one after the other leave each core with exactly the jobs of the teams it is in. |
| PartialBarrier.InvStep | sw/runtime/src/sync.h:310-324 | Every step of any thread keeps the barrier's invariant, including the wrap of the 32-bit iteration. |
| PartialBarrier.NobodyLeavesEarly | sw/runtime/src/sync.h:303-324 | No thread has left more rounds than any other has entered, threads are at most one round apart, and the counter never exceeds n. |
| PartialBarrier.NobodyIsTrapped | sw/runtime/src/sync.h:310-324 | A state nobody can leave has every thread through all rounds, whatever the initial iteration number. |
| PartialBarrier.FuelDrops | sw/runtime/src/sync.h:310-324 | Every step uses up a natural number. |
| PartialBarrier.EverybodyPasses | sw/runtime/src/sync.h:310-324 | From every reachable state some schedule lets every thread through all rounds. |
| Submask.Predecessor | sw/runtime/src/sync.h:194-194 | Below a submask, `(s - 1) & mask` is the next smaller submask: none lies between. |
| Submask.WakeOrder | sw/runtime/src/sync.h:185-196 | For every 32-bit mask the loop ends and wakes, each once, exactly the clusters that agree with the base outside the mask, except its own. |
| Submask.AllSubmasks | sw/runtime/src/sync.h:91-97 | All numbers up to `size - 1` are submasks of it exactly when the size is a power of two. |
| Submask.ThreeClustersFail | sw/runtime/src/sync.h:91-97 | With three clusters, cluster 1 is not a submask of the mask. |
| ClusterBarrier.InvStep | sw/runtime/src/sync.h:208-230 | Every step of any cluster keeps the barrier's invariant when the size is a power of two. |
| ClusterBarrier.NobodyLeavesEarly | sw/runtime/src/sync.h:208-230 | No cluster has left more rounds than any other has entered, and the counter is bounded by the size. |
| ClusterBarrier.WokenOnce | sw/runtime/src/sync.h:185-230 | Every signal hits a cluster still asleep in the round just closed, and no pending clear can meet a later round's signal. |
| ClusterBarrier.FirstArrivalTrapped | sw/runtime/src/sync.h:208-230 | A cluster that is no submask of `n - 1` and arrives first never leaves, whatever happens next. |
| ClusterBarrier.PowerOfTwoPasses | sw/runtime/src/sync.h:208-230 | With a power of two a state nobody can leave has every cluster through all rounds. |
| ClusterBarrier.NeverTrapsExactly | sw/runtime/src/sync.h:208-230 | No schedule traps a cluster exactly when the communicator's size is a power of two. |
| DataMoverSafety.ClientKeepsRing | sw/runtime/src/dm.h:263-372 | Every step of the client keeps the ring holding the queued transfers as written. |
| DataMoverSafety.MoverKeepsRing | sw/runtime/src/dm.h:182-232 | Every step of the data mover keeps the ring and starts transfers only in queueing order. |
| DataMoverRuns.StartedInOrder | sw/runtime/src/dm.h:182-335 | At any moment at most four tasks are queued, the transfers started are a prefix of those queued with the descriptors the calls asked for, each started one is outstanding or completed, once, and never more are outstanding than the engine takes. |
| DataMoverMemory.StartedAsAsked | sw/runtime/src/dm.h:189-198 | Every transfer started is asked for by one of the calls, in every field. |
| DataMoverRuns.WaitsExactly | sw/runtime/src/dm.h:132-372 | Who waits for what: a copy exactly for a free slot, a wake-up for the data mover to be asleep, `dm_wait` for an empty ring and the answer, the data mover for the engine and an interrupt, and nobody for anything else. |
| DataMoverRuns.WaitMeansComplete | sw/runtime/src/dm.h:344-372 | When `dm_wait` returns, every transfer queued before it has been started and completed. |
| DataMoverMemory.WaitDelivers | sw/runtime/src/dm.h:263-372 | When `dm_wait` returns, the destination of every copy before it, 1-D and 2-D, holds what its source held at the start, and memory no copy writes is as it was, for every order of completion, if no copy writes what another reads or writes. |
| DataMoverRuns.OnlyFullRingBlocks | sw/runtime/src/dm.h:182-372 | A state nobody can leave has all calls done, or a copy waiting on a full ring with the data mover asleep. |
| DataMoverBlocking.Settles | sw/runtime/src/dm.h:182-232 | Left alone, the data mover starts everything queued, answers a request and falls asleep. |
| DataMoverBlocking.CopyCompletes | sw/runtime/src/dm.h:263-335 | A copy into a ring with room completes while the data mover sleeps. |
| DataMoverBlocking.NeverBlocksExactly | sw/runtime/src/dm.h:263-372 | No schedule blocks a client for good exactly when it makes at most four copies between two wake-ups. |
| DataMoverProgress.Completes | sw/runtime/src/dm.h:182-372 | However a run of such a client has begun, some schedule completes all its calls. |
| DataMoverBlocking.FiveCopiesBlock | sw/runtime/src/dm.h:270-274 | Five copies in a row: a schedule after which nobody can step and a copy has not returned. |
| Ssr.Config.Loop1D | sw/runtime/src/ssr.h:178-185 | The registers of one dimension are written as `Relative` prescribes; the others keep theirs. |
| Ssr.Config.Loop2D | sw/runtime/src/ssr.h:195-206 | Likewise for two dimensions, with the running offset modulo 2^32. |
| Ssr.Config.Loop3D | sw/runtime/src/ssr.h:218-234 | Likewise for three dimensions. |
| Ssr.Config.Loop4D | sw/runtime/src/ssr.h:248-268 | Likewise for four dimensions. |
| Ssr.AdvanceIsNext | hw/snitch_ssr/src/snitch_ssr_addr_gen.sv:296-362 | An advance of the counters goes to the next iteration of the nest, adds the distance to it, and ends exactly after the last. |
| Ssr.StreamIsLoopNest | sw/runtime/src/ssr.h:9-16 | For any number of dimensions, bounds of at least one, strides and start, the k-th address is that of the nest's k-th iteration modulo 2^32, and the stream is exactly as long as the nest. |
| Ssr.SetUpStream | sw/runtime/src/ssr.h:178-268 | The same for the registers the setup functions write, for all bounds from 1 to 2^32. |
| VexpfAsm.Fp0Body | sw/kernels/misc/exp/vexpf_optimized_asm.h:7-43 | Four elements in, four shifted inputs on `ft1` and four polynomials on `ft2`. |
| VexpfAsm.Fp0Loop | sw/kernels/misc/exp/vexpf_optimized_asm.h:7-43 | Repeated, the body maps the whole input stream and consumes it to the last element. |
| VexpfAsm.IntBody | sw/kernels/misc/exp/vexpf_optimized_asm.h:45-85 | The two half-word stores of each lane make the table entry of the low five bits plus the index times 2^47, modulo 2^64. |
| VexpfAsm.IntLoop | sw/kernels/misc/exp/vexpf_optimized.h:234-241 | The loop does so for every element of a batch. |
| VexpfAsm.ScaleIsPower | sw/kernels/misc/exp/exp.c:70-71 | With a table that holds, for each of 32 fractions, the word of its power of two less the fraction's own contribution, that sum adds the integer part to the exponent field. |
| VexpfAsm.ExpMeans | sw/kernels/misc/exp/exp.c:58-79 | With the other operations exact, an element is the cubic polynomial in what the scaled input differs from its rounding, times the scaled power of two. |
| VexpfAsm.Fp1Loop | sw/kernels/misc/exp/vexpf_optimized_asm.h:87-91 | Output element k is the product of the input elements k. |
| VexpfAsm.FusedBody | sw/kernels/misc/exp/vexpf_optimized_asm.h:93-133 | One group of the fused body consumes eight and four elements and produces the three groups of four in this order: shifted inputs, polynomials, products. |
| VexpfAsm.FusedLoop | sw/kernels/misc/exp/vexpf_optimized_asm.h:93-133 | The same for every group, all streams consumed exactly. |
| VexpfBuffers.ReadsUnwritten | sw/kernels/misc/exp/vexpf_optimized.h:74-257 | No word an iteration reads is written in it. |
| VexpfBuffers.ExecuteAssigns | sw/kernels/misc/exp/vexpf_optimized.h:74-257 | Operations of one iteration in any order on the live memory act as if at once on the old values. |
| VexpfPipeline.PipeStep | sw/kernels/misc/exp/vexpf_optimized.h:74-257 | One iteration moves every batch one stage on. |
| VexpfPipeline.PipelineIsMap | sw/kernels/misc/exp/vexpf_optimized.h:74-257 | For every number of batches, batch size divisible by four and interleaving within iterations the output is the reference implementation of every element. |
| VexpfStreams.ReadStream | sw/runtime/src/ssr.h:9-16 | Popping a whole stream reads the words its addresses name, in order. |
| VexpfStreams.WriteStream | sw/runtime/src/ssr.h:9-16 | Pushing a whole stream writes those words and no other. |
| VexpfStreams.WovenAt | sw/kernels/misc/exp/vexpf_optimized.h:157-165 | Element k of the fused 3-D stream is the word of the right buffer and index, and the stream has exactly that many elements. |
| VexpfKernel.FusedPlace | sw/kernels/misc/exp/vexpf_optimized.h:19-41 | The allocation order puts each group of the fused streams into the buffer it belongs to. |
| VexpfKernel.ResultFollows | sw/kernels/misc/exp/vexpf_optimized.h:35-37 | Because b1 and b2 precede b0, six buffers behind `kd` lies the result buffer of the batch two behind. |
| VexpfKernel.Fp0Phase | sw/kernels/misc/exp/vexpf_optimized.h:112-145 | The FP0 phase performs exactly the iteration's floating-point operations. |
| VexpfKernel.FusedPhase | sw/kernels/misc/exp/vexpf_optimized.h:147-192 | So does the fused phase, through its two woven streams. |
| VexpfKernel.Fp1Phase | sw/kernels/misc/exp/vexpf_optimized.h:194-221 | So does the FP1 phase. |
| VexpfKernel.IntPhase | sw/kernels/misc/exp/vexpf_optimized.h:223-248 | The INT phase performs exactly the iteration's integer operations. |
| VexpfKernel.DmaIn | sw/kernels/misc/exp/vexpf_optimized.h:79-91 | The load performs exactly the iteration's loads. |
| VexpfKernel.DmaOut | sw/kernels/misc/exp/vexpf_optimized.h:93-105 | The store performs exactly the iteration's stores. |
| VexpfLoop.AllocateBuffers | sw/kernels/misc/exp/vexpf_optimized.h:26-41 | The thirteen buffers are consecutive, in allocation order. |
| VexpfLoop.Allocator.Alloc | sw/runtime/src/alloc_v2.h:74-82 | Returns the aligned next address and moves past the buffer. |
| VexpfLoop.FpPhases | sw/kernels/misc/exp/vexpf_optimized.h:112-221 | In every iteration the guards pick the phase that performs the floating-point operations, the indices rotate on, and the 3-D configuration written in iteration 3 stays valid as long as it is used. |
| VexpfLoop.Vexpf | sw/kernels/misc/exp/vexpf_optimized.h:12-259 | Whatever memory held, the output ends up as the reference implementation (exp.c:58-79) of every input element. |
| StencilDirect.StarCell | sw/saris/stencils/istc.par.hpp:105-112 | A cell of the direct star kernel is the weighted sum over its points. |
| StencilDirect.BoxCell | sw/saris/stencils/istc.par.hpp:128-133 | A cell of the direct box kernel is the weighted sum over its points. |
| StencilDirect.DirectSweep | sw/saris/stencils/istc.par.hpp:103-114 | A core computes exactly the cells of its residue classes and no other. |
| StencilDirect.DirectStep | sw/saris/stencils/istc.par.hpp:103-115 | In any order of the cores a time step computes every interior cell from the old grid. |
| StencilMeaning.StepMeans | sw/saris/stencils/istc.par.hpp:103-135 | A time step leaves every interior cell as the weighted sum of the cells around it in the plane, those up to the radius left, right, above and below or the square, and every other cell as it was. |
| StencilIssr.StarTables | sw/saris/stencils/istc.issr.hpp:416-444 | The index tables and coefficients of a star list its points in matching order. |
| StencilIssr.BoxTables | sw/saris/stencils/istc.issr.hpp:496-520 | Likewise for a box. |
| StencilIssr.Block | sw/saris/stencils/istc.issr.hpp:455-475 | The four accumulators of a block are the weighted sums of its four cells. |
| StencilIssr.CoefficientStream | sw/saris/stencils/istc.issr.hpp:450-454 | The registers written for a row make the address generator walk the coefficient table once per block, and no further. |
| StencilIssr.PopCoefficients | sw/saris/stencils/istc.issr.hpp:445-475 | Popped from that generator a block receives each coefficient four times, in the order of its points. |
| StencilSweep.BlockCount | sw/saris/stencils/istc.issr.hpp:450-452 | For every offset, even or odd, the bound written for the coefficient stream is the number of blocks of the row that do not stick out of the interior. |
| StencilSweep.IssrRow | sw/saris/stencils/istc.issr.hpp:450-476 | For every offset: a row is computed, with its coefficient stream exhausted at the end, exactly when none of its blocks sticks out. |
| StencilSweep.IssrSweep | sw/saris/stencils/istc.issr.hpp:449-479 | For every core grid: unless a block sticks out, a core computes exactly the cells of the blocks its rotating offset visits and leaves the rotated offsets. |
| StencilCores.PartIs | sw/saris/stencils/istc.issr.hpp:448-481 | As long as the offsets in use are even, a cell belongs to the one core whose position the rotations lead to. |
| StencilCores.EachOnceExactly | sw/saris/stencils/istc.issr.hpp:448-481 | Every cell of the interior is computed by exactly one core in every time step if and only if the core grid is balanced: an even number of cores along y or one time step, and along x or no core that comes to a second row; and exactly then no block sticks out. |
| StencilCores.OddGridFails | sw/saris/stencils/istc.issr.hpp:477-479 | One by two cores on a 4 by 4 interior, second time step: a cell is computed by nobody, and a block reaches into the halo, with coefficients for one block less. |
| StencilKernels.InitialOffsets | sw/saris/stencils/istc.common.hpp:51-66 | On every core grid the cores start with the offsets their positions demand. |
| StencilKernels.IssrStep | sw/saris/stencils/istc.issr.hpp:448-481 | In any order of the cores a time step computes every interior cell and moves every core to its next offsets, unless a block sticks out. |
| Stencil.EvolutionUnique | sw/saris/stencils/istc.par.hpp:97-138 | The grids after every time step are determined by the first ones. |
| StencilKernels.KernelsAgree | sw/saris/stencils/istc.issr.hpp:406-559 | For every radius, even grid size, number of steps, grids of cores and orders of the cores: the indirect star and box kernels run without a block sticking out exactly on balanced core grids, and then leave the same two grids as the direct ones. |
| Lcg.InitN | sw/kernels/misc/prng/lcg.h:35-52 | The streams start at the first n states, with the multiplier and increment of n steps. |
| Lcg.Leap | sw/kernels/misc/prng/lcg.h:36-45 | One step with the leapfrog constants is n steps of the base generator. |
| Lcg.StreamHolds | sw/kernels/misc/prng/lcg.h:30-52 | Stream i after k calls holds element i + 1 + k n of the base sequence. |
| Lcg.StreamsInterleave | sw/kernels/misc/prng/lcg.h:30-52 | Dealt round robin the streams are the sequential generator. |
| Xoshiro.Xoshiro128p.NextValue | sw/kernels/misc/prng/xoshiro128p.h:29-45 | The fields change by the transition `Next`; the result is the sum of the old first and last word. |
| Xoshiro.NextBits | sw/kernels/misc/prng/xoshiro128p.h:29-45 | Says for every bit of the four words of the new state which bits of the old one it is the exclusive-or of. |
| Xoshiro.Xoshiro128p.JumpAhead | sw/kernels/misc/prng/xoshiro128p.h:50-74 | The state becomes the exclusive-or of the states after those numbers of steps k < 128 whose bit of the 128-bit constant 0x77f2db5b6fa035c3f542d2d38764000b is set. |
| Xoshiro.BitOf | sw/kernels/misc/prng/xoshiro128p.h:57-67 | The bit tested in word i is bit 32 i + b of that constant. |
| Xoshiro.NextInvertible | sw/kernels/misc/prng/xoshiro128p.h:29-45 | The transition has an inverse on both sides. |
| Xoshiro.NextLinear | sw/kernels/misc/prng/xoshiro128p.h:29-45 | The transition is linear over exclusive-or. |
| Xoshiro.JumpLinear | sw/kernels/misc/prng/xoshiro128p.h:50-74 | So is the jump, after any number of its bits. |
| Xoshiro.JumpCommutes | sw/kernels/misc/prng/xoshiro128p.h:50-74 | A jump commutes with any number of steps, from every state. |
| Xoshiro.InitN | sw/kernels/misc/prng/xoshiro128p.h:76-85 | Generator i is i jumps from the first, each an object of its own. |
| Xoshiro.StreamsStayApart | sw/kernels/misc/prng/xoshiro128p.h:76-85 | However far neighbouring streams are advanced together, they stay one jump apart. |
| StaticScheduleCode.ForStaticInit | sw/runtime/src/omp/kmp.c:237-297 | Leaves the bounds, stride and flag of the code's 32-bit arithmetic, or fails on a remainder by zero. |
| StaticScheduleCode.PartitionsExactly | sw/runtime/src/omp/kmp.c:272-288 | Whenever the code gets the length right, its 32-bit ranges partition the loop exactly when the step is one, the iterations divide evenly, or there are fewer iterations than threads, and no empty share wraps around. |
| StaticScheduleCode.RightByCoincidence | sw/runtime/src/omp/kmp.c:247-283 | Three iterations the code takes for 2^32 - 1: the ranges partition the loop all the same. |
| StaticScheduleCode.UnscaledRemainderFails | sw/runtime/src/omp/kmp.c:278-283 | Five iterations of step two on two threads are not partitioned. |
| StaticSchedule.UnitSteps | sw/runtime/src/omp/kmp.c:272-287 | With unit steps the shares differ by at most one and exactly the owner of the last iteration is flagged. |
| StaticScheduleCode.FlagByCode | sw/runtime/src/omp/kmp.c:283-287 | Where the ranges partition the loop, the flag marks the thread that executes the last iteration, but only if its value is the upper bound, and in a decreasing loop only if that is all the thread runs; and otherwise only a thread without iterations whose wrapped range happens to end at the upper bound. |
| StaticScheduleCode.FlagMissedGoingDown | sw/runtime/src/omp/kmp.c:283-287 | Two iterations counting down on one thread: it runs the last one and is not flagged. |
| StaticSchedule.ChunksPartition | sw/runtime/src/omp/kmp.c:261-266 | With a chunk size iteration k is in one chunk of one thread, the (k / chunk)-th dealt round robin. |
| StaticScheduleCode.FlagExactly | sw/runtime/src/omp/kmp.c:267-268 | When the bounds fit in 32 bits, exactly the owner of the last iteration is flagged if and only if the lower bound is a multiple of the span and the upper bound has the step's sign, is a multiple of the span, or there is one thread. |
| StaticScheduleCode.FlagMissed | sw/runtime/src/omp/kmp.c:267-268 | One to four in chunks of two on two threads: the second runs the last iteration and nobody is flagged. |
| StaticScheduleCode.FirstChunkExactly | sw/runtime/src/omp/kmp.c:263-266 | As long as the stride fits, a thread's first chunk holds the right iterations exactly when its lower bound fits, and its upper bound unless the chunk lies behind the loop. |
| StaticScheduleCode.ChunkOverflows | sw/runtime/src/omp/kmp.c:263-266 | Sixteen iterations up to the largest `int` in one chunk: the second thread's chunk starts at the smallest. |
| StaticScheduleCode.StrideOverflows | sw/runtime/src/omp/kmp.c:263-268 | An input whose stride is stored as 0, by which the code takes a remainder. |
| StaticScheduleCode.LengthOverflows | sw/runtime/src/omp/kmp.c:247-287 | The loop over all `int` values: every thread is given all of it, which is right for one thread only. |
| StaticScheduleCode.EmptyShareOverflows | sw/runtime/src/omp/kmp.c:281-287 | A loop at the largest `int` on two threads: the empty share wraps around to all values, so the loop is not partitioned. |
| DmaTrace.DmaTransactions.UpdateDma | util/trace/gen_trace.py:649-669 | One instruction changes the list of transactions as `Update` prescribes. |
| DmaTrace.CopiesRecorded | util/trace/gen_trace.py:644-669 | The list holds every copy, 2-D ones with the repetition count in force and 1-D ones with 1, and a placeholder with that count: a 1-D copy never disturbs it. |
| DmaTrace.BytesRecorded | util/trace/gen_trace.py:649-706 | Each copy of the instruction trace is one expected transfer, in order: a 2-D copy of its size times the last `dmrep`, a 1-D copy of its size. |
| DmaTrace.EvaluateTrace | util/trace/gen_trace.py:684-732 | The loop over the trace computes `Evaluate` on what the recorded transactions move, and raises exactly when it does. |
| DmaTrace.EvaluateKeeps | util/trace/gen_trace.py:684-732 | On bursts that add up to the transfers, and no sooner, the loop does not raise, and its counters and records are exact. |
| DmaTrace.TransfersInOrder | util/trace/gen_trace.py:697-732 | Transfer j is completed exactly when its bursts are answered, in issue order, from its first request to its last response. |
| DmaTrace.CompletedOrdered | util/trace/gen_trace.py:697-732 | With nondecreasing times completed transfers start and end in issue order. |
| DmaTrace.ActiveCycles | util/trace/gen_trace.py:740-752 | Computes the cycles and bytes as the recursive `Active` and the sum of sizes. |
| DmaTrace.ActiveIsBusy | util/trace/gen_trace.py:738-750 | In issue order the cycles counted are as many as the cycles in which some transfer is active. |
| DmaTrace.EvalDmaMetrics | util/trace/gen_trace.py:672-757 | The whole function computes `Evaluated` on what the recorded transactions move, and raises exactly when it does. |
| DmaTrace.MetricsExactly | util/trace/gen_trace.py:733-757 | On such traces, empty transfers included, the metrics are computed exactly when the last response of every finished transfer that moves anything is later than its first request. |
| DmaTrace.TransferRated | util/trace/gen_trace.py:733-737 | Where they are computed there is one entry for each finished transfer: its cycles run from its first request to its last response, and its bandwidth times these cycles is what it moves, given exactly if it moves anything. |
| DmaTrace.AggregateBandwidth | util/trace/gen_trace.py:738-757 | The aggregate bandwidth is the bytes of the completed transfers over the number of active cycles. |
| DmaTrace.SameCycleRaises | util/trace/gen_trace.py:735-737 | One burst requested and answered in the same cycle makes the function raise. |

## Left out

- FREP nests in which a loop directly contains two loops: the emulator stores one configuration for each depth, so a sibling would overwrite it.
- Instruction and annotation strings of the sequencer, the trace text parser and the annotation tool.
- `SequencerTheorems.RunsExactly`: assumes that a FREP is decoded before the next one is offloaded, as the trace tool does.
- The variants of the event unit, the data mover and the barriers that use the CLINT, multicast or the hardware reduction.
- `dm_exit`, `dm_wait_ready` and several clients of one data mover: the fill check is made before the lock is taken.
- `DataMoverMemory.WaitDelivers`: a transfer reads and writes memory at once when it completes; copies that overlap, whose outcome depends on the engine, are excluded.
- `snrt_global_reduction_dma` and the host command queue of the NPU firmware.
- The low bits that the address generator masks off strides, and the repetition register of the stream registers, whose effect is modelled as the repeated delivery of coefficients.
- How the indirection hardware fetches indices: an indirect stream reads the word at its base plus the next index. The `__rt_sssr` functions behind the stencils' streams are not part of this model.
- `StencilKernels.KernelsAgree`: covers the 2-D star and box kernels whose index tables fit 16 bits; the 3-D kernels repeat the scheme with a third axis. Where a block sticks out the run ends in the model: in the code the block waits for coefficients that do not come, or stores into the halo.
- Elements of the exponential behind the last whole batch, which the kernel does not process; rounding, and the accuracy of its polynomial.
- Seeding of xoshiro128+ by splitmix64, and the claim that one jump equals 2^64 steps, which is about the jump constant as an element of a finite field.
- `StaticScheduleCode.PartitionsExactly`: asks that the code gets the length of the loop right (`LengthOk`), for the reason given above.
- `StaticScheduleCode.FlagExactly`: asks that the bounds and distances fit in 32 bits (`ChunkedFits`), for the reason given above.
- Loops that do not run at all, and the other schedule kinds of the OpenMP runtime.
- `axpy`, `vlogf`, `dot` and the simple allocators, which are easier instances of what is modelled.

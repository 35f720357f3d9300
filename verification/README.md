# Multicore pipeline simulator: model and proofs

The repository simulates a small multicore computer: a five-stage pipeline that runs MIPS-like programs, virtual memory
with paging, swap and an L1 cache, four cores that share a ready queue under four scheduling policies, an IO manager, and
an assembler that loads programs from JSON. This project models these parts in Dafny and proves what they are for.

- **Pipeline** (`Words`, `Alu`, `AluLaws`, `Isa`, `IsaLaws`, `Pipeline`, `ControlUnit`, `HazardLaws`, `PipelineSlots`,
  `PipelineRefinement`, `PipelineSchedule`, `PipelineLimits`, `Slices`, `SlicingLimits`). `Isa` executes one
  instruction at a time; `ControlUnit` is the class that runs a time slice of the pipeline in place, proved method by
  method against the functions of `Pipeline`. `AluLaws` and `IsaLaws` say what arithmetic and instructions mean by
  laws between them, and `HazardLaws` shows that the hazard unit holds up exactly the instructions whose result
  depends on what it waits for, save a listed few. `PipelineSlots` says what a slice does to any program whatever: it
  equals a machine that runs its slots one after the other, in which a store takes effect one EX late and a slot
  fetches its word from the memory that the stores of the fourth slot before it and earlier ones have left. A slice
  equals some number of sequential steps, for every state and quantum, as long as no store hits a word that the next
  three slots fetch and the instruction directly behind `sw rt` does not change `rt` in EX. Over all slicings of a
  program whose stores spare the words about to be fetched, the second condition is exact. A process is finished at
  its stop word only, however it is sliced, if and only if its sequential run never jumps over a stop word. A program
  whose sequential run meets these conditions is called faithful; its executions do not depend on how they are sliced.
- **Memory** (`CacheSpec` in `Cache.dfy`, `Paging`, `PagingProofs`, `Coherence`, `FlatMemory`, `CacheRuns`, `Replacement`,
  `Accounting`, `MemoryLimits`, `Footprint`, `SharedMemory`, `SharedFootprint`, `MemoryManager`). `MemoryManager` holds the
  classes that work in place on arrays, proved against the functions of `Paging`. Paging keeps the words of every page,
  the cache agrees with RAM, and the whole is a flat memory per process; where the code falls short of this (a disk that
  does not take the victim's words, a reload under cached lines, a write undone by its own write-back of 0xFFFFFFFF) the
  exact condition is proved for every state a run can reach, and `MemoryLimits` has a run from the constructed memory in
  which it happens. In every run, room on the disk or not, tables are inverse to each other, frames are used in rotation
  and swap slots are disjoint. `SharedMemory` puts pipeline and memory together: the stages of the slices of all processes
  interleave on one memory manager, and each process runs as if it were alone on a flat memory. `Footprint` and
  `SharedFootprint` show that processes whose pages all fit into RAM run into none of the three.
- **Scheduling** (`ProcessControl` in `Process.dfy`, `ReadyQueue`, `Scheduler`, `IoService`, `Protocol`, `ProtocolPlaces`,
  `ProtocolStatus`, `ProtocolQueue`, `ProtocolExecution`, `ProtocolResults`, `ProtocolCompletion`). `Scheduler` and
  `IoService.IoManager` are the classes; `Protocol` is the system of cores, IO worker and IO manager as a step machine
  with one step per lock region, in which a core's slice is the pipeline slice of `Slices` on a flat memory private to the
  process. All results hold for every interleaving, policy, quantum and number of cores, and for every behaviour of the
  devices. A run is any sequence of steps; a step that is not possible does nothing.
- **The whole system** (`WholeSystem`, `WholeFootprint`, `WholeCompletion`). The cores run their slices stage by stage on
  the memory manager they share, interleaved with all steps of scheduler, IO worker and IO manager. Every such run whose
  memory requests are served flatly is a run of `Protocol`, so what is proved there holds here; results do not depend on
  the schedule, and runs of processes that fit into RAM, of which nothing is asked but what can be checked on each alone,
  can always be completed.
- **Assembler** (`Bits`, `Assembler`, `AssemblerProofs`). `Assembler.Loader` is the two-pass loader; the image it leaves is
  exact, decoding gives back what was encoded, and control transfers reach their labels.

Fields named as history variables (`loads`, `registered`, `completed`, `place`, `slices`, `front`, `started`, `last`,
`done`, `unmapped`) are not in the program; no step depends on them.

Where the code and its own comments disagree, the model follows the code:

- A page is 32 bytes, 8 words (src/memory/MemoryManager.hpp:14 speaks of 32 words).
- Only RR preempts (src/cpu/Scheduler.cpp:76 also names Priority, src/cpu/Scheduler.hpp:29 calls RR non-preemptive).
- The limit of main memory is in bytes, but the same number is taken as its size in words
  (src/memory/MemoryManager.cpp:7), so that RAM has more words than its frames use.
- The assembler writes `print` and `blt` with opcodes the decoder does not read that way
  (src/parser_json/parser_json.cpp:19-20, src/cpu/CONTROL_UNIT.cpp:112-115).
- Loads and stores ignore their base register (src/cpu/CONTROL_UNIT.cpp:371-375, src/cpu/CONTROL_UNIT.cpp:408-412).

## Model

| member | source | states |
|---|---|---|
| Alu.TruncDivRemainder | src/cpu/ULA.cpp:95 | division rounds toward zero: the remainder is smaller than the divisor and has the dividend's sign |
| Alu.ALU.Calculate | src/cpu/ULA.cpp:19-176 | the result is the sum, difference, product, quotient or comparison reduced to 32 bits, the very number unless overflow is reported, which happens exactly when it does not fit or the divisor is 0 |
| AluLaws.Addition | src/cpu/ULA.cpp:36-46 | 0 is neutral, operands may be exchanged, adding one is the successor modulo 2^32 |
| AluLaws.Brackets | src/cpu/ULA.cpp:36-46 | so is the grouping of three summands, whatever overflows in between |
| AluLaws.Subtraction | src/cpu/ULA.cpp:48-58 | subtraction and addition undo each other, with or without overflow |
| AluLaws.Multiplication | src/cpu/ULA.cpp:60-70 | 1 is neutral, 0 annihilates, factors may be exchanged, and products distribute over sums modulo 2^32 |
| AluLaws.Division | src/cpu/ULA.cpp:72-99 | quotient times divisor and a remainder of the dividend's sign smaller than the divisor make the dividend; dividing by 0 gives 0, and the least number by -1 itself |
| AluLaws.Comparisons | src/cpu/ULA.cpp:108-134 | exactly one of less, equal and greater holds, unequal is not equal, and less is the order of signed numbers |
| IsaLaws.FieldsMakeWord | src/cpu/CONTROL_UNIT.cpp:67-85 | opcode, registers and immediate are fields of the word and together make it up |
| IsaLaws.IdentifiesExactly | src/cpu/CONTROL_UNIT.cpp:87-118 | a word denotes an operation if and only if it has its opcode and function code, number by number; any other word is a no-op |
| IsaLaws.SignExtension | src/cpu/CONTROL_UNIT.cpp:168-170 | the signed 16-bit number that is congruent to the immediate modulo 2^16 |
| IsaLaws.DecodeLosesNothing | src/cpu/CONTROL_UNIT.cpp:148-187 | the word can be put together again from the decoded operands of every operation |
| IsaLaws.EffectIsLocal | src/cpu/CONTROL_UNIT.cpp:347-415 | an instruction changes no register but its destination, never $zero, memory only by sw at its address, output only by print, and goes elsewhere only by branch or jump |
| IsaLaws.ZeroStays | src/cpu/CONTROL_UNIT.cpp:240-293 | $zero keeps its value in every run |
| IsaLaws.LoadAfterStore | src/cpu/CONTROL_UNIT.cpp:364-415 | lw of an address just stored by sw gives the stored register |
| IsaLaws.LoadsHalves | src/cpu/CONTROL_UNIT.cpp:240-272 | lui and addi load every 32-bit number given by its halves |
| IsaLaws.LoadsUnsigned | src/cpu/CONTROL_UNIT.cpp:364-401 | li loads its immediate unsigned |
| IsaLaws.ImmediateIsOperand | src/cpu/CONTROL_UNIT.cpp:240-272 | addi and addiu add, and slti compares with, the sign-extended immediate like their register counterparts |
| IsaLaws.BranchesCompare | src/cpu/CONTROL_UNIT.cpp:296-342 | which comparison takes each branch, and print prints the signed value of its register |
| IsaLaws.EmptyMemoryStops | src/cpu/CONTROL_UNIT.cpp:132-138 | a process on empty memory stops at address 10004 and nowhere before |
| ControlUnit.ControlUnit.Fetch | src/cpu/CONTROL_UNIT.cpp:126-146 | state after a fetch, with both ways of ending the program |
| ControlUnit.ControlUnit.Decode | src/cpu/CONTROL_UNIT.cpp:148-237 | slot, PC and stall after decoding with hazard detection on the two slots before |
| HazardLaws.HazardDestExactly | src/cpu/CONTROL_UNIT.cpp:120-124 | the destination the hazard unit names is exactly the register that some execution of the instruction changes, or one that it copies to itself |
| HazardLaws.HazardReadsExactly | src/cpu/CONTROL_UNIT.cpp:189-203 | it names a register as read if and only if in some state another value of that register changes the result, or the wait is one of a listed few in vain: the ignored base of lw and sw, a register compared with or subtracted from itself, 0 added in place, results for $zero |
| HazardLaws.ConflictExactly | src/cpu/CONTROL_UNIT.cpp:205-236 | an instruction waits for an earlier one if and only if that one sets a register it needs or waits for in vain |
| HazardLaws.BubblesExactly | src/cpu/CONTROL_UNIT.cpp:189-236 | in every slice a slot becomes a bubble if and only if it is not squashed and must wait for one of the two slots before it |
| ControlUnit.ControlUnit.ExecuteImmediate | src/cpu/CONTROL_UNIT.cpp:240-272 | register written by an immediate operation |
| ControlUnit.ControlUnit.ExecuteArithmetic | src/cpu/CONTROL_UNIT.cpp:274-293 | register written by three-register arithmetic |
| ControlUnit.ControlUnit.ExecutePrint | src/cpu/CONTROL_UNIT.cpp:296-312 | print request, blocking and early end of the slice |
| ControlUnit.ControlUnit.ExecuteLoop | src/cpu/CONTROL_UNIT.cpp:314-342 | taken branches redirect the PC and squash the slot behind |
| ControlUnit.ControlUnit.Execute | src/cpu/CONTROL_UNIT.cpp:347-361 | state after EX of any slot |
| ControlUnit.ControlUnit.MemoryAccess | src/cpu/CONTROL_UNIT.cpp:364-401 | state after MEM of any slot |
| ControlUnit.ControlUnit.WriteBack | src/cpu/CONTROL_UNIT.cpp:404-415 | state after WB of any slot |
| ControlUnit.ControlUnit.Redirect | src/cpu/CONTROL_UNIT.cpp:332-341 | PC, squashed slot and cleared IR after a taken branch |
| ControlUnit.ControlUnit.ClockTick | src/cpu/CONTROL_UNIT.cpp:428-457 | one round of the loop: the stages from WB to IF, then the counters |
| ControlUnit.ControlUnit.Core | src/cpu/CONTROL_UNIT.cpp:417-463 | the slice loop terminates for every quantum in the state of the pipeline specification |
| PipelineRefinement.ExecIsStages | src/cpu/CONTROL_UNIT.cpp:347-415 | EX, MEM and WB of an instruction alone compose to its sequential effect |
| PipelineRefinement.StoreCommutes | src/cpu/CONTROL_UNIT.cpp:404-415 | a store in WB commutes with EX of the slot directly behind if that leaves the stored register as it is |
| PipelineRefinement.IssueOrStall | src/cpu/CONTROL_UNIT.cpp:189-236 | a decoded slot is issued, or becomes a bubble and the PC goes back to the instruction, which is issued after at most two bubbles |
| PipelineRefinement.TickInv | src/cpu/CONTROL_UNIT.cpp:428-457 | every clock tick keeps the slots in flight equal to the next sequential instruction, a bubble or a squashed slot |
| PipelineRefinement.RunInv | src/cpu/CONTROL_UNIT.cpp:428-457 | the whole slice loop keeps that correspondence until the pipeline is empty |
| PipelineRefinement.SliceRefines | src/cpu/CONTROL_UNIT.cpp:126-463 | a slice whose stores spare the next fetches and are not late leaves registers, memory, PC and printed values exactly as the n instructions it retires do one at a time; at most two of three slots are lost, and the program is ended only by a stop word that was reached or jumped over |
| PipelineSlots.SliceIsSlots | src/cpu/CONTROL_UNIT.cpp:417-463 | for every program, without condition: the slots of a slice follow from its start one by one, each fetched from memory as the stores of the fourth slot before it and earlier ones left it, held up or squashed by the slots before it; registers, memory and output are those after running them in order with stores one EX late, the PC is where the next slot would fetch, and the program is ended exactly when the last slot fetched a stop word |
| PipelineSlots.FirstFourWords | src/cpu/CONTROL_UNIT.cpp:428-444 | the first four slots of a slice run the words memory held when it began, whatever they store |
| PipelineSlots.SliceExecutesSlots | src/cpu/CONTROL_UNIT.cpp:428-444 | a slice in which no slot changes in EX what the store directly before it stores executes its slots in order, even if it stores into its own code |
| PipelineSlots.SlotsIssue | src/cpu/CONTROL_UNIT.cpp:189-236 | for every program, the first slot takes its word on to EX, of any three slots in a row one does, and so does at least a third of them |
| PipelineSlots.SliceIssues | src/cpu/CONTROL_UNIT.cpp:417-463 | so it is for the slots of every slice |
| PipelineSchedule.StageGuards | src/cpu/CONTROL_UNIT.cpp:429-445 | which slots pass which stage at each tick of fetching and draining |
| PipelineSchedule.FetchAddressed | src/cpu/CONTROL_UNIT.cpp:126-146 | a tick that fetches leaves in MAR the address of the word in IR, and the PC behind it unless the word ends the program |
| PipelineSchedule.SliceCost | src/cpu/CONTROL_UNIT.cpp:428-461 | F fetches cost F + 4 cycles and 5 F stage passes, with F at least 1 and at most the quantum or 1, and the slice ends by stop word, quantum or print only |
| PipelineLimits.HazardFreeSlice | src/cpu/CONTROL_UNIT.cpp:189-236 | after any number of ticks of every slice no slot that was decoded reads a register, $zero excepted, that either of the two slots before it writes |
| PipelineLimits.TwoSlotSlice | src/cpu/CONTROL_UNIT.cpp:417-463 | registers, memory and PC after a slice of two slots, without any precondition on the program |
| PipelineLimits.JumpOverStopFinishes | src/cpu/CONTROL_UNIT.cpp:139-143 | a taken jump over a stop word finishes the process although the program goes on |
| PipelineLimits.JumpOverStopExactly | src/cpu/CONTROL_UNIT.cpp:139-143 | a slice that starts with a jump over a stop word finishes the process if and only if its quantum is above one |
| PipelineLimits.LateStoreExactly | src/cpu/CONTROL_UNIT.cpp:404-415 | in a slice of two, a store and the word fetched behind it act as one after the other if and only if EX of the second leaves the stored register unchanged |
| PipelineLimits.StorePairExactly | src/cpu/CONTROL_UNIT.cpp:404-415 | the two slots equal two sequential steps, the store hitting the second word or not, if and only if moreover the word fetched has the effect of the word in memory after the store |
| PipelineLimits.StoreIntoCodeMissed | src/cpu/CONTROL_UNIT.cpp:428-444 | a store to the word directly behind it is missed: the slice runs the word it has fetched |
| PipelineLimits.LoopReportedFinished | src/cpu/CONTROL_UNIT.cpp:139-143 | an endless loop before `end` is reported finished |
| PipelineLimits.StoreSeesNextResult | src/cpu/CONTROL_UNIT.cpp:404-415 | `sw` followed by `addi` of the same register stores the new value |
| Slices.WellFormedIsSafe | src/cpu/CONTROL_UNIT.cpp:126-146 | a text with closed control, no store into code, no EX write of a stored register directly behind the store and no stop word behind a jump satisfies all conditions in every run |
| Slices.DispatchRefines | src/cpu/CONTROL_UNIT.cpp:417-463 | a dispatch retires instructions in sequence, no more than its quantum and at least one unless it finishes, which happens at a stop word or after a jump over one |
| Slices.DispatchesRefine | src/main.cpp:227-273 | any sequence of dispatches is a number of sequential steps |
| Slices.FinishesInSequence | src/cpu/CONTROL_UNIT.cpp:417-463 | a process whose sequential run stores safely and never jumps over a stop word is, once finished, in the final state of that run |
| Slices.QuantumIndependence | src/cpu/CONTROL_UNIT.cpp:301-309 | any two ways of slicing to its end a process whose sequential run stores safely and never jumps over a stop word leave the same registers, memory, PC and printed values |
| Slices.DispatchesFinish | src/cpu/CONTROL_UNIT.cpp:417-463 | such a process with n sequential steps is finished by any n + 1 dispatches, in the sequential final state |
| SlicingLimits.FinishesAtStopExactly | src/cpu/CONTROL_UNIT.cpp:139-143 | given safe stores, a process is finished at its stop word only, however it is sliced, if and only if its sequential run never jumps over a stop word to a place that is none |
| SlicingLimits.JumpOverStopReached | src/cpu/CONTROL_UNIT.cpp:451-461 | the slicing that finishes a process at such a jump |
| SlicingLimits.StoresInSequenceExactly | src/cpu/CONTROL_UNIT.cpp:404-415 | for programs whose stores spare the words about to be fetched, every dispatch of every slicing executes instructions in sequence if and only if the sequential run never changes a stored register in EX directly behind the store |
| SlicingLimits.LateStoreOutOfSequence | src/cpu/CONTROL_UNIT.cpp:404-415 | the slice of two that shows it |
| CacheSpec.PutKeepsOrder | src/memory/cache.cpp:26-56 | inserting a new address keeps the queue the list of cached addresses, once each, at most 16 |
| CacheSpec.ApplyKeepsOrder | src/memory/MemoryManager.cpp:131-184 | so does every read and write that does not cache 0xFFFFFFFF |
| CacheSpec.EvictionTime | src/memory/cachePolicy.cpp:8-19 | in any run from any cache in order, the line at place p stays while the cache fills up and through the next p insertions, and is gone after one more, however often it is hit |
| CacheSpec.SixteenthInsertion | src/memory/cache.cpp:26-52 | a line is thrown out exactly at the 16th insertion after its own |
| CacheSpec.CountsFound | src/memory/cache.cpp:16-24 | over any run the cache counts as hits exactly the accesses that find their address and as misses the others |
| CacheSpec.OrderFromEmpty | src/memory/cache.cpp:5-10 | the structure holds in every run from the empty cache |
| Coherence.CacheAccesses | src/memory/MemoryManager.cpp:131-184 | reads and writes of the memory manager are accesses in the sense of these laws |
| CacheRuns.ServedCache | src/memory/MemoryManager.cpp:119-188 | the cache after a run of the memory manager is the cache after the accesses of the run |
| CacheRuns.RunKeepsCacheOrder | src/memory/MemoryManager.cpp:119-188 | in every run from the constructed memory that never caches 0xFFFFFFFF the queue lists the cached addresses once each, at most 16 |
| CacheRuns.RunEvictsInOrder | src/memory/MemoryManager.cpp:119-188 | the eviction law from any moment of such a run on |
| PagingProofs.FreedFrames | src/memory/MemoryManager.cpp:17-26 | when no frame is free the victim's frame has an owner, so the empty-owner branch is not taken |
| PagingProofs.StoresSideBySide | src/memory/MemoryManager.cpp:190-197 | RAM below the limit and disk above it are one store: a word written to an existing place is read back, and no other aligned address changes |
| PagingProofs.TablesStayInverse | src/memory/MemoryManager.cpp:74-117 | every translation, with room on the disk or not, keeps frame table and page tables inverse to each other |
| PagingProofs.FreedContents | src/memory/MemoryManager.cpp:17-56 | saving the victim keeps the words of every page if and only if the disk takes those it holds |
| PagingProofs.FillSwapped | src/memory/MemoryManager.cpp:58-72 | loading a page brings its words back and keeps those of all others |
| PagingProofs.TranslationIsTidy | src/memory/MemoryManager.cpp:88-117 | every translation, room on the disk or not, keeps tables inverse and slots disjoint, maps nothing but the page asked for, and leaves it in RAM unless it reports an error |
| PagingProofs.Transparency | src/memory/MemoryManager.cpp:88-117 | moreover it keeps every page's words if and only if it evicts none or the disk takes the victim's words |
| PagingProofs.EvictionKeepsExactly | src/memory/MemoryManager.cpp:35-49 | any eviction, the first beyond the end of the disk or a later one, keeps every page if and only if the victim's words beyond the end equal the error word |
| Coherence.ReadPhysicalCoherent | src/memory/MemoryManager.cpp:131-155 | a read returns the RAM word and changes nothing but the cache, which stays coherent: write-backs change nothing |
| Coherence.WritePhysicalCoherent | src/memory/MemoryManager.cpp:167-187 | a written word that its own write-back does not undo reaches RAM and cache and changes nothing else |
| Coherence.WriteReachesRamExactly | src/memory/cache.cpp:26-42 | a write is lost if and only if it replaces 0xFFFFFFFF held by the dirty line that is thrown out to make room |
| FlatMemory.TranslateCoherentExactly | src/memory/MemoryManager.cpp:58-106 | the cache stays coherent across a translation, room or not, if and only if it is no reload into a victim's frame or the lines cached there match |
| FlatMemory.ReadStep | src/memory/MemoryManager.cpp:119-156 | a read returns the page's word, or 0 on a page never written |
| FlatMemory.WriteStep | src/memory/MemoryManager.cpp:158-188 | a write that is not undone changes one word of one page |
| FlatMemory.WriteKeptExactly | src/memory/MemoryManager.cpp:158-188 | a write reaches its page if and only if it does not replace 0xFFFFFFFF held by the dirty line that is thrown out |
| FlatMemory.FreshPageHoldsOldWords | src/memory/MemoryManager.cpp:108-114 | the first write to a page changes one word of what its frame held before |
| FlatMemory.FlatRun | src/memory/MemoryManager.cpp:119-188 | over any admissible run by any processes, reads return the word written last at that address, or 0 on a page without any; in the end every cached line is the RAM word behind it and all table invariants hold |
| FlatMemory.PagedRun | src/memory/MemoryManager.cpp:88-188 | every reply of an admissible run and every word of every page after it: a new page starts with the words its frame held, writes change one word each, and reads return the page's word or 0 without a page |
| FlatMemory.InitialIsSound | src/memory/MemoryManager.cpp:4-15 | the constructed memory satisfies all invariants, holding nothing, if and only if it has at least one frame and at most the 128 that RAM has words for |
| FlatMemory.ReloadedReadExactly | src/memory/MemoryManager.cpp:99-137 | a read that reloads a page into a victim's frame, room or not, returns its word if and only if no stale line is cached there |
| Replacement.ResidentPages | src/memory/MemoryManager.cpp:74-86 | the pages in RAM are those of the last numFrames loads |
| Replacement.VictimIsOldest | src/memory/MemoryManager.cpp:17-21 | the page saved is the one loaded longest ago |
| Replacement.ResidenceTime | src/memory/MemoryManager.cpp:17-21 | a page stays through the next numFrames - 1 loads and no longer |
| Replacement.FifoStep | src/memory/MemoryManager.cpp:74-117 | every translation keeps tables and rotation |
| Replacement.RunKeepsTables | src/memory/MemoryManager.cpp:74-188 | so does every run of reads and writes, whatever happens to disk and cache |
| Replacement.RunKeepsSlots | src/memory/MemoryManager.cpp:17-188 | in any run, room on the disk or not, every page is in a frame or in a swap slot of its own and never in both, until the 32-bit swap pointer wraps around |
| Replacement.SlotsFromInitial | src/memory/MemoryManager.cpp:4-188 | so for every run of fewer than 2^29 accesses from the constructed memory |
| Replacement.InitialRotation | src/memory/MemoryManager.cpp:4-15 | they hold for the constructed memory if and only if all its frames lie in RAM and there is one |
| MemoryLimits.FullDiskLosesPage | src/memory/MemoryManager.cpp:35-49 | two writes to the constructed memory of one frame and no disk lose the first page |
| MemoryLimits.StaleLineRead | src/memory/MemoryManager.cpp:99-137 | two writes and a read in one frame: the page comes back and the read returns the other process's word |
| MemoryLimits.WriteLost | src/memory/cache.cpp:26-42 | a run of eighteen writes after which the last one is undone |
| Footprint.FitRun | src/memory/MemoryManager.cpp:74-188 | accesses to no more pages than there are frames that store no 0xFFFFFFFF run into no eviction, reload or lost write |
| Footprint.FlatWhenFitting | src/memory/MemoryManager.cpp:4-188 | the exact replies of every such run from the constructed memory: the word written last at the address, 0xFFFFFFFF at the other addresses of a page that was written, and 0 elsewhere |
| SharedMemory.ActByRequest | src/cpu/CONTROL_UNIT.cpp:428-445 | a stage depends on memory through its one fetch, load or store only |
| SharedMemory.ReadAgrees | src/memory/MemoryManager.cpp:119-156 | an admissible read of the shared memory replies like the process's flat memory and disturbs no other process |
| SharedMemory.StoreAgrees | src/memory/MemoryManager.cpp:158-188 | an admissible store changes the process's flat memory and no other |
| SharedMemory.RunSynchronous | src/main.cpp:208-241 | however stages, dispatches and loading of all processes interleave, each stays in step with one on a memory of its own |
| SharedMemory.SharedRunsAlone | src/main.cpp:208-241 | in every admissible run a process between slices has the state its own dispatches lead to on a flat memory, and the shared memory holds that memory |
| SharedMemory.SharedEndsInSequence | src/main.cpp:208-241 | a faithful program finished in an admissible run has the registers, PC and printed values of the final state of its sequential run, and the shared memory holds every word of that state's memory |
| SharedMemory.HeldWordsAgree | src/memory/MemoryManager.cpp:88-188 | shared memories that hold the same memory for a process have the same pages of it mapped and the same word at every address of that memory |
| SharedMemory.SharedScheduleIndependence | src/main.cpp:208-275 | a faithful program finished in two admissible runs on shared memory is in that final state in both, every word included |
| SharedMemory.StartSynchronous | src/memory/MemoryManager.cpp:4-15 | the constructed memory and processes without program are a start for such runs |
| SharedFootprint.FittingRunsAlone | src/main.cpp:208-241 | processes whose pages all fit into RAM run as if alone in every interleaving; what is asked of them is asked of each on a memory of its own |
| SharedFootprint.FittingScheduleIndependence | src/main.cpp:208-275 | in any two such runs the same faithful program finishes in the final state of its sequential run, every word of memory included |
| Accounting.NeverSecondary | src/memory/MemoryManager.cpp:142-152 | every translated address lies in RAM; only a read of a page never written finds no page |
| Accounting.ReadKeepsBalance | src/memory/MemoryManager.cpp:122-152 | a read served by cache or RAM keeps the counters balanced |
| Accounting.WriteKeepsBalance | src/memory/MemoryManager.cpp:161-187 | so does a write that goes to RAM |
| Accounting.BalancedRun | src/memory/MemoryManager.cpp:119-188 | after any run cycles are the weighted accesses, reads and writes are hits, misses and unmapped reads, and the disk was never accessed for a process |
| Accounting.BookedRun | src/memory/MemoryManager.cpp:119-188 | every counter of a process after any run of all processes, from what its accesses find in the cache: a read charges the cache when it hits and RAM when it misses, a write charges both, a read without a page neither, and the cycles are these charges weighted |
| MemoryManager.L1Cache.Get | src/memory/cache.cpp:16-24 | word, hits and misses after a lookup |
| MemoryManager.L1Cache.AddressToReplace | src/memory/cachePolicy.cpp:8-19 | the oldest address leaves the queue |
| MemoryManager.L1Cache.MakeRoom | src/memory/cache.cpp:26-46 | a full cache loses the oldest line, written back if dirty |
| MemoryManager.L1Cache.Put | src/memory/cache.cpp:26-56 | lines, queue and memory after an insertion |
| MemoryManager.L1Cache.Update | src/memory/cache.cpp:58-71 | a cached line takes the word and becomes dirty; otherwise nothing changes |
| MemoryManager.MemoryManager.constructor | src/memory/MemoryManager.cpp:4-15 | the initial memory |
| MemoryManager.MemoryManager.ReadMain | src/memory/MAIN_MEMORY.cpp:32-37 | the word at the address, or the error word |
| MemoryManager.MemoryManager.WriteMain | src/memory/MAIN_MEMORY.cpp:39-47 | the word is stored, or nothing happens beyond the end |
| MemoryManager.MemoryManager.ReadDisk | src/memory/SECONDARY_MEMORY.cpp:17-27 | the scan finds the word at the address, or the error word |
| MemoryManager.MemoryManager.WriteDisk | src/memory/SECONDARY_MEMORY.cpp:30-41 | the scan stores the word at the address, or does nothing |
| MemoryManager.MemoryManager.CopyOut | src/memory/MemoryManager.cpp:43-46 | the loop copies the eight words of a frame to the disk, as far as they fit |
| MemoryManager.MemoryManager.CopyIn | src/memory/MemoryManager.cpp:63-66 | the loop copies the eight words of a slot to a frame |
| MemoryManager.MemoryManager.SwapOut | src/memory/MemoryManager.cpp:17-56 | tables, pointer and disk after saving the victim |
| MemoryManager.MemoryManager.SwapIn | src/memory/MemoryManager.cpp:58-72 | RAM and swap table after loading a page |
| MemoryManager.MemoryManager.AllocateFrame | src/memory/MemoryManager.cpp:74-86 | the first free frame, or the victim's |
| MemoryManager.MemoryManager.Translate | src/memory/MemoryManager.cpp:88-117 | physical address and state after a translation |
| MemoryManager.MemoryManager.WriteToFile | src/memory/MemoryManager.cpp:190-197 | where a write-back goes |
| MemoryManager.MemoryManager.ReadPhysical | src/memory/MemoryManager.cpp:131-155 | word, cache, stores and counters after a read through the cache |
| MemoryManager.MemoryManager.WriteCache | src/memory/MemoryManager.cpp:177-184 | the cache is updated on a hit and takes the word on a miss |
| MemoryManager.MemoryManager.WritePhysical | src/memory/MemoryManager.cpp:167-187 | stores, cache and counters after a write through |
| MemoryManager.MemoryManager.Read | src/memory/MemoryManager.cpp:119-156 | word, state and counters after a read |
| MemoryManager.MemoryManager.Write | src/memory/MemoryManager.cpp:158-188 | state and counters after a write |
| ReadyQueue.JobsConserved | src/cpu/Scheduler.cpp:6-42 | under every policy, served and waiting processes are those there before, added and pushed |
| ReadyQueue.FirstInFirstOut | src/cpu/Scheduler.cpp:13-30 | under FCFS and RR without pushes, processes are served in queue order |
| ReadyQueue.BoundedBypass | src/cpu/Scheduler.cpp:22-30 | a process at index k is served exactly as the (k+1)-th |
| ReadyQueue.RunStaysSortedBehind | src/cpu/Scheduler.cpp:58-84 | in any run the queue behind the pushed part is sorted |
| ReadyQueue.ServesBest | src/cpu/Scheduler.cpp:58-73 | with nothing pushed, the process served has the highest priority under Priority and the shortest burst under SJN of all that wait |
| Scheduler.Scheduler.IsPreemptive | src/cpu/Scheduler.cpp:76-79 | RR preempts, no other policy does |
| Scheduler.Scheduler.SortQueue | src/cpu/Scheduler.cpp:58-73 | a sorted permutation under SJN and Priority, nothing otherwise |
| Scheduler.Scheduler.AddProcess | src/cpu/Scheduler.cpp:6-20 | process Ready and stamped, queue extended or a sorted permutation of old and new |
| Scheduler.Scheduler.GetNextProcess | src/cpu/Scheduler.cpp:22-42 | the head leaves the queue, with its waiting and first start times; nothing when empty |
| Scheduler.Scheduler.HasProcesses | src/cpu/Scheduler.cpp:44-47 | whether the queue is not empty |
| Scheduler.Scheduler.SetPolicy | src/cpu/Scheduler.cpp:49-56 | the new policy sorts the queue at once if it needs order |
| Scheduler.Scheduler.PushFront | src/cpu/Scheduler.cpp:81-84 | the process is in front of the unchanged queue |
| IoService.ServedInOrder | src/IO/IOManager.cpp:38-131 | however registrations and manager steps interleave, processes wake up in registration order, each registration at most once, and no request is left at the top of the loop |
| IoService.PassServesExactly | src/IO/IOManager.cpp:50-131 | a pass wakes up the longest waiting process if and only if there is one and a device is asking, and uses up that device's demand, the printer's first |
| IoService.DemandsMet | src/IO/IOManager.cpp:50-94 | in any run every demand of the printer is met by one print job and every demand of the disk by one read, apart from those still open |
| IoService.IoManager.RegisterProcessWaitingForIO | src/IO/IOManager.cpp:38-41 | the process joins the end of the waiting list |
| IoService.IoManager.SelectRequest | src/IO/IOManager.cpp:68-94 | request, devices and waiting list after matching a process with a device |
| IoService.IoManager.MakeRequest | src/IO/IOManager.cpp:52-98 | devices and lists after the first half of a pass |
| IoService.IoManager.Serve | src/IO/IOManager.cpp:110-127 | the process is charged the duration and Ready |
| IoService.IoManager.ManagerPass | src/IO/IOManager.cpp:50-131 | state after a whole pass of the loop during which nothing registers |
| ProtocolPlaces.StepKeepsPlaces | src/main.cpp:188-275 | every step keeps each process in one place |
| ProtocolStatus.StepKeepsOrderly | src/main.cpp:188-275 | every step keeps statuses fitting places and the IO manager's lists those of the blocked processes |
| ProtocolStatus.SliceStatus | src/main.cpp:227-243 | a slice leaves the process Running, Blocked or Finished and charges exactly its pipeline cycles |
| ProtocolQueue.StepKeepsQueue | src/cpu/Scheduler.cpp:6-42 | every step keeps the shape and order of the ready queue |
| ProtocolExecution.StepExecutes | src/main.cpp:227-241 | every step leaves each process, on its private memory, where its own slices take it |
| ProtocolExecution.StepTimeOk | src/main.cpp:231-241 | every step charges process and core the same |
| ProtocolResults.EveryRunGood | src/main.cpp:188-275 | all invariants hold in every run |
| ProtocolResults.ExactlyOnePlace | src/main.cpp:188-275 | in every interleaving each process is exactly once in the ready queue, on one core, on the blocked list or among the finished |
| ProtocolResults.IoHoldsTheBlocked | src/main.cpp:243-250 | the IO manager holds a process at most once and exactly while it is blocked; a completion before the process reaches the blocked list is not lost |
| ProtocolResults.StopsWhenAllFinished | src/main.cpp:193-262 | each process is counted finished once, and a core or the IO worker stops only when all are finished |
| ProtocolResults.EndsInSequence | src/main.cpp:208-275 | a faithful program on a private memory that finishes is in the final state of its sequential run |
| ProtocolResults.ScheduleIndependence | src/main.cpp:208-275 | a faithful program on a private memory that finishes leaves the same registers, memory, PC and printed values in every run under every policy, quantum and number of cores; for the shared memory manager see WholeSystem.WholeScheduleIndependence |
| ProtocolResults.SlicesBounded | src/main.cpp:215-274 | a faithful program that stops after n steps gets at most n + 1 slices in any run |
| ProtocolResults.AllSlicesBounded | src/main.cpp:215-274 | all slices of a run together are at most all sequential instructions of the programs |
| ProtocolResults.TimeConserved | src/main.cpp:231-241 | processes were charged exactly what the cores were busy, clocks show busy times, and each process was charged its own pipeline cycles |
| ProtocolResults.BlockedInOrder | src/main.cpp:195-205 | in every run the IO worker finds the processes on the blocked list in the order in which they got there |
| ProtocolResults.FinishTimeKept | src/main.cpp:252-262 | the finish time of a process is the busy time, until then, of the core that finished it, and nothing that happens later changes it |
| ProtocolResults.QueueInRun | src/main.cpp:263-273 | interrupted processes in front of the queue and those on cores never outnumber the cores, the rest is sorted, first dispatches under FCFS and RR follow arrival order, and a single core redispatches the interrupted process |
| ProtocolResults.InterruptedReturns | src/main.cpp:263-273 | an interrupted process goes behind all others and is Ready under RR, and in front of them and Running under every other policy |
| ProtocolResults.InterruptedGoesOn | src/main.cpp:263-273 | without RR a single core goes on with the process it was interrupted in, whatever all threads do before it takes the next one; under SJN and Priority unless a completed IO has the queue sorted |
| ProtocolResults.CoresCanStep | src/main.cpp:195-274 | a core that has not stopped can always proceed, except while the IO worker holds the lock it needs and can itself proceed |
| ProtocolCompletion.MovesBounded | src/main.cpp:188-275 | in any run of faithful programs that stop, the steps that take a process on are at most ten times all sequential instructions and four for each process |
| ProtocolCompletion.EveryRunCanBeCompleted | src/main.cpp:188-275 | whatever has happened so far, some continuation finishes all processes and stops all cores and the IO worker |
| WholeSystem.WholeRunIsProtocolRun | src/main.cpp:208-275 | every run of the whole system on the shared memory manager, slices stage by stage, ends where some run of the protocol on private memories does, if its requests are served flatly |
| WholeSystem.WholeEndsInSequence | src/main.cpp:208-275 | a faithful program that finishes in such a run has the registers, PC and printed values of the final state of its sequential run, and the shared memory holds every word of that state's memory |
| WholeSystem.WholeScheduleIndependence | src/main.cpp:208-275 | in any two such runs, under whatever policies, quanta, cores, devices and interleavings, it ends in that one state, every word included |
| WholeFootprint.FittingRunAllowed | src/main.cpp:208-275 | processes that fit into RAM together, each of which alone makes aligned requests, reads no left-over word and stores no 0xFFFFFFFF, make only such requests in every run |
| WholeFootprint.LoadedStarts | src/main.cpp:303-334 | the constructed machine with such programs loaded is one on which runs start |
| WholeFootprint.FittingWholeIndependence | src/main.cpp:208-275 | for them the sequential final state, every word included, is the result under every schedule, without any condition on the runs |
| WholeCompletion.WholeRunCanBeCompleted | src/main.cpp:188-275 | and every run of the whole system can be completed: all processes finished, all cores and the IO worker stopped |
| Bits.ReadBack | src/cpu/CONTROL_UNIT.cpp:36-62 | reading the bit string of a number gives the number |
| Bits.WriteBack | src/cpu/CONTROL_UNIT.cpp:36-62 | writing the value of a bit string gives the string |
| Bits.RegIndexToBitString | src/cpu/CONTROL_UNIT.cpp:52-56 | the loop writes the five-bit string of a register number |
| Bits.BinaryStringToUint | src/cpu/CONTROL_UNIT.cpp:36-45 | the loop computes the value of a bit string modulo 2^32, or reports another character |
| Assembler.Loader.ParseData | src/parser_json/parser_json.cpp:226-265 | data words in order from the start address, and the addresses of their labels |
| Assembler.Loader.StoreWords | src/parser_json/parser_json.cpp:233-238 | the words of an entry at successive addresses |
| Assembler.Loader.FindLabels | src/parser_json/parser_json.cpp:267-308 | pass 1: label addresses, estimated run time and initial PC |
| Assembler.Loader.EmitCode | src/parser_json/parser_json.cpp:312-323 | pass 2: encoded words in order up to the first error |
| Assembler.Loader.ParseProgram | src/parser_json/parser_json.cpp:267-324 | labels, run time, PC and memory after both passes |
| Assembler.Loader.LoadProgram | src/parser_json/parser_json.cpp:332-342 | code lies directly behind the data |
| AssemblerProofs.LabelsStep | src/parser_json/parser_json.cpp:272-301 | entry by entry: a jump or branch (j, jal, beq, bne, bgt, blt) whose label is its target changes no label, any other instruction with a label gives it the address behind the code before it, and only instructions take up a word |
| AssemblerProofs.LabelsExactly | src/parser_json/parser_json.cpp:272-301 | a label is known if and only if such an entry carries it, and stands for the address of the last one |
| AssemblerProofs.EncodesExactly | src/parser_json/parser_json.cpp:108-223 | an instruction is encoded if and only if it has the fields of its format and its label is known; an unknown label is reported by its name |
| AssemblerProofs.CodesWritten | src/parser_json/parser_json.cpp:15-26 | opcode and function code of every encoded mnemonic, number by number |
| AssemblerProofs.RegistersWritten | src/parser_json/parser_json.cpp:108-125 | and, or, shifts and jr, which the decoder does not know, have their registers and shift amount in the right fields |
| AssemblerProofs.OperandsWritten | src/parser_json/parser_json.cpp:160-203 | so have andi, ori, blt and jal their registers, immediates and targets |
| AssemblerProofs.AssembleAt | src/parser_json/parser_json.cpp:312-322 | without an error the k-th instruction becomes the k-th word |
| AssemblerProofs.ImageIsExact | src/parser_json/parser_json.cpp:226-342 | every data and code word is where it was put, and nothing else changed |
| AssemblerProofs.LabelInPlace | src/parser_json/parser_json.cpp:272-322 | the address pass 1 gives a label holds the instruction of the last entry that carries it, as pass 2 encodes it |
| AssemblerProofs.DataInPlace | src/parser_json/parser_json.cpp:226-265 | a data label stands for the last item that has it |
| AssemblerProofs.DataLabelsExactly | src/parser_json/parser_json.cpp:226-265 | a data label is known if and only if some item has it |
| AssemblerProofs.TablesAgreeExactly | src/parser_json/parser_json.cpp:15-26 | assembler and decoder agree on the operation if and only if it is not blt, print, ori, and, or, sll, srl or jr |
| AssemblerProofs.RoundTripR | src/parser_json/parser_json.cpp:108-125 | add, sub, mult and div decode to the same operation and registers |
| AssemblerProofs.RoundTripImmediate | src/parser_json/parser_json.cpp:132-187 | addi and slti decode to the same operation, registers and immediate, li to addi from $zero |
| AssemblerProofs.RoundTripMemory | src/parser_json/parser_json.cpp:139-157 | lw and sw decode to their base register and offset in all three forms: given together, one by one with 0 for a missing offset, or by a data label plus offset from $zero |
| AssemblerProofs.RoundTripBranch | src/parser_json/parser_json.cpp:160-182 | beq, bne and bgt decode to the address of the label they go to, or to their offset |
| AssemblerProofs.RoundTripJump | src/parser_json/parser_json.cpp:190-215 | j decodes to the address of the label it goes to, or its own, in 26 bits |
| AssemblerProofs.RoundTripEnd | src/parser_json/parser_json.cpp:217-220 | end becomes the word fetching stops at |
| AssemblerProofs.BranchReachesLabelExactly | src/cpu/CONTROL_UNIT.cpp:314-335 | a taken branch goes to the last entry that carries its label, never to one that only names it as target, if and only if that address is below 0x8000; an untaken one goes on |
| AssemblerProofs.JumpReachesLabelExactly | src/cpu/CONTROL_UNIT.cpp:171-174 | a j goes to the last entry that carries its label if and only if that address is below 0x4000000 |
| AssemblerProofs.LoadReadsData | src/cpu/CONTROL_UNIT.cpp:371-375 | lw of a data label reads the item's address plus any offset reduced to 16 bits, and the word of the data section if there is one |
| AssemblerProofs.LoadImmediate | src/parser_json/parser_json.cpp:132-138 | li leaves the sign-extended immediate |

## Left out

- PipelineRefinement.SliceRefines: a store to a word that one of the next three slots fetches is excluded even if that slot is held up by a slot before the store, or by the very word it has fetched, so that it fetches again after the store; so is a store to the word behind a jump, which is fetched and squashed. PipelineSlots.SliceIsSlots covers these slices, too.
- SlicingLimits.StoresInSequenceExactly: assumes stores that spare the words about to be fetched; which words a slice of any length runs when a store hits its own code is PipelineSlots.SliceIsSlots.
- PipelineLimits.StorePairExactly: about slices of two; PipelineSlots.SliceIsSlots covers all slices.
- PipelineLimits.LateStoreExactly: about slices of two; SlicingLimits.StoresInSequenceExactly covers all slicings.
- PipelineLimits.JumpOverStopExactly: about a jump that starts the slice; SlicingLimits.FinishesAtStopExactly covers all slicings.
- FlatMemory.FlatRun: leaves open what unwritten words of a page that has a written one read; FlatMemory.PagedRun determines them: what the frame held. The pipeline's memory reads 0 there.
- IoService.IoManager.ManagerPass: no registration during the pass; interleaved registrations are in IoService.ServedInOrder.
- Slots hold numbers, not the bit strings of the original; `Bits` shows that the two conversions lose nothing.
- ProtocolResults.ScheduleIndependence: a slice is one step, on a memory private to the process; WholeSystem.WholeScheduleIndependence is the statement for slices stage by stage on the shared memory manager, on the runs whose requests it serves flatly.
- ProtocolExecution.StepExecutes: the same; WholeSystem.WholeRunIsProtocolRun is the statement for the shared memory manager.
- Completion is shown for processes that fit into RAM together; a run with evictions may lose words that a process needs to finish.
- The swap pointer after 2^29 evictions, when it wraps around to slots given away before.
- The page tables of all processes are one table keyed by process id and page; process ids are unique.
- Addresses of memory accesses in runs are multiples of 4; single reads and writes of the memory manager take any address.
- The pipeline's flat memory is keyed by byte address, so that an unaligned store is a word of its own there, while the original changes the aligned word around it; SharedMemory admits aligned requests only.
- `Cache::invalidate`, `dirtyData`, the valid bit, `DeleteData`, `isEmpty` and `notFull`: the memory manager never uses them.
- ULA operations the control unit never selects (AND, BGTI, BLTI, address computation), and PRINT from memory, whose condition never holds.
- JSON reading: programs come as lists of entries whose register names and numbers are already read, with lower-case mnemonics.
- Shutdown of the IO manager's thread, which happens after all cores have stopped.
- `waiting_time` over runs, turnaround and utilization: core clocks are independent, so these have no law.
- Real time, threads, mutexes, sleeps and random numbers: steps, interleavings and arbitrary choices stand for them.
- Files, console output, logs, metrics, menu and plotting scripts.
- REGISTER_BANK names and metadata: registers are 32 words of which number 0 ignores writes.

# Verified models of the RV32I simulator, its assembler, cJSON and the guest code

The repository holds a cycle-level RV32I simulator with a five-stage pipeline and a three-level cache
timing model, an assembler, the cJSON library it uses for configuration, and guest code (soft division
and multiplication, sorting workloads). The five parts below are modelled separately. Code that changes
state in the source is a class or a method with loops here; it is proved equal to functions on values,
and the theorems are about those functions.

## What is proved

**Pipeline** (`Wrappers`, `Words`, `Alu`, `Control`, `Dram`, `Machine`, `Pipeline`, `PipelineInvariant`,
`PipelineProof`, `PipelineRefinement`, `PipelineResults`, `PipelineProgress`, `PipelineInterlock`,
`PipelineTiming`, `PipelineCycles`, `PipelineOutcome`, `PipelineExample`, `PipelinePorts`, `MemoryPorts`, `Rv32i`,
`IsaConformance`, `Simulator`).
`Simulator` is the simulator's global state with one method per stage; `Pipeline.Cycle` is its one-cycle
function. `Machine.Step` runs one instruction at a time, and `Rv32i` is written from The RISC-V Instruction Set Manual, Volume I (20191213), sections 2.2 to 2.8.
Memory latencies are an arbitrary sequence of numbers of at least 1, one pair per cycle. The invariant
`PipelineInvariant.Inv` ties every pipeline register, with `wb_if` and `recent_wb`, the pending
`change_pc` and the ports, to one position of the sequential execution. From it follow: the committed
register and memory writes are those of the sequential machine, in order, for every program, latency,
predictor and forwarding setting (so no squashed instruction ever has an effect); forwarded operands are
right; the interlock makes forwarding unnecessary; the exact cycle count, for ideal memory and for any latencies; a
bound on the cycles between two commits; exactly when a cycle halts, pauses or aborts; how long an access takes; and
that the two memory ports are used in the order the caches need.

Assumptions: the text segment's limit is the last byte of a word (`WordAlignedText`), register x0 starts
as 0, latencies are at least 1. Stores into text abort in the source (memory.c:249-252) and here. `exit(1)`
is the outcome `Aborted`, ebreak is `Paused`; the refinement is about the cycles before, and `PipelineOutcome` says
exactly when either comes. An ecall changes no
register or memory; halting is a separate claim, `PipelineResults.HaltsWhenFetched`, because a slow fetch
puts the halt off and lets younger instructions pass.

**Caches** (`CacheSet`, `CacheLevel`, `Cache`, `CacheCoherence`, `CacheAccess`, `CacheSystem`, `CacheCount`,
`CacheCost`, `CacheBits`, `Recency`, `LruStack`, `FifoQueue`, `CacheArray`, `CacheObjects`). `CacheArray.LevelArray` is the array of
lines with the setters, `find_block`, `touch` and the fills, word by word; `CacheObjects.Hierarchy` is the
chain of levels with the read, write, eviction and completion functions. They equal the functions of
`CacheLevel` and `Cache`. The source has one copy of each function per level; here one function serves
every level. The words of a block are data added for the proof: the source's `data` field is never filled.

Assumptions: block size and number of sets are powers of two, at least two sets; a block is never longer
than the blocks below it, and a lower block is at most one block of every set of the level above; every
level below the first is no-write-allocate and at least 2-way; some block boundary separates fetched from
accessed addresses; a store stays in one block; a fetch may be outstanding when a data access starts, but
no fetch starts during a data access, which `PipelinePorts.PortsOrdered` proves of the pipeline; stamps
stay below INT64_MAX. `log2` on doubles is the exact exponent of a power of two.

**Assembler** (`Assembler`, `WordNumbers`, `AssemblerNumbers`, `AssemblerProof`, `AssemblerAccepts`, `Tokenizer`). Text
to tokens, two passes, labels, encodings, and the proof that the independently written decoder (and the ISA) reads
each emitted word as the instruction of the line: the operation of that name on the registers and numbers that the
texts denote, with the positional value of their digits. Which lines are operations, and which programs assemble, is
characterised exactly. An int is the 32-bit word that represents it; `WordNumbers.AsWord` is that word, counted up
or down from 0.

**JSON** (`JsonText`, `JsonParse`, `JsonRoundTrip`, `JsonGrammar`, `JsonSyntax`, `JsonConforms`, `JsonDerivation`,
`JsonTokens`, `JsonLayout`, `JsonEncoding`, `JsonUnicode`, `JsonPrinter`, `JsonReader`, `JsonList`). `JsonPrinter.PrintBuffer` and
`JsonReader.ParseBuffer` are the print and parse buffers with the code that advances them; `JsonList.Item` is the
linked list of siblings; `JsonGrammar` is the grammar of RFC 8259, written independently of the parser, and
`JsonSyntax` gives its derivations as trees, with the text and the meaning of each. The standards are RFC 8259 (sections 2 to 8), RFC 2781 (section 2) and RFC 3629
(section 3).

**Guest code** (`Arithmetic`, `GuestWords`, `Division`, `QuarterTable`, `Multiplication`, `RadixSpec`,
`RadixSort`, `QuickSort`). Words are naturals below 2^32 with explicit wrap-around.

Properties of the code that turned out false in part, with the exact condition:

- A simulated jalr is an RV32I jalr exactly when its target is even (`IsaConformance.StepConforms`);
  `IsaConformance.OddJalrDiffers` is a program where it is not.
- An ecall with the halt code halts in its second EX cycle exactly when a fetch completes there and ID does
  not wait (`PipelineResults.HaltsWhenFetched`). `PipelineExample.SlowFetchPassesEcall` is a program that
  halts with quick fetches and runs past its ecall with a slow one.
- `\u` followed by anything but four hexadecimal digits is accepted as code point 0
  (`JsonUnicode.LiteralTaken`, `JsonUnicode.BadDigitsAccepted`), which section 7 of RFC 8259 does not allow.
- More is taken for a label than parser.c:4-15 documents: an accepted text is a documented label exactly if it
  has a name with no comma after it (`Tokenizer.DocumentedLabels`; `Tokenizer.CommaLabel` and
  `Tokenizer.EmptyLabel` are texts that are not).
- Of the results that section 7.2 of the RISC-V manual defines, the quotients are met exactly for divisors other
  than 0, the unsigned remainder exactly unless a word other than 0 is divided by 0, and the signed remainder
  always (`Division.UDiv`, `Division.SDiv`, `Division.UMod`, `Division.SMod`).
- Appending an item whose `next` is not null to a list that is not empty breaks the list
  (`JsonList.Item.AddItem`).
- A printed text is UTF-8, as section 8.1 of RFC 8259 demands, exactly if the strings of the tree are
  (`JsonEncoding.TextUtf8`); `JsonEncoding.StrayByte` is a tree where they are not.

## Model

| member | source | states |
|---|---|---|
| PipelineRefinement.Refinement | src/execution/simulator.c:35-355 | For every program, latencies, predictor and forwarding setting: the committed register and memory writes of any run are exactly those of as many sequential instructions, and the memory, the registers and the whole pipeline stand at that point of the sequential execution |
| PipelineRefinement.CycleKeeps | src/execution/simulator.c:44-352 | One cycle keeps the invariant over all pipeline registers and moves the sequential machine on by one instruction exactly when MA completes one |
| PipelineRefinement.CommitMatches | src/pipeline/ma.c:13-93 | What MA commits is what the next sequential instruction writes, and that instruction is legal |
| PipelineResults.TimingIndependence | src/execution/simulator.c:35-355 | Two runs of one program under any two timing configurations commit logs of which one is a prefix of the other; with equal logs memory agrees, and registers too |
| PipelineResults.ImplementsRv32i | src/execution/simulator.c:35-355 | While the program keeps to RV32I with even jalr targets, memory and registers are those of the ISA after the committed instructions |
| PipelineResults.EcallPosition | src/execution/simulator.c:193-291 | In its second EX cycle an ecall is the next sequential instruction and the register file is exact, so no wrong-path ecall traps |
| PipelineResults.HaltsExactly | src/execution/simulator.c:193-256 | A halt happens only with the halt code in the sequential a7, and a completed ecall that does not halt had another code there |
| PipelineResults.HaltsWhenFetched | src/execution/simulator.c:193-256 | The exact condition for a halt in that cycle: the code, no interlock wait in ID, and a fetch that completes; the trap stays pending exactly if ID waits or no fetch completes, and in the second case an already fetched younger instruction moves on |
| PipelineOutcome.MaAborts | src/pipeline/ma.c:13-95 | MA ends the program exactly in the cycle in which the access of the sequential instruction ends, and exactly if its address is out of the segment limits or no multiple of its width, stated arithmetically |
| PipelineOutcome.CycleOutcome | src/execution/simulator.c:36-355 | A cycle aborts exactly on such an access or on a decode or fetch that faults, pauses exactly at the sequential machine's ebreak, and halts exactly at an ecall that nothing delays and whose a7 holds the halt code |
| PipelineOutcome.RunAborts | src/execution/simulator.c:36-355 | A run that aborts does so in a cycle in which the access of the next sequential instruction faults, or decoding or fetching does |
| PipelineOutcome.AllowedAccessesNeverAbort | src/execution/simulator.c:36-355 | While the sequential machine's accesses keep to their limits, no run aborts but on a decode or a fetch that faults |
| PipelineOutcome.FaultsAreRefused | src/memory/memory.c:112-314 | The arithmetic limits are those under which the sequential machine's access is refused |
| PipelineProgress.Progress | src/execution/simulator.c:36-355 | With latencies up to L, a run of n cycles that has not halted, paused or aborted has committed at least n / (2L + 5) instructions |
| PipelineProgress.CycleDrops | src/execution/simulator.c:36-355 | A cycle that commits nothing lowers a bound on the cycles to the next commit |
| PipelinePorts.PortsOrdered | src/memory/memory.c:29-314 | In every run the two ports start accesses in the order that the caches are proved for: no fetch while anything is outstanding, no data access while one is |
| PipelinePorts.PipelineDrivesCaches | src/cache/read.c:9-81 | So every pipeline run keeps the caches coherent and free of -1 and exit, if some block boundary separates fetched from accessed addresses |
| PipelineExample.SlowFetchPassesEcall | src/execution/simulator.c:193-256 | A program whose first instruction is a halting ecall: it halts when fetches take one cycle, and with one fetch of four cycles it runs on after a younger instruction has overwritten a7 |
| PipelineInvariant.InitialInv | src/execution/simulator.c:11-35 | The state in which the loop starts satisfies the invariant |
| PipelineProof.ExComputes | src/pipeline/ex.c:10-134 | Without a forwarding stall EX fills its slot with exactly what the sequential machine computes, store data included |
| PipelineProof.ExOperands | src/forwarding/forwarding.c:10-47 | Each operand that EX uses is the register value the sequential machine reads |
| PipelineProof.ForwardExCorrect | src/forwarding/forwarding.c:10-47 | If forward_ex does not stall, its value is the sequential one: the youngest older writer wins |
| PipelineProof.ForwardMaCorrect | src/forwarding/forwarding.c:50-72 | The store data that forward_ma gives is the sequential value, in every cycle of a multi-cycle store |
| PipelineProof.MaStageCorrect | src/pipeline/ma.c:13-93 | MA aborts, waits without effect, or completes the sequential instruction exactly |
| PipelineProof.IdRedirects | src/pipeline/id.c:24-43 | A pending taken prediction moves fetch to its target and leaves the front end in the sequential place |
| PipelineProof.IdSlots | src/pipeline/id.c:43-93 | On either path ID passes the slot on with current operands, or holds it for an interlock without leaving a redirect behind |
| PipelineProof.FrontEndKeeps | src/execution/simulator.c:309-348 | ID and IF together keep the invariant and touch nothing behind EX |
| PipelineProof.AheadKeepsText | src/memory/memory.c:249-252 | Instructions committed ahead of a fetch do not change the word it reads |
| PipelineInterlock.ForwardingNeverUsed | src/pipeline/id.c:95-143 | With forwarding off, in every reachable state each operand and store datum is its original value: the forwarding paths never act and EX never stalls for them |
| PipelineInterlock.AlwaysInterlocked | src/pipeline/id.c:80-137 | Every reachable state with forwarding off has no overlap between the slot in ID/EX and the writers ahead of it |
| PipelineTiming.CycleCount | src/execution/simulator.c:36-355 | With ideal memory and forwarding, a run that halts at its only ecall takes exactly retired + 4 + load-use stalls + 2 * EX flushes + rightly predicted taken branches cycles |
| PipelineTiming.CycleBalances | src/execution/simulator.c:44-352 | Each such cycle keeps the balance between cycles, retired and in-flight instructions, stalls and flushes |
| PipelineCycles.CycleEquation | src/execution/simulator.c:36-355 | For every program, latencies, predictor and forwarding setting: cycles are the instructions committed and in flight plus the cycles lost, by cause, with latency - 1 for each data access, less what an outstanding one still has to wait; the simulator's counts of instructions and flushes are right |
| PipelineCycles.CommitsAreLog | src/pipeline/wb.c:33-36 | The commits counted are the commits of the log |
| PipelineCycles.AccessLasts | src/memory/memory.c:112-314 | In every run a data access that starts in cycle i with latency L is outstanding up to cycle i + L - 1 and ends exactly there |
| MemoryPorts.LoadTakes | src/memory/memory.c:112-212 | A load that starts with latency L answers in its L-th call, and then with the value or with exit(1), by limits stated arithmetically |
| MemoryPorts.StoreTakes | src/memory/memory.c:214-314 | Likewise a store, which changes no byte before |
| MemoryPorts.FetchTakes | src/memory/memory.c:29-110 | And a fetch |
| IsaConformance.DecoderAgrees | src/execution/control.c:359-390 | Every RV32I instruction word decodes to the control signals of its instruction |
| IsaConformance.ImmediatesAgree | src/execution/alu.c:119-165 | The generated immediates of the I, S, B and J formats are those of section 2.3 of the manual |
| IsaConformance.AluAgrees | src/execution/alu.c:5-69 | The arithmetic, logic and compare units compute each operation of section 2.4 |
| IsaConformance.ConditionAgrees | src/execution/alu.c:71-117 | The branch comparator decides each of the six conditions of section 2.5.2 |
| IsaConformance.Predictions | src/branch/branch_prediction.c:8-24 | A branch is predicted as taken always, never, or exactly when its offset is negative, by strategy; the dynamic strategies never do |
| IsaConformance.StepConforms | src/pipeline/ex.c:91-101 | One sequential step of the simulator is one RV32I instruction if and only if a jalr target is even |
| IsaConformance.OddJalrDiffers | src/pipeline/ex.c:91-96 | The program jalr x0, 1(x0): the simulator goes on at 1, RV32I at 0 |
| IsaConformance.StepsConform | src/execution/simulator.c:35-355 | So any number of legal steps with even jalr targets is an RV32I run |
| Dram.StoreKeepsText | src/memory/memory.c:214-300 | A store that is let through never changes an instruction word |
| Dram.StoreThenLoad | src/memory/memory.c:112-300 | A load of the same width, signed or not, reads back what a store wrote, byte order and extension included |
| Dram.StoredBytes | src/memory/memory.c:256-300 | A store puts the low bytes of the data at the address and after it, least significant first, and changes no other byte |
| Dram.LoadedBytes | src/memory/memory.c:154-198 | A load of a half or a word joins the bytes that lie there, least significant first |
| Simulator.RunProgram | src/execution/simulator.c:11-355 | Running a loaded program leaves memory and registers as the sequential machine has them after the committed instructions |
| Simulator.Simulator.Simulate | src/execution/simulator.c:35-355 | The loop over cycles is the run of the one-cycle function, up to a halt, a pause or an abort |
| Simulator.Simulator.CycleOnce | src/execution/simulator.c:36-354 | The new global state after a cycle with all its stall, flush, trap and halt branches |
| Simulator.Simulator.WbStage | src/pipeline/wb.c:8-37 | Writes the register, shifts wb_if and recent_wb and counts the instruction |
| Simulator.Simulator.MaStage | src/pipeline/ma.c:13-95 | The memory access in place, the redirect and the slot passed on |
| Simulator.Simulator.ExStage | src/pipeline/ex.c:10-139 | The slot filled field by field, with the store data taken before it is overwritten |
| Simulator.Simulator.IdStage | src/pipeline/id.c:24-93 | The pending redirect, the decoded slot, the interlock and a new redirect |
| Simulator.Simulator.SetHazardStall | src/pipeline/id.c:95-137 | The interlock test against the three writers ahead |
| Simulator.Simulator.UpdateOperands | src/pipeline/id.c:139-143 | Operands read again during a stall |
| Simulator.Simulator.IfStage | src/pipeline/if.c:9-49 | The fetch and the program counter |
| Simulator.Simulator.ForwardEx | src/forwarding/forwarding.c:10-47 | The bypass network, youngest first, and the load-use stall |
| Simulator.Simulator.ForwardMa | src/forwarding/forwarding.c:50-72 | The bypass for store data |
| Simulator.Simulator.ReadMemoryI | src/memory/memory.c:29-110 | The fetch port: counter, completion, abort outside the text segment |
| Simulator.Simulator.CancelFetch | src/memory/memory.c:29-48 | Cancellation of a fetch |
| Simulator.Simulator.ReadMemory | src/memory/memory.c:112-212 | The data port for loads |
| Simulator.Simulator.WriteMemory | src/memory/memory.c:214-314 | The data port for stores: the bytes written in place, in little-endian order, when the counter ends |
| CacheSystem.Coherence | src/cache/eviction.c:34-371 | In every run of fetches, loads and stores, each cell reads as the value last stored to it, whatever the policies, sizes, stamps and evictions, and the invariant holds at the end |
| CacheSystem.LoadSeesLastStore | src/cache/read.c:151-215 | After any run a load answers with a cycle count, never -1, and its line would carry the value last stored to each word |
| CacheSystem.FetchSeesMemory | src/cache/read.c:83-149 | The same for a fetch |
| CacheSystem.StepKeeps | src/cache/read.c:34-81 | Every access keeps the invariant, answers with at least one cycle, and never evicts or completes another block in flight |
| CacheSystem.SharedBlockAborts | src/cache/cache.c:68-73 | Without that separation: a load that reaches the second level while that level is fetching its block ends in exit(1) |
| CacheSystem.StartOk | src/cache/cache.c:10-99 | Empty caches over any memory satisfy the hypotheses |
| CacheAccess.ReadKeeps | src/cache/read.c:151-313 | A read at any level finds room, brings in the block where it was missing, changes no cell and hits nothing in flight |
| CacheAccess.EvictKeeps | src/cache/eviction.c:34-371 | An eviction with one fetch in flight finds a done victim, writes it down if dirty and changes no cell |
| CacheAccess.EvictDirty | src/cache/eviction.c:119-196 | A dirty victim is written to the level below, once, with its contents, before the new block takes its place |
| CacheAccess.WriteKeeps | src/cache/write.c:44-336 | A write at any level changes exactly its cells and neither adds nor drops a block |
| CacheAccess.StoreKeeps | src/cache/write.c:44-150 | A processor store changes exactly its cells under every policy, allocating or not |
| CacheAccess.Retry | src/cache/write.c:101-122 | The retry after a write-allocate always hits |
| CacheCount.Conservation | src/cache/read.c:83-313 | Over every run the reads and writes counted at each lower level are those that the levels above report as passed down, and the first levels count every access once, despite the decrements |
| CacheCount.StepConserves | src/cache/write.c:44-336 | One access keeps that balance |
| CacheCount.ReadFlow | src/cache/read.c:151-313 | A read counts as one read at its level and as what it passes down |
| CacheCount.WriteFlow | src/cache/write.c:44-336 | A write counts as one write at its level; an allocating retry corrects the miss it repeats |
| CacheCount.StartConserved | src/cache/eviction.c:298-338 | Empty caches are balanced |
| CacheCost.ReadTakes | src/cache/read.c:151-313 | A read answers the read latencies down to the first level that holds the block, or to the RAM, plus the write-down of each dirty block that leaves, by a cost defined on what the levels hold |
| CacheCost.WriteTakes | src/cache/write.c:44-336 | A write that hits or passes by answers the write latencies of the levels it reaches |
| CacheCost.StoreTakes | src/cache/write.c:44-150 | A processor store answers its time under every policy, with the read that an allocation makes |
| CacheCost.EvictTakes | src/cache/eviction.c:34-371 | An eviction answers the time of writing its dirty victim down, or nothing |
| CacheCost.AccessTakes | src/cache/read.c:83-313 | After every run of fetches, loads and stores, each access answers that time |
| CacheCost.ColdRead | src/cache/read.c:151-313 | The first read of all takes the read latency of every level and of the RAM |
| CacheCost.ReadCounts | src/cache/read.c:151-313 | A read is counted as a hit exactly if the level holds the block, and a write-back exactly if a dirty block leaves |
| CacheCost.WriteCounts | src/cache/write.c:44-336 | A write that brings nothing in is counted as a hit exactly if the level holds the block |
| LruStack.LruIsStackDistance | src/cache/eviction.c:83-115 | With one stamp per access an LRU level holds a block exactly if fewer than `ways` other blocks of its set were used since its last use |
| LruStack.MoreWaysHoldMore | src/cache/eviction.c:34-203 | After every trace of reads and allocating writes, the cache with more ways holds every block of the smaller one |
| LruStack.EmptyStackOk | src/cache/cache.c:33-42 | An empty level satisfies the hypotheses |
| FifoQueue.FifoIsQueue | src/cache/eviction.c:205-371 | With one stamp per access a FIFO level holds, in every set, exactly the queue of the blocks that were brought in: using a block again does not save it |
| FifoQueue.HitsInQueue | src/cache/cache.c:33-42 | So an address hits exactly when its block is in the queue of its set |
| FifoQueue.EmptyQueueOk | src/cache/cache.c:33-42 | An empty level satisfies the hypotheses |
| Recency.UseKeepsExact | src/cache/eviction.c:83-115 | Replacing the least recently used block keeps the set of held blocks equal to the most recently used ones |
| CacheSet.FillExact | src/cache/eviction.c:224-246 | Filling the first free way, or a victim of a full set, after a miss: the setters, which ignore the valid bit, reach exactly the block just placed |
| CacheSet.FillOk | src/cache/eviction.c:224-246 | A fill keeps the set invariant: valid ways form a prefix, hold whole blocks of this set, and have distinct tags |
| CacheSet.HitIsReached | src/cache/setters.c:17-28 | A block found by find_block is the one that the setters reach |
| CacheSet.SetterReaches | src/cache/setters.c:4-125 | A setter changes one flag of that block and no other block |
| CacheLevel.LookupProbe | src/cache/cache.c:45-90 | find_block reports a hazard exactly for a block in flight and a hit exactly for a held block that is done |
| CacheLevel.RoomAndVictim | src/cache/eviction.c:251-285 | With at most one block of the set in flight there is room, and the victim is done |
| CacheLevel.StoreEffect | src/cache/write.c:44-100 | A write hit marks exactly the block of its address |
| CacheCoherence.Stride | src/cache/eviction.c:119-196 | Two blocks of one set never share a block of a lower level, so writing a victim down does not meet the new block |
| CacheBits.ShiftsAreGeometry | src/cache/cache.c:45-99 | The shifts and masks give set, tag and block address exactly, for powers of two and at least two sets |
| CacheArray.LevelArray.FindBlock | src/cache/cache.c:45-90 | The two loops over a set give hit, hazard, free or full |
| CacheArray.LevelArray.SetFlag | src/cache/setters.c:4-125 | The setters' loops change that flag on every word of the first block with the tag, and fail when there is none |
| CacheArray.LevelArray.Touch | src/cache/cache.c:33-42 | The stamp of a block that was used |
| CacheArray.LevelArray.PickVictim | src/cache/eviction.c:83-115 | The way with the least stamp, or the next one when that block is in flight |
| CacheArray.LevelArray.Fill | src/cache/eviction.c:224-246 | The words of one way replaced by the new block with its flags, the others untouched |
| CacheArray.LevelArray.CopyFromMem | src/cache/eviction.c:11-20 | Consecutive word addresses over the block |
| CacheObjects.Hierarchy.ReadFrom | src/cache/read.c:83-313 | The mutually recursive reads, in place, are the read function of the chain of levels |
| CacheObjects.Hierarchy.WriteFrom | src/cache/write.c:44-336 | So are the writes with their retries |
| CacheObjects.Hierarchy.EvictAt | src/cache/eviction.c:34-371 | And the evictions, LRU and FIFO, with the write-down of dirty victims |
| CacheObjects.Hierarchy.CompleteFrom | src/cache/cache.c:10-31 | Completion marks the block done at every level that holds it |
| AssemblerProof.EncodesMeaning | src/assembler/core/opcode_generator.c:32-173 | The word emitted for any accepted line is, for the ISA and for the simulator's decoder, the instruction of that line with its registers, immediate or label distance |
| AssemblerProof.EveryWordDecodes | src/assembler/core/main.c:50-156 | In every program that assembles, the word at the position of line k decodes to line k at its address |
| AssemblerProof.JumpsLand | src/assembler/core/main.c:73-152 | A jump or branch lands on the address of the line that declares its label, which is the address of the word with the index of the first operation after it, or the end of the text |
| AssemblerProof.TargetDecodes | src/assembler/core/main.c:106-156 | And the word at the target decodes to that operation |
| AssemblerProof.AddressCounts | src/assembler/core/main.c:73-101 | Pass one gives a line the address of the next emitted word: four more, in 32-bit words, for each operation before it |
| AssemblerProof.LabelFound | src/assembler/core/opcode_generator.c:32-78 | An emitted jump or branch found its label in the table |
| AssemblerProof.TableIsLabels | src/assembler/core/symbol_table.c:3-41 | The table holds exactly the declared labels, each with the address of the next instruction, and none is declared twice |
| AssemblerProof.PackRFields | src/assembler/core/opcode_generator.c:131-144 | The fields of an R word read back |
| AssemblerProof.PackIFields | src/assembler/core/opcode_generator.c:112-129 | The fields and the sign-extended immediate of an I word read back |
| AssemblerProof.PackShiftFields | src/assembler/core/opcode_generator.c:112-129 | The shift amount and the bit that tells srai from srli read back |
| AssemblerProof.PackSFields | src/assembler/core/opcode_generator.c:80-99 | The split immediate of an S word reads back |
| AssemblerProof.PackBFields | src/assembler/core/opcode_generator.c:32-57 | The scattered offset of a branch reads back when it is even and in range |
| AssemblerProof.PackUFields | src/assembler/core/opcode_generator.c:101-110 | The upper immediate reads back shifted by 12 |
| AssemblerProof.PackJFields | src/assembler/core/opcode_generator.c:59-78 | The scattered offset of a jal reads back when it is even and in range |
| AssemblerProof.AddressOperandOk | src/assembler/core/semantics_analyzer.c:136-169 | An accepted offset(register) operand yields a register number and a 12-bit offset |
| AssemblerProof.EncodesBreak | include/assembler.h:41-115 | ebreak is emitted so that the simulator's decoder takes it for a breakpoint |
| Assembler.FirstPass | src/assembler/core/main.c:50-103 | The loop builds the symbol table, or gives up at the first bad line |
| Assembler.SecondPass | src/assembler/core/main.c:106-156 | The loop emits one word per instruction at the addresses of pass one, or gives up |
| Assembler.Assemble | src/assembler/core/main.c:50-156 | The two passes in sequence |
| AssemblerProof.ImmRange | src/assembler/core/semantics_analyzer.c:68-122 | An accepted immediate, shift amount or upper immediate lies in the signed range of its field |
| AssemblerProof.RegRange | src/assembler/core/semantics_analyzer.c:50-66 | An accepted register operand is a number from 0 to 31 |
| AssemblerNumbers.NumberIsValue | src/assembler/core/semantics_analyzer.c:11-47 | The digits of an operand are read as their positional value, decimal and hexadecimal, as a 32-bit word |
| AssemblerNumbers.ReadNumberIs | src/assembler/core/semantics_analyzer.c:11-47 | Exactly the numerals are read, each as the number that it denotes with its sign |
| AssemblerNumbers.ImmediateRead | src/assembler/core/semantics_analyzer.c:68-122 | An immediate, a shift amount or an upper immediate is accepted exactly if it denotes a number in its range, and is that number |
| AssemblerNumbers.RegisterRead | src/assembler/core/semantics_analyzer.c:50-66 | A register is accepted exactly if it is r and a numeral from 0 to 31, and is that register |
| AssemblerNumbers.AddressRead | src/assembler/core/semantics_analyzer.c:136-169 | Exactly which texts are accepted as offset(register), and the offset and register they give |
| AssemblerNumbers.AddressParts | src/assembler/core/semantics_analyzer.c:136-169 | However an offset and a register are written, they are read back from between the parentheses |
| WordNumbers.SignedOrder | src/assembler/core/semantics_analyzer.c:50-122 | The signed comparison of two words is the order of the numbers they stand for |
| WordNumbers.WrapIs | src/assembler/core/semantics_analyzer.c:45 | The cast to int keeps the residue modulo 2^32 |
| AssemblerAccepts.NamesAre | src/assembler/core/syntax_analyzer.c:4-14 | The table is searched for exactly the names of the 41 operations |
| AssemblerAccepts.LegalIs | src/assembler/core/semantics_analyzer.c:172-246 | The checks accept exactly a name with its number of operands, each of its kind |
| AssemblerAccepts.OpcodeGivesUp | src/assembler/core/opcode_generator.c:32-78 | The word 0 is given exactly for a label that is missing or out of reach |
| AssemblerAccepts.DistanceIs | src/assembler/core/main.c:73-152 | The distance of two lines is four for each operation between them |
| AssemblerAccepts.AssemblesExactly | src/assembler/core/main.c:50-156 | A program assembles if and only if each line is blank, a comment, a label declared once and at most 255 long, or an operation, and the label of each jump and branch is declared within its reach |
| Tokenizer.OperationLines | src/assembler/core/parser.c:44-110 | A line gives tokens exactly if, up to its comment, it is a spelling of them: a name and up to three operands with commas, blanks anywhere between, in characters that may stand together |
| Tokenizer.LabelTexts | src/assembler/core/parser.c:17-42 | Exactly which texts are taken for which label |
| Tokenizer.DocumentedLabels | src/assembler/core/parser.c:4-42 | The documented labels are exactly the accepted texts that have a name with no comma after it |
| Tokenizer.CommaLabel | src/assembler/core/parser.c:17-42 | A text that is taken for a label although it is not documented, for its comma |
| Tokenizer.EmptyLabel | src/assembler/core/parser.c:17-42 | Another, for its missing name |
| Tokenizer.CommentCut | src/assembler/core/parser.c:117-135 | A comment becomes a line end, and text without slashes stays |
| Tokenizer.RemoveComments | src/assembler/core/parser.c:117-135 | The line cut in place |
| Tokenizer.ReadOperation | src/assembler/core/parser.c:44-110 | The pointer loops give the tokens of the specification |
| Tokenizer.ReadLabel | src/assembler/core/parser.c:17-42 | So do those for labels |
| Tokenizer.GetTokens | src/assembler/core/parser.c:146-230 | A line classified as blank, comment, label, operation or bad |
| Tokenizer.AssembleText | src/assembler/core/main.c:50-156 | Source text to words: the result is that of the two passes on the classified lines |
| JsonRoundTrip.RoundTrip | src/utils/cJSON.c:1368-1896 | Every tree of null, booleans, 32-bit integers, NUL-free strings, arrays and objects within the nesting limit, printed formatted or not, parses back to itself and to the end of the text |
| JsonRoundTrip.PrintInjective | src/utils/cJSON.c:1423-1896 | Two trees with the same text, in either format, are the same tree |
| JsonRoundTrip.ValueBack | src/utils/cJSON.c:1368-1420 | The same for a value anywhere in a buffer |
| JsonDerivation.GrammarParses | src/utils/cJSON.c:1089-1192 | Every text that the grammar of RFC 8259 derives, after a byte order mark too, is read as what its derivation denotes: its value, or a refusal exactly for half of a surrogate pair alone or nesting above the limit, up to a number that the model does not read |
| JsonDerivation.TextDerived | src/utils/cJSON.c:1368-1777 | Every such text is the text of a derivation tree |
| JsonTokens.AcceptedExactly | src/utils/cJSON.c:1368-1777 | A value is accepted, with that value and end, if and only if the buffer holds there exactly the tokens of the value, with bytes up to the blank between them, and the value does not nest too deep |
| JsonTokens.BufferAcceptedExactly | src/utils/cJSON.c:1089-1192 | So a buffer is accepted exactly if it holds, after a byte order mark, the tokens of such a value, and, where a NUL is required, only blanks and a last NUL after it |
| JsonConforms.TreeRead | src/utils/cJSON.c:1368-1777 | A value anywhere in a buffer, with white space wherever the grammar has it, is read as its derivation denotes |
| JsonConforms.EscapesAre | src/utils/cJSON.c:884-913 | The escapes are those of section 7 of RFC 8259, each for its character |
| JsonConforms.CharsRead | src/utils/cJSON.c:870-928 | The characters of a string give the bytes that they denote, surrogate pairs joined; half a pair alone is refused |
| JsonConforms.NumeralRead | src/utils/cJSON.c:305-383 | An integer of up to 15 digits is read as its positional value |
| JsonConforms.HeldIs | src/utils/cJSON.c:915-928 | A string ends for its user at its first NUL |
| JsonPrinter.Print | src/utils/cJSON.c:1239-1311 | What cJSON_Print returns is the text of the tree and parses back to it; it gives up exactly on a tree that is too deep or too long |
| JsonPrinter.PrintPreallocated | src/utils/cJSON.c:1348-1365 | It succeeds exactly if the tree is not too deep and the space is two bytes longer than the text; then text and NUL stand in the caller's space, which is never replaced |
| JsonGrammar.TextDerives | src/utils/cJSON.c:1423-1896 | Every tree prints, formatted or not, as a text that the grammar of RFC 8259 derives |
| JsonGrammar.ValueDerives | src/utils/cJSON.c:1423-1494 | Every value at every depth likewise |
| JsonLayout.FormattedIsLaidOut | src/utils/cJSON.c:1595-1896 | Formatted text is the unformatted text, laid out in one pass: members on lines of their own, with a tab for each open bracket, and blanks after colons and commas |
| JsonSyntax.EscapeIsShortest | src/utils/cJSON.c:1010-1070 | The printer writes a byte in the shortest way that denotes it, the only one of that length, with lower-case digits |
| JsonLayout.ValuePretty | src/utils/cJSON.c:1595-1896 | The same for a value at any depth, whatever follows it |
| JsonEncoding.StrayByte | src/utils/cJSON.c:954-1073 | A string that is a lone continuation byte prints as text that is not UTF-8 |
| JsonEncoding.TextUtf8 | src/utils/cJSON.c:954-1073 | The text is UTF-8 if and only if all strings and names of the tree are |
| JsonPrinter.PrintBuffer.PrintValue | src/utils/cJSON.c:1423-1494 | A value is printed after what stands in the buffer, inside the space reserved |
| JsonPrinter.PrintBuffer.PrintArray | src/utils/cJSON.c:1595-1660 | The loop over the elements with their separators |
| JsonPrinter.PrintBuffer.PrintObject | src/utils/cJSON.c:1780-1896 | The loop over the fields with their indentation |
| JsonPrinter.PrintBuffer.PrintString | src/utils/cJSON.c:954-1073 | The length counted first is the length written: the escapes fill the reservation exactly |
| JsonPrinter.PrintBuffer.Ensure | src/utils/cJSON.c:490-573 | The space grows, keeps its contents and holds what was asked for, or nothing changes |
| JsonPrinter.PrintBuffer.UpdateOffset | src/utils/cJSON.c:576-587 | The offset moves to the NUL of what was printed |
| JsonReader.ParseWithLength | src/utils/cJSON.c:1147-1192 | The parse buffer's code returns the tree of the specification and where it ended |
| JsonReader.StringFits | src/utils/cJSON.c:837-928 | No string literal, however malformed its escapes, writes more bytes than were counted for it |
| JsonReader.LiteralFits | src/utils/cJSON.c:703-820 | A \u literal writes no more bytes than it takes |
| JsonReader.UnitsCount | src/utils/cJSON.c:837-867 | The count of skipped backslashes gives that space |
| JsonReader.ParseBuffer.ReadString | src/utils/cJSON.c:824-951 | The string is read into the space allocated; the result is that of the specification |
| JsonReader.ParseBuffer.CopyString | src/utils/cJSON.c:870-928 | The copy loop resolves each escape inside that space, or stops at the first bad one |
| JsonReader.ParseBuffer.Literal | src/utils/cJSON.c:703-820 | One or two \u literals to UTF-8 bytes in place |
| JsonReader.ParseBuffer.WriteUtf8 | src/utils/cJSON.c:766-813 | The loop from the last byte to the first writes the UTF-8 form |
| JsonReader.ParseBuffer.Hex4 | src/utils/cJSON.c:666-700 | The loop reads four digits, or gives 0 |
| JsonReader.ParseBuffer.SkipWhitespace | src/utils/cJSON.c:1090-1115 | The offset after white space, one back at the end of the buffer |
| JsonReader.ParseBuffer.ReadNumber | src/utils/cJSON.c:307-383 | The offset after the number text |
| JsonReader.ParseBuffer.ReadValue | src/utils/cJSON.c:1368-1420 | The value at the offset, with offset and depth advanced and restored as specified |
| JsonReader.ParseBuffer.ReadArray | src/utils/cJSON.c:1497-1592 | The loop over elements |
| JsonReader.ParseBuffer.ReadObject | src/utils/cJSON.c:1662-1777 | The loop over fields |
| JsonUnicode.Utf8Correct | src/utils/cJSON.c:766-813 | The bytes for a scalar value are its UTF-8 form, read back by the table of section 3 of RFC 3629 |
| JsonUnicode.OneLiteral | src/utils/cJSON.c:703-775 | A code point below 0x10000 spelled as one literal is read as that code point |
| JsonUnicode.PairOfLiterals | src/utils/cJSON.c:731-768 | One above, spelled as a surrogate pair as in section 2.1 of RFC 2781, likewise |
| JsonUnicode.LiteralTaken | src/utils/cJSON.c:703-775 | Exactly which literals are accepted: the second half of a pair is checked, single digits are not |
| JsonUnicode.BadDigitsAccepted | src/utils/cJSON.c:666-700 | A string with \uZZZZ is accepted and ends there |
| JsonList.Item.AddItem | src/utils/cJSON.c:2027-2058 | The item becomes the last child, and the list stays linked, head to tail, next and prev inverse, if and only if it was empty or the item's next is null |
| JsonList.Item.DetachItem | src/utils/cJSON.c:2258-2292 | Exactly that child leaves, unlinked; an item that is no child is refused |
| JsonList.Item.DetachItemFromArray | src/utils/cJSON.c:2294-2302 | By index |
| JsonList.Item.InsertItem | src/utils/cJSON.c:2334-2366 | The new child stands at the index, or at the end beyond it, and the list stays linked under the same condition |
| JsonList.Item.ReplaceItem | src/utils/cJSON.c:2368-2415 | The replacement stands in the child's place and the others stay |
| JsonList.Item.ReplaceItemInArray | src/utils/cJSON.c:2417-2425 | By index |
| JsonList.Item.GetItem | src/utils/cJSON.c:1922-1938 | The walk along next reaches the child at the index |
| JsonList.Item.GetArraySize | src/utils/cJSON.c:1899-1920 | The walk counts the children |
| Division.UDiv | essentials/stdlib/__udivsi3.c:3-30 | Align and subtract give the floor quotient without overflow; the result is DIVU's if and only if the divisor is not 0 |
| Division.UMod | essentials/stdlib/__umodsi3.c:3-26 | The same loops give the remainder; the result is REMU's if and only if the divisor is not 0 or the dividend is |
| Division.SDiv | essentials/stdlib/__divsi3.c:7-32 | The quotient truncated toward zero, as a word; the result is DIV's if and only if the divisor is not 0 |
| Division.SMod | essentials/stdlib/__modsi3.c:5-30 | The remainder with the dividend's sign, as a word; the result is REM's for all words |
| Division.OverflowRow | essentials/stdlib/__divsi3.c:27-31 | The smallest word over -1 gives itself and remainder 0, the overflow row of section 7.2 |
| Division.QuoRem | essentials/stdlib/__divsi3.c:9-31 | Quotient and remainder make up the dividend; the remainder is smaller than the divisor and has the dividend's sign |
| Division.QuotientFits | essentials/stdlib/__divsi3.c:9-31 | The signed quotient fits a word if and only if it is not the smallest word over -1; the remainder always fits |
| Division.WordIdentity | essentials/stdlib/__modsi3.c:8-29 | a = (a/b) * b + a % b modulo 2^32 for every non-zero divisor |
| Multiplication.Multiply | essentials/stdlib/__mulsi3.c:53-86 | The low 32 bits of the product on both paths, in at most 16 rounds of the loop |
| Multiplication.Small | essentials/stdlib/__mulsi3.c:53-62 | The table path, with its indices in range |
| QuarterTable.EntryIsSquare | essentials/stdlib/__mulsi3.c:3-49 | Each of the 511 entries is the quarter square that the comment says |
| Multiplication.QuarterSquares | essentials/stdlib/__mulsi3.c:3-51 | Quarter squares of sum and difference differ by the product |
| RadixSpec.PassesSortStably | programs/c/radix_sort.c:2060-2086 | After k passes: a permutation of the input, sorted by the low 8k bits, equal keys in input order |
| RadixSpec.FourPassesSort | programs/c/radix_sort.c:2055-2086 | Four passes sort all 32-bit values |
| RadixSpec.PlacedIsPass | programs/c/radix_sort.c:2073-2081 | Any array with each element at its counted place is the stable pass, so placing from the back or the front is the same |
| RadixSpec.PassStable | programs/c/radix_sort.c:2073-2081 | A pass keeps the order of elements with equal low bits |
| RadixSort.RadixSortInPlace | programs/c/radix_sort.c:2055-2086 | The in-place program computes the four passes |
| RadixSort.RadixSortPingPong | collegereport/demo/experiment_scripts/workloads/radix.c:4-12 | The ping-pong program computes the same four passes and ends in the first array |
| QuickSort.QuickSort | programs/c/quick_sort.c:2052-2091 | Sorts the segment, touches nothing outside it, keeps every index in bounds and terminates |
| QuickSort.SortSmallerSide | collegereport/demo/experiment_scripts/workloads/qsort.c:4-10 | The same, with a recursion depth of at most log2 of the segment length |
| QuickSort.SortOneSide | collegereport/demo/experiment_scripts/workloads/qsort.c:6-8 | One round: partition, recurse on the smaller side, keep the other, everything around already in order |
| QuickSort.Partition | programs/c/quick_sort.c:2058-2080 | Hoare's loop without sentinels: both scans stop in bounds and the sides are separated by the pivot |

## Left out

- The structural-hazard path of memory.c and simulator.c: the counter functions return -1 but memory.c compares after subtracting one, so it does not run; the cache theorems show that -1 never comes up. Latency 0 likewise.
- CacheSystem.FetchSeesMemory: excludes fetches, wrong-path ones too, of blocks that are also accessed as data; what the source then does to a load in the same moment is `CacheSystem.SharedBlockAborts`.
- That the latencies the pipeline sees are those the caches answer: the pipeline theorems hold for all latencies, and `PipelinePorts` carries the order of accesses over.
- Dynamic predictors: stubs in the source, here a constant answer; `store` and `L1_SPLIT` are not used there.
- Display strings of slots (`ins`): a flag says whether a slot holds an instruction.
- Reads past the end of memory give 0 bytes here; the source reads whatever follows its array.
- fence is a bubble, as in the source, without ordering claims; ebreak's encoding is that of the source's table, not of section 2.8 of the manual.
- One-set (fully associative) geometries, where the source shifts by 32, are not covered. Write-allocate below the first level is modelled and its counts are proved (`CacheCount.WriteFlow`), but the coherence theorems exclude it, as the default configuration does.
- Cache configuration files, logging, statistics output, and the `data` field of lines, which the source never fills.
- Accesses that cross a block, and reference counters beyond INT64_MAX.
- JSON numbers other than integers of up to 15 digits on input and 32-bit integers on output, locales, allocation failure, custom hooks, raw items, references, minify, the error position of a failed parse.
- String literals outside RFC 8259 that the parser accepts: control characters and bad digits (`JsonUnicode.LiteralTaken`) are modelled, but no theorem lists them all; `JsonTokens` takes a string token as the parser reads it.
- Digits of an operand beyond 63 bits: `atoi` and `strtol` then saturate, and the model goes on modulo 2^32.
- JsonReader.ParseBuffer.ReadNumber: the scan over the number's characters is code, the conversion that strtod does is the function of JsonParse.
- The parsed tree is a value; that `parse_array` and `parse_object` link items as `JsonList` does is not shown.
- Deletion of items (`cJSON_Delete`) and the functions that look up fields by name.
- Adding or inserting an item that is already a child, or the parent itself into the middle of its list: callers must not.
- Assembler tokens longer than 31 characters, lines longer than 255, and bytes above 127: a string is unbounded here.
- Assembler output formats, verbose listing, messages and line numbers; `fgets` and files.
- `srai` keeps bit 10 in its immediate, as the source does; the shift uses five bits.
- The scan loops of the sorts and the rounds of the pipeline's cycle stand in helper methods; input sizes are those of the arrays.
- ELF loading, visual output, traces, the bump allocator, memcpy, bubble sort, matrix multiply, Fibonacci and factorial: plumbing or easy members.

# A verified model of the RV64I pipeline simulator

The repository simulates a RISC-V processor twice. `src/cycle.cpp` is a five-stage pipeline, advanced cycle by cycle:
five latches, stall counters for an instruction and a data cache, hazard detection, forwarding, branch resolution in ID,
exceptions that redirect to 0x8000, and a deferred squash. `src/simulator.cpp` and `src/funct.cpp` run the same
instructions one at a time. The model states what the first owes to the second, and proves it.

- **Refinement.** A program whose reference run reaches HALT without a fault, and that meets the side conditions
  (A) to (D) of `HazardSafety.dfy`, brings the pipeline to HALT under every pair of cache configurations, within a stated
  number of cycles, with the registers x1 to x31, the memory and the instruction count of the reference run.
- **The side conditions are needed.** Without them the refinement is false. For each clause of (A) to (D) there is a program
  that violates only this one and that the pipeline gets wrong, and for every operand forwarded to EX, every operand of a
  branch and every store datum the exact condition under which it is right. A program with a load, a taken branch that
  depends on it and a store meets them all.
- **Every run, safe or not.** Nothing decoded is lost, duplicated or reordered; an instruction that was not held, or only in
  the cycle before it leaves ID, gets the youngest older value of each register it reads; D-stall cycles are exactly the
  misses times the latency; an instruction in ID is held exactly while an operand is not ready, in at most two cycles, and
  counts the load-use event that is due, no more and no fewer; an instruction miss keeps IF empty for exactly its latency,
  however long data stalls and hazards last meanwhile; n cycles are at most (I latency + 13)
  (instructions decoded + 1) + D latency times the data misses, and no run livelocks; from the cycle after a fault on nothing
  is written before the exception handler is decoded; after an illegal word the handler is decoded next, but twice if the
  word was decoded in the cycle that started a D-stall of odd length.
- **The cache is LRU.** The timestamped table of `src/cache.cpp` agrees with a recency list; from this follow the
  stack-distance law, inclusion, and competitiveness against every policy that brings in only the block accessed. The
  sets fill the capacity, and an address belongs to the set of its block number.
- **Memory and ISA laws.** Reads return the last bytes written; I, S, B and J immediates and their encodings are inverse to
  each other; every instruction word, with its fields in plain numbers, is decoded, computed, resolved and accessed as stated
  in terms of numbers and single bits, without the operators of the model.

## Layout

| files | content |
|---|---|
| `Utilities`, `Memory`, `Instructions`, `LruCache`, `PipelineSpec` | words, memory, instruction helpers, cache and one pipeline cycle, as functions on values |
| `MemoryStore`, `Cache`, `Simulator`, `Pipeline`, `Drivers` | the objects of the source, updated in place, each method proved against those functions |
| `SequentialRun`, `HazardSafety`, `Correspondence` | the reference run, the side conditions, the relation between a pipeline state and a position of the run |
| `Operands`, `Stages`, `FrontEnd`, `Holding`, `Fetching`, `Preservation`, `Progress`, `Refinement` | the refinement proof, stage by stage |
| `Exactness`, `StageFactoring` | exact conditions for operands; the stages on an empty pipeline |
| `StraightLine`, `Necessity`, `StoreOrder`, `HeldOperands`, `StaleBranches` | how programs stream through the pipeline; programs that violate one clause of the side conditions each, and one that meets them |
| `Ledger`, `Freshness`, `ControlFlow`, `Liveness`, `FetchStalls`, `Displays`, `Traps`, `HandlerTwice` | invariants and theorems about every run; a run that decodes the handler twice |
| `Recency`, `Competitive`, `LruTheory` | recency lists, the competitive bound, the cache against them |
| `MemoryLaws`, `Shifts`, `IsaLaws` | memory, arithmetic shifts, immediates and their encodings |
| `Numbers`, `AluLaws`, `InstructionLaws` | 64-bit words as numbers; what every instruction word computes, where it goes, what it loads and stores |

The reference run is a `Course`: a state and an instruction for each number, each following from the state before
(`Follows`). From every state there is exactly one (`SequentialRun.CourseFollows`, `SequentialRun.CourseIsUnique`). A run of
the pipeline is iterated `Cycle`; in the modules about single programs it is a recording with a state for each cycle
(`StraightLine.Records`, `StraightLine.RecordsRun`).

Words are numbers below 2^64 with wrap-around written out; immediates and the ALU work on their bits, and the fields of an
instruction are read off by division and remainder (`IsaLaws.FieldsAreBits`). The side
conditions, for instruction k of the reference run, are:

- (A) if k is a store, its data register is not written by a load at k-1, nor by both k-1 and k-2;
- (B) if k reads the result of a load at k-1, k-2 writes no other register that k reads; if k is a branch or JALR that
  reads the result of a load at k-2, k-1 does not access memory;
- (C) neither k-1 nor k-2 changes the word of k;
- (D) the word behind HALT is not a store.

## Where the code and its documentation differ

- `test/load_to_store_forward.s:1-17` and `test/load_store_forward_no_stall.s:1-11` expect a store to store the value just
  loaded. The code stores zero or an older value (`Necessity.StoreDataNeeded`, `Exactness.OperandBehindLoadRightIff`): the
  path it calls WB to MEM reads the latch of the instruction two ahead (`src/cycle.cpp:246-249`).
- `src/cycle.cpp:429-432` says that IF does not access the cache on an illegal word; the next line accesses it.
- `src/cycle.cpp:431` says that the instruction in ID is squashed in the next cycle; a D-stall uses the squash up, and the
  exception is raised again every other cycle (`Traps.IllegalWordInStall`, `HandlerTwice.HandlerRunsTwice`).
- `src/cycle.cpp:25-27` says that WB continues during a D-miss; the code feeds it bubbles (`src/cycle.cpp:136-137`).
- `src/simulator.cpp:541-542` lets faults trap in WB; the pipeline notices them when the instruction leaves MEM
  (`src/cycle.cpp:138-143`).

The model follows the code in all of these.

## Model

| member | source | states |
|---|---|---|
| `Refinement.PipelineRefinesReference` | `src/cycle.cpp:92-568` | for every fault-free, hazard-safe run and all cache configurations the pipeline halts, first at some cycle n, with x1 to x31, memory and `dynRetired` of the reference run; n is at most (I latency + 7)(h + 1) + I latency + 4 + D latency times the data misses |
| `Refinement.ResultsAtHalt` | `src/cycle.cpp:544-558` | any pipeline run stopped by HALT shows those results |
| `Refinement.TimingIndependence` | `src/cycle.cpp:118-127` | two cache configurations differ in when a hazard-safe program halts, not in registers, memory or `dynRetired` |
| `Refinement.HaltsFrom` | `src/cycle.cpp:588-597` | the same from every state that corresponds to a position of the reference run, not just from the start |
| `Preservation.CycleMatches` | `src/cycle.cpp:92-568` | each cycle before HALT keeps the correspondence: which instruction is in which latch, with which results, which registers and memory are due, what IF fetches, how operands of a held instruction can still become right |
| `Preservation.HaltCycle` | `src/cycle.cpp:544-558` | the cycle in which HALT reaches WB leaves exactly the reference registers and memory, although younger instructions are in flight |
| `Progress.PotentialFalls` | `src/cycle.cpp:118-127` | time left to HALT falls in every cycle, except that a data miss adds its latency |
| `Progress.FetchTiming` | `src/cycle.cpp:409-518` | the wait of IF for its next word shortens in every cycle that is not held, because a block that has missed is resident when its stall is over |
| `Drivers.RunTillHalt` | `src/cycle.cpp:590-597` | the loop of one-cycle runs terminates on such a program and returns HALT with the reference results |
| `Drivers.Functional.RunInstructions` | `src/funct.cpp:24-46` | executes the reference run in order; the status tells HALT, an illegal word, or that the full number has run; 0 is no limit |
| `Drivers.Functional.RunTillHalt` | `src/funct.cpp:50-57` | it ends behind the first HALT or illegal word of the run, faults or not, with the status that tells which; a fault-free program ends with HALT after h + 1 instructions |
| `Pipelines.Pipeline.Step` | `src/cycle.cpp:92-568` | one iteration over the fields takes the whole state, caches, registers and memory included, to the specified next state |
| `Pipelines.Pipeline.RunCycles` | `src/cycle.cpp:87-586` | runs the given number of cycles or stops at the first in which HALT reaches WB, and says which; 0 is no limit |
| `Pipelines.Pipeline.constructor` | `src/cycle.cpp:58-81` | an idle pipeline over the given memory, empty caches, zero registers |
| `Pipelines.Pipeline.WriteBack` | `src/cycle.cpp:129-159` | the WB stage in place: commit, trap, retirement count |
| `Pipelines.Pipeline.AccessMemory` | `src/cycle.cpp:237-276` | the MEM stage in place: store data, memory, data cache, D-stall |
| `Pipelines.Pipeline.Execute` | `src/cycle.cpp:278-314` | the EX stage: bubble, squash, or the forwarded instruction executed |
| `Pipelines.Pipeline.DetectHazards` | `src/cycle.cpp:161-235` | the hazard and event flags of the cycle, which hold ID and count as `Freshness.HeldInEveryRun` and `Ledgers.CountedKept` say |
| `Pipelines.Pipeline.ResolveAndDecode` | `src/cycle.cpp:322-400` | branch resolution, the ID stage, and which of the competing redirections wins |
| `Pipelines.Pipeline.Fetch` | `src/cycle.cpp:402-518` | the IF stage in place, with all stall, squash and redirect paths; its timing is that of `FetchStalls.MissKeepsIFEmpty` and `FetchStalls.MissEnds` |
| `SequentialRun.CourseFollows` | `src/funct.cpp:28-32` | from every state there is a course of the reference simulator |
| `SequentialRun.CourseIsUnique` | `src/funct.cpp:28-32` | and no other: the state and the instruction of each number are those of the iterated `simInstruction` |
| `SequentialRun.ExplainStep` | `src/simulator.cpp:570-586` | every legal, non-faulting reference step in terms of fetch, decoding, operands, ALU, access and commit, each of which the tables of `AluLaws` and `InstructionLaws` give for all words |
| `SequentialRun.StepEnds` | `src/simulator.cpp:570-576` | instructions are numbered in order; HALT and illegal words change neither registers nor memory and leave 0 as the next PC |
| `SequentialRun.RegisterStep` | `src/simulator.cpp:440-447` | each register (x0 masked) after an instruction is its result if it writes it, else unchanged |
| `SequentialRun.DecodeShape` | `src/simulator.cpp:47-164` | for every word: illegal, HALT and NOP words touch nothing, loads and stores exclude each other and the ALU, a destination is written by a load or the ALU only |
| `Operands.ForwardedIsYoungest` | `src/cycle.cpp:294-310` | the three patches yield the result of the youngest instruction in EX, MEM or WB that writes the register, else the held value |
| `Freshness.OperandsAreFresh` | `src/cycle.cpp:294-351` | in every state of every run, with hazards, faults and stalls: an instruction leaving ID that no hazard has held, or only the one in the cycle before, receives for each register the result of the youngest of the instructions in EX and MEM that writes it, else the register file's value; so does a branch at its resolution; and the datum of a store that left ID so is right exactly in the cases stated |
| `Freshness.EXGetsYoungest` | `src/cycle.cpp:294-310` | an operand that is current or whose writer is in WB is made the youngest value by EX forwarding |
| `Freshness.BranchGetsYoungest` | `src/cycle.cpp:322-351` | the same for branch resolution with what has just reached MEM and WB; no instruction in EX writes the register then |
| `Freshness.DatumRightIff` | `src/cycle.cpp:246-249` | the store datum is the youngest value iff the instruction ahead does not write the register, or WB patches it with an equal value, or WB does not patch and the instruction ahead is not a load, or loaded zero |
| `Freshness.HeldInEveryRun` | `src/cycle.cpp:165-235` | in every state of every run ID is held exactly if it needs a register whose writer ahead has no result yet: a load in EX; for a branch or JALR anything in EX and a load in MEM; the datum of a store is not needed |
| `Freshness.FreshEveryRun` | `src/cycle.cpp:136-376` | the invariants behind it: WB agrees with the register file, unheld operands agree with it, operands held once do or have their writer in WB |
| `Operands.OperandForEX` | `src/cycle.cpp:294-310` | in a hazard-safe run an instruction leaving ID, held or not, gets for each source the value the reference run reads |
| `FrontEnd.OperandForBranch` | `src/cycle.cpp:322-351` | so does a branch or JALR when it is resolved |
| `FrontEnd.TakenRight` | `src/cycle.cpp:359-370` | a branch is taken iff the reference run leaves the fall-through, and then goes to the same target |
| `Stages.StoreDataRight` | `src/cycle.cpp:246-249` | under (A) a store writes the value the reference run stores |
| `Stages.MEMStep` | `src/cycle.cpp:243-271` | MEM performs exactly the access of the reference run, and counts it once in the data cache |
| `Stages.WBStep` | `src/cycle.cpp:144-153` | WB advances the registers and the count by exactly one instruction of the run |
| `Stages.EXStep` | `src/cycle.cpp:292-313` | EX leaves the instruction with the reference operands and ALU result |
| `Holding.FreshAfterHold` | `src/cycle.cpp:372-376` | under (B) the operands of an instruction held by a hazard can still be made right by forwarding, also across a D-stall |
| `Fetching.FetchesRight` | `src/cycle.cpp:489-516` | under (C) and (D) a word fetched early is the one the reference run executes |
| `Exactness.ForwardedRightIff` | `src/cycle.cpp:294-310` | forwarding is right iff an instruction in EX, MEM or WB supplies the register or the held value is still current |
| `Exactness.OperandIntoEXRightIff` | `src/cycle.cpp:292-312` | the same for the latches of a pipeline that has been right so far, unless a load in EX writes the register |
| `Exactness.OperandBehindLoadRightIff` | `src/cycle.cpp:295-298` | directly behind a load of the register the forwarded value is zero, so it is right iff the loaded value is zero |
| `Exactness.BranchOperandRightIff` | `src/cycle.cpp:322-351` | a branch operand is right iff an instruction in EX, MEM or WB of the cycle before supplies the register or the operand held in ID is current; no instruction in EX writes it |
| `Exactness.StoreDatumRightIff` | `src/cycle.cpp:246-312` | the datum a store will write, in terms of the run: with a writer two ahead in WB, right iff the instruction in between does not write the register or writes the same value; else behind a load of the register iff it loaded zero; else iff an older instruction in flight supplies the register or the operand in ID is current |
| `Necessity.StoreDataNeeded` | `src/cycle.cpp:246-249` | a program violating the first clause of (A) only: the store of a byte just loaded writes zero |
| `StoreOrder.StoreOrderNeeded` | `src/cycle.cpp:246-249` | a program violating the second clause of (A) only: after two additions to x2 the store writes the first sum |
| `HeldOperands.HeldOperandNeeded` | `src/cycle.cpp:372-376` | a program violating the first clause of (B) only: a held store loses the register written before the load that missed; x2 starts with another low byte than 1, as the zeros of the source do |
| `StaleBranches.BranchOperandNeeded` | `src/cycle.cpp:322-351` | a program violating the second clause of (B) only: behind a load that misses, a branch is resolved with the x1 from before the load two ahead; x1 starts at zero, as in the source |
| `Necessity.CodeStableNeeded` | `src/cycle.cpp:489-509` | a program violating (C) only: the second store runs as it was before the first one patched it |
| `Necessity.HaltShadowNeeded` | `src/cycle.cpp:240-271` | a program violating (D) only: the store behind HALT is done |
| `StaleBranches.BranchingIsSafe` | `src/cycle.cpp:359-370` | a program with a load, a taken branch on the loaded value and a store meets all side conditions |
| `StaleBranches.BranchingRuns` | `src/cycle.cpp:544-558` | so it halts under all cache configurations with the store done |
| `Necessity.WithoutTheStore` | `src/cycle.cpp:544-558` | the program for (D) meets all side conditions once a NOP replaces its store |
| `StraightLine.SmoothCycle` | `src/cycle.cpp:292-518` | a cycle without stall, trap, redirection or instruction miss moves every instruction one stage on and fetches the next word, in any cache and at any PC |
| `StraightLine.HeldCycle` | `src/cycle.cpp:372-376` | in a hazard cycle ID stands still and a bubble enters EX while MEM and WB go on; IF waits for an I-stall or stands still, and forgets a pending squash |
| `StraightLine.FrozenCycle` | `src/cycle.cpp:284-286` | in a D-stall cycle ID, EX and MEM stand still and WB loses what it held; IF waits, stands still, or fetches a word that has arrived |
| `StraightLine.RecordsRun` | `src/cycle.cpp:92-586` | a recording shows the states of the iterated cycle |
| `StraightLine.Beginning` | `src/cycle.cpp:58-81` | every program does begin in both simulators, with any registers and data cache: the theorems about single programs are about actual runs |
| `StraightLine.Flow` | `src/cycle.cpp:292-518` | with no hazard, trap or redirection the instructions in IF, ID, EX and MEM are in ID, EX, MEM and WB one cycle later, with the results their stages have computed, and the next word is in IF |
| `StageFactoring.StagesFactorInstruction` | `src/simulator.cpp:455-566` | IF, ID, EX, MEM, WB of a legal, non-faulting instruction other than HALT have the effect of `simInstruction` on x1 to x31, memory and the PC |
| `StageFactoring.NoEffect` | `src/simulator.cpp:506-561` | an illegal or faulted instruction passes EX, MEM and WB without effect and leaves for 0x8000 |
| `StageFactoring.AddressIsIdempotent` | `src/simulator.cpp:392-405` | computing the address again, as MEM does, changes nothing |
| `Ledgers.EveryRun` | `src/cycle.cpp:92-568` | in every state of every run, with faults and illegal words: conservation, order, the hazard bound, exact event counts and exact D-side accounting |
| `Ledgers.ConservedKept` | `src/cycle.cpp:136-159` | each decoded instruction is retired, dropped as illegal, faulted, squashed by a fault, or in ID, EX or MEM |
| `Ledgers.OrderKept` | `src/simulator.cpp:473-476` | instruction numbers fall strictly from ID to MEM and stay above all retired ones: no instruction is in two latches or retires out of order |
| `Ledgers.HazardsKept` | `src/cycle.cpp:165-235` | between two decodes there are at most two hazard cycles and at most one load-use event, and events never exceed instructions decoded |
| `Ledgers.CountedKept` | `src/cycle.cpp:165-235` | `loadUseStallCount` is the sum of the events of all stays in ID; a held instruction that is no branch or JALR has raised exactly one; a held branch or JALR exactly if in its first held cycle EX supplies an operand and is a load, or EX supplies none, a load in MEM does, and EX is not an empty slot of status BUBBLE |
| `Ledgers.DataSideKept` | `src/cycle.cpp:240-271` | hits plus misses are the accesses that entered MEM, each once however long it stalls, and frozen cycles plus `dStallLeft` are misses times latency |
| `ControlFlow.DecodedChain` | `src/cycle.cpp:359-400` | up to the first trap or illegal word, at any latency and with any hazards, the decoded PCs start at 0 and each next one is where the previous instruction was resolved to go |
| `ControlFlow.DataFaultTraps` | `src/cycle.cpp:136-147` | the cycle of a data fault writes no register, retires nothing, empties ID, EX, MEM and WB, and redirects to 0x8000 |
| `ControlFlow.IllegalWordTraps` | `src/cycle.cpp:389-400` | after an illegal word the older instructions move on, unless one of them faults in the next cycle, it is dropped before EX, and IF is redirected to 0x8000, if the cycle of the decode starts no D-stall |
| `ControlFlow.CycleWrites` | `src/cycle.cpp:136-276` | in every cycle of every run the instruction leaving MEM writes its register unless it has faulted, a store leaving EX writes memory, also in the cycle in which the instruction ahead traps, and nothing else is written |
| `Liveness.CyclesAreBounded` | `src/cycle.cpp:92-586` | for every memory, registers, cache configurations and n, with faults and illegal words: n is at most (I latency + 13)(instructions decoded in the first n cycles + 1) + D latency times the data misses so far |
| `Liveness.PendingFalls` | `src/cycle.cpp:118-127` | the potential behind it falls in every cycle of every sound state, except that a decode adds at most I latency + 13 and a data miss the D latency |
| `Liveness.NeverLivelocks` | `src/cycle.cpp:118-127` | after any number of cycles of any run another word is decoded within one I latency, three D latencies and 12 cycles |
| `Liveness.NextDecode` | `src/cycle.cpp:372-400` | from every state with sound latches the next decode comes within a potential that falls in each cycle without one |
| `Liveness.FetchPaths` | `src/cycle.cpp:402-518` | on every path through IF: the new wait is bounded, and a pending miss keeps IF empty with its block resident |
| `FetchStalls.MissKeepsIFEmpty` | `src/cycle.cpp:118-127` | after an instruction miss on any path, until IF is redirected: IF is empty, shows the missed address and has latency + 1 - n cycles left in the results of cycle n, for at least one cycle; D-stalls and hazards do not lengthen the latency, and behind it only hazards keep IF empty; the cache is not accessed |
| `FetchStalls.MissEnds` | `src/cycle.cpp:453-513` | the first later cycle without a hazard brings the missed word into IF; the episode counts one miss, and one hit unless it ends in a D-stall or right behind a cycle of pure waiting |
| `FetchStalls.MissAlone` | `src/cycle.cpp:479-513` | with no D-stall and no hazard IF is empty for exactly max(latency, 1) results, and hits plus misses grow by one for a latency of two or more, else by two |
| `FetchStalls.ColdStart` | `src/cycle.cpp:58-127` | in every run of every program IF is empty for max(latency, 1) cycles after the miss at 0 and then holds the first word; a latency below two counts a hit |
| `FetchStalls.FetchStarts` | `src/cycle.cpp:411-513` | a miss starts a wait of the whole latency; a hit puts the word into IF and leaves no wait |
| `FetchStalls.FetchesAccess` | `src/cycle.cpp:402-513` | the instruction cache is accessed in exactly the cycles with a redirection, and in those in which nothing holds IF and the cycle before was not one of pure waiting; once, at the address IF then shows |
| `Displays.CountersOfRun` | `src/cycle.cpp:544-566` | after n cycles of any run `cycleCount` is n, and the instruction counter is the number of instructions decoded, NOPs aside, up to the first HALT decoded |
| `Displays.EmptySlots` | `src/cycle.cpp:129-400` | the status of an empty slot of ID, EX, MEM or WB says why it became empty and moves on with it, through stalls and traps |
| `Displays.SpeculationShown` | `src/cycle.cpp:465-513` | after every cycle that is not frozen a word in IF is shown as speculative exactly if a branch or jump is in ID |
| `Displays.SpeculationInRuns` | `src/cycle.cpp:402-518` | in every state of every run a speculative word in IF has a branch or jump in ID |
| `Traps.DataFaultReachesHandler` | `src/cycle.cpp:411-427` | after a data fault registers, memory and `dynRetired` do not change any more until the word at 0x8000 is decoded, which happens in bounded time and next |
| `Traps.IllegalWordReachesHandler` | `src/cycle.cpp:389-437` | after an illegal word, in every cycle that does not trap, the next word decoded is the one at 0x8000, in bounded time, even if an older instruction faults meanwhile, in the very next cycle or later, and even if a D-stall holds the illegal word in ID |
| `Traps.IllegalWordInStall` | `src/cycle.cpp:353-377` | if its cycle starts a D-stall of d cycles, the deferred squash alternates: for even d the illegal word is dropped after the stall without a decode; exactly for odd d the handler's first word is decoded in the first cycle after the stall, and fetched once more |
| `Traps.HandlerDecodedTwice` | `src/cycle.cpp:428-437` | then, if this word is a legal instruction other than a branch or jump and moves on to EX at once, the next word decoded is the same one again: the handler's first instruction runs twice |
| `HandlerTwice.HandlerRunsTwice` | `src/cycle.cpp:353-377` | a run that does so: a load that misses for one cycle, a NOP and an illegal word; the handler's addition is decoded in cycle 6 and is the next word to be decoded, too |
| `Caches.Cache.Access` | `src/cache.cpp:45-98` | the search, replacement and counters in place: the table afterwards, the hit returned, nothing else changed |
| `Caches.Cache.FindHit` | `src/cache.cpp:61-67` | the first way that holds the tag |
| `Caches.Cache.FindVictim` | `src/cache.cpp:74-91` | the first invalid way, else the first with the smallest stamp |
| `Caches.Cache.constructor` | `src/cache.cpp:16-42` | an empty table with the sets and ways that fill the capacity as `LruTheory.Capacity` says |
| `LruTheory.Capacity` | `src/cache.cpp:27-30` | the sets of `ways` blocks each fit into `cacheSize`, and one more would not |
| `LruTheory.SetOfAddress` | `src/cache.cpp:45-49` | with powers of two, an address goes to the set of its block number modulo cacheSize / (blockSize ways), and its tag is the quotient |
| `LruCache.AccessMakesResident` | `src/cache.cpp:93-97` | a block just accessed is resident, hit or miss |
| `LruCache.AccessCounts` | `src/cache.cpp:61-72` | a miss is counted iff the block was not resident |
| `LruTheory.CacheIsLru` | `src/cache.cpp:51-97` | after any trace each set's valid lines by falling stamp are the most recent distinct tags of its subtrace; valid lines form a prefix, tags are unique, stamps distinct and bounded |
| `LruTheory.HitsIfContained` | `src/cache.cpp:60-67` | an access hits iff its tag is in that recency list |
| `LruTheory.StackDistanceLaw` | `src/cache.cpp:45-98` | an access hits iff its block was accessed before and fewer than `ways` distinct others of its set since |
| `LruTheory.Inclusion` | `src/cache.cpp:45-98` | with equal sets and blocks, a cache with fewer ways never holds a block that one with more ways lacks |
| `LruTheory.MoreWaysFewerMisses` | `src/cache.cpp:72-72` | so it never has fewer misses |
| `LruTheory.EveryAccessCounted` | `src/cache.cpp:51-72` | hits plus misses are the accesses, and the LRU counter |
| `LruTheory.CacheIsCompetitive` | `src/cache.cpp:45-98` | in every set `access` misses at most `ways` times as often as any policy with as many lines that brings in nothing but the block accessed, whatever and whenever it evicts |
| `Competitive.LruIsCompetitive` | `src/cache.cpp:83-91` | the bound for recency lists against all these policies, by a potential |
| `Competitive.LazyIsNoWorse` | `src/cache.cpp:72-91` | every such policy is simulated by one that evicts only on a miss, one block, without more misses |
| `Recency.StackDistance` | `src/cache.cpp:83-91` | the position of a block in the recency list is the number of distinct blocks since its last access |
| `LruTheory.SameLineIffSameBlock` | `src/cache.cpp:46-49` | two addresses have equal index and tag iff they lie in the same block |
| `MemoryStores.MemoryStore.ReadBytes` | `src/MemoryStore.cpp:73-77` | the loop succeeds iff all bytes are in range, and then returns their little-endian composition |
| `MemoryStores.MemoryStore.WriteBytes` | `src/MemoryStore.cpp:78-82` | the loop succeeds iff all bytes are in range; a failing one has written exactly the bytes before the first out of range |
| `MemoryStores.MemoryStore.GetOrSetValue` | `src/MemoryStore.cpp:57-89` | the error code for bad sizes and bounds, the value read, the bytes written |
| `MemoryStores.MemoryStore.GetMemValue` | `src/MemoryStore.cpp:91-93` | reads and fails as specified, changing nothing |
| `MemoryStores.MemoryStore.SetMemValue` | `src/MemoryStore.cpp:95-97` | writes and fails as specified |
| `MemoryLaws.ReadsLastWritten` | `src/MemoryStore.cpp:57-97` | after any sequence of stores of mixed sizes, a read composes for each byte the last value written to it |
| `MemoryLaws.ReadBack` | `src/MemoryStore.cpp:57-97` | reading back a store gives its value modulo its size |
| `MemoryLaws.DisjointRead` | `src/MemoryStore.cpp:78-82` | a store leaves reads of other bytes alone |
| `MemoryLaws.StoreFootprint` | `src/MemoryStore.cpp:78-82` | a store, failing or not, changes exactly the bytes of its range that exist |
| `MemoryLaws.WideRead` | `src/MemoryStore.cpp:73-77` | a doubleword is its two words, low one first |
| `IsaLaws.IDecodesEncoded` | `src/simulator.cpp:183-183` | the I immediate of a word encoded with a signed 12-bit number is this number |
| `IsaLaws.IEncodesDecoded` | `src/simulator.cpp:183-183` | encoding a word's I immediate again restores the word; the immediate is in range |
| `IsaLaws.SDecodesEncoded` | `src/simulator.cpp:393-396` | the same for S |
| `IsaLaws.SEncodesDecoded` | `src/simulator.cpp:393-396` | the same for S |
| `IsaLaws.BDecodesEncoded` | `src/simulator.cpp:181-190` | the B offset of an encoded word is every even signed 13-bit number |
| `IsaLaws.BEncodesDecoded` | `src/simulator.cpp:181-190` | encoding a word's B offset again restores the word; the offset is even and in range |
| `IsaLaws.JDecodesEncoded` | `src/simulator.cpp:184-196` | the same for J and even signed 21-bit numbers |
| `IsaLaws.JEncodesDecoded` | `src/simulator.cpp:184-196` | the same for J |
| `AluLaws.IntegerOperation` | `src/simulator.cpp:266-303` | all ten register operations for all operands: ADD and SUB modulo 2^64, SLT and SLTU as orders of signed and unsigned numbers, shifts as multiplication by and floor division by powers of two, XOR, OR and AND bit by bit |
| `AluLaws.ImmediateOperation` | `src/simulator.cpp:325-356` | the nine immediate operations, with the signed number of bits 31 to 20 |
| `AluLaws.WordOperation` | `src/simulator.cpp:304-324` | the five 32-bit operations: signed value of the low 32 bits of the result |
| `AluLaws.ImmediateWordOperation` | `src/simulator.cpp:357-373` | the four with an immediate |
| `AluLaws.UpperAndLinks` | `src/simulator.cpp:374-386` | LUI is the signed upper immediate, AUIPC adds it to the PC, JAL and JALR link to pc + 4, modulo 2^64 |
| `InstructionLaws.DecodeTable` | `src/simulator.cpp:47-164` | for every word: which opcode, funct3 and funct7 are legal, the control signals and registers of each, in literal numbers |
| `InstructionLaws.NextPCTable` | `src/simulator.cpp:179-245` | for every word and operands: the condition of each branch, with the signed order by sign bit and unsigned order, and the targets of branches, JAL and JALR |
| `InstructionLaws.AddressTable` | `src/simulator.cpp:392-405` | loads add the I immediate to the base, stores the S immediate, modulo 2^64 |
| `InstructionLaws.FetchTable` | `src/simulator.cpp:30-44` | a fetch reads the little-endian number of four bytes and faults exactly if one lies outside |
| `InstructionLaws.LoadTable` | `src/simulator.cpp:408-427` | each load reads 1, 2, 4 or 8 bytes in little-endian order, signed or not, faults exactly if one lies outside, and changes nothing |
| `InstructionLaws.StoreTable` | `src/simulator.cpp:428-437` | each store changes exactly those of its 1, 2, 4 or 8 bytes that exist, to the bytes of the datum |
| `IsaLaws.ArithIsDefined` | `src/simulator.cpp:248-389` | every word decoded as an ALU instruction has a result that does not depend on what the result field held |
| `IsaLaws.FieldsAreBits` | `src/Utilities.cpp:192-198` | extracting the bits of each instruction field by shift and mask is division by and remainder of powers of two, the form in which the model decodes |
| `IsaLaws.ShiftKind` | `src/simulator.cpp:250-250` | the six bits the ALU tests are the upper six of the seven that decoding tests |
| `IsaLaws.AddW` | `src/simulator.cpp:307-308` | ADDW is the sign-extended low half of the 64-bit sum |
| `IsaLaws.SubW` | `src/simulator.cpp:309-310` | SUBW is the sign-extended low half of the 64-bit difference |
| `IsaLaws.SllW` | `src/simulator.cpp:313-315` | SLLW is the sign-extended low half of the 64-bit shift by five bits of the amount |
| `IsaLaws.SrlW` | `src/simulator.cpp:316-318` | SRLW is the sign-extended shift of the zero-extended low half |
| `IsaLaws.SraW` | `src/simulator.cpp:319-321` | SRAW is the 64-bit arithmetic shift of the sign-extended low half by five bits of the amount |
| `IsaLaws.AddIW` | `src/simulator.cpp:359-360` | ADDIW is the sign-extended low half of the 64-bit sum with the I immediate |
| `IsaLaws.SllIW` | `src/simulator.cpp:362-363` | SLLIW is the sign-extended low half of the 64-bit shift by bits 24 to 20 of the word |
| `IsaLaws.SrlIW` | `src/simulator.cpp:366-367` | SRLIW is the sign-extended shift of the zero-extended low half |
| `IsaLaws.SraIW` | `src/simulator.cpp:368-369` | SRAIW is the 64-bit arithmetic shift of the sign-extended low half |
| `IsaLaws.ArithShiftWidens` | `src/simulator.cpp:319-321` | the 32-bit arithmetic shift, sign-extended, is the 64-bit one of the sign-extended operand |
| `Simulators.Simulator.SimID` | `src/simulator.cpp:463-504` | decodes, numbers and counts in place |
| `Simulators.Simulator.SimMEM` | `src/simulator.cpp:523-538` | accesses memory in place, or passes an illegal or faulted instruction through |
| `Simulators.Simulator.SimWB` | `src/simulator.cpp:540-566` | commits in place, never to x0 |
| `Simulators.Simulator.SimMemAccess` | `src/simulator.cpp:408-437` | sizes, faults and sign extension of an access |
| `Simulators.Simulator.SimInstruction` | `src/simulator.cpp:570-586` | one whole instruction on registers, memory and the counter |

## Left out

- PipelineRefinesReference: the side conditions are sufficient for a whole run, not equivalent to a right result, since a wrong operand may happen to have the right value; the exact conditions are stated per operand in `Exactness`, and a run lost without each clause of (A) to (D) in `Necessity`, `StoreOrder`, `HeldOperands` and `StaleBranches`.
- OperandForEX: speaks of hazard-safe runs, whose operands are those of the reference run; what holds in every run is `Freshness.OperandsAreFresh`.
- OperandForBranch: the same.
- OperandsAreFresh: says nothing of an instruction held in an earlier cycle than the one before it leaves ID, for which the value can be lost (`HeldOperands.HeldOperandNeeded`, `StaleBranches.BranchOperandNeeded`); a load still in EX has no value yet and stands in with its ALU result, zero.
- RunsToHalt: excludes faulting runs from the refinement, because the reference simulator has no traps and goes on after a failed access.
- DecodedChain: ends at the first trap or illegal word; what follows is stated in `Traps`.
- IllegalWordTraps: speaks of an illegal word whose cycle starts no D-stall; the other case is `Traps.IllegalWordInStall`.
- DataFaultReachesHandler: speaks of the cycles after the fault; a store that is in EX in its cycle still writes memory (`ControlFlow.CycleWrites`).
- CacheIsCompetitive: compares with policies that hold the block just accessed and prefetch no other.
- RunCycles: with the argument 0, like `runInstructions` and the two `runTillHalt`, is modelled for runs that end; a run that never halts does not return.
- MemoryStore: a store has at most 2^63 bytes, as a byte vector does; the zero fill and the initial image read from files are replaced by an arbitrary byte sequence.
- Pipeline.constructor: describes the first initialization in a process; a second one would keep `justFinishedIStall`.
- Floating-point `log2` is the integer part of the base-2 logarithm, exact on the powers of two that configurations use; the statistics counters do not overflow.
- Dumps, printing, the disassembler, loading of files and command-line arguments.
- `wasIStalled`, `stalledForHazard`, `valToWrite` and the miss flag of IF, which nothing reads, and the unreachable exit at `src/cycle.cpp:495-501`.

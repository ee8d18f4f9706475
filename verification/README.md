# Verified models of a Decaf compiler back end and a MIPS teaching kernel

The repository holds a compiler from Decaf to MIPS (`decaf/`) and a small kernel for the
same machine (`ucore_modified/`). This project models the parts of both whose correctness
is hard to see from the code and proves, for all inputs, all runs and all interleavings,
what they are for.

| part | files |
|---|---|
| three-address code, its meaning, flow graphs | `Tac.dfy` |
| liveness analysis | `Liveness.dfy` |
| flow-graph simplification | `Simplify.dfy` (specification), `Simplifier.dfy` (in place) |
| stack frames, target machine | `Frame.dfy`, `Asm.dfy` |
| register allocation | `AllocSpec.dfy` (what is computed), `AllocProof.dfy`, `AllocBlockProof.dfy`, `AllocGraphProof.dfy` (simulation of an instruction, a block, a function), `AllocInserted.dfy` (what is inserted and saved), `AllocExact.dfy` (the condition of the simulation is exact), `AllocConditions.dfy` (conditions on the code that suffice), `AllocFailures.dfy`, `AllocRebinding.dfy` (inputs on which it goes wrong), `RegisterAllocator.dfy` (in place), `TacList.dfy` (the linked instruction list) |
| simplification, liveness, allocation and code together | `BackEnd.dfy` |
| method slots, virtual tables and fields | `Dispatch.dfy`, `DispatchFields.dfy` |
| software-managed TLB | `Tlb.dfy`, `TlbTable.dfy` (mappings and evictions), `TlbStale.dfy` (a run that goes wrong) |
| semaphores, dining philosophers on semaphores | `Semaphore.dfy`, `SemaphoreRuns.dfy`, `SemPhilosophers.dfy` |
| Hoare monitor and dining philosophers on it | `Monitor.dfy`, `MonitorProof.dfy`, `MonitorSafety.dfy` |
| page allocator | `FreeList.dfy` (values), `PageAllocator.dfy` (in place) |
| small-object heap | `SlobRing.dfy` (the ring), `SlobSpec.dfy` (requests and their runs), `Slob.dfy` (in place) |
| timers, process identifiers, scheduler | `Timers.dfy`, `PidAllocator.dfy`, `Scheduler.dfy` |
| number printing and parsing | `Numbers.dfy`, `ParseText.dfy` |
| file block maps and the image builder | `SfsMap.dfy` (values), `Sfs.dfy`, `SfsBuilder.dfy` (in place) |
| finite counting, optional values | `Counting.dfy`, `Options.dfy` |

`dafny verify dfyconfig.toml` checks everything.

## How to read the models

Code that updates things in place is a class or a method with loops whose contract names a
specification function or states the result outright; the properties are lemmas about
those functions. What the environment decides is a parameter: the meaning of arithmetic
and of called functions (`Meaning`), the iteration order of hash sets and the random victim
of a spill (`Choices`), the outcome of a page fault, the page that the page allocator
gives, and the choice of who moves next in a concurrent run.

The code of a block is written when the whole block has been allocated, so every temporary
appears in the register that it was bound to last. `Match` and the simulation therefore
speak of that final map throughout. `Sound` (for a block) means: every parameter is
followed by its call in the block, and with the final map no load, no instruction and no
end-of-block load writes a register while another temporary that is still needed is in it
(`Undisturbed`). Temporaries may move between registers, and there is no bound on register
pressure; `AllocExact.UndisturbedExact` shows that nothing weaker would do.

## Where the code does not meet its purpose

* A temporary that was in two registers at different times appears in the last one only.
  The code is then wrong if that register was needed by another temporary, and the
  simulation goes through otherwise. The code of `i = i + x + y`, for any two literals and
  three registers or more, computes `i + i + y` (`AllocRebinding.RebindingBreaks`). `AllocExact.UndisturbedExact` gives the exact
  condition, step by step, over the stores and machines that agree.
  `AllocConditions.SimpleSound` derives it from the original code and its liveness:
  operands and live temporaries fit the registers, and no temporary new to the block is
  touched between the last touch of a temporary and an instruction that overwrites it.
  This admits the code of `i = i + 1` (`AllocConditions.IncrementSimple`).
* A comment says that any register will do for the end temporary because all live ones
  have been spilled; the saves come after that load. `AllocExact.EndExact` gives the exact
  condition and `AllocFailures.EndLoadBreaks` a function that returns the wrong value.
* Under register pressure the second operand may take the first one's register
  (`AllocFailures.OperandClashExact`, both directions; `AllocFailures.FullClashes` for any
  number of registers).
* A flow graph that starts with an empty jump can get the wrong entry
  (`Simplify.EntryMoves`; exactly when: `Simplify.EntryExact`).
* Loading a page directory that still carries TLB marks breaks the TLB's bookkeeping
  (`Tlb.LoadExact`), and in the end an unmapped page is still translated
  (`TlbStale.StaleTranslation`).
* A request for a single unit, which kmalloc(0) makes, can be answered with the arena that
  keeps the ring of free blocks from running empty; two of them on an empty heap get the
  same block (`SlobSpec.ArenaTwice`). A request breaks the heap if and only if it is for a
  single unit and the arena is the block right behind slobfree (`SlobSpec.ServeKeeps`);
  the same over whole runs is `SlobSpec.RunsValidExact`.
* kmalloc's guard lets the sizes 4080 to 4087 through to slob_alloc, whose assertion they
  fail (`SlobSpec.KmallocGuard`, `Slob.Heap.Kmalloc`).
* The shift-only division takes a 64-bit number but is exact only below 0x140000002
  (`Numbers.Div10Exact`); the number printer's comment promises bases 1 to 16, of which 8,
  10 and 16 work (`Numbers.OtherBases`), and in base 1 the recursion does not end
  (`Numbers.NeverEnds`); the number reader's comment promises the prefix 0X, which is read
  as the number zero (`ParseText.CapitalPrefix`).
* Adding a memory region next to a free one leaves the page list uncoalesced
  (`FreeList.RegionCoalesces`).
* An enlargement of a file that runs out of space keeps the blocks it got but not the
  size, and a later call with the unchanged size fails an assertion (`Sfs.GrowThenKeep`);
  sizes beyond 12 + 1024 blocks stop the kernel (`Sfs.File.TruncFile`).

## Model

| member | source | states |
|---|---|---|
| Liveness.ComputeDefAndLiveUse | decaf/src/decaf/dataflow/BasicBlock.java:62-152 | the forward first-touch scan (lastVisitedBB) leaves exactly the def and use sets of the block, whose meaning ForwardMeetsBackward gives |
| Liveness.ForwardMeetsBackward | decaf/src/decaf/dataflow/BasicBlock.java:62-221 | for every block, use plus (liveOut minus def) from the forward scan equals the backward per-instruction liveness at block entry |
| Liveness.ScanAgrees | decaf/src/decaf/dataflow/BasicBlock.java:62-152 | the same equation after every prefix of the scan |
| Liveness.AnnotateLiveness | decaf/src/decaf/dataflow/BasicBlock.java:154-221 | the backward loop gives instruction i exactly the temporaries live after it, with the end temporary counted live |
| Liveness.FlowGraph.ComputeAll | decaf/src/decaf/dataflow/FlowGraph.java:172-175 | the starting point of the iteration is below every solution of the dataflow equations |
| Liveness.FlowGraph.Visit | decaf/src/decaf/dataflow/FlowGraph.java:179-189 | one turn of the add/remove/add on liveOut stores use plus (successors minus def) into liveIn, the successors' union into liveOut, and reports exactly whether liveIn changed |
| Liveness.FlowGraph.Pass | decaf/src/decaf/dataflow/FlowGraph.java:177-190 | a pass that reports a change has strictly fewer temporaries missing; one that reports none has reached a solution |
| Liveness.FlowGraph.AnalyzeLiveness | decaf/src/decaf/dataflow/FlowGraph.java:172-191 | the loop ends, with a solution of the equations that is below every other solution |
| Liveness.SolutionClosed | decaf/src/decaf/dataflow/FlowGraph.java:172-191 | at a solution liveIn is the backward liveness of the block's own code |
| Liveness.StepAgree | decaf/src/decaf/dataflow/BasicBlock.java:163-219 | two states that agree on what an instruction needs for the temporaries live after it agree on those afterwards |
| Liveness.RunAgree | decaf/src/decaf/dataflow/BasicBlock.java:154-221 | two states that agree on what is live at point i agree, after any stretch of the block, on what is live there, with the same calls, stores and pending arguments |
| Liveness.BlockAgree | decaf/src/decaf/dataflow/FlowGraph.java:172-191 | two states agreeing on a block's liveIn leave it by the same edge (or the same return value), agreeing on the successor's liveIn |
| Liveness.LivenessSound | decaf/src/decaf/dataflow/FlowGraph.java:172-191 | over n steps of any graph, states that agree on liveIn follow the same path with the same world (calls, stores, heap) and the same return value |
| Liveness.PointSound | decaf/src/decaf/dataflow/BasicBlock.java:154-221 | the same from any point inside a block: states that agree on what is live there, finish the block and run n more steps follow the same path with the same world and return value |
| Frame.FindSlotOk | decaf/src/decaf/backend/MipsFrameManager.java:33-42 | a slot is assigned once, never moves, and never equals another temporary's slot |
| Frame.FindSlotsOk | decaf/src/decaf/backend/MipsFrameManager.java:27-31 | the same for a whole set of temporaries, in any order |
| Frame.FindSlotDense | decaf/src/decaf/backend/MipsFrameManager.java:33-42 | every word of the locals' area is some temporary's slot, so that the frame is no larger than the slots handed out |
| Frame.FrameLayout | decaf/src/decaf/backend/MipsFrameManager.java:17-55 | with the frame size that is reported, slots, outgoing arguments and the two saved words never overlap |
| Frame.MipsFrameManager.AssignSlot | decaf/src/decaf/backend/MipsFrameManager.java:33-42 | updates the counters and the offset in place as FindSlot, keeping slots distinct and fixed |
| Frame.ArgumentsFit | decaf/src/decaf/backend/MipsFrameManager.java:44-55 | the arguments of a call get different words, inside the argument area that the finished frame has, apart from every temporary's slot; the area is exactly as large as the largest call needs |
| AllocProof.FindRegBinds | decaf/src/decaf/backend/RegisterAllocator.java:156-200 | after finding a register the temporary is in one, bindings are mutual, and no other temporary moved |
| AllocInserted.FindRegChooses | decaf/src/decaf/backend/RegisterAllocator.java:161-200 | the register taken is the lowest that is empty or holds a dead temporary, else the lowest whose temporary has a slot, else the one drawn |
| AllocInserted.FindRegInserts | decaf/src/decaf/backend/RegisterAllocator.java:161-224 | exactly the displaced temporary is stored and exactly one that is read is loaded, in this order; only these two get slots; a number is drawn exactly when nothing else decides |
| AllocInserted.CallSaves | decaf/src/decaf/backend/RegisterAllocator.java:70-84 | around a call exactly the live-out temporaries in registers are saved, other than the result, each in its slot |
| AllocInserted.EndSaves | decaf/src/decaf/backend/RegisterAllocator.java:108-144 | at the end of a block exactly the live-out temporaries in registers are saved; the end temporary is loaded exactly if it is in none |
| AllocProof.FindRegHolds | decaf/src/decaf/backend/RegisterAllocator.java:161-237 | the spills and loads that are inserted keep every live temporary's value in its final register or its own slot, unless the load writes the final register of a live one; a written temporary may change only itself |
| AllocConditions.PressureLeavesRoom | decaf/src/decaf/backend/RegisterAllocator.java:169-178 | when the live temporaries and the new one fit in the registers, some register can be taken without a spill |
| AllocConditions.FindRegKeeps | decaf/src/decaf/backend/RegisterAllocator.java:169-178 | then no live temporary loses its register |
| AllocProof.PlaceOperandsHolds | decaf/src/decaf/backend/RegisterAllocator.java:52-99 | when no operand's load writes the final register of a live temporary or of an operand placed before, all operands are in their registers with their values at the same time |
| AllocProof.PlainHolds | decaf/src/decaf/backend/Mips.java:127-257 | each plain instruction over registers does to the machine what the original does to the temporaries |
| AllocProof.ParmHolds | decaf/src/decaf/backend/RegisterAllocator.java:85-89 | a parameter is stored at the offset the frame hands out and the pending arguments agree |
| AllocProof.StoreAllEffect | decaf/src/decaf/backend/Mips.java:260-263 | saving in any order puts exactly the saved temporaries' values into their slots |
| AllocProof.LoadAllEffect | decaf/src/decaf/backend/Mips.java:273-276 | restoring in any order brings exactly these back |
| AllocProof.CallHolds | decaf/src/decaf/backend/Mips.java:259-277 | saving, jumping, moving $v0 and restoring keeps every temporary live after the call although the call clobbers all registers |
| AllocProof.AllocTacHolds | decaf/src/decaf/backend/RegisterAllocator.java:37-106 | one original instruction and its rewritten code keep the match of states |
| AllocBlockProof.PrefixSimulates | decaf/src/decaf/backend/RegisterAllocator.java:32-106 | after every prefix of a block, run with the registers that the temporaries have at its end, each live temporary is in that register or in its slot with the right value, and calls, stores and pending arguments agree |
| AllocGraphProof.EndSimulates | decaf/src/decaf/backend/RegisterAllocator.java:108-144 | with EndSpared, the block-end saves put all live-out temporaries into their slots and the end temporary into varReg |
| AllocGraphProof.BlockSimulates | decaf/src/decaf/backend/RegisterAllocator.java:32-237 | for every Sound block: running the emitted code simulates the block over temporaries and leaves live-out temporaries in their slots; rebound temporaries and spills included |
| AllocGraphProof.GraphSimulates | decaf/src/decaf/backend/Mips.java:92-109 | for every function whose blocks are Sound, n steps of the original graph and of the allocated code follow the same path with the same world and return value |
| AllocExact.LoadExact | decaf/src/decaf/backend/RegisterAllocator.java:161-200 | a load for an operand is right for every store and machine that match if and only if it writes the final register of no live temporary in a register and of no operand placed before |
| AllocExact.LoadsExact | decaf/src/decaf/backend/RegisterAllocator.java:202-204 | the same for the loads of all operands of an instruction |
| AllocExact.WriteExact | decaf/src/decaf/backend/Mips.java:127-277 | an instruction with its operands in place is right for every match if and only if the register it writes is that of no other temporary live after it, is the copied one, or holds a call's dead result |
| AllocExact.EndExact | decaf/src/decaf/backend/RegisterAllocator.java:116-143 | the end of a block leaves every live-out temporary in its slot, for every matching store and machine, if and only if the end load writes the register of none that is saved after it |
| AllocExact.UndisturbedExact | decaf/src/decaf/backend/RegisterAllocator.java:32-144 | the condition of the simulation holds if and only if no load, no instruction and no ending of the emitted block goes wrong from any store and machine that match just before it |
| AllocConditions.SimpleSound | decaf/src/decaf/backend/RegisterAllocator.java:32-237 | conditions on the original code and its liveness suffice: live-in temporaries and operands fit the registers, no temporary new to the block is touched between the last touch of a temporary and its overwriting, the end temporary is used in the block or nothing the block uses is live-out, parameters meet their calls |
| AllocConditions.IncrementSimple | decaf/src/decaf/backend/RegisterAllocator.java:32-237 | the code of i = i + 1 satisfies these conditions in any surroundings that leave room for its three temporaries |
| AllocConditions.SimpleGraphSimulates | decaf/src/decaf/backend/Mips.java:92-109 | the whole-function simulation from these conditions |
| AllocFailures.DisplacedIff | decaf/src/decaf/backend/RegisterAllocator.java:161-200 | under pressure the second operand takes the first operand's register exactly when the chosen victim is that register, and exactly then both have the same register |
| AllocFailures.OperandClashExact | decaf/src/decaf/backend/RegisterAllocator.java:180-199 | the first operand still has its value in its register in all matching states if and only if the two operands end the block in different registers |
| AllocFailures.FullClashes | decaf/src/decaf/backend/RegisterAllocator.java:180-199 | for any number of registers, all holding live temporaries with slots, reading one more operand displaces the one in register 0; a matching state in which its value is lost |
| AllocRebinding.RebindingBreaks | decaf/src/decaf/backend/Mips.java:94-109 | the function that assigns i + x + y to its parameter i and returns it, with its least liveness solution: for all literals x and y, arguments, and numbers of registers from three on, the original returns (i + x) + y and the emitted code (i + i) + y, because temp.reg is read only after the whole block has been allocated; with 32-bit addition they agree if and only if i is x |
| AllocRebinding.Allocation | decaf/src/decaf/backend/RegisterAllocator.java:32-106 | which registers and loads the allocator gives this block, whatever the number of registers and the choices left to chance |
| AllocRebinding.NotSound | decaf/src/decaf/backend/RegisterAllocator.java:32-237 | the block satisfies neither the condition of the simulation nor Settled |
| AllocFailures.EndLoadBreaks | decaf/src/decaf/backend/RegisterAllocator.java:124-140 | a function of three blocks with its least liveness solution: for any number of registers from two on, the end load of the tested parameter overwrites another one before it is saved, and the code returns 0 where the original returns 1 |
| TacList.List.InsertBefore | decaf/src/decaf/dataflow/BasicBlock.java:292-301 | prev and next links still lead from each element to its neighbours, and the order is the old one with the new element in front of the base, at the head too |
| TacList.List.InsertAfter | decaf/src/decaf/dataflow/BasicBlock.java:303-315 | the same behind the base, for the last element and for an empty list |
| RegisterAllocator.InsertedIsTransparent | decaf/src/decaf/backend/RegisterAllocator.java:206-237 | instructions inserted before a point do not change which temporaries count as live there |
| RegisterAllocator.RegisterAllocator.IsAlive | decaf/src/decaf/backend/RegisterAllocator.java:226-237 | walks back over inserted instructions to the nearest annotated one and answers membership in its liveOut, or in liveIn |
| RegisterAllocator.RegisterAllocator.FindReg | decaf/src/decaf/backend/RegisterAllocator.java:161-200 | registers, slots, list and random draws end up as the specification says |
| RegisterAllocator.RegisterAllocator.ScanFree | decaf/src/decaf/backend/RegisterAllocator.java:169-171 | the first register that is empty or holds a dead temporary |
| RegisterAllocator.RegisterAllocator.ScanFixed | decaf/src/decaf/backend/RegisterAllocator.java:180-182 | the first register whose temporary has a slot |
| RegisterAllocator.RegisterAllocator.Take | decaf/src/decaf/backend/RegisterAllocator.java:172-176 | binds the register and inserts a load for a read |
| RegisterAllocator.RegisterAllocator.SpillAndTake | decaf/src/decaf/backend/RegisterAllocator.java:183-188 | inserts the spill before it |
| RegisterAllocator.RegisterAllocator.FindRegsForRead | decaf/src/decaf/backend/RegisterAllocator.java:202-204 | the operands in order |
| RegisterAllocator.RegisterAllocator.FindRegs | decaf/src/decaf/backend/RegisterAllocator.java:52-54 | the operands read, then the one written |
| RegisterAllocator.RegisterAllocator.CollectSaves | decaf/src/decaf/backend/RegisterAllocator.java:76-83 | exactly the live-out temporaries that are in registers, other than the result, each with a slot |
| RegisterAllocator.RegisterAllocator.AllocTac | decaf/src/decaf/backend/RegisterAllocator.java:37-106 | one instruction, with everything inserted before it |
| RegisterAllocator.RegisterAllocator.AllocList | decaf/src/decaf/backend/RegisterAllocator.java:37-106 | the loop over the list: the rewritten items are those of the specification for every prefix |
| RegisterAllocator.RegisterAllocator.Clear | decaf/src/decaf/backend/RegisterAllocator.java:148-154 | no register holds anything and nothing else changes |
| RegisterAllocator.RegisterAllocator.Alloc | decaf/src/decaf/backend/RegisterAllocator.java:32-144 | the loop over the instruction list and the block end together are the specification AllocBlock |
| RegisterAllocator.RegisterAllocator.GenItems | decaf/src/decaf/backend/Mips.java:127-257 | the code of the items in order |
| RegisterAllocator.RegisterAllocator.GenSaves | decaf/src/decaf/backend/Mips.java:105-108 | one store per saved temporary |
| RegisterAllocator.RegisterAllocator.GenAsmForBlock | decaf/src/decaf/backend/Mips.java:103-108 | the items with registers as they are at the end of the block, then the saves |
| RegisterAllocator.RegisterAllocator.EmitAsm | decaf/src/decaf/backend/Mips.java:92-109 | liveness, allocation and code of all blocks in order; the analysis is the least solution |
| BackEnd.BackEndPreserves | decaf/src/decaf/backend/Mips.java:92-109 | every run of the gathered graph from block 0 agrees with the run of the code emitted for the simplified graph: same path without the empty blocks, same calls and stores, same return value; under EntryExact's condition and Sound |
| BackEnd.Compile | decaf/src/decaf/backend/Mips.java:92-109 | simplification, analysis, allocation and code generation in place give code with that property for every meaning of the operations, start state and number of steps |
| Simplify.ResolveUnique | decaf/src/decaf/dataflow/FlowGraph.java:215-219 | following empty blocks has one answer, whatever the bound |
| Simplify.SimplifiedGathered | decaf/src/decaf/dataflow/FlowGraph.java:237-257 | all successor indices of the renumbered graph are in range and return blocks keep the form that liveness needs |
| Simplify.SurvivesExact | decaf/src/decaf/dataflow/FlowGraph.java:194-210 | a block is cancelled if and only if it is an empty jump, or is neither the entry nor the target of an edge |
| Simplify.SimplifiedBlocks | decaf/src/decaf/dataflow/FlowGraph.java:193-258 | the blocks of the result are, in order, copies of exactly the blocks that do more than jump and are entered; their edges lead where following the empty jumps leads, and a branch with one target is a jump |
| Simplify.KeptStep | decaf/src/decaf/dataflow/FlowGraph.java:211-257 | a step of a kept block is, up to renumbering, a step of its copy |
| Simplify.SkippedStep | decaf/src/decaf/dataflow/FlowGraph.java:205-219 | a step of an empty branch block changes nothing but the position, whose image stays |
| Simplify.SimplifyPreserves | decaf/src/decaf/dataflow/FlowGraph.java:193-258 | every run of the original, n steps from any block with a predecessor, is a run of the simplified graph with the empty blocks left out |
| Simplify.SimplifyReflects | decaf/src/decaf/dataflow/FlowGraph.java:193-258 | every run of the simplified graph is the image of a run of the original |
| Simplify.EntryExact | decaf/src/decaf/dataflow/FlowGraph.java:193-258 | block 0 of the result is where the original goes from block 0 if and only if no earlier block does more than jump and is entered; so always if block 0 is not an empty jump |
| Simplify.EntryMoves | decaf/src/decaf/dataflow/FlowGraph.java:205-218 | a graph that starts with an empty jump over a loop's update and falls through as the front end builds it: the original returns without calling f, the simplified graph calls f first |
| Simplifier.FlowGraphBlocks.CountDegrees | decaf/src/decaf/dataflow/FlowGraph.java:194-204 | the degrees are the numbers of edges into each block, plus one for block 0 |
| Simplifier.FlowGraphBlocks.MarkCancelled | decaf/src/decaf/dataflow/FlowGraph.java:205-210 | exactly the empty jumps and the blocks that are neither the entry nor the target of an edge are marked |
| Simplifier.FlowGraphBlocks.Trace | decaf/src/decaf/dataflow/FlowGraph.java:215-218 | the loop ends and stops at the first block that is not cancelled |
| Simplifier.FlowGraphBlocks.Rewire | decaf/src/decaf/dataflow/FlowGraph.java:211-235 | successors skip empty blocks; a branch with equal targets becomes a jump |
| Simplifier.FlowGraphBlocks.Compact | decaf/src/decaf/dataflow/FlowGraph.java:237-250 | kept blocks move to the front in order and the map records their new numbers |
| Simplifier.FlowGraphBlocks.Renumber | decaf/src/decaf/dataflow/FlowGraph.java:251-257 | number and successors are translated |
| Simplifier.FlowGraphBlocks.Simplify | decaf/src/decaf/dataflow/FlowGraph.java:193-258 | the blocks in place end up as the specification Simplified, which are copies of exactly the blocks that do more than jump and are entered; none is marked cancelled |
| Tlb.PteBits | ucore_modified/kern/mm/tlb.c:78-111 | setting the index and the mark, and clearing the mark, touch no other bit of the PTE word and read back |
| Tlb.EntryLoDescribes | ucore_modified/kern/mm/tlb.h:25-26 | the EntryLo word holds the frame in bits 6 and up, attribute 2 in bits 5..3, writable in bit 2, valid and global in bits 1 and 0 |
| Tlb.EntryLoBits | ucore_modified/kern/mm/tlb.h:25-26 | the same of the macro on a 32-bit PTE word: bits 31..12 go to 25..6 and bit 1 to bit 2 |
| Tlb.EntryLoOfWord | ucore_modified/kern/mm/tlb.h:9-26 | the macro applied to the word of a table entry gives that EntryLo word |
| Tlb.RefillKeeps | ucore_modified/kern/mm/tlb.c:64-80 | a refill keeps the invariant and makes the page resident |
| Tlb.InvalidateKeeps | ucore_modified/kern/mm/tlb.c:91-112 | an invalidation keeps it and makes the page not resident |
| Tlb.RemoveKeeps | ucore_modified/kern/mm/pmm.c:310-345 | so does removing a mapping |
| Tlb.InsertKeeps | ucore_modified/kern/mm/pmm.c:453-472 | and mapping a page, whose new PTE is unmarked |
| Tlb.HandleKeeps | ucore_modified/kern/mm/tlb.c:28-80 | a miss with or without a page fault keeps it; on success the page is resident |
| Tlb.StepKeeps | ucore_modified/kern/mm/tlb.c:28-147 | every event that can happen keeps the invariant |
| Tlb.RunsKeepInvariant | ucore_modified/kern/mm/tlb.c:28-147 | from an empty TLB and a table without marks, every mix of misses, evictions, invalidations and PTE rewrites keeps the invariant |
| Tlb.NoStaleTranslation | ucore_modified/kern/mm/tlb.c:28-147 | a valid half that matches a page describes its current PTE (frame, writable, attribute, valid), sits at the index in the PTE, and is the only match |
| Tlb.MarksExact | ucore_modified/kern/mm/tlb.c:69-111 | TLB_P is set exactly when some entry translates the page |
| TlbTable.TableIs | ucore_modified/kern/mm/mmu.h:8-32 | the pages that share a page table are the 1024 with the same upper bits |
| TlbTable.StepMaps | ucore_modified/kern/mm/tlb.c:28-142 | what an event does to the mappings does not depend on the TLB: misses, evictions and invalidations change none, mapping and unmapping change one |
| TlbTable.RunsMap | ucore_modified/kern/mm/tlb.c:28-142 | over every run the table without its TLB bits is what mapping and unmapping alone make of it |
| TlbTable.EvictsInTurn | ucore_modified/kern/mm/tlb.c:125-142 | evictions go round all sixteen indices |
| TlbTable.EvictionUnmarks | ucore_modified/kern/mm/tlb.c:129-139 | an eviction clears exactly the marks of the pages in the evicted entry |
| Tlb.LoadExact | ucore_modified/kern/mm/tlb.c:82-86 | switching page directories establishes the invariant if and only if the new table carries no mark |
| TlbStale.FillRun | ucore_modified/kern/mm/tlb.c:62-80 | misses on pages of different pairs take the indices from the top of the stack down and touch nothing else |
| TlbStale.StaleTranslation | ucore_modified/kern/mm/tlb.c:62-112 | a table loaded unmarked, used, and loaded again with its marks: a run of misses and one unmapping after which entry 0 still translates the unmapped page to its old frame |
| Tlb.TlbManager.LoadDirectory | ucore_modified/kern/mm/tlb.c:20-26 | clears the TLB in a loop; the invariant holds afterwards exactly for unmarked tables |
| Tlb.TlbManager.TakeIndex | ucore_modified/kern/mm/tlb.c:125-142 | pops an unused index, or evicts round-robin and clears both marks of the victim pair |
| Tlb.TlbManager.TlbInvalidate | ucore_modified/kern/mm/tlb.c:91-112 | in place, keeps the invariant |
| Tlb.TlbManager.PageInsert | ucore_modified/kern/mm/pmm.c:453-472 | in place, keeps the invariant; the PTE is the new one, unmarked |
| Tlb.TlbManager.PageRemove | ucore_modified/kern/mm/pmm.c:310-345 | in place, keeps the invariant |
| Tlb.TlbManager.FillEntry | ucore_modified/kern/mm/tlb.c:64-80 | writes the pair's entry, keeping the half that is resident, and marks the page; the entry at the page's index translates it as its PTE describes |
| Tlb.TlbManager.MissHandler | ucore_modified/kern/mm/tlb.c:28-80 | in place, keeps the invariant; on success some entry translates the page to the frame and with the permission of its PTE |
| Semaphore.UpOk | ucore_modified/kern/sync/sem.c:16-30 | waking the first waiter keeps the count zero while somebody waits, and takes out exactly that waiter |
| Semaphore.DownOk | ucore_modified/kern/sync/sem.c:32-43 | nobody waits while a unit is left, and nobody waits twice |
| SemaphoreRuns.Balance | ucore_modified/kern/sync/sem.c:16-43 | over any ups and downs the count less the number of waiters changes by one for each |
| SemaphoreRuns.WokenInTurn | ucore_modified/kern/sync/sem.c:16-43 | a waiter with k others before it is woken by the (k+1)-st up, whoever comes later |
| SemaphoreRuns.WaitsLast | ucore_modified/kern/sync/sem.c:32-43 | a process that has to wait is the last in line |
| Semaphore.KernelSemaphore.Signal | ucore_modified/kern/sync/sem.c:16-30 | hands the unit to the oldest waiter, or counts it |
| Semaphore.KernelSemaphore.Wait | ucore_modified/kern/sync/sem.c:32-43 | takes a unit or joins the queue at its end; sleeps exactly when there is none |
| Semaphore.KernelSemaphore.TryDown | ucore_modified/kern/sync/sem.c:67-76 | takes a unit if there is one and changes nothing otherwise |
| SemPhilosophers.NeighboursMod | ucore_modified/kern/sync/check_sync.c:8-9 | the neighbours are (i-1+N)%N and (i+1)%N |
| SemPhilosophers.StepKeeps | ucore_modified/kern/sync/check_sync.c:24-50 | every atomic step of every philosopher keeps the invariant, for any number of philosophers from two on |
| SemPhilosophers.RunsKeepInvariant | ucore_modified/kern/sync/check_sync.c:24-50 | so it holds in all reachable states of all interleavings |
| SemPhilosophers.ForkSafety | ucore_modified/kern/sync/check_sync.c:24-50 | neighbours never eat together; s[i] holds a unit exactly when i is eating and has not passed its down; while mutex is free a hungry philosopher has an eating neighbour |
| SemPhilosophers.NoDeadlock | ucore_modified/kern/sync/check_sync.c:34-50 | in every reachable state where somebody has not quit, somebody can move |
| MonitorProof.SigUpKeeps | ucore_modified/kern/sync/monitor.c:40-42 | signalling hands the right to run to the waiting process or leaves it at its condition |
| MonitorProof.SigDownKeeps | ucore_modified/kern/sync/monitor.c:43 | the signaller gets the right back from next or waits there |
| MonitorProof.CvDownKeeps | ucore_modified/kern/sync/monitor.c:69 | a process that waits for its condition passes exactly when the right is there |
| MonitorProof.ReleaseKeeps | ucore_modified/kern/sync/check_sync.c:132-136 | leaving, or going to wait, hands the right to a suspended signaller first, else to mutex |
| MonitorProof.TestKeeps | ucore_modified/kern/sync/check_sync.c:110-118 | a test that lets a neighbour eat begins to signal it, and everybody else is still served |
| MonitorProof.StepKeeps | ucore_modified/kern/sync/check_sync.c:110-154 | every atomic step keeps the invariant, with the place of the right to run computed |
| MonitorSafety.RunsKeepInvariant | ucore_modified/kern/sync/check_sync.c:110-154 | the invariant holds in all reachable states, for any number of philosophers and any interleaving |
| MonitorSafety.OneRight | ucore_modified/kern/sync/monitor.c:25-72 | the units of mutex, next and all condition semaphores and the processes active inside always add up to one |
| MonitorSafety.MonitorIsSafe | ucore_modified/kern/sync/check_sync.c:110-154 | at most one process is active inside, neighbours never eat together, a philosopher back from cond_wait is eating, and next_count is 0 or 1 |
| MonitorSafety.HungryHasEatingNeighbour | ucore_modified/kern/sync/check_sync.c:110-154 | while mutex is free every hungry philosopher has an eating neighbour |
| MonitorSafety.NoDeadlock | ucore_modified/kern/sync/check_sync.c:121-154 | in every reachable state where somebody has not quit, somebody can move |
| FreeList.TotalCountsPages | ucore_modified/kern/mm/default_pmm.c:98-125 | the total of the block sizes is the number of free pages |
| FreeList.Canonical | ucore_modified/kern/mm/default_pmm.c:132-163 | there is only one sorted, coalesced list for a set of free pages |
| FreeList.AllocExact | ucore_modified/kern/mm/default_pmm.c:102-130 | allocation returns the lowest base of any run of n free pages, and nothing exactly when there is none |
| FreeList.AllocRefines | ucore_modified/kern/mm/default_pmm.c:117-128 | it takes exactly that run out of the set, keeping the list sorted, disjoint and coalesced |
| FreeList.FreeRefines | ucore_modified/kern/mm/default_pmm.c:132-163 | release adds exactly its run to the set and keeps the list sorted, disjoint and, if it was, coalesced |
| FreeList.FreeUndoesAlloc | ucore_modified/kern/mm/default_pmm.c:102-163 | freeing an allocation restores the identical list |
| FreeList.ServeRefines | ucore_modified/kern/mm/default_pmm.c:102-163 | each request is a step of the machine over plain sets of free pages |
| FreeList.RunsRefine | ucore_modified/kern/mm/default_pmm.c:102-163 | after any sequence of requests the list is sorted, disjoint, coalesced, with nr_free the number of free pages, and every step is one of the set machine |
| FreeList.RegionCoalesces | ucore_modified/kern/mm/default_pmm.c:87-100 | a region added without merging leaves the list coalesced if and only if the pages next to it are not free |
| PageAllocator.PageManager.FindPlace | ucore_modified/kern/mm/default_pmm.c:62-79 | the scan finds the place by address and its assertions cannot fail |
| PageAllocator.PageManager.AllocPages | ucore_modified/kern/mm/default_pmm.c:102-130 | the list, sizes, flags and nr_free in place follow Alloc; a request beyond nr_free fails as it should |
| PageAllocator.PageManager.Cut | ucore_modified/kern/mm/default_pmm.c:117-128 | the first n pages leave the block; the rest becomes a block at the same place of the list |
| PageAllocator.PageManager.Link | ucore_modified/kern/mm/default_pmm.c:161-162 | a block apart from all others goes to its place |
| PageAllocator.PageManager.InitMemmap | ucore_modified/kern/mm/default_pmm.c:87-100 | clears the pages' fields in a loop and inserts the region as one block |
| PageAllocator.PageManager.Coalesce | ucore_modified/kern/mm/default_pmm.c:143-160 | the merging loop leaves exactly the blocks that do not touch the released one, and the merged block's head |
| PageAllocator.PageManager.FreePages | ucore_modified/kern/mm/default_pmm.c:132-163 | the list in place follows Free; flags mark exactly the heads; nr_free is the total |
| SlobRing.ReleasedOk | ucore_modified/kern/mm/kmalloc.c:170-182 | merging above, below, both or neither keeps a ring in address order with one wrap and disjoint, non-adjacent blocks, and adds exactly the block's units |
| SlobRing.TakenOk | ucore_modified/kern/mm/kmalloc.c:123-130 | an exact fit or a cut keeps the ring and removes exactly the units handed out |
| SlobRing.RingCanonical | ucore_modified/kern/mm/kmalloc.c:98-185 | a ring is determined by its free units: heads, sizes and links |
| SlobRing.PlaceTest | ucore_modified/kern/mm/kmalloc.c:166-168 | the loop's test holds at exactly the block to insert behind, including the wrap |
| SlobRing.PlaceExists | ucore_modified/kern/mm/kmalloc.c:166-168 | there always is such a block |
| SlobSpec.NotAlone | ucore_modified/kern/mm/kmalloc.c:108-135 | a block other than the arena is never its own predecessor in the ring |
| Slob.Heap.FindPlace | ucore_modified/kern/mm/kmalloc.c:164-168 | the reinsertion scan always ends, at the right block |
| Slob.Heap.Insert | ucore_modified/kern/mm/kmalloc.c:170-182 | the header words written in place are those of the specification, in all four cases of merging |
| Slob.Heap.SlobFree | ucore_modified/kern/mm/kmalloc.c:153-185 | given the block's size, or 0 for the one in its header: exactly its units become free, everything else stays as it was, all other allocated blocks keep their headers, the heap's units are conserved, and the next search begins at the block before it |
| Slob.Heap.Search | ucore_modified/kern/mm/kmalloc.c:107-136 | once around: the first block in ring order that fits with its predecessor, or proof that none fits |
| SlobSpec.FirstFitUnique | ucore_modified/kern/mm/kmalloc.c:107-136 | the search from one place has one answer |
| Slob.Heap.Take | ucore_modified/kern/mm/kmalloc.c:123-132 | the header words written in place are those of the specification, for an exact fit and for a cut |
| Slob.Heap.AddPage | ucore_modified/kern/mm/kmalloc.c:142-148 | a fresh page joins the free units and nothing else changes |
| Slob.Heap.SlobAlloc | ucore_modified/kern/mm/kmalloc.c:98-151 | hands out the first block behind slobfree that fits, whose units were free and overlap no allocated block and whose header holds the size; all other headers stay; grows by a page exactly if nothing fits, once, and then succeeds; fails exactly if nothing fits and there is no page; the next search begins at the block before the one handed out, in the ring that was cut; hands out the arena exactly if one unit is asked for and the arena is behind slobfree, and exactly otherwise the heap stays in order |
| Slob.Heap.Kmalloc | ucore_modified/kern/mm/kmalloc.c:218-233 | stops at the assertion exactly for the sizes 4080 to 4087; otherwise asks slob_alloc for enough bytes; breaks the heap exactly for size 0 with the arena behind slobfree |
| SlobSpec.KmallocGuard | ucore_modified/kern/mm/kmalloc.c:98-100 | kmalloc's request meets slob_alloc's assertion if and only if the size is below 4080 or at least 4088, and is for one unit if and only if the size is 0 |
| SlobSpec.ReturnKeeps | ucore_modified/kern/mm/kmalloc.c:153-185 | freeing keeps the ring, the disjointness of allocated blocks and the sizes in their headers, and frees exactly the block's units |
| SlobSpec.PageKeeps | ucore_modified/kern/mm/kmalloc.c:142-146 | adding a fresh page keeps them and adds exactly its units |
| SlobSpec.GiveKeeps | ucore_modified/kern/mm/kmalloc.c:122-135 | handing out units keeps them if and only if the block is not the arena; the units were free and are no longer; the next search begins at the block before |
| SlobSpec.ScribbleKeeps | ucore_modified/kern/mm/kmalloc.c:230-241 | an owner may write over its block's header without harm to the heap |
| SlobSpec.ServeKeeps | ucore_modified/kern/mm/kmalloc.c:98-185 | a request keeps the heap in order if and only if it is not for a single unit while the arena is behind slobfree, and exactly such a request is answered with the arena; all others lose no unit and add only those of a page; where the next search begins after every request |
| SlobSpec.ServeUnique | ucore_modified/kern/mm/kmalloc.c:98-185 | the answer to a request and the heap after it are determined by the heap before it |
| SlobSpec.ArenaTwice | ucore_modified/kern/mm/kmalloc.c:98-135 | two requests of one unit on an empty heap can only be answered with the arena, both of them; it then is allocated and free at once |
| SlobSpec.RunsStayValid | ucore_modified/kern/mm/kmalloc.c:98-185 | over any sequence of allocations, frees and writes by owners the heap stays in order up to the first request for a single unit while the arena is behind slobfree, which breaks it |
| SlobSpec.RunsValidExact | ucore_modified/kern/mm/kmalloc.c:98-185 | all states of a run up to the k-th are in order if and only if none of the requests before it is such a one |
| SlobSpec.SizeableKeepArena | ucore_modified/kern/mm/kmalloc.c:224-230 | over any sequence of requests of two units or more the heap stays in order |
| SlobSpec.UnitsConserved | ucore_modified/kern/mm/kmalloc.c:98-185 | a unit once in the heap is free or allocated ever after, and every unit is the arena's or came with a page |
| SlobSpec.HeaderStays | ucore_modified/kern/mm/kmalloc.c:257-281 | however many other requests come between, an allocated block that its owner did not write over has its size in its header, so kfree may free it with size 0 |
| Timers.AddRefines | ucore_modified/kern/schedule/sched.c:109-119 | adding a timer leaves all other deadlines and their order unchanged and puts it behind those due at the same tick |
| Timers.InsertPlace | ucore_modified/kern/schedule/sched.c:109-119 | the new timer is behind exactly those due no later, so that equal deadlines fire in order of addition |
| Timers.RemoveRefines | ucore_modified/kern/schedule/sched.c:130-139 | deleting one leaves all other deadlines unchanged |
| Timers.TickRefines | ucore_modified/kern/schedule/sched.c:150-170 | a tick takes one from every deadline, fires exactly those that had one left, in order, and the head is positive again |
| Timers.RunsStayGood | ucore_modified/kern/schedule/sched.c:102-175 | between operations the head is never zero, no timer is listed twice and all deadlines fit a word |
| Timers.FiresOnTime | ucore_modified/kern/schedule/sched.c:102-175 | a timer due in n ticks fires on exactly the n-th later tick unless it is deleted, whatever else is added or deleted |
| Timers.AddedPending | ucore_modified/kern/schedule/sched.c:102-122 | a timer added with n is due in n ticks |
| Timers.FitsWord | ucore_modified/kern/schedule/sched.c:131-137 | giving a deleted timer's time to its successor does not wrap |
| Timers.TimerList.AddTimer | ucore_modified/kern/schedule/sched.c:102-122 | the loop in place is the insertion by deadline |
| Timers.TimerList.Pass | ucore_modified/kern/schedule/sched.c:109-118 | how many entries the new timer passes and what is left of its time, which never goes below zero |
| Timers.TimerList.DelTimer | ucore_modified/kern/schedule/sched.c:125-142 | removes the timer's deadline only; a timer that is not listed is left alone |
| Timers.TimerList.RunTimerList | ucore_modified/kern/schedule/sched.c:145-175 | the loop in place fires and removes exactly the due timers |
| PidAllocator.FreePidExists | ucore_modified/kern/process/proc.c:183 | there are more identifiers than processes |
| PidAllocator.Pids.GetPid | ucore_modified/kern/process/proc.c:181-213 | returns the first identifier behind last_pid, in cyclic order, that no process holds; the gap up to next_safe is free afterwards; the end of the gap is the limit or a live identifier |
| PidAllocator.Pids.Scan | ucore_modified/kern/process/proc.c:191-211 | the search with its restarts ends whenever an identifier is free, in any order of the process list |
| PidAllocator.RunsKeepPids | ucore_modified/kern/process/proc.c:181-213 | over all forks and exits live identifiers are distinct and in range, the cached gap stays free, and below the process limit a free identifier exists |
| Scheduler.WakeupKeeps | ucore_modified/kern/schedule/sched.c:58-76 | a wakeup keeps the invariant, also for the current process on its way to sleep |
| Scheduler.ScheduleKeeps | ucore_modified/kern/schedule/sched.c:78-100 | so does a scheduling |
| Scheduler.RunsKeepInvariant | ucore_modified/kern/schedule/sched.c:58-100 | in every run each runnable process but the idle one is current or in the queue exactly once, the queue holds nobody else, and proc_num is its length |
| Scheduler.Advances | ucore_modified/kern/schedule/sched.c:78-100 | a scheduling moves a queued process up by one or gives it the processor; nothing else moves it |
| Scheduler.RunsInTurn | ucore_modified/kern/schedule/sched.c:78-100 | a process with k others ahead gets the processor at the latest at the (k+1)-st scheduling |
| Scheduler.NoLostWakeup | ucore_modified/kern/schedule/sched.c:58-100 | after a wakeup, even between setting SLEEPING and schedule, the next scheduling queues the process or runs it |
| Scheduler.DoEffects | ucore_modified/kern/schedule/sched.c:58-100 | of every process, what each operation does to state, slice, need_resched and runs, and who runs and waits afterwards; a scheduling clears need_resched of the process it takes the processor from and of nobody else |
| Scheduler.RunsReschedExact | ucore_modified/kern/schedule/sched.c:58-100 | in every run a process other than the idle one has need_resched set exactly while it is current with its slice used up |
| Scheduler.WholeTurn | ucore_modified/kern/schedule/default_sched.c:13-48 | in every run, schedulings included, a process that gets the processor has one tick to a whole slice left and is told to yield after exactly that many of its own ticks |
| Scheduler.SliceRunsOut | ucore_modified/kern/schedule/default_sched.c:40-48 | a process that keeps the processor has need_resched set after exactly its slice of ticks, and not before unless it was set already |
| Scheduler.RunQueue.EnqueueProc | ucore_modified/kern/schedule/default_sched.c:13-22 | appends the process, refreshes its slice and counts it; the idle process is left out |
| Scheduler.RunQueue.Wake | ucore_modified/kern/schedule/sched.c:58-76 | in place, keeps the invariant; the effect on every process is that of DoEffects |
| Scheduler.RunQueue.BlockCurrent | ucore_modified/kern/sync/wait.c:114-121 | the current process marks itself; the invariant holds although it still has the processor |
| Scheduler.RunQueue.Run | ucore_modified/kern/schedule/sched.c:78-100 | in place, keeps the invariant; the effect on every process is that of DoEffects, with need_resched cleared for the old process only |
| Scheduler.RunQueue.ProcTick | ucore_modified/kern/schedule/default_sched.c:40-48 | in place, keeps the invariant; the effect on every process is that of DoEffects |
| Numbers.NoWrap | ucore_modified/libs/mips32s.h:10-13 | below the limit no sum of shifted parts leaves a 32-bit word |
| Numbers.RoughClose | ucore_modified/libs/mips32s.h:10-15 | the uncorrected quotient is too small by at most one |
| Numbers.Div10Exact | ucore_modified/libs/mips32s.h:9-18 | quotient and remainder are n/10 and n%10 if and only if n < 0x140000002; in particular for every 32-bit n |
| Numbers.Div10 | ucore_modified/libs/mips32s.h:9-18 | the straight-line steps compute the truncated sums that Div10Exact is about |
| Numbers.DoDiv | ucore_modified/libs/mips32s.h:7-33 | the exact quotient and remainder for bases 8, 16, 2^31, and for 10 below the limit; 1 and 3 for any other base |
| Numbers.PrintedDigits | ucore_modified/libs/printfmt.c:53-69 | for bases 8, 10 and 16 the output is the padding up to the width and then the digits |
| Numbers.OtherBases | ucore_modified/libs/printfmt.c:43-69 | for any other base from 2 to 16 the output is right if and only if the base is above 3 and the number is 3 or 3*base+3 |
| Numbers.PrintNum | ucore_modified/libs/printfmt.c:53-69 | whenever the recursion ends, it and the padding loop emit exactly that text |
| Numbers.NeverEnds | ucore_modified/libs/printfmt.c:53-61 | it does not end in the bases 0 and 1, except for the number 0 in base 1: the argument of the next call is never below the base |
| Numbers.Strtol | ucore_modified/libs/string.c:215-271 | the loops skip blanks, sign and prefix and read the longest run of digits, in 32-bit arithmetic |
| Numbers.WordValueExact | ucore_modified/libs/string.c:244-265 | a number below 2^31 is read without overflow |
| Numbers.PrintParse | ucore_modified/libs/string.c:215-271 | reading what was printed gives n back and ends at the end, for n < 2^31, bases 8, 10, 16, any width, padding with blanks or zeros |
| ParseText.ReadsText | ucore_modified/libs/string.c:215-271 | a text of blanks, a sign, a prefix, digits and a rest is read as the digits in the base that prefix and argument give, negated behind a minus, up to the rest, in 32-bit arithmetic |
| ParseText.ReadsNumber | ucore_modified/libs/string.c:215-271 | below 2^31 the value is the number itself |
| ParseText.SignedParse | ucore_modified/libs/string.c:224-230 | a sign and the digits of n read as n or -n, in every base from 2 to 16 |
| ParseText.HexParse | ucore_modified/libs/string.c:232-235 | 0x and the hexadecimal digits of n read as n in base 16 and base 0 |
| ParseText.OctalParse | ucore_modified/libs/string.c:236-238 | in base 0 a zero and the octal digits of n read as n |
| ParseText.CapitalPrefix | ucore_modified/libs/string.c:205-235 | 0X is not taken as a prefix: the text is read as zero, up to the X |
| Numbers.LettersAlike | ucore_modified/libs/string.c:247-255 | letters of either case stand for ten and up |
| Dispatch.ResolveFieldOrder | decaf/src/decaf/symbol/Class.java:152-188 | the recursion and the loop compute the slots, the orders of the variables and the size that LayoutExact and FieldsExact describe |
| Dispatch.LayoutExact | decaf/src/decaf/symbol/Class.java:152-188 | slots are numbered without gaps or repetition, exactly for the visible methods, and inherited ones keep theirs |
| Dispatch.SlotsStable | decaf/src/decaf/symbol/Class.java:175-185 | a slot number means the same method in all subclasses |
| DispatchFields.FieldsExact | decaf/src/decaf/symbol/Class.java:165-173 | an object has as many variables as its class and all ancestors declare, the visible ones are numbered below that without repetition, and its size is a pointer and a word for each |
| DispatchFields.FieldsStable | decaf/src/decaf/symbol/Class.java:157-173 | a subclass keeps the numbers of all inherited variables |
| DispatchFields.OffsetExact | decaf/src/decaf/translate/TransPass1.java:43-63 | the offset that a variable gets is the word of its number, inside the object |
| Dispatch.FillEntries | decaf/src/decaf/translate/Translater.java:139-152 | parent first, then the class's own methods, written in place |
| Dispatch.CreateVTable | decaf/src/decaf/translate/Translater.java:126-137 | the new array is the class's table |
| Dispatch.TableFull | decaf/src/decaf/translate/Translater.java:126-152 | no entry is left empty |
| Dispatch.DispatchCorrect | decaf/src/decaf/translate/Translater.java:126-152 | a call through any ancestor's slot of a method reaches the nearest definition at or above the object's class |
| SfsMap.GrowGood | ucore_modified/kern/fs/sfs/sfs_inode.c:257-292 | a block added at the end keeps mapped blocks distinct and in use, the count right, the other logical blocks in place and other files' blocks untouched |
| SfsMap.PointerGood | ucore_modified/kern/fs/sfs/sfs_inode.c:219-223 | so does taking a pointer block |
| SfsMap.UndoGood | ucore_modified/kern/fs/sfs/sfs_inode.c:240-244 | taking it and giving it back changes nothing |
| SfsMap.ShrinkGood | ucore_modified/kern/fs/sfs/sfs_inode.c:319-344 | dropping the last block returns it to the free map and keeps the rest |
| Sfs.File.FindFree | ucore_modified/kern/fs/sfs/bitmap.c:54-71 | the word-by-word scan finds the lowest set bit, or there is none |
| Sfs.File.BlockAlloc | ucore_modified/kern/fs/sfs/sfs_inode.c:90-99 | fails exactly when unused_blocks is zero; otherwise takes and clears the lowest free block, which is not block 0 |
| Sfs.File.Append | ucore_modified/kern/fs/sfs/sfs_inode.c:354-371 | grows by one block, or leaves map and free map as they were; succeeds exactly when enough blocks are unused; the new block is the lowest free one and is cleared |
| Sfs.File.AppendWithPointer | ucore_modified/kern/fs/sfs/sfs_inode.c:201-245 | a pointer block and the block, or neither; succeeds exactly when two blocks are unused; the pointer block is the lowest free one and the block the next |
| Sfs.File.GrowTo | ucore_modified/kern/fs/sfs/sfs_inode.c:936-945 | stops at the length, at the end of the space or at the end of the map, exactly as the numbers of unused blocks say; earlier blocks stay |
| Sfs.File.DropLast | ucore_modified/kern/fs/sfs/sfs_inode.c:377-387 | shrinks by one block, and exactly that block becomes free |
| Sfs.File.TruncFile | ucore_modified/kern/fs/sfs/sfs_inode.c:918-962 | success exactly when enough blocks are unused and the map reaches; then blocks is the size rounded up; surviving logical blocks keep their disk block; other files' blocks are untouched; unused_blocks stays the number of set bits; and when it stops the kernel |
| Sfs.GrowThenKeep | ucore_modified/kern/fs/sfs/sfs_inode.c:929-945 | after an enlargement that failed for lack of space, setting the size the file still has stops the kernel if and only if the failed call had got a block |
| SfsBuilder.Image.AllocIno | ucore_modified/tools/mksfs.c:173-180 | numbers are handed out in order and unused_blocks stays the numbers left |
| SfsBuilder.BuiltFile.AppendBlock | ucore_modified/tools/mksfs.c:397-426 | the kernel's block map finds at index i the i-th appended block, and nothing behind the end |
| SfsBuilder.AddBlock | ucore_modified/tools/mksfs.c:515-530 | a data block gets a number that nothing else has; the file's numbers stay distinct and handed out, its map agrees; it fails exactly when the image is full |
| SfsBuilder.OtherFile | ucore_modified/tools/mksfs.c:382-426 | other files keep their blocks, and the new numbers are none of theirs |
| SfsBuilder.BuiltGood | ucore_modified/tools/mksfs.c:398-426 | a built file with the written free map satisfies the kernel's invariant: its blocks are different, in use and in order |
| SfsBuilder.Mount | ucore_modified/kern/fs/sfs/sfs_fs.c:207-224 | after closing and mounting, the kernel's file is valid for growing and truncation, maps exactly the appended blocks in order, and the unused count is the builder's |
| SfsBuilder.WriteFreemap | ucore_modified/tools/mksfs.c:312-334 | the bits set are exactly those of unused numbers, and they are ninos minus next_ino many |
| SfsBuilder.BlockBits | ucore_modified/tools/mksfs.c:318-332 | the bits of one block of the map |
| SfsBuilder.CountFree | ucore_modified/kern/fs/sfs/sfs_fs.c:218-223 | the loop counts the set bits |
| SfsBuilder.MountAgrees | ucore_modified/kern/fs/sfs/sfs_fs.c:218-224 | the count at mount equals the builder's unused_blocks |

## Left out

- AllocGraphProof.GraphSimulates: temporaries' slots and outgoing arguments are a memory of their own, apart from the heap; that stores through program pointers do not hit the frame is a property of the language, not of the allocator.
- AllocExact.UndisturbedExact: exact at every step over all matching stores and machines; whether the stores that a given program can reach include a failing one is not decided.
- RegisterAllocator.RegisterAllocator.Alloc: the allocator's list is a sequence; that the linked list's insertions have the effect of insertions into a sequence is proved apart, in TacList.
- Dispatch.ResolveFieldOrder: classes are values, so the flags that keep a class from being resolved twice are not modelled; neither are the parse and check passes before it.
- Slob.Heap.SlobAlloc: align 0 only, as every caller passes it, and the arena is not next to heap pages; the list of large blocks in kmalloc and kfree is not modelled.
- SfsBuilder.BuiltFile.AppendBlock: the double indirect range is not modelled, because the kernel's block map has none.
- Sfs.File.TruncFile: a device whose reads and writes succeed; the bits of a bitmap word are modelled one by one, not as words.
- Scheduler.RunQueue.Run: the switch of stacks and page directories is not modelled.
- Numbers.PrintNum: a remainder above 15, which reads past the digit string, prints a placeholder.
- Creation of bitmaps, reading the free map from disk, and inode loading.
- Order of blocks in the output (emitTrace), immediates and assembly text: output plumbing.
- Lexer, parser, type checking and translation to three-address code.
- Reference counts of pages, unmapping and copying of address ranges, swap (its disk routines are stubs).
- Wait queues as linked lists, and interruptible sleeps: a semaphore's queue is a sequence and a woken waiter was woken by an up.
- Devices, console, traps, ELF loading, system calls, path lookup, directories and the shell.
- Skew heap: the shipped scheduler does not use it.

# vcpu_sim, verified model

`vcpu_sim` is a simulator of a board with two CPUs, together with the assembler, the linker, the
archive and file formats of its programs. This project models its integer, sequence and state code
in Dafny and proves what that code is for. `dafny verify dfyconfig.toml` checks all of it.

Each stateful part of the program is a class or a method with loops over the same fields, tied by its
`ensures` to a specification on values; the theorems are lemmas about those specifications. Beside them
`laws`, `layout`, `frames`, `samples`, `turns`, `naming`, `placing`, `documents`, `precedence`, `branches` and
`listing` say from outside what those specifications amount to: in numbers, by counting lines, or by relating
two operations to one another.

| files | part of the program | main results |
|---|---|---|
| `words`, `arith`, `cpu`, `vcpu`, `laws` | the core: instruction set, registers, status word | the in-place core refines the instruction set; division, shifts and masks mean what they should; `BranchesAreExclusive`, `CallsReturn`, `LanesAreScalars` |
| `bank`, `dirty` | register banks, dirty bits, costs | `BankRefinement`, `TrapThenReti`, `DirtyBitsSound`, `CostBounds` |
| `memory`, `layout`, `folding`, `procframe`, `frames` | byte memory and its map, `.proc` frames | `HalvesOfDoubleword`, `FrameRestores`, `ProcPreservesRegisters`, `ProcIsListed` |
| `tx`, `adc`, `boundaries`, `blind`, `pingpong`, `samples` | transmitter, ADC, DMA, and what a program sees of them | `TwoSlotsExactly`, `BoundariesDoNotMatter`, `ReachedBoundariesDoNotMatter`, `ArmedBlockIsExact`, `WindowShowsLastBlock`, `BlockIsLoaded`, `ProgramSamples` |
| `hwlock`, `spinlock` | spinlocks, mailboxes, comparators | `NoLostIncrement`, `HeldUntilReleased`, `NothingIsLostSilently` |
| `machine`, `turns`, `runs` | the main loop | `SourcesInOrder`, `GlobalTime`, `ClockMoves`, `TwoSlotsOnEveryRun`, `ExtraBoundariesOnEveryRun` |
| `locator`, `locfile`, `placing`, `objects`, `linker`, `naming`, `meaning`, `shared`, `archive` | placement, linking, archives | `Parse`, `ResolvesExactly`, `LinkAcceptsExactly`, `OwnLabelIsReached`, `LinkingPreservesRuns`, `PlacementIsDisjoint`, `IndependentLinksAgree`, `SelectionIsUnique` |
| `text`, `opcodes`, `formats`, `vofile`, `vxfile`, `documents` | the text formats `.vo`, `.va`, `.vx` | `ObjectReadBack`, `ArchiveReadBack`, `ImageReadBack`, `BytesExactly` |
| `expr`, `precedence`, `reader`, `branches`, `assembly`, `listing`, `routes`, `accept` | `.equ` expressions, the source reader, the two assembly routes | `MeaningOfText`, `LaterBindsTighter`, `ReadSource`, `UnitsMean`, `AssemblesExactly`, `ProgramIsTheCode`, `RoutesAgree`, `RoutesAcceptAlike` |

Findings about the code that the proofs brought out, each a lemma:

- `Transmitter.TwoSlotsExactly`: two history slots are not always enough, and this says exactly when they are. `TwoStartsTooMany`, `TwoCpusTooMany` and `LastStoreTooMany` are runs in which they are not; `MachineRuns.TwoSlotsOnEveryRun` says what a program does to be sure of them: pulses of at least four CPU cycles, and no load or store as its last instruction.
- `ProcFrame.LostRegisterDiffers`: the scan of `.proc` sees neither the register `mfcause` writes nor a destination with something after its number, such as `r5x`, which the encoder takes as `r5`; `ProcFrame.ProcPreservesRegisters` says exactly which registers come back.
- `LinkMeaning.OneRegionForBoth`: `.data` and `.shared` placed in one region overlap whenever both are non-empty, and the linker does not check it.
- `Archive.LocalDefinitionHides`, `Archive.SelectedNameResolves`: the archive search counts local definitions of other objects, the linker does not.
- `ImageFile.ImageReadBack`: the base of the shared memory is lost when none of it is reserved.
- `Machine.AccessRunsAhead`: the instants at which devices are brought up to date and those of register accesses are each in order, but together only up to the length of one access.

The example object in the toolchain's document under `docs` numbers `vload` 17 and `j` 12 and offers a short form `.zero` for zeros; the code numbers them 45 and 32 and has no such form, and the model follows the code.

## Model

| member | source | states |
|---|---|---|
| `Words.Word32RoundTrip` | src/machine.c:262-304 | a word stored as four little-endian bytes loads back with its sign, whatever 64-bit value the register held |
| `Words.Word64RoundTrip` | src/machine.c:325-352 | a doubleword stored as eight bytes loads back whole |
| `Words.WrappedGapIsExact` | src/devices.c:299-316 | the difference of two instants taken on their low 32 bits is exact while they are less than 2^31 apart, however often the counter has wrapped |
| `Cpu.PswRoundTrip` | src/vcpu.c:319-323 | reading the status word into a register and writing it back (mfpsw/mtpsw, mfepsw/mtepsw) loses nothing |
| `Integers.DivisionIsTruncated` | src/vcpu.c:234-235 | div and rem satisfy q*y + r = x with the magnitude of r < that of y and r of the sign of x, for every divisor but 0 and every pair but INT64_MIN and -1 |
| `Integers.ShiftIsFloor` | src/vcpu.c:37-43 | the truncating division corrected downwards is the floor of v / 2^n, and is what srai leaves |
| `Integers.SubUndoesAdd` | src/vcpu.c:220-221 | sub takes back what add did, overflow included |
| `Integers.ShiftIsMultiplication` | src/vcpu.c:222-224 | slli by n leaves what mul by 2^n leaves, overflow included |
| `Integers.LogicIsBitwise` | src/vcpu.c:231-233 | and, or and xor act on each of the 64 bits alone |
| `Integers.WordHasItsBits` | src/vcpu.c:329-340 | bit i of the word read by mfvmask is bit i of the mask |
| `Integers.MaskRoundTrip` | src/vcpu.c:329-340 | mtvmask of a word followed by mfvmask gives the word back: a context switch loses nothing of the mask |
| `Core.VCpu.SetScalar` | src/vcpu.c:58-64 | a write to a scalar register, with r0 hardwired to 0 |
| `Core.VCpu.ExchangeBanks` | src/vcpu.c:72-83 | the two loops exchange exactly r2..r13, r15 and f0..f15 with the other bank, each once |
| `Core.VCpu.WriteStatus` | src/vcpu.c:85-89 | a whole-word status write exchanges the banks exactly when the bank bit changes |
| `Core.VCpu.ExecuteInteger` | src/vcpu.c:218-329 | the instructions that leave an integer in a scalar register; setvl also sets vl, before the register |
| `Core.VCpu.Unwind` | src/vcpu.c:289-292 | reti takes pc and the whole status word back, exchanging banks if the word says so, and counts one trap less |
| `Core.VCpu.ExecuteJump` | src/vcpu.c:275-286 | branches, jumps and links; jalr reads its target before it writes the link register |
| `Core.VCpu.ExecuteStatus` | src/vcpu.c:287-341 | sti, cli, reti and the writes of psw, epc and epsw, on the arrays |
| `Core.VCpu.ExecuteSystem` | src/vcpu.c:293-342 | mark, sethandler, settimer, mtvl, mtvmask and halt |
| `Core.VCpu.ExecuteVector` | src/vcpu.c:344-541 | a vector instruction recomputes its first vl lanes one by one in place and leaves the others; the destination may also be a source |
| `Core.VCpu.ExecuteCompare` | src/vcpu.c:491-508 | a vector comparison sets or clears the first vl bits of vmask and keeps the others |
| `Core.VCpu.Execute` | src/vcpu.c:214-541 | one instruction of any opcode changes the arrays and fields exactly as the instruction set says |
| `Core.VCpu.Step` | src/vcpu.c:699-706 | pc, cycles and dirty bits before the instruction, then the instruction |
| `Core.VCpu.Trap` | src/vcpu.c:711-719 | a trap saves pc and psw, closes interrupts, counts its depth and costs nothing |
| `Timing.TreeDepthBound` | src/vcpu.c:142-208 | a reduction tree over at most 2^k lanes has at most k levels |
| `Timing.CostBounds` | src/vcpu.c:142-208 | no instruction costs more than 140 cycles, and exactly the dumps are free |
| `DirtyBits.ListAgrees` | src/vcpu.c:111-136 | the opcode list raises VDIRTY for every instruction that writes a vector register, vl or vmask, and FDIRTY for every one that writes a float register |
| `DirtyBits.StepAccounted` | src/vcpu.c:111-136 | one instruction without a whole-psw write never clears a dirty bit and changes nothing a clear bit answers for |
| `DirtyBits.DirtyBitsSound` | src/vcpu.c:699-706 | over every run of instructions and traps without mtpsw or reti, VDIRTY clear at the end means v0..v7, vl and vmask are unchanged, FDIRTY clear means f0..f15 are |
| `BankRefinement.ExchangeIsSelection` | src/vcpu.c:72-89 | exchanging the arrays on a change of the bank bit is selecting the other file by that bit |
| `BankRefinement.OtherBankUntouched` | src/vcpu.c:214-541 | no instruction but mtpsw and reti sees or changes the other bank or the bank bit |
| `BankRefinement.StepRefines` | src/vcpu.c:699-706 | one instruction on the exchanged arrays is one instruction of the machine with a register file per bank |
| `BankRefinement.TrapRefines` | src/vcpu.c:711-719 | so is a trap |
| `BankRefinement.BankRefinement` | src/vcpu.c:58-89 | over every sequence of instructions and traps the exchanged arrays are a file indexed by PSW_BANK, r1, r14 and the vectors being common |
| `BankRefinement.ZeroEntriesStayZero` | src/vcpu.c:72-83 | r0 and the alternate entries no bank uses stay 0 on every run |
| `BankRefinement.RunLeavesReturn` | src/vcpu.c:287-292 | epc and epsw change only by mtepc, mtepsw and traps |
| `BankRefinement.TrapThenReti` | src/vcpu.c:711-719 | a trap, any handler, nested traps and changes of bank included, with epc and epsw back at what the trap saved when reti comes: pc, psw and the registers of the interrupted program's bank are those the handler left it |
| `BankRefinement.PlainHandlerReturns` | src/vcpu.c:287-292 | so does every handler that takes no trap and does not write epc or epsw |
| `BankRefinement.TrapAndStraightReti` | src/vcpu.c:287-291 | with an empty handler only the trap's own record and one cycle differ |
| `Memory.WriteElsewhere` | src/machine.c:190-197 | a store does not reach bytes apart from it, in the same memory or in another |
| `Memory.Doubleword` | src/machine.c:325-352 | a doubleword stored in RAM is loaded back whole and no other doubleword changes |
| `Memory.Word` | src/machine.c:262-304 | the same for words |
| `Memory.MemoryBus.ReadDoubleword` | src/machine.c:325-337 | ld reads the window, the local or the shared RAM, and stops the board anywhere else and on device registers |
| `Memory.MemoryBus.WriteDoubleword` | src/machine.c:339-352 | sd writes local or shared RAM in place, is refused on the ADC window, and stops the board elsewhere |
| `ProcFrame.Listing.ScanBody` | src/assembler.c:1515-1549 | the scan marks r1..r13 exactly as the recognised mnemonics write them, with the destination spelt as a number and nothing after it |
| `ProcFrame.Listing.EmitPrologue` | src/assembler.c:1582-1595 | the prologue pushes r15 and then the marked registers, in order |
| `ProcFrame.Listing.EmitEpilogue` | src/assembler.c:1616-1626 | the epilogue pops them in reverse and returns |
| `ProcFrame.Listing.CloseProc` | src/assembler.c:1537-1637 | closing a procedure emits prologue, body and epilogue, and fails exactly when the code does not fit |
| `ProcFrame.UsedIsExact` | src/assembler.c:1539-1549 | the saved list holds exactly the marked registers |
| `ProcFrame.SaveRun` | src/assembler.c:1582-1595 | running the prologue leaves every saved register whole in its slot, r14 below them, and memory at and above the old r14 as it was |
| `ProcFrame.RestoreRun` | src/assembler.c:1616-1626 | running the epilogue loads every saved register from its slot and puts r14 back |
| `ProcFrame.BodyKeeps` | src/assembler.c:1515-1536 | a linear body leaves a register r1..r13 as it was unless it is marked, or written by mfcause or by a line whose destination has something after its number |
| `ProcFrame.FrameRestores` | src/assembler.c:1537-1637 | whatever ran in between, if r14 is as found and the slots are untouched, the epilogue gives back r14, r15 and every saved register at all 64 bits and returns to the caller |
| `ProcFrame.ProcPreservesRegisters` | src/assembler.c:1537-1637 | for every body without jumps or bank writes, prologue, body and epilogue return to the caller's r15, and each of r1..r15 has its entry value, unless it is written and the scan saw none of the writes: then it has what the body left |
| `ProcFrame.BodyTakesCause` | src/assembler.c:1515-1533 | a register that only mfcause writes holds the trap's cause after the body |
| `ProcFrame.CleanProcPreservesRegisters` | src/assembler.c:1515-1637 | with every destination spelt cleanly, a register comes back if and only if it is not one that only mfcause writes, or it held the cause already |
| `ProcFrame.LostRegisterDiffers` | src/assembler.c:1515-1533 | two bodies, one mfcause and one li r5x, run to their end, return, and leave another value in r5 than the caller had: the scan reads the number to its end, the encoder the digits only |
| `Transmitter.VTx.Begin` | src/devices.c:559-566 | a start pushes the last interval into the second slot and counts |
| `Transmitter.VTx.Fire` | src/devices.c:610-617 | TX_AT starts at its own instant as soon as somebody looks |
| `Transmitter.VTx.Arm` | src/devices.c:573-591 | TX_AT within 2^31 ticks arms that instant, a past one is refused |
| `Transmitter.VTx.Control` | src/devices.c:593-606 | TX_CTRL starts at once if nothing is on |
| `Transmitter.VTx.Store` | src/devices.c:569-606 | the store decoder and its registers |
| `Transmitter.VTx.Load` | src/devices.c:536-556 | the load decoder; reading the status lowers the bits it reports |
| `Transmitter.VTx.BlindsAt` | src/devices.c:621-626 | the two intervals and the switching time answer whether a sample is blind |
| `Transmitter.TransmissionsAreDisjoint` | src/devices.c:559-617 | from power-on, whatever the accesses and boundaries, transmissions are disjoint and in order |
| `Transmitter.TwoSlotsSuffice` | include/devices.h:852-856 | if at most one transmission started after the sample's instant, the two slots answer as the whole history |
| `Transmitter.HistoryIsLatest` | src/devices.c:621-626 | of a history only the latest transmission begun by an instant can blind it |
| `Transmitter.TwoSlotsExactly` | include/devices.h:852-856 | on every run, the two slots answer as the whole history if and only if they have not forgotten the latest transmission begun by the sample while the sample is still within its end plus the switching time |
| `Transmitter.TwoStartsTooMany` | src/devices.c:569-617 | one CPU storing every four cycles, with a pulse one tick long: its store finds the armed start over and starts another, and the sample just before is answered wrongly |
| `Transmitter.TwoCpusTooMany` | src/devices.c:569-617 | stores of the two CPUs at 104 and 105, both before the boundary at 104, do the same |
| `Transmitter.LastStoreTooMany` | src/devices.c:569-617 | and so does a program that ends in its store, even with pulses of four cycles |
| `Transmitter.ArmedExactly` | src/devices.c:573-591 | an instant within 2^31 ticks of now is armed exactly, past the wrap of the low word too |
| `Adc.Quantized` | src/devices.c:437-443 | a sample is rounded to the nearest integer of 12 bits, and to the end of the range on its own side when it is outside |
| `Adc.VAdc.Deposit` | src/devices.c:478-483 | one sample goes by DMA into the hidden half or its place in shared RAM, and nowhere else |
| `Adc.VAdc.Convert` | src/devices.c:457-476 | a sample is the quantized signal at its instant, or dark if the transmitter blinds it |
| `Adc.VAdc.Count` | src/devices.c:485-493 | after a sample the next instant, or the end of the block, where the halves change places |
| `Adc.VAdc.Take` | src/devices.c:453-495 | one whole sample: conversion, transfer, count |
| `Adc.VAdc.Advance` | src/devices.c:453-495 | the loop takes every sample due by t |
| `Adc.VAdc.Begin` | src/devices.c:374-383 | a block begins with its first sample one period away |
| `Adc.VAdc.Trigger` | src/devices.c:424-432 | the armed start at the first boundary from its instant on, the block in progress carried that far first |
| `Adc.VAdc.Store` | src/devices.c:386-418 | the registers, the immediate start with its overrun, the armed start and its refusal |
| `Adc.VAdc.Load` | src/devices.c:324-346 | status with the 30-bit count, and what reading it lowers |
| `Boundaries.AdvanceTwice` | src/devices.c:453-495 | advancing to t1 and then to t2 is advancing to t2 |
| `Boundaries.ServeTwice` | src/devices.c:424-495 | the same with the armed start |
| `Boundaries.BoundaryTwice` | src/machine.c:628-633 | two whole boundaries are as good as the second, always when no armed transmission starts between them, and when one does if the slot it takes is no longer needed |
| `Boundaries.OnlyTheLastBoundaryCounts` | src/machine.c:628-633 | however many boundaries there are and wherever they fall, only the last counts, under the same condition on the first state |
| `Boundaries.BoundariesDoNotMatter` | src/devices.c:424-495 | two nondecreasing boundary sequences ending at the same instant leave the same ADC, transmitter and DMA memory, for every state when no armed transmission falls in between |
| `Boundaries.OutOfOrderBoundariesMatter` | src/machine.c:628-633 | the condition is needed: in a state where the older of two transmissions still covers a sample due, a boundary at 16 before the one at 20 changes what the sample is told |
| `BoardRuns.PowerUp` | src/machine.c:17-32 | the devices as they are built are in the power-on state every run begins with |
| `Boundaries.BlockHoldsItsSamples` | src/devices.c:453-495 | a block carried far enough holds in slot j the sample of its j-th instant, and touches nothing else |
| `Boundaries.OverExactly` | src/devices.c:453-495 | a block carried to an instant is over if and only if the instant of its last sample is reached |
| `Boundaries.ArmedBlockStarts` | src/devices.c:424-432 | the armed block starts if and only if the block in progress is over by ADC_AT; otherwise that one goes on and the overrun is raised |
| `Boundaries.ArmedBlockIsExact` | src/devices.c:424-495 | whenever the boundary comes, sample j of an armed block is the one of ADC_AT + (j + 1) * period * div_periph, if the block in progress was over by ADC_AT |
| `BoardRuns.PlayIsTimely` | src/machine.c:617-748 | after any turns of the CPUs with any accesses to the two devices, what is armed is later than the last boundary and access, and what began is not |
| `BoardRuns.QuietIsInOrder` | src/machine.c:628-633 | after any accesses, at a boundary no access is ahead of, the state is one in which an armed start needs no slot still wanted |
| `BoardRuns.ReachedBoundariesDoNotMatter` | src/machine.c:628-633 | so from there on, until the next access, only the last boundary counts, armed transmissions included |
| `BoardRuns.ExtraBoundariesDoNotMatter` | src/machine.c:617-633 | over every run of turns, bringing the devices up to date at any further instants between them changes no sample, no bit and no transmission: a run never needs the condition on the state |
| `BoardRuns.OneStartAhead` | src/devices.c:559-617 | when no transmission is shorter than an access, at most one has begun after the previous boundary |
| `BoardRuns.BoundaryIsWhole` | src/devices.c:453-495 | at such a boundary the receiver takes the samples one that asks the whole history would take |
| `BoardRuns.TwoSlotsAreWhole` | include/devices.h:852-856 | over every sequence of turns and accesses whose pulses last at least an access, the device with two slots is, byte for byte, the one with the whole history |
| `PingPongBuffer.TransferIsConfined` | src/devices.c:453-502 | every DMA write stays in the hidden half or in the block's own bytes of shared RAM |
| `PingPongBuffer.WindowShowsLastBlock` | src/devices.c:453-502 | in every reachable state the window begins with exactly the last completed ping-pong block, or zeros before the first |
| `PingPongBuffer.PowerOnIsWhole` | src/devices.c:453-502 | the power-on state is such a state |
| `PingPongBuffer.SameCountSameBlock` | src/devices.c:324-346 | a reader that sees the same count twice, fewer than 2^30 blocks apart, has read one whole block |
| `HwLock.VHwLock.Load` | src/devices.c:702-723 | reading is the test-and-set; a request by the holder is reported the first time after the acquisition only, which is what clears the mark |
| `HwLock.VHwLock.Store` | src/devices.c:727-740 | only the owner releases, and only by writing 0 |
| `Mailbox.VMbox.Receive` | src/devices.c:643-655 | the oldest word leaves the ring, 0 comes from an empty one |
| `Mailbox.VMbox.Accept` | src/devices.c:666-672 | a word joins the ring behind the others, or is refused when it is full |
| `Mailbox.VMbox.Load` | src/devices.c:632-662 | status, receive and control registers of the reader's own FIFO |
| `Mailbox.VMbox.Store` | src/devices.c:664-679 | sending to the peer, with the overrun seen by the sender |
| `Mailbox.NothingIsLostSilently` | src/devices.c:632-679 | over every interleaving words come out in the order they went in, and every word sent is delivered, waiting or counted lost |
| `Comparators.VCmp.Pending` | src/devices.c:307-316 | the first channel whose deadline is over |
| `Comparators.OverMeansReached` | src/devices.c:299-316 | a deadline within 2^31 ticks fires exactly when reached, across the wrap |
| `Spinlock.TheCoreIsFaithful` | src/vcpu.c:214-286 | the core runs lw, sw, addi and bne as the loop needs, over any floating-point unit |
| `Spinlock.MoveRefines` | src/devices.c:702-740 | one instruction of either CPU in its loop is one step of the abstract two-process algorithm on the lock and the word |
| `Spinlock.TurnKeeps` | docs/manual.md:837-843 | every step keeps: the owner is the CPU inside, and the counter is the start plus the increments written |
| `Spinlock.NoLostIncrement` | docs/manual.md:837-843 | in every interleaving of the two loops at most one CPU is inside, it is the lock's owner, and when both end the counter has grown by exactly the sum of their rounds |
| `Machine.VMachine.NextCpu` | src/machine.c:595-605 | the runnable CPU with the smallest clock, CPU 0 on a tie |
| `Machine.VMachine.constructor` | src/machine.c:17-32 | at power-on everything is 0 and both CPUs are stopped, until they receive a program |
| `Machine.VMachine.Load` | src/machine.c:37-50 | a program is given to one CPU, which is started at its entry; the other is untouched |
| `Machine.VMachine.Interrupt` | src/machine.c:673-730 | comparators, timer, keyboard, mailbox: the first pending is delivered if interrupts are open |
| `Machine.VMachine.Serve` | src/machine.c:654-748 | one turn of a CPU: an interrupt or an instruction |
| `Machine.VMachine.StopAll` | src/machine.c:98-101 | a failed outside world halts every CPU |
| `Machine.VMachine.Iterate` | src/machine.c:617-748 | one iteration of the main loop changes the chosen CPU and nothing of the other |
| `Machine.VMachine.Run` | src/machine.c:607-748 | the loop over runs of any length |
| `Machine.TheCoreIsTimed` | src/vcpu.c:699-706 | an instruction adds exactly its cost to its own clock, and the free ones only advance pc |
| `Machine.FrontAdvances` | src/machine.c:595-605 | stepping the CPU furthest behind never takes the front of time back |
| `Machine.TraceInOrder` | src/machine.c:617-633 | the boundaries of device advances and register accesses are in order over the whole run |
| `Machine.GlobalTime` | src/machine.c:590-748 | device advances never go back, register accesses of both CPUs never go back, an advance may trail an earlier access by at most one access, and two running CPUs are within 140 cycles |
| `Machine.AccessRunsAhead` | src/machine.c:590-748 | a run in which an access at 4 comes before an advance at 0: together the two are not in order |
| `MachineRuns.NextWaits` | src/machine.c:590-748 | after a register access its CPU waits exactly at the end of it, so no boundary passes it unserved, in programs that do not end in lw or sw |
| `MachineRuns.TurnsAreTimely` | src/machine.c:607-748 | a condition that every step of a loop keeps makes its whole run a timeline of boundaries and accesses |
| `MachineRuns.TwoSlotsOnEveryRun` | include/devices.h:852-856 | on every run of the main loop, whatever the two programs do, if the lengths stored in TX_LEN last at least an access, every sample is what the whole history of transmissions would make it |
| `MachineRuns.ExtraBoundariesOnEveryRun` | src/machine.c:607-748 | on every run of the main loop, more frequent updates of the two devices leave them, the DMA memory and the transmissions as they are |
| `MachineRuns.RunIsTimeline` | src/machine.c:590-748 | the turns of every run of the main loop have their boundaries in order, none after an access with none between the two |
| `Machine.IdleDecreases` | src/machine.c:673-748 | an iteration that leaves the clock where it was uses up a measure: at most one trap, and a shorter way to the program's end |
| `Machine.ClockMoves` | src/machine.c:590-748 | after 2 * length + 1 iterations, whatever the devices ask, the clock of the CPU due has moved or it has stopped |
| `LocatorFile.Parser.OneRegion` | src/locator.c:135-166 | accepts exactly the nine tokens of a region of positive length, code at 0 and data elsewhere, and reads it |
| `LocatorFile.Parser.Memory` | src/locator.c:129-169 | accepts exactly the bodies of MEMORY whose regions have room and names of their own, and adds them in order |
| `LocatorFile.Parser.Sections` | src/locator.c:172-194 | accepts exactly the bodies of SECTIONS with dotted names of their own, and adds them in order |
| `LocatorFile.Parser.ScopeItem` | src/locator.c:197-204 | MEMORY or SECTIONS if one is next, read exactly when it is one |
| `LocatorFile.Parser.Body` | src/locator.c:236-246 | accepts exactly the bodies of a PROCESSOR block, and gives the scope they declare |
| `LocatorFile.Parser.Proc` | src/locator.c:223-247 | a PROCESSOR block is refused exactly when the table is full, the name is known, or the body is none |
| `LocatorFile.Parser.Parse` | src/locator.c:206-258 | accepts exactly the token lists that are declarations one after another and declare something, which they are in one way only, and gives the sound layout they declare |
| `LocatorFile.LongestChain` | src/locator.c:217-255 | where at most one declaration can stand at a token, a list that cannot be continued begins with every other |
| `Locator.Override` | src/locator.c:322-347 | the same name replaces, a new one is added, and a full table is an error |
| `Locator.Inheritance` | src/locator.c:322-347 | after overriding, a name means the block's declaration if there is one and the board's otherwise |
| `Locator.CheckPlaces` | src/locator.c:352-358 | every placement names a declared region |
| `Locator.CheckOverlap` | src/locator.c:359-370 | no two regions of the same space overlap |
| `Locator.Resolve` | src/locator.c:296-372 | resolution succeeds exactly when the processor is declared or nothing is, the tables fit, every section is placed and nothing overlaps, and gives the board with the block's changes |
| `Locator.ResolvedIsSound` | src/locator.c:296-372 | a resolved scope is sound |
| `Locator.ResolvedName` | src/locator.c:321-358 | what each region and section name means after resolution |
| `Locator.OverlapIsSharedAddress` | src/locator.c:359-370 | the overlap test fires exactly when two regions share an address |
| `Concatenation.WhereInverse` | src/toolchain.c:388-393 | every unit of every module has a place of its own in the concatenation |
| `Concatenation.AssignBases` | src/toolchain.c:384-393 | each module starts where the sum of the ones before it ends |
| `Concatenation.Concatenate` | src/toolchain.c:443-458 | the copy loop puts every unit in its place and nothing below the origin |
| `Linker.FitSections` | src/toolchain.c:365-418 | accepts exactly when every section in use has a region of its space with room for it, and the counts are within their limits |
| `Linker.MapGlobals` | src/toolchain.c:420-440 | the map of the globals with their addresses, refused at the first name met twice |
| `Linker.ResolveName` | src/toolchain.c:468-491 | a name is the module's own first definition, else the global of the map |
| `Linker.RelocateOne` | src/toolchain.c:461-506 | one relocation patches one field of one slot, or is refused by kind or as undefined |
| `Linker.Relocate` | src/toolchain.c:461-506 | all of them, in module order |
| `Linker.FindEntry` | src/toolchain.c:509-523 | the entry is the named global code symbol |
| `Linker.LinkObjects` | src/toolchain.c:354-530 | a link succeeds exactly when everything fits, globals are unique, every relocation resolves and the entry exists, and its image is the one specified place by place |
| `LinkMeaning.LinkedSlot` | src/toolchain.c:443-506 | slot text_base[m]+i holds instruction i of module m with only its relocated field replaced by the symbol's address plus addend |
| `LinkMeaning.GlobalMeaning` | src/toolchain.c:468-491 | a name a module does not define means the one global of that name |
| `LinkMeaning.LinkingPreservesRuns` | src/toolchain.c:384-506 | from every state, for every core and every input, running the image and running the modules by name go through the same states |
| `LinkMeaning.BranchLandsOnLabel` | src/toolchain.c:461-506 | a relocated branch leads to the instruction its label marks, in the module that defines it |
| `LinkMeaning.AddressReachesDatum` | src/toolchain.c:443-506 | a relocated data address is where the image keeps that datum's bytes |
| `LinkMeaning.PlacementIsDisjoint` | src/toolchain.c:384-417 | in different regions, all module ranges lie in their regions, none overlap in their space, and no datum has address 0 |
| `LinkMeaning.OneRegionForBoth` | src/toolchain.c:384-417 | the code does not ask for different regions: in one region .data and .shared collide exactly when both are non-empty |
| `SharedMemory.SharedAgree` | src/toolchain.c:743-778 | accepts exactly when the shared symbols are the same, in order, with the same addresses and sizes |
| `SharedMemory.AgreementMeansSameAddresses` | src/toolchain.c:743-778 | acceptance means equal shared name-to-address relations |
| `SharedMemory.OnlyBearersCount` | src/toolchain.c:386-393 | objects without shared variables, wherever they are interleaved, move no shared address |
| `SharedMemory.IndependentLinksAgree` | src/toolchain.c:376-440 | two links with the same shared origin and the same shared-bearing objects in order map the same shared names to the same addresses and sizes, so shared_agree accepts them |
| `Archive.IsNeeded` | src/main.c:455-468 | a member is needed when a global of its is referenced by the included set and not defined in it |
| `Archive.Pass` | src/main.c:450-469 | one pass includes needed members, and if it changed nothing no member left out is needed |
| `Archive.Select` | src/main.c:447-470 | the fixpoint loop ends; every member included was needed when it was, and none left out still is |
| `Archive.Closure` | src/main.c:350-365 | at exit every name referenced by the set and exported by a member is defined in the set |
| `Archive.Reachable` | src/main.c:447-470 | every included member is reached by a chain of references from an explicit object |
| `Archive.ResolvesByOwnOrGlobal` | src/toolchain.c:468-491 | at link time a name resolves by its module's definitions or anybody's globals and nothing else |
| `Archive.LinkedAreSelected` | src/main.c:472-475 | the link list, explicit objects and then the marked members in archive order, holds exactly what was selected |
| `Archive.SelectedNameResolves` | src/main.c:447-475 | in that list a name some member provides has a definition, and resolves at link time exactly when its own object defines it or some definition of it in the list is global |
| `Archive.ProvidedNameResolves` | src/main.c:447-475 | before the link: a name mentioned and provided by some member resolves if no other object or member defines it without exporting it |
| `Archive.LocalDefinitionHides` | src/main.c:350-357 | the two tests differ, on three objects of one instruction each: a definition local to another object keeps the member out, and the link then fails although the member exports the name |
| `LineText.SplitJoin` | src/toolchain.c:70-85 | splitting a line gives back the words it was joined from |
| `LineText.Stream.NextLine` | src/toolchain.c:14-26 | the next line that is neither blank nor a comment |
| `LineText.DecimalReadBack` | src/toolchain.c:62-85 | signed decimals are read back |
| `LineText.ByteReadBack` | src/toolchain.c:88-128 | two hexadecimal digits are read back |
| `Opcodes.OpNumberReadBack` | include/vcpu.h:154-316 | every opcode has a number of its own |
| `Formats.InstrReadBack` | src/toolchain.c:62-85 | an instruction row parses to the instruction |
| `Formats.DataReadBack` | src/toolchain.c:88-128 | data of any length, sixteen bytes a line, comes back byte for byte and the reader stops right after it |
| `Formats.SymbolReadBack` | src/toolchain.c:153-246 | a symbol row, undefined symbols included, parses to the symbol |
| `Formats.RelocReadBack` | src/toolchain.c:166-262 | a relocation row parses to the relocation |
| `ObjectFile.ObjectReadBack` | src/toolchain.c:136-271 | reading a written object gives the object and leaves what follows its .end unread |
| `ObjectFile.ArchiveReadBack` | src/toolchain.c:283-348 | reading a written archive gives its members in order, and fails exactly when there is no room for them |
| `ObjectFile.LoadRows` | src/toolchain.c:212-220 | the row loop reads as specified, errors included |
| `ObjectFile.LoadBytes` | src/toolchain.c:100-128 | the data loop reads as specified, truncation included |
| `ObjectFile.LoadObject` | src/toolchain.c:193-271 | the section loop reads as specified and leaves the stream right after .end |
| `ObjectFile.LoadArchive` | src/toolchain.c:315-348 | the member loop reads as specified |
| `ObjectFile.WriteData` | src/toolchain.c:88-97 | the sixteen-bytes-a-line loop |
| `ObjectFile.WriteObject` | src/toolchain.c:136-180 | the writer produces exactly the specified lines |
| `ImageFile.ImageReadBack` | src/toolchain.c:544-654 | reading a written executable gives the image, its shared base as 0 when nothing is reserved, since it is then not written |
| `ImageFile.LoadImage` | src/toolchain.c:580-654 | the reader of executables reads as specified |
| `Expressions.ExactQuotient` | src/assembler.c:343-382 | an integer quotient is accepted exactly when there is one without remainder, and times the divisor gives the dividend, in the integers unless it wraps |
| `Expressions.TreeOfText` | src/assembler.c:264-478 | printing a tree with the fewest parentheses and reading it back are inverse: six levels, left grouping, unary operators |
| `Expressions.MeaningOfText` | src/assembler.c:264-478 | the text of a tree means what the tree denotes |
| `Expressions.EScan.Primary` | src/assembler.c:264-318 | numbers, names and parentheses |
| `Expressions.EScan.Unary` | src/assembler.c:320-341 | unary - + ~ |
| `Expressions.EScan.Binary` | src/assembler.c:343-468 | each binary level computes from the left as it reads, and any error in what was read is an error of the whole |
| `Expressions.EScan.Evaluate` | src/assembler.c:471-478 | the evaluator ends on every text and computes the denotation of its tree, or fails when there is none |
| `SourceReader.MirrorStep` | src/assembler.c:2229-2297 | on every conditional each level keeps knowing whether all levels around it hold: no .else revives a dead outer block |
| `SourceReader.KeptByRecord` | src/assembler.c:2305-2324 | a line survives by the reader's record exactly when every open conditional holds |
| `SourceReader.IncState.CondLine` | src/assembler.c:2229-2297 | one conditional directive, refused exactly when it cannot stand there |
| `SourceReader.IncState.NextLine` | src/assembler.c:2305-2336 | the next surviving line, the end, or the reason the unit stops there, each as the walk of what remains says |
| `SourceReader.IncState.Push` | src/assembler.c:2347-2406 | fails exactly when the name leads nowhere, or the file is new and the nesting or the number of files is at its limit; a file entered already is passed over, a new one is opened on top |
| `SourceReader.IncState.EndIsComplete` | src/assembler.c:2328-2335 | at the end of a unit every line of every file entered has been read once, in order, and every conditional is closed |
| `SourceReader.IncState.ReadUnit` | src/assembler.c:2147-2406 | for any include graph, cycles included, reading ends, delivers exactly the lines of the walk all of whose conditionals hold, or fails for exactly the reason the walk stops |
| `SourceReader.ReadSource` | src/assembler.c:2147-2406 | from the top file, what is delivered is what the depth-first walk of the unit delivers |
| `SourceReader.WalkIsNested` | src/assembler.c:2305-2406 | at its own depth a walk reads the lines of its file, in order and nothing else, and everything it includes is deeper |
| `SourceReader.FileFollowsItsInclude` | src/assembler.c:2347-2406 | a surviving include of a new file is followed by that whole file with what it includes, and then by the line after it |
| `SourceReader.UnitAccounts` | src/assembler.c:2347-2406 | in a unit read to its end every conditional could stand, every surviving include was found, and the files entered are the top one and those surviving includes lead to, no others |
| `SourceReader.WalkStopsTruly` | src/assembler.c:2229-2406 | a unit stops only at a conditional that cannot stand, one left open by its file, a name that leads nowhere, or a limit reached by a new file |
| `SourceReader.ResumeLine` | src/assembler.c:2305-2336 | the stack of open files is what remains of the walk: one line read is one line less |
| `Assembly.Assembler.StoreWord` | src/assembler.c:2510-2526 | a datum goes to memory in place and the pointer moves |
| `Assembly.Assembler.AddSymbol` | src/assembler.c:39-62 | a label is added at the current position, a duplicate is refused |
| `Assembly.Assembler.Take` | src/assembler.c:2441-2599 | one source line: labels at the current position, data in place, code lines kept; refused exactly when a table or the memory is full or a label is known |
| `Assembly.Assembler.PassOne` | src/assembler.c:2426-2605 | the first pass builds the tables line by line, and stops at the first line refused |
| `Assembly.Assembler.PassTwoDirect` | src/assembler.c:2607-2622 | every instruction with its name replaced by the label's value plus addend, or a failure exactly when a name is unknown |
| `Assembly.Assembler.PassTwoObject` | src/assembler.c:2913-2940 | every instruction with a zero in place of its name, and one relocation a name, in order |
| `Assembly.Assemble` | src/assembler.c:2408-2629 | program and memory of the direct route, data starting behind the guard, linkage directives ignored |
| `Assembly.AssembleObject` | src/assembler.c:2679-2983 | the object route, which also asks that the first 512 names given to .global be defined |
| `Assembly.Assembler.AddGlobals` | src/assembler.c:2775-2780 | a name given to .global is kept while there are fewer than 512, and ignored after that |
| `Assembly.SizesAreGaps` | src/assembler.c:92-106 | the size of a datum reaches to the next datum or the section's end, aliases share it |
| `Routes.AllGuarded` | src/assembler.c:2430-2433 | the two first passes differ only by the guard under the data |
| `Routes.LineAgrees` | src/assembler.c:2923-2938 | a placeholder patched by the linker is the instruction resolved on the spot |
| `Routes.Load` | src/toolchain.c:780-794 | loading copies text and data in place and touches nothing else |
| `Routes.RoutesAgree` | src/assembler.c:2408-2983 | from any source both routes accept, the linked and loaded program and memory are the ones assembled directly |
| `RouteAcceptance.ObjectAccepted` | src/toolchain.c:354-530 | the linker accepts a lone object in the built-in placement exactly when its data leave room for the guard, every name it uses is defined and of the kind its instruction wants |
| `RouteAcceptance.RoutesAcceptAlike` | src/assembler.c:2408-2983 | for every source: assembling to an object and linking it succeeds if and only if assembling directly does, the first 512 names given to .global are defined, and branches name code while the others but li name data |
| `InstructionLaws.JumpsWhen` | src/vcpu.c:275-278 | a branch goes to its target exactly when its two registers, as signed 64-bit numbers, are equal, different or in order, whatever their values |
| `InstructionLaws.BranchesAreExclusive` | src/vcpu.c:275-277 | of beq x,y and blt x,y and blt y,x exactly one jumps, and bne x,y exactly when beq x,y does not |
| `InstructionLaws.BranchesOnlyGo` | src/vcpu.c:275-278 | a branch changes only pc and the cycle count |
| `InstructionLaws.CallsReturn` | src/vcpu.c:279-286 | a call followed by a jump to the register it left continues after the call |
| `InstructionLaws.JalrExchanges` | src/vcpu.c:280-286 | jalr of a register on itself goes where it pointed and leaves the address after the instruction |
| `InstructionLaws.AddiAddsLi` | src/vcpu.c:218-223 | addi adds what li loads |
| `InstructionLaws.SumsCommute` | src/vcpu.c:220-222 | sums and products do not depend on the order of their operands |
| `InstructionLaws.ProductsGrow` | src/vcpu.c:222 | a product by nothing is nothing and one time more is that number more, overflow included |
| `InstructionLaws.DivisionByZero` | src/vcpu.c:234-235 | div and rem by zero leave 0 |
| `InstructionLaws.PswTakes` | src/vcpu.c:319-323 | the bits written to psw are the bits it shows |
| `InstructionLaws.SetvlClamps` | src/vcpu.c:266-273 | the vector length becomes what was asked between 0 and 64, and setvl says it |
| `InstructionLaws.TrapsGoToTheHandler` | src/vcpu.c:711-719 | a trap taken goes to the handler set last with interrupts closed, and records why and where from |
| `InstructionLaws.HaltStops` | src/vcpu.c:293-342 | halt stops the CPU, and so does a mark that is refused |
| `InstructionLaws.ScalarsAsk` | src/vcpu.c:240-259 | which operation of the unit each scalar float instruction is, on which operands |
| `InstructionLaws.LanesAreScalars` | src/vcpu.c:397-541 | lane i of a vector instruction is what the scalar one leaves for the lanes i of its operands |
| `InstructionLaws.ScalarsAreSplat` | src/vcpu.c:412-480 | a vector instruction with a float operand is the one on a row filled with that float |
| `InstructionLaws.MasksChooseLanes` | src/vcpu.c:515-533 | a masked instruction is the plain one in the lanes whose bit is set and nothing in the others |
| `InstructionLaws.MergingTakesTheLesser` | src/vcpu.c:480-514 | vmslt and vmerge are vmin |
| `InstructionLaws.MergingTakesTheGreater` | src/vcpu.c:485-514 | vmsgt and vmerge are vmax |
| `InstructionLaws.ReductionIsExtreme` | src/vcpu.c:434-452 | a reduction leaves a lane that no lane in use comes before |
| `InstructionLaws.VectorCosts` | src/vcpu.c:142-208 | a vector instruction costs its lanes, masked or not, and a reduction its tree besides |
| `MemoryLayout.LowestFirst` | src/machine.c:190-197 | byte k of a stored number is its k-th digit to the base 256, so the lowest comes first |
| `MemoryLayout.HalvesOfDoubleword` | src/machine.c:262-352 | after sd, lw finds the low word at the same address and the high word four bytes further |
| `MemoryLayout.LoadsExactly` | src/machine.c:325-337 | ld stops the board exactly when its bytes are in no RAM and not in the ADC window, addresses in numbers |
| `MemoryLayout.StoresExactly` | src/machine.c:339-352 | sd too, and the window refuses it unchanged |
| `MemoryLayout.AddressesAreBytes` | src/machine.c:190-260 | which byte of which memory each address is |
| `BoardNumbers.StatusBits` | include/vcpu.h:28-103 | which bit of the status word is which |
| `MemoryLayout.RegistersApart` | src/machine.c:114-190 | which device answers at each address; no address is two devices', and none is memory |
| `MemoryLayout.OtherRegistersKeep` | src/devices.c:324-618 | an access elsewhere leaves the receiver and the transmitter as they are |
| `FrameListing.ReturnIsListed` | src/assembler.c:1582-1626 | the code of a .proc begins by pushing r15 and ends by popping it and returning, instruction by instruction |
| `FrameListing.ProcIsListed` | src/assembler.c:1586-1623 | each marked register is pushed after those marked below it and popped before them, at these very positions |
| `FrameListing.BodyIsListed` | src/assembler.c:1597-1612 | the body stands between, as written |
| `DevicePrograms.BlockIsLoaded` | src/devices.c:453-502 | after a block the word at a sample's address loads as its I channel and the word four bytes further as its Q channel, in the window and in shared RAM |
| `DevicePrograms.ArmedBlockIsLoaded` | src/devices.c:424-502 | so do the samples of an armed block, at ADC_AT plus j + 1 periods |
| `DevicePrograms.WindowIsLoaded` | src/devices.c:453-502 | at any moment of a run the window loads as the last block finished in it |
| `DevicePrograms.ProgramSamples` | src/devices.c:357-502 | five stores and a wait: what a program loads afterwards is the signal at its instants |
| `DevicePrograms.ControlBegins` | src/devices.c:357-421 | ADC_CTRL begins exactly a block that is described, can be done and finds none running; otherwise it raises the overrun or does nothing |
| `DevicePrograms.AtArms` | src/devices.c:386-421 | ADC_AT arms an instant less than 2^31 ticks ahead with the block described then, and refuses one that is past |
| `DevicePrograms.StatusOfReceiver` | src/devices.c:324-352 | what the receiver's registers read as, and which bits reading lowers |
| `DevicePrograms.ProgramTransmits` | src/devices.c:559-607 | a length and a start, stored while nothing is on, transmit from that instant for that length |
| `DevicePrograms.ProgramWaits` | src/devices.c:559-607 | stored while something is on, or with no length, they transmit nothing, and only the first raises the overrun |
| `DevicePrograms.StatusOfTransmitter` | src/devices.c:536-556 | what the transmitter's registers read as, and which bits reading lowers |
| `DevicePrograms.OnExactly` | src/devices.c:529-532 | the transmitter reads as on exactly during some transmission of its history |
| `DevicePrograms.AtTransmits` | src/devices.c:569-618 | TX_AT transmits from its own instant with the length and sign of when it was stored, whatever is stored in between |
| `DevicePrograms.AtCollides` | src/devices.c:610-618 | an armed transmission whose instant finds another on is dropped and reported |
| `LoopLaws.NextIsTheLast` | src/machine.c:590-605 | which CPU is next, from the fault, the two halts and the two clocks alone |
| `LoopLaws.TurnsAreOwn` | src/machine.c:607-748 | a turn leaves the other CPU as it is, unless the outside world fails; then both stop |
| `LoopLaws.FaultsAreFinal` | src/machine.c:616-617 | a board at fault does nothing more |
| `LoopLaws.SourcesInOrder` | src/machine.c:673-730 | with interrupts open the first pending source is taken, in the order comparator, timer, keyboard, mailbox |
| `LoopLaws.TimersAreDue` | src/vcpu.c:311-317 | a period p makes the timer due p cycles after the instruction and not before; no period, never |
| `LoopLaws.TimersRepeat` | src/machine.c:688-698 | after a delivery it is due a whole period later |
| `LinkNames.OwnDefinitionWins` | src/toolchain.c:468-482 | a name a module defines means its first definition there, whatever the other objects export |
| `LinkNames.OwnLabelIsReached` | src/toolchain.c:461-505 | so a branch to it lands in its own module at that offset of the image |
| `LinkNames.GlobalOtherwise` | src/toolchain.c:483-491 | a name its module does not define means the global some object exports under it |
| `LinkNames.UniqueExactly` | src/toolchain.c:421-440 | the globals are accepted exactly when no two symbols are exported under one name |
| `LinkNames.ResolvesExactly` | src/toolchain.c:461-506 | a relocation is accepted exactly when the definition its name means, own first, is of the kind its instruction wants |
| `LinkNames.LinkAcceptsExactly` | src/toolchain.c:354-530 | a link succeeds exactly when the sections have room, no name is exported twice, every relocation resolves and an entry that was asked for is exported code; said of the objects alone |
| `LinkNames.EntryIsPlaced` | src/toolchain.c:508-523 | the image starts at the entry asked for, else at an exported main, else at 0 |
| `LinkNames.MapHasTheGlobals` | src/toolchain.c:421-440 | the symbol map holds exactly the exported symbols, each with the place its offset has behind the objects before it |
| `LinkNames.ImageIsSized` | src/toolchain.c:384-452 | how large the parts of an image are and where its shared part begins |
| `BoardMeaning.ResolvesExactly` | src/locator.c:294-371 | a link for a CPU with a block goes on exactly when the names of board and block together have room, each section goes to a declared region and no two regions share an address; said of names alone |
| `BoardMeaning.WithoutBlock` | src/locator.c:294-371 | without a block the CPU sees the board, but a name that has none is refused if others have |
| `BuiltinPlacement.BuiltinIsRead` | src/locator.c:378-402 | the text of the built-in placement, token by token, is a placement file and declares those regions |
| `BuiltinPlacement.ReadBuiltin` | src/locator.c:206-255 | so the parser reads it |
| `SharedMemory.AgreesExactly` | src/toolchain.c:743-776 | accepts exactly when the first shared symbol of one image is the first of the other, the second the second, and so on, by name, address and size, and there are as many |
| `Archive.NextIsFirst` | src/main.c:449-470 | after each member taken the next one is the first needed that follows it in the archives, and if none follows the first of all |
| `Archive.SelectionIsUnique` | src/main.c:449-470 | so the selection is determined: there is one |
| `Archive.LinkedInOrder` | src/main.c:472-475 | the members linked stand in the order of the archives |
| `HwLock.HeldUntilReleased` | src/devices.c:690-742 | over any accesses short of the holder's own write of 0 a lock stays its holder's, everybody who asks is answered 1, and of all the holder's requests one at most is reported |
| `HwLock.ReleasedByItsHolder` | src/devices.c:727-742 | that write frees it and no other |
| `Comparators.FiresWhenReached` | src/devices.c:307-316 | an armed channel fires exactly when its own clock, milliseconds or cycles, has reached its deadline |
| `FileExamples.InstructionRows` | src/toolchain.c:69-85 | the documented row of li, and one of j, and what they read as, column by column |
| `FileExamples.SymbolRows` | src/toolchain.c:230-246 | symbol rows of the documented kinds, undefined ones included |
| `FileExamples.RelocationRows` | src/toolchain.c:247-262 | relocation rows of the three kinds |
| `FileExamples.MapRows` | src/toolchain.c:627-643 | rows of a symbol map, the value before the size |
| `FileExamples.NumbersArePlaces` | include/vcpu.h:156-204 | the operations are numbered as they are enumerated, the first 44 |
| `FileExamples.LaterNumbersArePlaces` | include/vcpu.h:206-227 | and the next twenty |
| `FileExamples.LastNumbersArePlaces` | include/vcpu.h:228-315 | and the last |
| `FileExamples.RowsExactly` | src/toolchain.c:213-262 | a table is read exactly when there are enough lines and each is a row, and it is those rows in order |
| `FileExamples.BytesExactly` | src/toolchain.c:100-133 | data are the first bytes of as few lines as have enough; what the last line has beyond them is dropped |
| `FileExamples.TooFewBytes` | src/toolchain.c:100-133 | with too few bytes there is no section |
| `FileExamples.SectionsInOrder` | src/toolchain.c:193-281 | an object's sections are read one after another up to its .end, unknown lines saying nothing |
| `FileExamples.DataAreWritten` | src/toolchain.c:88-97 | data are written sixteen bytes a line, line k beginning with byte 16 k |
| `FileExamples.Members` | src/toolchain.c:315-348 | a member of an archive is its name and the object after it, while there is room |
| `ConstantMeaning.LaterBindsTighter` | src/assembler.c:384-468 | a op b op' c is a op (b op' c) exactly when op' stands strictly later than op in the chain: bar, ^, &, << >>, + -, * / %; otherwise (a op b) op' c |
| `ConstantMeaning.SignsBindTightest` | src/assembler.c:320-341 | a sign belongs to its operand before any binary operator |
| `ConstantMeaning.TwoAndThreeTimesFour` | tests/test_espressioni.vasm:35 | 2 + 3 * 4 is 14 |
| `ConstantMeaning.ConstantsComputeAsTheCore` | src/assembler.c:343-468 | an operator on integer constants computes what the core's instruction computes on registers, wherever it computes |
| `ConstantMeaning.OneFloatIsEnough` | src/assembler.c:343-468 | one float operand makes the operation one of floats; bits and remainders of floats are refused |
| `ConditionalMeaning.UnitsMean` | src/assembler.c:2229-2324 | a unit whose lines nest into conditional blocks delivers what the blocks mean: one side of each, and nothing in a side not meant |
| `ConditionalMeaning.LegalExactly` | src/assembler.c:2229-2297 | which directive can stand where, from the conditionals open there |
| `SourceMeaning.AssemblesExactly` | src/assembler.c:2408-2629 | assembling directly succeeds exactly when the source fits, labels nothing twice and uses only labels it has; said of the lines alone |
| `SourceMeaning.PassAccepts` | src/assembler.c:2426-2605 | the first pass accepts exactly the sources that fit and label nothing twice |
| `SourceMeaning.ProgramIsTheCode` | src/assembler.c:2607-2622 | instruction number n is the n-th code line, with what the label of its operand stands for: counted lines in the text, counted bytes in the data |
| `SourceMeaning.BranchesReachTheNextLine` | src/assembler.c:2464-2622 | a branch to a label reaches the next code line after it |
| `SourceMeaning.LoopsToItself` | src/assembler.c:2464-2622 | loop: j loop goes to itself |
| `SourceMeaning.MemoryIsTheData` | src/assembler.c:2510-2585 | the memory holds each word where counting puts it, behind the guard, and zeros elsewhere |
| `SourceMeaning.LabelsHoldTheirWords` | src/assembler.c:2464-2526 | a label before words stands for the address where the first of them lies in memory |
| `SourceMeaning.ObjectExactly` | src/assembler.c:2679-2983 | assembling to an object succeeds exactly when the source fits without a guard, labels nothing twice and defines the first 512 names it exports |
| `SourceMeaning.SymbolsAreTheLabels` | src/assembler.c:2942-2983 | the symbol of each label: its section, its distance from the beginning, and whether it is exported |
| `SourceMeaning.TextIsTheCode` | src/assembler.c:2913-2922 | the text of an object is its code lines, with 0 for every name |
| `SourceMeaning.RelocationsAreTheNames` | src/assembler.c:2923-2940 | each name used is one relocation of its instruction, of the kind the instruction wants, and there are no others |

## Left out

- Widths: instants, cycle counts and addresses are unbounded integers; wrap-around is modelled where the program relies on it (registers, immediates stored as words, the low words of instants and counters), not for the 64-bit clock. Signed 64-bit overflow, undefined in C, is taken to wrap.
- Shift counts outside 0..63 are taken modulo 64 and INT64_MIN divided by -1 wraps: both are undefined in C and excluded where a property depends on them.
- Float arithmetic, `cos` and `sin`: floats are opaque bits, the floating-point unit is a parameter, and the signal at the antenna is a function of the instant.
- Printing and reading of floats in the text formats: a pair of functions, assumed inverse to each other.
- `src/mondo.c` and the processes behind it: the outside world is the signal function and a flag that says it failed.
- The keyboard, the interrupt distributor and the marker's record: their lines are inputs of the main loop, a `mark` is accepted or not.
- Float and vector memory accesses: what the bus answers to each lane is a parameter of the instruction.
- The debugger, tracing, statistics, disassembler, command lines and file opening: user interface. Files are lists of lines.
- The text of error messages and source positions: an error is an absent result.
- `encode` operand tables: an instruction of the source is its fields and at most one symbolic operand; the symbolic first operand of `mark` is not expressible.
- `.extern` and `.shared` in the comparison of the two routes: the direct one ignores the first and refuses the second.
- Macros, `.supertask`, `.interrupt`, `.struct`: not modelled; `.equ` constants are resolved before `Assembly` sees a line.
- Lexing: expressions and placement files are lists of tokens, and the numerals of a placement file are read by a function; in the text formats a numeral with letters glued to it is an error, where `sscanf` may read its first digits.
- Fixed buffers of the toolchain: line and name lengths, the 2048 tokens of a placement file, the symbol table of an image and the relocation table of an object are unbounded; the file readers take a negative count as 0.
- `malloc` failures.
- A register number beyond `int`, such as `r4294967301`: the encoder reads it with `atoi`, which is undefined there, and the scan with `strtol`; the model has one number for both.
- Calls inside a `.proc` body and interrupts during its frame: `ProcFrame.FrameRestores` covers them only through its hypothesis that r14 and the slots are back.
- Spinlock: the two loops run with interrupts closed, as the manual asks, and touch no other device.
- The values the CPUs read from the devices in `MachineRuns` are inputs of the run: its theorem holds for all of them, those the devices give included.
- Boundaries.BoundaryTwice: when an armed transmission starts between the two boundaries, its condition on the state is sufficient and one is needed (`Boundaries.OutOfOrderBoundariesMatter`); which other states happen to agree, because a later block overwrites the sample, is not characterised. On a run none is needed (`BoardRuns.ExtraBoundariesDoNotMatter`).
- The order in which the reader's search directories are tried: a name leads to a canonical path by a function.
- A relocation whose site is outside its object, which only a damaged file can hold, is excluded from linking.
- Duplicate members of an archive and the limit of 64 linked objects in `ld`: the selection has no limit.

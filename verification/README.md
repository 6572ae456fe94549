# Zero CPU: a verified model

The project models a small protected computer and its tools, and proves what
they promise:

- **The CPU.** `Machine.dfy` says what one step does: privilege, three stack
  regimes, interrupt frames, code and data protection, device routing and the
  instruction set. `Interpreters.dfy` writes the two interpreters of the source
  (decoded instructions, and 24-byte encoded code) separately, each with its
  own operand readers, and proves both to be that semantics. `Processor.dfy` is
  the CPU object that updates its fields in place, proved against it method by
  method. On top of it: fault atomicity (`Effects`), an invariant of every
  reachable state (`Reachable`), exact return from nested interrupts
  (`InterruptFrames`), confinement of user runs (`Confinement`), and lockstep
  of the two interpreters through calls and interrupts (`Lockstep`,
  `LockstepSteps`, `LockstepUser`).
- **Its parts.** The memory map (`MemoryMap`), arithmetic and flags (`Alu`, `FlagWord`), memory (`Memory`),
  the encoding (`Isa`), the interrupt controller (`Interrupts`), the device bus
  (`Mmio`) and the timer (`Timer`).
- **The toolchain.** The two-pass assembler from characters to program
  (`Text`, `Assembler`, `TwoPass`), the executable file (`BinaryFormat`), the
  loader (`Loader`), and what they do together, up to the value a LOAD puts in
  a register and the lockstep of an assembled source (`EndToEnd`, `Execution`).
- **The debuggers.** The single-process session (`Debugger`), the multi-process
  session over an arbitrary scheduler (`MultiDebugger`), and debug symbols
  (`DebugSymbols`).

- **The laws.** Twelve modules say what all this means in numbers, bytes,
  addresses and lines of text, without the functions the semantics is built
  from: every instruction (`InstructionLaws`, `ControlLaws`), interrupts, IRET,
  host services and the order of a step (`InterruptLaws`), the 24 bytes of an
  instruction (`EncodingLaws`), printed instructions read back (`Printing`),
  lines of assembly run from the loaded file (`TextLaws`), where a program
  starts (`EntryLaws`), which sources assemble (`SourceLaws`), which files are
  programs (`FileLaws`), the controller, timer and device bus (`DeviceLaws`),
  the stops of both debuggers (`DebugLaws`), and saving and restoring a process
  (`ContextLaws`).

Objects the source updates in place are classes here (`Cpu`, `Memory`,
`InterruptController`, `Flags`, `Bus`, `TimerDevice`, `Session`,
`MultiSession`, `Symbols`); their methods are proved equal to functions on
values, and the theorems are about those functions. A C++ exception is a
result (`Err`, `Fault`, `false`). Fixed-width integers are subset types with
the wrap-around written out.

## What the code does that its documentation does not say

- A label after the last instruction is legal. Kernel code that jumps there
  continues in the vector interpreter and faults at once in the binary one
  (`LockstepUser.EndLabelSeparates`; the exact condition is
  `LockstepUser.TakenBranchAgreesIff`, and `LockstepUser.CallAgreesIff` for CALL).
- CALL pushes an index in one interpreter and a byte address in the other
  (`LockstepUser.CallLeavesRelation`). Programs that only return through these
  words do not notice; one that pops such a word, or returns through a word it
  computed, behaves differently in the two (`LockstepUser.UserLockstepIff` says
  exactly which user runs agree).
- The multi-process resume skip does not last until its process moves. A
  continue or source step started from another breakpoint stop replaces it
  (`MultiDebugger.OtherBreakpointRearms`), and a single step after the stop
  keeps it from being armed at all (`MultiDebugger.SingleStepForgetsStop`). A
  process that has not moved is reported again exactly when the stop that a
  continue or source step, the reporting one included, was last started from is
  not its own
  (`MultiDebugger.UnmovedIsReportedIff`).
- `acknowledge(vector, source)` can deliver requests on a vector out of order
  (`Interrupts.AcknowledgeForCanReorder`; exactly when:
  `Interrupts.AcknowledgeForKeepsOrder`). Unlike the general form it needs no
  handler.
- A device interrupt whose entry fails has already consumed its request, so
  `Effects.FailedStepKeepsState` leaves the devices out.
- The reader accepts a legacy file whatever data base its program had, because
  the writer stores none; the loader refuses that program
  (`Loader.ReaderAgreesWithLoader`).

## Model

| member | source | states |
|---|---|---|
| `Alu.AddIsExact` | src/core/ALU.cpp:72-83 | ADD gives the sum modulo 2^64 as a signed word; OF exactly when the true sum is unrepresentable, CF exactly when the unsigned sum carries |
| `Alu.SubIsExact` | src/core/ALU.cpp:85-96 | SUB gives the difference modulo 2^64; OF exactly when it is unrepresentable, CF exactly on an unsigned borrow |
| `Alu.MulIsExact` | src/core/ALU.cpp:98-109 | MUL gives the product modulo 2^64; OF and CF exactly when it is unrepresentable (the long double product taken as exact) |
| `Alu.DivIsTruncating` | src/core/ALU.cpp:111-123 | DIV fails exactly on a zero divisor and on MIN / -1, and otherwise truncates toward zero |
| `Alu.BitwiseIsPointwise` | src/core/ALU.cpp:125-135 | AND, OR and XOR act on every bit position independently |
| `Alu.NotIsXorOnes` | src/core/ALU.cpp:137-139 | NOT is XOR with all ones on the whole word |
| `Memory.DecodeEncode` | src/core/Memory.cpp:57-122 | decoding the bytes of a value gives the value back, in both byte orders and any width |
| `Memory.EncodeDecode` | src/core/Memory.cpp:34-100 | every byte string is the encoding of the value it decodes to, in both byte orders |
| `Memory.ReadAfterWrite` | src/core/Memory.cpp:170-176 | a signed word written at an address is read back from it |
| `Memory.ReadAfterDisjointWrite` | src/core/Memory.cpp:170-176 | a write of eight bytes does not change what a disjoint read returns |
| `Memory.ReadDependsOnBytes` | src/core/Memory.cpp:79-100 | a 64-bit read depends on its eight bytes only |
| `Memory.Memory.constructor` | src/core/Memory.cpp:10-12 | a new memory is all zeros |
| `Memory.Memory.Reset` | src/core/Memory.cpp:18-20 | reset zeroes every byte in place |
| `Memory.Memory.CheckRange` | src/core/Memory.cpp:237-247 | the range check accepts exactly the ranges inside memory, without overflow |
| `Memory.Memory.ReadUnsigned` | src/core/Memory.cpp:34-55 | the read loops (widths 4 and 8, both byte orders) return the decoded value, or fail on a bad range |
| `Memory.Memory.WriteUnsigned` | src/core/Memory.cpp:57-77 | the write loops store exactly the encoded bytes, and nothing when the range is bad |
| `Memory.Memory.StoreLittle` | src/core/Memory.cpp:102-122 | the little-endian byte loop splices the encoding into the array |
| `Memory.Memory.StoreBig` | src/core/Memory.cpp:102-122 | the big-endian byte loop splices the reversed encoding into the array |
| `Memory.Memory.Read` | src/core/Memory.cpp:170-172 | the CPU's signed read |
| `Memory.Memory.Write` | src/core/Memory.cpp:174-176 | the CPU's signed write, in place; a refused write changes nothing |
| `Memory.Memory.ReadBytes` | src/core/Memory.cpp:145-155 | exactly the bytes of the range, or a failure |
| `Memory.Memory.WriteBytes` | src/core/Memory.cpp:157-168 | the bytes are spliced in; a refused write changes nothing |
| `Isa.DecodeUndoesEncode` | src/isa/InstructionEncoder.cpp:101-120 | the encoder accepts exactly valid opcodes with encodable operands, and the decoder gives back the opcode and both operand fields |
| `Isa.EncodeUndoesDecode` | src/isa/InstructionDecoder.cpp:80-112 | re-encoding what the decoder accepted gives the same 24 bytes |
| `Isa.DecodeIsInjective` | src/isa/InstructionDecoder.cpp:80-112 | no two accepted byte strings decode to the same instruction |
| `Isa.EncodeProgramSlot` | src/isa/InstructionEncoder.cpp:122-135 | instruction k of a program occupies bytes [24k, 24k + 24) |
| `Interrupts.RequestsAreConserved` | src/core/InterruptController.cpp:67-132 | over any sequence of calls, requests issued are delivered plus pending, as multisets |
| `Interrupts.AcknowledgeTakesEarliest` | src/core/InterruptController.cpp:102-146 | the general acknowledge removes the earliest enabled, unmasked, handled request and keeps the order of the rest |
| `Interrupts.GeneralAcknowledgeIsFifo` | src/core/InterruptController.cpp:102-146 | while only the general acknowledge is used, no two requests on one vector are delivered out of order |
| `Interrupts.AcknowledgeForKeepsOrder` | src/core/InterruptController.cpp:114-132 | acknowledge(vector, source) keeps its vector in order exactly when the oldest request there has that source |
| `Interrupts.AcknowledgeForCanReorder` | src/core/InterruptController.cpp:114-132 | a run in which acknowledge(vector, source) delivers a later request first |
| `Interrupts.InterruptController.constructor` | src/core/InterruptController.cpp:8-20 | the cleared controller |
| `Interrupts.InterruptController.Issue` | src/core/InterruptController.cpp:67-78 | request appends to the queue in place |
| `Interrupts.InterruptController.SetGlobalEnabled` | src/core/InterruptController.cpp:22-24 | the global enable bit, and nothing else |
| `Interrupts.InterruptController.SetMask` | src/core/InterruptController.cpp:30-36 | one mask bit, and nothing else |
| `Interrupts.InterruptController.SetVectorHandler` | src/core/InterruptController.cpp:42-51 | one vector-table entry, and nothing else |
| `Interrupts.InterruptController.Find` | src/core/InterruptController.cpp:134-146 | the search loop returns the first deliverable request |
| `Interrupts.InterruptController.FindFor` | src/core/InterruptController.cpp:163-189 | the search loop for a vector and source returns the first match when the vector is unmasked |
| `Interrupts.InterruptController.Acknowledge` | src/core/InterruptController.cpp:102-112 | acknowledge returns and removes what the history semantics delivers, or fails and changes nothing |
| `Interrupts.InterruptController.AcknowledgeFor` | src/core/InterruptController.cpp:114-132 | the same for acknowledge(vector, source) |
| `FlagWord.SetIsLocal` | src/core/Flags.cpp:71-81 | setting one flag bit sets it and changes no other flag and no spare bit |
| `FlagWord.WordIsDetermined` | include/zero_cpu/core/Flags.hpp:10-15 | the word is its four flags and the spare bits, nothing else |
| `FlagWord.Flags.SetFlag` | src/core/Flags.cpp:75-81 | the masked update sets the named flag of the abstract flags and leaves the other three and the spare bits |
| `FlagWord.Flags.UpdateZeroAndSign` | src/core/Flags.cpp:53-56 | ZF and SF of a result, the rest unchanged, as the machine model has it |
| `FlagWord.Flags.Apply` | src/core/CPU.cpp:26-31 | all four flags of an ALU result |
| `FlagWord.Flags.Pack` | src/core/CPU.cpp:33-53 | packing gives the frame word of the machine model |
| `FlagWord.Flags.Restore` | src/core/CPU.cpp:55-60 | restoring a packed word sets the four flags and leaves the spare bits |
| `Interpreters.OperandReaders` | src/core/CPU.cpp:2182-2240 | the vector interpreter's operand readers agree with the common argument semantics |
| `Interpreters.FieldReaders` | src/core/CPU.cpp:1500-1606 | the binary interpreter's field readers agree with the common argument semantics |
| `Interpreters.OperandCounts` | src/core/CPU.cpp:2549-2574 | the operand-count checks of `execute` |
| `Interpreters.FieldCounts` | src/core/CPU.cpp:1608-1648 | the operand-count checks of `executeBinaryInstruction`, payloads included |
| `Interpreters.VectorIsExec` | src/core/CPU.cpp:1692-2180 | `execute`, opcode by opcode, is the common instruction semantics |
| `Interpreters.BinaryIsExec` | src/core/CPU.cpp:866-1498 | `executeBinaryInstruction`, opcode by opcode, is the common instruction semantics |
| `Interpreters.VectorStepBody` | src/core/CPU.cpp:236-253 | what step() executes from a decoded program, and when it faults before executing |
| `Interpreters.BinaryStepBody` | src/core/CPU.cpp:204-233 | what step() executes from loaded code: range checks, decoding and trace rendering come first |
| `Effects.ExecFootprint` | src/core/CPU.cpp:1822-2180 | what an ordinary instruction writes, kind by kind: at most the destination register, with the value moved, popped or computed; the flags of that value or result, or none; the next pc, the resolved target or the popped address; the eight bytes stored or pushed; SP by one slot; a fault writes nothing but devices; what each opcode computes is in InstructionLaws and ControlLaws |
| `Effects.FaultIsAtomic` | src/core/CPU.cpp:866-1498 | an instruction that faults, outside host-handled INT, leaves every architectural field as it was; a device access may have changed device state |
| `Effects.FailedStepKeepsState` | src/core/CPU.cpp:166-269 | a step that ends in the error state changed only error, halt and devices, unless a device tick faulted after the instruction |
| `Effects.StoppedIsAbsorbing` | src/core/CPU.cpp:166-169 | step and run change nothing once the machine is halted or in error |
| `Effects.RunIsSteps` | src/core/CPU.cpp:271-290 | run(n) is n steps, and reports an error exactly when they did not stop the machine |
| `Effects.CompareThenBranch` | src/core/CPU.cpp:62-68 | after CMP, JL, JG and JE are taken exactly on the true signed order of all 64-bit pairs, overflow included |
| `Reachable.StepKeepsInvariant` | src/core/CPU.cpp:166-269 | one step keeps the privilege and stack invariant |
| `Reachable.ReachableInvariant` | src/core/CPU.cpp:378-424 | the invariant holds after any sequence of steps, runs and host calls on a freshly loaded CPU |
| `Reachable.CheckedFrameFits` | src/core/CPU.cpp:2266-2350 | a passing frame check leaves the frame inside the active stack, so its writes stay in memory |
| `Reachable.KernelStackHoldsThreeFrames` | src/core/CPU.cpp:2389-2445 | from user mode with an empty kernel stack, entries nest exactly three deep in the 96 bytes |
| `InterruptFrames.FlagsRoundTrip` | src/core/CPU.cpp:33-60 | restoring packed flags gives the four flags back and keeps the other bits of the word |
| `InterruptFrames.PrivilegeRoundTrip` | src/core/PrivilegeLevel.cpp:20-48 | the privilege codec round trip and its rejection of every other value |
| `InterruptFrames.FrameRestores` | src/core/CPU.cpp:2389-2547 | returning through an intact frame restores pc, flags, privilege, SP and both kernel-stack fields |
| `InterruptFrames.HandlerReturnResumes` | src/core/CPU.cpp:2389-2547 | if a handler entered from s leads back to its own frame, nested entries included, IRET resumes s exactly |
| `InterruptFrames.DeviceInterruptIsTransparent` | src/core/CPU.cpp:538-576 | over whole steps, a device interrupt taken at s and returned from leaves the interrupted program's fields as they were |
| `InterruptFrames.SoftwareInterruptIsTransparent` | src/core/CPU.cpp:2082-2125 | the same for an INT serviced by guest code: execution resumes after the INT |
| `InterruptFrames.NestedLevelsUnwind` | src/core/CPU.cpp:2389-2547 | any stack of interrupted states, unwound by as many returns, resumes the first one's pc, flags, privilege, SP and kernel-stack fields, whatever the handlers did to flags, registers, devices and other memory between the entries |
| `InterruptFrames.NestedEntriesUnwind` | src/core/CPU.cpp:2389-2547 | the same for any depth of back-to-back entries, from the bytes of their frames alone |
| `Confinement.UserStepIsConfined` | src/core/CPU.cpp:654-680 | a user step changes only the user windows and, on kernel entry, the 32 frame bytes at the kernel stack pointer |
| `Confinement.UserRunIsConfined` | src/core/CPU.cpp:654-753 | the same for whole runs of user steps |
| `Confinement.UserRunKeepsCode` | src/core/CPU.cpp:682-770 | every instruction of the run decodes from the bytes originally loaded |
| `Confinement.UserRunIgnoresDevices` | src/core/CPU.cpp:734-753 | with no device in the user window the run is the same whatever the device registers do: it makes no MMIO access |
| `Lockstep.OperandRelated` | src/core/CPU.cpp:1556-1606 | an operand and its encoded field denote related arguments; labels become code addresses |
| `Lockstep.FetchRelated` | src/core/CPU.cpp:755-826 | related states fetch the same instruction with related arguments |
| `LockstepSteps.EnterRelated` | src/core/CPU.cpp:2389-2445 | pushing an interrupt frame on related machines keeps them related: the frames differ in the return address only, which becomes one more tracked slot |
| `LockstepSteps.RestoreRelated` | src/core/CPU.cpp:2447-2547 | returning through a tracked frame keeps the relation, refusals included |
| `LockstepSteps.ServiceRelated` | src/core/CPU.cpp:538-576 | both CPUs take the same request and enter the same handler, an index in one and its address in the other |
| `LockstepSteps.ExecRelated` | src/core/CPU.cpp:866-1498 | one instruction of each interpreter keeps the relation, CALL, RET, guest-serviced INT, IRET and faults included |
| `LockstepSteps.StepRelated` | src/core/CPU.cpp:166-269 | one step of each CPU, interrupt entry included, keeps the relation when no access overlaps the code or a return address and returns go through tracked words |
| `LockstepSteps.StepsStayRelated` | src/core/CPU.cpp:166-269 | n steps of both interpreters stay related through calls, interrupts and their returns: pc = base + 24 * index, equal registers, flags, SP, privilege and kernel-stack fields, handlers and return addresses scaled the same way, memory equal elsewhere |
| `LockstepSteps.HandlerReturnIsTracked` | src/core/CPU.cpp:2389-2547 | a handler that stays in kernel mode above its frame and comes back to it finds its frame tracked, whatever it calls or is interrupted by |
| `LockstepUser.UserLockstep` | src/core/CPU.cpp:654-753 | in user mode the no-overlap conditions are a theorem: lockstep needs only that no interrupt is due and that calls and returns are bracketed |
| `LockstepUser.UserLockstepIff` | src/core/CPU.cpp:2012-2051 | an uninterrupted user run stays related after every step if and only if every RET finds a return address or a word neither interpreter can run, and every POP plain data |
| `LockstepUser.PopOfReturnSeparates` | src/core/CPU.cpp:2000-2010 | POP of a return address puts different values into the two registers |
| `LockstepUser.StrayReturnSeparates` | src/core/CPU.cpp:2032-2051 | RET through a plain word that either interpreter can run separates their pc or SP |
| `LockstepUser.CalleeReturnIsBracketed` | src/core/CPU.cpp:2012-2051 | a subroutine that keeps the stacks above its return address and comes back to it returns bracketed, whatever it calls or is interrupted by in between |
| `LockstepUser.CallFreeLockstep` | src/core/CPU.cpp:654-753 | a user program without CALL and RET runs in lockstep with no bracketing condition |
| `LockstepUser.LoadedStatesRelated` | src/core/CPU.cpp:106-164 | the states left by loadProgram and loadBinaryProgram are related |
| `LockstepUser.TakenBranchAgreesIff` | src/core/CPU.cpp:726-732 | a taken branch keeps the interpreters together exactly when its target is inside the program or the mode is user |
| `LockstepUser.CallAgreesIff` | src/core/CPU.cpp:2012-2030 | CALL does so exactly when its target is inside the program, the mode is user, or the stack has no room |
| `LockstepUser.EndLabelSeparates` | src/core/CPU.cpp:726-732 | a label after the last instruction: the vector interpreter jumps, the binary one faults |
| `LockstepUser.CallLeavesRelation` | src/core/CPU.cpp:2012-2030 | with the tracked slots unchanged CALL always leaves the relation, because the pushed return addresses differ |
| `Processor.Cpu.constructor` | src/core/CPU.cpp:106-164 | the state of a freshly loaded CPU |
| `Processor.Cpu.ReadDataMemory` | src/core/CPU.cpp:734-742 | the protection check, then the device or memory, as the state semantics has it |
| `Processor.Cpu.WriteDataMemory` | src/core/CPU.cpp:744-753 | the same for writes; a refused write changes nothing |
| `Processor.Cpu.ReadOperandValue` | src/core/CPU.cpp:2182-2197 | the value of an argument, with any device effect |
| `Processor.Cpu.ReadMemoryAddress` | src/core/CPU.cpp:2199-2218 | the address an argument names, or a failure |
| `Processor.Cpu.PushSlotsAt` | src/core/CPU.cpp:2266-2308 | range, alignment and slot count in source order: the slots above the pointer end inside the stack |
| `Processor.Cpu.PopSlotsAt` | src/core/CPU.cpp:2266-2328 | the same for the slots below the pointer |
| `Processor.Cpu.PushSlotsOk` | src/core/CPU.cpp:2330-2339 | the push check accepts exactly an aligned SP with that many slots left below the end of the active stack |
| `Processor.Cpu.PopSlotsOk` | src/core/CPU.cpp:2341-2350 | the pop check accepts exactly an aligned SP with that many slots above the base of the active stack |
| `Processor.Cpu.PushOne` | src/core/CPU.cpp:2352-2362 | one slot pushed in place, kernel stack pointer included |
| `Processor.Cpu.PopOne` | src/core/CPU.cpp:2364-2379 | one slot popped in place |
| `Processor.Cpu.PushInterruptFrame` | src/core/CPU.cpp:2389-2445 | the four slot writes and the stack switch are the frame semantics |
| `Processor.Cpu.RestoreInterruptFrame` | src/core/CPU.cpp:2447-2547 | all checks come before the first change; success restores exactly the frame's fields |
| `Processor.Cpu.ExecuteMove` | src/core/CPU.cpp:1832-1854 | MOV and LOAD in place |
| `Processor.Cpu.ExecuteStore` | src/core/CPU.cpp:1856-1865 | STORE in place |
| `Processor.Cpu.ExecuteBinaryOp` | src/core/CPU.cpp:1867-1922 | the seven two-operand ALU instructions in place, equal to the specification whose results InstructionLaws.AddLaw and its siblings state opcode by opcode |
| `Processor.Cpu.ExecuteNot` | src/core/CPU.cpp:2169-2180 | NOT in place |
| `Processor.Cpu.ExecuteCompare` | src/core/CPU.cpp:1924-1934 | CMP and TEST in place |
| `Processor.Cpu.ExecuteBranch` | src/core/CPU.cpp:1936-1989 | the five branches in place |
| `Processor.Cpu.ExecutePush` | src/core/CPU.cpp:1991-1998 | PUSH in place |
| `Processor.Cpu.ExecutePop` | src/core/CPU.cpp:2000-2010 | POP in place |
| `Processor.Cpu.ExecuteCall` | src/core/CPU.cpp:2012-2030 | CALL in place: both addresses are checked before the push |
| `Processor.Cpu.ExecuteRet` | src/core/CPU.cpp:2032-2051 | RET in place: the address is checked before the pop |
| `Processor.Cpu.ExecuteIret` | src/core/CPU.cpp:2053-2058 | IRET in place |
| `Processor.Cpu.ServiceHost` | src/core/CPU.cpp:578-642 | a host-handled software interrupt: frame, handler, restore, exit |
| `Processor.Cpu.ExecuteInt` | src/core/CPU.cpp:2082-2125 | INT in place |
| `Processor.Cpu.ExecuteSystem` | src/core/CPU.cpp:1822-1830 | NOP, HALT, EI and DI in place |
| `Processor.Cpu.Execute` | src/core/CPU.cpp:1692-1820 | the dispatch, privilege check first |
| `Processor.Cpu.ExecuteInstruction` | src/core/CPU.cpp:1692-1820 | `execute` on a decoded instruction, in place, is the vector interpreter's semantics |
| `Processor.Cpu.ExecuteBinaryInstruction` | src/core/CPU.cpp:866-1498 | `executeBinaryInstruction` on decoded fields, in place, is the binary interpreter's semantics |
| `Processor.Cpu.StepVector` | src/core/CPU.cpp:235-256 | the vector branch of step(): protection, program bound, instruction |
| `Processor.Cpu.StepBinary` | src/core/CPU.cpp:204-233 | the binary branch of step(): protection, slot check, the 24 bytes read from memory, decoding, rendering, instruction |
| `Processor.Cpu.SetRuntimeError` | src/core/CPU.cpp:2588-2590 | error implies halted |
| `Processor.Cpu.ServicePending` | src/core/CPU.cpp:538-576 | the request is consumed first, then checked and entered, equal to the specification whose registers, pc, frame and queue InterruptLaws.InterruptLaw states |
| `Processor.Cpu.TickClockedDevices` | src/core/CPU.cpp:644-652 | the loop over the clocked devices, in order, up to the first that throws |
| `Processor.Cpu.StepOnce` | src/core/CPU.cpp:166-269 | one CPU step on the fields, fetch included, is one step of the state semantics |
| `Processor.Cpu.RunUpTo` | src/core/CPU.cpp:271-290 | the run loop is the run semantics |
| `Mmio.OverlapMeansSharedAddress` | src/core/MMIOBus.cpp:22-32 | the overlap test is exact: it finds a shared address |
| `Mmio.MapKeepsDisjoint` | src/core/MMIOBus.cpp:99-117 | a mapping is accepted exactly when the bus stays pairwise disjoint |
| `Mmio.LookupIsExact` | src/core/MMIOBus.cpp:79-87 | the lookup returns the one mapping that holds the address, if any |
| `Mmio.LookupIgnoresOrder` | src/core/MMIOBus.cpp:79-97 | lookups do not depend on the order in which devices were mapped |
| `Mmio.Bus.MapDevice` | src/core/MMIOBus.cpp:40-53 | mapDevice appends in place or changes nothing, and keeps the mappings disjoint |
| `Mmio.Bus.FindMapping` | src/core/MMIOBus.cpp:79-87 | the search loop |
| `Timer.TicksClosedForm` | src/core/TimerDevice.cpp:91-104 | n ticks queue exactly floor((t + n) / k) - floor(t / k) requests when enabled and none otherwise, count them, and stop at a full counter |
| `Timer.TicksCompose` | src/core/TimerDevice.cpp:100-104 | tick(m) then tick(n) is tick(m + n) |
| `Timer.RegisterReadsBack` | src/core/TimerDevice.cpp:29-89 | an accepted register write is read back and changes no other register |
| `Timer.TimerDevice.constructor` | src/core/TimerDevice.cpp:8-23 | the initial registers |
| `Timer.MakeTimer` | src/core/TimerDevice.cpp:8-23 | construction fails exactly on a zero interval |
| `Timer.TimerDevice.SetInterval` | src/core/TimerDevice.cpp:128-134 | a zero interval is refused and changes nothing |
| `Timer.TimerDevice.Tick` | src/core/TimerDevice.cpp:91-98 | one tick in place, with its request on the controller's queue; an overflowing tick changes nothing |
| `Timer.TimerDevice.MaybeRequestInterrupt` | src/core/TimerDevice.cpp:162-176 | a request exactly on enabled multiples of the interval |
| `Timer.TimerDevice.TickMany` | src/core/TimerDevice.cpp:100-104 | the tick loop is count calls of tick, up to the first that throws |
| `Timer.TimerDevice.ReadAt` | src/core/TimerDevice.cpp:29-46 | the register read switch |
| `Timer.TimerDevice.WriteAt` | src/core/TimerDevice.cpp:48-89 | the register write switch; a refused write changes nothing |
| `Timer.TimerDevice.Reset` | src/core/TimerDevice.cpp:106-110 | counters cleared and enabled, configuration kept |
| `Debugger.FirstStopIsUnique` | src/debug/DebugSession.cpp:647-741 | the first stop of a run is one state and one reason |
| `Debugger.CutAndResume` | src/debug/DebugSession.cpp:647-741 | a run ended by its step limit and continued is one run with the summed limit |
| `Debugger.ResumeMakesProgress` | src/debug/DebugSession.cpp:647-741 | continuing from a breakpoint makes progress exactly when the machine is not already stopped |
| `Debugger.CpuSessionIsSteps` | src/debug/DebugSession.cpp:647-741 | for the CPU, the debugger's states are exactly the bare steps, none of them taken from a stopped state |
| `Debugger.FirstConditional` | src/debug/DebugSession.cpp:771-806 | the earliest conditional breakpoint at the pc whose condition holds; no hit means none does |
| `Debugger.FirstWatch` | src/debug/DebugSession.cpp:865-932 | the earliest watchpoint the access matches; no hit means none does; which accesses match is DebugLaws.WatchLaw |
| `Debugger.Session.constructor` | src/debug/DebugSession.cpp:92-131 | the session after loading |
| `Debugger.Session.FindConditional` | src/debug/DebugSession.cpp:771-806 | the search loop over conditional breakpoints |
| `Debugger.Session.FindWatch` | src/debug/DebugSession.cpp:865-932 | the search loop over watchpoints finds the one DebugLaws.WatchLaw describes |
| `Debugger.Session.CheckAfter` | src/debug/DebugSession.cpp:706-738 | after a step: fault and halt, then watchpoint, then end of program, before any breakpoint |
| `Debugger.Session.StepOnce` | src/debug/DebugSession.cpp:420-467 | one step with its verdict; a stopped session does not move |
| `Debugger.Session.ContinueExecution` | src/debug/DebugSession.cpp:647-741 | ends in the state k bare steps away, k being the first stop in priority order or the limit |
| `Debugger.Session.StepSourceLine` | src/debug/DebugSession.cpp:469-645 | ends at the first stop or the first state on another source line |
| `MultiDebugger.FirstMultiStopIsUnique` | src/debug/MultiProcessDebugSession.cpp:1143-1237 | the stop of a multi-process run is determined |
| `MultiDebugger.SkipMeansStayed` | src/debug/MultiProcessDebugSession.cpp:1624-1646 | the resume skip is in force exactly while its process has stood still at its address |
| `MultiDebugger.ResumeSkipHolds` | src/debug/MultiProcessDebugSession.cpp:1143-1213 | within one call, the resumed breakpoint is reported again only if its process has terminated or moved in between, for any scheduler |
| `MultiDebugger.BreakpointIsReported` | src/debug/MultiProcessDebugSession.cpp:1162-1213 | a breakpoint the running process reaches is reported exactly unless it is the resumed one and its process has not moved |
| `MultiDebugger.SkipSurvivesCalls` | src/debug/MultiProcessDebugSession.cpp:1605-1646 | a call that ends without a breakpoint hands its skip to the next call |
| `MultiDebugger.UnmovedIsReportedIff` | src/debug/MultiProcessDebugSession.cpp:1605-1646 | after any history of continues, source steps and single steps, the next continue reports a process that has not moved at its breakpoint, once scheduled, if and only if the stop that a continue or source step, this one included, was last started from is not its own |
| `MultiDebugger.UnmovedIsReportedInSourceStepIff` | src/debug/MultiProcessDebugSession.cpp:1018-1096 | the same for the next source step, which also skips the place where the selected process starts it |
| `MultiDebugger.SessionReportsIff` | src/debug/MultiProcessDebugSession.cpp:1143-1213 | the same for every session object, from the history its own calls have recorded |
| `MultiDebugger.UnmovedAfterRunsIff` | src/debug/MultiProcessDebugSession.cpp:1605-1646 | with no single step in between: if and only if the most recent breakpoint stop was another one |
| `MultiDebugger.NextCallReportsIff` | src/debug/MultiProcessDebugSession.cpp:1143-1237 | when a continue resumed from a breakpoint has ended, the following continue reports an unmoved process there again if and only if the ended one stopped at a breakpoint |
| `MultiDebugger.ReportIsNotResumed` | src/debug/MultiProcessDebugSession.cpp:1018-1213 | in any history that happened, single steps included, a continue or source step that reports an unmoved process was not resumed from that stop |
| `MultiDebugger.ReportNeedsOtherBreak` | src/debug/MultiProcessDebugSession.cpp:1143-1213 | between continues and source steps only, a second report of an unmoved process has an earlier one that ended at another breakpoint |
| `MultiDebugger.SingleStepForgetsStop` | src/debug/MultiProcessDebugSession.cpp:774-933 | a run in which one single step between two continues makes the unmoved process be reported again at once |
| `MultiDebugger.OtherBreakpointRearms` | src/debug/MultiProcessDebugSession.cpp:1605-1622 | a run in which another process's breakpoint stop loses the skip, and the unmoved process is reported again |
| `MultiDebugger.LogIsWellFormed` | src/debug/MultiProcessDebugSession.cpp:784-851 | context-switch records chain, their step numbers increase, and from and to differ |
| `MultiDebugger.LogReplaysSchedule` | src/debug/MultiProcessDebugSession.cpp:784-851 | replaying the log gives the process that really ran after every lifecycle step |
| `MultiDebugger.SourceStepReachesNewLine` | src/debug/MultiProcessDebugSession.cpp:1112-1137 | a completed source step ends in the first world in which the selected process is on another mapped line |
| `MultiDebugger.MultiSession.constructor` | src/debug/MultiProcessDebugSession.cpp:122-164 | a session that has made no step and logged nothing |
| `MultiDebugger.MultiSession.FindConditional` | src/debug/MultiProcessDebugSession.cpp:1490-1528 | the earliest conditional breakpoint of the running process that holds; no hit means none does |
| `MultiDebugger.MultiSession.FindWatch` | src/debug/MultiProcessDebugSession.cpp:1530-1602 | the earliest watchpoint of the running process that the access matches; no hit means none does; which accesses match is DebugLaws.PidWatchLaw |
| `MultiDebugger.MultiSession.StepOnce` | src/debug/MultiProcessDebugSession.cpp:774-933 | one lifecycle step: counter, log record, skip and verdict, with nothing armed; steps, log and recorded history stay those of the run |
| `MultiDebugger.MultiSession.ContinueExecution` | src/debug/MultiProcessDebugSession.cpp:1143-1237 | arms the skip from the last stop, then lifecycle steps to the first stop, with the skip it leaves |
| `MultiDebugger.MultiSession.CheckSourceHead` | src/debug/MultiProcessDebugSession.cpp:1018-1096 | the loop-head checks of source stepping, a debugger stop before line completion |
| `MultiDebugger.MultiSession.StepSelectedSourceLine` | src/debug/MultiProcessDebugSession.cpp:937-1139 | lifecycle steps to the first stop or to another line of the selected process |
| `BinaryFormat.ReadHeaderUndoesWrite` | src/binary/BinaryReader.cpp:151-248 | the reader recovers every header the writer stores, both versions and both byte orders |
| `BinaryFormat.ReadOfWrite` | src/binary/BinaryReader.cpp:63-149 | reading a written program gives it back with its stored header exactly when that header is valid |
| `BinaryFormat.ReadUndoesWriteIff` | src/binary/BinaryWriter.cpp:50-133 | read(write(p)) = p for exactly the programs whose header is valid and agrees with their sections |
| `BinaryFormat.WriteUndoesRead` | src/binary/BinaryReader.cpp:63-149 | write(read(b)) = b for every byte string the reader accepts |
| `BinaryFormat.ReadIsInjective` | src/binary/BinaryReader.cpp:63-149 | no two accepted files mean the same program |
| `BinaryFormat.WriteU32` | src/binary/BinaryWriter.cpp:188-225 | both byte loops append the encoding |
| `BinaryFormat.ReadU32` | src/binary/BinaryReader.cpp:250-283 | both byte loops return the encoded value, or fail past the end |
| `BinaryFormat.WriteHeader` | src/binary/BinaryWriter.cpp:135-186 | the header fields in order, data fields only in the current version |
| `BinaryFormat.WriteToBytes` | src/binary/BinaryWriter.cpp:50-133 | the writer's checks and output |
| `BinaryFormat.ParseHeader` | src/binary/BinaryReader.cpp:151-248 | the header reader and its refusals |
| `BinaryFormat.ReadFromBytes` | src/binary/BinaryReader.cpp:63-149 | the reader, magic and exact file size included |
| `Loader.OverlapMeansSharedByte` | src/binary/BinaryLoader.cpp:12-33 | the overlap test is exact |
| `Loader.LoadedSections` | src/binary/BinaryLoader.cpp:53-66 | after a load both sections lie at their bases and no other byte has changed |
| `Loader.LoaderAcceptsIffFileRoundTrips` | src/binary/BinaryLoader.cpp:91-194 | validateProgram accepts exactly the little-endian programs a file keeps unchanged |
| `Loader.ReaderAgreesWithLoader` | src/binary/BinaryLoader.cpp:91-194 | with consistent sizes, reader and loader agree up to a stray legacy data base |
| `Loader.LoadIntoMemory` | src/binary/BinaryLoader.cpp:37-89 | transactional: a refused program leaves memory as it was, an accepted one replaces it with both sections in place |
| `Text.SplitLinesKeepsText` | src/assembler/Assembler.cpp:99-111 | the lines are the source text, up to a missing final newline |
| `Text.RemoveComment` | src/assembler/Assembler.cpp:113-155 | the scan keeps exactly the text before the first semicolon outside a string |
| `Text.CutKeepsLiteral` | src/assembler/Assembler.cpp:113-155 | comment removal keeps every whole string literal, semicolons and escapes included |
| `Text.SplitOperands` | src/assembler/Assembler.cpp:372-440 | the operand scanner is the operand grammar, errors included |
| `Text.SplitUndoesJoin` | src/assembler/Assembler.cpp:372-440 | splitting undoes joining with commas, on every list of plain values |
| `Text.IntegerRoundTrip` | src/assembler/Assembler.cpp:322-352 | every signed 64-bit value written in decimal is parsed back exactly |
| `Text.AppendLittleEndian` | src/assembler/Assembler.cpp:542-560 | the byte loop appends the low bytes, least significant first |
| `Text.ParseNumericDirective` | src/assembler/Assembler.cpp:562-634 | the directive loop encodes its parsed values in order, or fails on the first bad one |
| `Text.ValueSlot` | src/assembler/Assembler.cpp:562-634 | value k of a directive occupies its own width bytes at k * width |
| `Text.ParseStringLiteral` | src/assembler/Assembler.cpp:442-540 | the literal scanner and its errors |
| `Text.UnquoteUndoesQuote` | src/assembler/Assembler.cpp:442-540 | every byte string has a literal, and the assembler reads exactly those bytes from it |
| `Assembler.ParseDataDirective` | src/assembler/Assembler.cpp:636-699 | the directive dispatch with its widths and ranges |
| `Assembler.CollectLabels` | src/assembler/Assembler.cpp:808-846 | the label loop of pass 1 on one line |
| `Assembler.CollectSymbols` | src/assembler/Assembler.cpp:784-973 | pass 1 as it runs is the line-by-line specification, entry resolution included |
| `Assembler.SkipLabels` | src/assembler/Assembler.cpp:1224-1228 | the label loop of pass 2 on one line |
| `Assembler.EmitProgram` | src/assembler/Assembler.cpp:1183-1280 | pass 2 as it runs is the line-by-line specification; what its lines mean is in Printing, SourceLaws and TextLaws |
| `Assembler.AssembleString` | src/assembler/Assembler.cpp:1400-1413 | both passes over the lines of the source, equal to the specification that SourceLaws.AssemblesLaw and TextLaws characterise |
| `TwoPass.PassesAgree` | src/assembler/Assembler.cpp:784-973 | before every line both passes are in the same section and have counted the same instructions and bytes |
| `TwoPass.LabelsArePositions` | src/assembler/Assembler.cpp:808-846 | a code label is the number of instructions pass 2 has emitted at its line; a data label is the data base plus the bytes emitted; each name is in one table only |
| `TwoPass.LabelsComeFromLines` | src/assembler/Assembler.cpp:808-846 | the tables hold nothing but the labels of the lines |
| `TwoPass.LabelIsUnique` | src/assembler/Assembler.cpp:764-782 | a label is declared once |
| `TwoPass.DataFits` | src/assembler/Assembler.cpp:904-936 | the emitted data is what pass 1 sized and fits the user data region |
| `TwoPass.EntryIsLabelled` | src/assembler/Assembler.cpp:938-970 | the entry is the index of its code label, or 0 |
| `TwoPass.SourceLinesIncrease` | src/assembler/Assembler.cpp:1266-1276 | source lines are positive, strictly increasing and one per instruction |
| `TwoPass.SourceLineIsOrigin` | src/assembler/Assembler.cpp:1266-1276 | instruction j is parsed from the line its source line names |
| `TwoPass.SecondPassFailsOnlyOnInstructions` | src/assembler/Assembler.cpp:1183-1280 | after pass 1, pass 2 fails exactly when some instruction line does not parse |
| `TwoPass.DataLinePlaced` | src/assembler/Assembler.cpp:1246-1264 | a data line's bytes stand in the image where its labels say |
| `EndToEnd.BinaryIsValid` | src/assembler/Assembler.cpp:1297-1380 | every executable the assembler emits survives the file and is accepted by the loader; where it starts is EntryLaws.EntryLaw |
| `EndToEnd.PipelineLoadsBinary` | src/binary/BinaryLoader.cpp:37-89 | what is loaded after writing and reading back is the assembler's own output |
| `EndToEnd.PipelineSucceedsIff` | src/assembler/Assembler.cpp:1297-1380 | above the data region, the pipeline succeeds exactly when the text is not empty, the entry is inside it, operands encode, and the code fits: code and data never overlap |
| `EndToEnd.DataReachesMemory` | src/binary/BinaryLoader.cpp:53-66 | every data line's bytes are in memory at its labels' addresses |
| `EndToEnd.InstructionReachesMemory` | src/binary/BinaryLoader.cpp:53-66 | every instruction is in memory where it is fetched, labels turned into code offsets |
| `EndToEnd.QwordIsRead` | src/assembler/Assembler.cpp:562-634 | value k of a .qword at label L is what an eight-byte read at L + 8k returns |
| `EndToEnd.QwordLineText` | src/assembler/Assembler.cpp:289-320 | the text `name: .qword v` has that label and that value, for every valid name and every v |
| `EndToEnd.LoadLineText` | src/assembler/Assembler.cpp:975-1181 | the text `LOAD Rk, [name]` parses to that LOAD of the label's address, for every allowed name in the data table and every register |
| `EndToEnd.SourceQwordIsRead` | src/assembler/Assembler.cpp:1297-1380 | from the characters of that line to the eight-byte read after loading |
| `Execution.LoadedQwordReachesRegister` | src/core/CPU.cpp:1843-1854 | from two lines of text, `name: .qword v` and `LOAD Rk, [name]`: the step that executes the latter from the loaded file leaves v in Rk, in either privilege |
| `Execution.AssembledOperands` | src/assembler/Assembler.cpp:975-1101 | the assembler emits only addresses both interpreters read alike |
| `Execution.AssembledIsTwin` | src/assembler/Assembler.cpp:1297-1380 | every assembled program meets the lockstep conditions, labels at its end included |
| `Execution.AssembledLockstepIff` | src/core/CPU.cpp:166-269 | an assembled source without INT, run in user mode from its instructions and from its loaded file, stays related through n uninterrupted steps if and only if those steps keep calls and returns bracketed |
| `Execution.AssembledRunsInLockstep` | src/core/CPU.cpp:166-269 | without CALL and RET it stays related for any number of uninterrupted steps |
| `DebugSymbols.AddLocationKeepsInjective` | src/debug/DebugSymbols.cpp:681-716 | a location is added exactly when addresses and lines stay distinct |
| `DebugSymbols.LookupsAreInverse` | src/debug/DebugSymbols.cpp:586-626 | the two lookups are mutually inverse partial functions |
| `DebugSymbols.BuildClosed` | src/debug/DebugSymbols.cpp:186-285 | building gives one entry per label and one location per instruction, and fails exactly on an address overflow |
| `DebugSymbols.SourceMapIsInvertible` | src/debug/DebugSymbols.cpp:186-285 | for every assembled program the address of instruction i maps to its line and back |
| `DebugSymbols.LabelsResolve` | src/debug/DebugSymbols.cpp:186-285 | every label has the entry with its loaded address |
| `DebugSymbols.Symbols.Add` | src/debug/DebugSymbols.cpp:647-679 | add in place, refusing bad and used names |
| `DebugSymbols.Symbols.AddSourceLocation` | src/debug/DebugSymbols.cpp:681-716 | the clash loop and the append |
| `DebugSymbols.Symbols.ResolveSourceLine` | src/debug/DebugSymbols.cpp:586-608 | the lookup loop |
| `DebugSymbols.Symbols.SourceLineForAddress` | src/debug/DebugSymbols.cpp:610-626 | the lookup loop |
| `DebugSymbols.Symbols.Resolve` | src/debug/DebugSymbols.cpp:519-575 | the address of a name of the wanted kind, exactly when it has one |
| `DebugSymbols.Symbols.FromAssembled` | src/debug/DebugSymbols.cpp:186-285 | the three loops build the specified table, or fail with it |
| `InstructionLaws.MoveLaw` | src/core/CPU.cpp:1832-1854 | MOV and LOAD leave the operand's value in the register, ZF and SF of it, CF and OF as they were, and the next pc |
| `InstructionLaws.AddLaw` | src/core/CPU.cpp:1867-1879 | ADD leaves the sum modulo 2^64, OF exactly when unrepresentable, CF the unsigned carry, ZF and SF of the result |
| `InstructionLaws.SubLaw` | src/core/CPU.cpp:1881-1893 | SUB leaves the difference modulo 2^64, OF exactly when unrepresentable, CF the unsigned borrow, ZF and SF of the result |
| `InstructionLaws.MulLaw` | src/core/CPU.cpp:1895-1907 | MUL leaves the product modulo 2^64, OF and CF exactly when unrepresentable, ZF and SF of the result |
| `InstructionLaws.DivLaw` | src/core/CPU.cpp:1909-1922 | DIV faults exactly on 0 and on MIN / -1, and else leaves the quotient truncated toward zero with CF and OF clear |
| `InstructionLaws.LogicLaw` | src/core/CPU.cpp:2127-2167 | AND, OR and XOR act bit by bit, with CF and OF clear and ZF and SF of the result |
| `InstructionLaws.NotLaw` | src/core/CPU.cpp:2169-2180 | NOT complements every bit, with CF and OF clear |
| `InstructionLaws.StoreLaw` | src/core/CPU.cpp:1856-1865 | STORE writes the eight bytes of the value at the address, or hands it to the device mapped there, and sets ZF and SF |
| `InstructionLaws.CompareLaw` | src/core/CPU.cpp:1924-1934 | CMP leaves the flags of the difference and writes nothing else |
| `InstructionLaws.TestLaw` | src/core/CPU.cpp:1104-1124 | TEST leaves the flags of the conjunction and writes nothing else |
| `InstructionLaws.ShapeLaw` | src/core/CPU.cpp:2549-2580 | an instruction with the wrong operands faults and changes nothing, for each opcode |
| `InstructionLaws.UnreadableSourceLaw` | src/core/CPU.cpp:2182-2218 | a second operand without a value faults |
| `InstructionLaws.UnreadableOperandLaw` | src/core/CPU.cpp:2182-2218 | an operand of CMP, TEST, PUSH or INT without a value faults |
| `ControlLaws.BranchLaw` | src/core/CPU.cpp:1936-1989 | a branch goes to its target when the flags say so and the code may go there, and on to the next instruction when they do not |
| `ControlLaws.NoTargetLaw` | src/core/CPU.cpp:2228-2240 | only a label is a target: with any other operand a taken branch and a CALL fault |
| `ControlLaws.CompareBranchLaw` | src/core/CPU.cpp:1924-1989 | CMP and then JE, JNE, JG or JL decides the true signed order of the two words, overflow included |
| `ControlLaws.PushLaw` | src/core/CPU.cpp:1991-1998 | PUSH stores the value in the slot at SP of the stack in use, or faults without room |
| `ControlLaws.PopLaw` | src/core/CPU.cpp:2000-2010 | POP takes the word below SP with its flags, or faults on an empty stack |
| `ControlLaws.CallLaw` | src/core/CPU.cpp:2012-2030 | CALL pushes the address of the next instruction and goes to the target; both must be executable |
| `ControlLaws.RetLaw` | src/core/CPU.cpp:2032-2051 | RET goes to the word below SP, which must be an executable address |
| `ControlLaws.PrivilegeLaw` | src/core/CPU.cpp:1669-1690 | HALT, IRET, EI and DI fault in user mode and change nothing |
| `ControlLaws.SystemLaw` | src/core/CPU.cpp:1822-1830 | NOP, HALT, EI and DI: what each changes, and that EI and DI need a controller |
| `InterruptLaws.InterruptLaw` | src/core/CPU.cpp:538-576 | a due interrupt comes before the instruction: the first ready request leaves the queue and its handler is entered with the vector in R0, the payload in R1 and the pc, flags, privilege and SP in the four words of the frame; a bad handler or a full stack stops the machine with only the queue changed |
| `InterruptLaws.DueInterruptIsDelivered` | src/core/CPU.cpp:538-576 | every step with a due interrupt that does not fail delivers the first unmasked request that has a handler: registers, pc and queue |
| `InterruptLaws.StoppedLaw` | src/core/CPU.cpp:166-172 | a halted or failed machine stays as it is |
| `InterruptLaws.InstructionLaw` | src/core/CPU.cpp:166-269 | with no interrupt to take the instruction runs; then the clocked devices tick in order up to the first that fails, unless it stopped the machine; a fault is an error and a halt |
| `InterruptLaws.TicksInOrder` | src/core/CPU.cpp:644-652 | the devices tick one after the other, each on what the one before left, up to the first that fails |
| `InterruptLaws.NoInstructionLaw` | src/core/CPU.cpp:719-732 | without an instruction to fetch the step fails and changes nothing else |
| `InterruptLaws.ReturnLaw` | src/core/CPU.cpp:2447-2547 | IRET resumes exactly what the four words of the frame say, under the conditions on return address, privilege and SP that make it acceptable, and else changes nothing |
| `InterruptLaws.InterruptCallLaw` | src/core/CPU.cpp:2082-2125 | INT v enters the handler of v with v in R0 and the next address in the frame, or faults |
| `InterruptLaws.BadVectorLaw` | src/core/CPU.cpp:2082-2100 | INT without a controller, or of a number that is no vector, faults |
| `InterruptLaws.HostCallLaw` | src/core/CPU.cpp:578-642 | a host service sees the machine as a handler would; after it the frame is taken off, a terminating one halts with its exit code, a throwing one faults |
| `InterruptLaws.VectorFetchLaw` | src/core/CPU.cpp:230-252 | the vector interpreter fetches instruction pc of the program, labels read through the table |
| `EncodingLaws.EncodingLaw` | src/isa/InstructionEncoder.cpp:101-193 | the encoder's 24 bytes, exactly: opcode code by group, operand types, two little-endian words, zeros; it fails on unknown labels and the invalid opcode |
| `EncodingLaws.BinaryFetchLaw` | src/core/CPU.cpp:755-864 | the binary interpreter fetches exactly when the pc is on 24 good bytes it may execute, with the operands those bytes mean |
| `DebugLaws.WatchLaw` | src/debug/DebugSession.cpp:865-932 | a watchpoint stop is reported exactly when some watchpoint for this kind of access shares a byte with the eight accessed, and it is the earliest such |
| `DebugLaws.PidWatchLaw` | src/debug/MultiProcessDebugSession.cpp:1530-1602 | the same for the watchpoints of the process that ran; the stop names it and the address |
| `DebugLaws.StartLaw` | src/debug/DebugSession.cpp:647-741 | before the first step: failure, halt, end of code, then a breakpoint that is not skipped, plain before conditional |
| `DebugLaws.StepLaw` | src/debug/DebugSession.cpp:647-741 | after each step: failure, halt, a watched access, end of code, a breakpoint, then the caller's own reason |
| `DebugLaws.LimitLaw` | src/debug/DebugSession.cpp:647-741 | a run stops exactly at its first verdict, or at the step limit when there is none |
| `DebugLaws.MultiLimitLaw` | src/debug/MultiProcessDebugSession.cpp:1143-1238 | a run stops exactly before the first step with a verdict before it, after the first with one after it, or at the limit |
| `DebugLaws.ResumeLaw` | src/debug/DebugSession.cpp:647-680 | a continue goes past a breakpoint exactly when the last stop was a breakpoint at this pc |
| `DebugLaws.MultiStartLaw` | src/debug/MultiProcessDebugSession.cpp:1143-1238 | before a step: nothing to run, or the running process's breakpoint unless it is the one resumed |
| `DebugLaws.MultiStepLaw` | src/debug/MultiProcessDebugSession.cpp:774-935 | after a step: a process's end, a watched access of the process that ran, or nothing left to run, in that order |
| `DebugLaws.SkipLaw` | src/debug/MultiProcessDebugSession.cpp:1605-1675 | a breakpoint stop arms the resume skip, which lasts exactly while its process is in the table, alive and with its pc there |
| `DebugLaws.NoArmLaw` | src/debug/MultiProcessDebugSession.cpp:1605-1622 | any other stop leaves the skip as it was |
| `DebugLaws.SourceStartLaw` | src/debug/MultiProcessDebugSession.cpp:937-1141 | before a step of a source step: nothing to run, a breakpoint other than the start or the one resumed, then the selected process on another mapped line |
| `DebugLaws.SourceLimitLaw` | src/debug/MultiProcessDebugSession.cpp:937-1141 | a source step stops exactly at its first verdict, or at the limit after one more look |
| `DebugLaws.LineLaw` | src/debug/DebugSession.cpp:469-645 | a single-process source step also stops on a mapped address of another line |
| `DebugLaws.MappedLaw` | src/debug/DebugSymbols.cpp:610-626 | looking an address up finds the first location with it |
| `DebugLaws.RecordLaw` | src/debug/MultiProcessDebugSession.cpp:1927-1953 | a log record is about one step: the processes before and after it and how it ended |
| `DebugLaws.EverySwitchLaw` | src/debug/MultiProcessDebugSession.cpp:1927-1953 | every step after which another process runs has a record |
| `DeviceLaws.SettingsLaw` | src/core/InterruptController.cpp:8-65 | after any calls on a fresh controller, enabling, masks and handlers are what the last call about each says, else the defaults |
| `DeviceLaws.QueueLaw` | src/core/InterruptController.cpp:67-78 | a request joins the end of the queue and settings leave it alone |
| `DeviceLaws.AcknowledgeForLaw` | src/core/InterruptController.cpp:114-132 | acknowledge(vector, source) takes the first such request when interrupts are on and the vector unmasked, whether or not it has a handler, and else changes nothing |
| `DeviceLaws.TickingLaw` | src/core/TimerDevice.cpp:91-104 | n ticks raise one request per multiple of the interval passed, at the end of the queue, with the timer's vector and payload |
| `DeviceLaws.FullCounterLaw` | src/core/TimerDevice.cpp:91-98 | a tick of a full counter fails and changes nothing |
| `DeviceLaws.RegisterLaw` | src/core/TimerDevice.cpp:29-46 | which register answers at which offset |
| `DeviceLaws.RegisterWriteLaw` | src/core/TimerDevice.cpp:48-89 | which values each register takes and what they change |
| `DeviceLaws.MapLaw` | src/core/MMIOBus.cpp:40-53 | a device is mapped exactly when its range is bounded and shares no address with one already there |
| `DeviceLaws.LookupLaw` | src/core/MMIOBus.cpp:79-97 | looking an address up finds the one mapping it belongs to |
| `FileLaws.EncodingLaw` | src/core/Memory.cpp:102-143 | which byte of a number lies where, in both byte orders |
| `FileLaws.ReadLaw` | src/binary/BinaryReader.cpp:63-149 | a byte string is read as a program exactly when it is that program's file, byte by byte: magic, version, byte order, sizes, sections, nothing after them |
| `FileLaws.WriteLaw` | src/binary/BinaryWriter.cpp:50-133 | what the writer refuses, and that what it writes is the program's file with the sizes of its sections |
| `FileLaws.PlacementLaw` | src/binary/BinaryLoader.cpp:196-240 | sections can be placed exactly when both fit and no byte would belong to both |
| `FileLaws.ValidLaw` | src/binary/BinaryLoader.cpp:91-194 | which programs the loader takes |
| `Printing.OperandReadsBack` | src/isa/Operand.cpp:109-140 | an operand's printed text parses back to it exactly when it is readable: no address from 2^63 on, and a label that is allowed and no data label |
| `Printing.SpelledParses` | src/isa/Opcode.cpp:99-147 | the name of every valid opcode, in any letter case, with its readable operands parses to that opcode with those operands |
| `Printing.PrintedParses` | src/isa/Instruction.cpp:51-65 | the assembler reads a printed instruction back exactly when its opcode is valid and its operands are readable and in order |
| `Printing.SpelledLine` | src/assembler/Assembler.cpp:701-728 | such a line has no label, comment or directive in it |
| `TextLaws.WordsName` | src/isa/Opcode.cpp:26-97 | each of the 28 mnemonics and the opcode it stands for |
| `TextLaws.LineSteps` | src/core/CPU.cpp:166-269 | an instruction line of a source, assembled, loaded and stepped, is the instruction its mnemonic names on the operands its text names |
| `TextLaws.AddText` | src/core/CPU.cpp:954-984 | the line `ADD Rx, Ry`, from its text: the sum modulo 2^64 and its flags in the machine that ran the loaded file |
| `TextLaws.SubText` | src/core/CPU.cpp:986-1016 | the line `SUB Rx, Ry`, from its text: the difference and its flags |
| `TextLaws.MulText` | src/core/CPU.cpp:1018-1048 | the line `MUL Rx, Ry`, from its text: the product and its flags |
| `TextLaws.CompareText` | src/core/CPU.cpp:1082-1102 | the line `CMP Rx, Ry`, from its text: the flags of the difference and nothing else |
| `TextLaws.BranchText` | src/core/CPU.cpp:1126-1205 | the line `JL name` (or JMP, JE, JNE, JG), from its text: to the label's line when the flags say so, else to the next line |
| `TextLaws.CompareThenBranchText` | src/core/CPU.cpp:1082-1205 | `CMP Rx, Ry` and `JL name` (or JG, JE, JNE) on two lines, assembled, loaded and stepped: the pc is at the label's line exactly when the signed order of the registers says so |
| `EntryLaws.EntryLineText` | src/assembler/Assembler.cpp:730-762 | the text `.entry name` is an entry directive for that name |
| `EntryLaws.OneNameLaw` | src/assembler/Assembler.cpp:730-762 | a second word after the name makes the directive wrong |
| `EntryLaws.EntryComesFromLine` | src/assembler/Assembler.cpp:784-973 | the entry pass 1 keeps is that of the source's one .entry line |
| `EntryLaws.DefaultEntryLaw` | src/assembler/Assembler.cpp:1285-1288 | without an .entry line the loaded program starts at the code base |
| `EntryLaws.EntryLaw` | src/assembler/Assembler.cpp:1357-1362 | with the line `.entry name` the loader's entry is the code base plus 24 times the instructions emitted before the line that declares name |
| `EntryLaws.EntryInstructionLaw` | src/binary/BinaryLoader.cpp:37-89 | the 24 bytes at that entry are those of the first instruction line after the label |
| `EntryLaws.InstructionBytes` | src/binary/BinaryLoader.cpp:37-89 | every instruction's bytes, where it is loaded |
| `SourceLaws.TrimLaw` | src/assembler/Assembler.cpp:48-76 | trimming takes off exactly the white space around a text |
| `SourceLaws.CommentLaw` | src/assembler/Assembler.cpp:113-155 | a comment starts at the first semicolon outside a string |
| `SourceLaws.BaseLaw` | src/assembler/Assembler.cpp:322-352 | hexadecimal after 0x or 0X and octal after 0, in either letter case |
| `SourceLaws.SignLaw` | src/assembler/Assembler.cpp:322-352 | a sign may come first; what no signed word holds is refused |
| `SourceLaws.CaseLaw` | src/assembler/Assembler.cpp:78-97 | directives and mnemonics are read in any letter case |
| `SourceLaws.NameLaw` | src/assembler/Assembler.cpp:244-287 | labels are identifiers that are no register, no directive and, in any letter case, no mnemonic |
| `SourceLaws.RegisterLaw` | src/assembler/Assembler.cpp:157-193 | a register is R and a digit up to seven, in either case |
| `SourceLaws.AddressLaw` | src/assembler/Assembler.cpp:975-1101 | a number in brackets is that address, and a negative one is refused |
| `SourceLaws.DataNameLaw` | src/assembler/Assembler.cpp:975-1101 | a name in brackets is the address of its data label, and else refused |
| `SourceLaws.BadAddressLaw` | src/assembler/Assembler.cpp:975-1101 | anything else in brackets is refused |
| `SourceLaws.CommaLaw` | src/assembler/Assembler.cpp:372-440 | which separators and brackets the operand list takes |
| `SourceLaws.DataLaw` | src/assembler/Assembler.cpp:636-699 | .byte, .word and .qword: the values each takes, and the bytes they become |
| `SourceLaws.StringLaw` | src/assembler/Assembler.cpp:636-699 | .string gives exactly the bytes that were quoted, for every byte string |
| `SourceLaws.EscapeLaw` | src/assembler/Assembler.cpp:442-540 | the escapes of a string literal |
| `SourceLaws.NoEscapeLaw` | src/assembler/Assembler.cpp:442-540 | any other escape is refused |
| `SourceLaws.MnemonicLaw` | src/assembler/Assembler.cpp:1103-1130 | only a known mnemonic makes an instruction, and it makes its own |
| `SourceLaws.OperandCountLaw` | src/assembler/Assembler.cpp:1130-1181 | no instruction takes three operands |
| `SourceLaws.LineLaw` | src/assembler/Assembler.cpp:784-973 | which lines pass 1 takes where they stand |
| `SourceLaws.AssemblesLaw` | src/assembler/Assembler.cpp:1400-1413 | a source assembles exactly when every line is acceptable where it stands, its entry is one of its code labels and every instruction line parses |
| `SourceLaws.SectionLaw` | src/assembler/Assembler.cpp:701-717 | which section each line is in |
| `ContextLaws.RestoreLaw` | src/kernel/ProcessContext.cpp:252-296 | a restore is refused whole, under these conditions, or puts every field of the context in place and clears halt and error |
| `ContextLaws.SwitchLaw` | src/kernel/ProcessContext.cpp:190-296 | restoring a captured process gives it back its registers, flags, pc, SP, privilege, code range and kernel stack pointer, whatever ran in between |
| `ContextLaws.SettingLaw` | src/core/CPU.cpp:332-424 | which code ranges and kernel stack pointers are taken; others change nothing |
| `ContextLaws.FreshLaw` | src/core/CPU.cpp:81-164 | a freshly loaded CPU |
| `FlagWord.FlagBits` | include/zero_cpu/core/Flags.hpp:10-15 | which bit of the word is which flag |

## Left out

- Effects.FaultIsAtomic: does not cover a host-handled INT, whose handler is an arbitrary function of the state, nor what a device did before its access or tick failed.
- TextLaws.LineSteps: about a step that takes no interrupt and does not fail; the interrupt laws and the fault laws cover the other steps.
- Printing.PrintedParses: takes the data labels below 2^63, which the assembler guarantees.
- LockstepSteps.StepsStayRelated: requires that no data access overlaps the loaded code or a tracked return address, that calls and frames are returned from in brackets, that kernel code does not branch to the end of the program, that devices leave the vector table alone, and that no INT is serviced by the host, whose handler sees pc and memory of one interpreter.
- Lockstep.OperandRelated: requires labels inside the program or at its end and addresses below 2^63, which the assembler guarantees.
- LockstepUser.UserLockstepIff: about user runs that take no interrupt and execute no INT; runs through handlers are `LockstepSteps.StepsStayRelated`, with its conditions on kernel code.
- Alu.MulIsExact: takes the `long double` product of the overflow test as exact.
- MultiDebugger.MultiSession.StepOnce: the lifecycle step, the scheduler and the trace are arbitrary functions of one world; the software-interrupt observation records and the terminated pid are not part of the stop.
- Debugger.Session.ContinueExecution: a condition is its truth value; parsing it and validating it against the CPU are not modelled.
- DebugSymbols.BuildClosed: the labels come in any order that lists each once; the source sorts them by name.
- Processor.Cpu.Execute: runs on the arguments of either interpreter rather than twice on operands and on fields; `Processor.Cpu.ExecuteInstruction` and `Processor.Cpu.ExecuteBinaryInstruction` are the two entry points, proved against each interpreter's own semantics.
- MultiDebugger.SkipMeansStayed: the skip is refreshed by a total function; the source takes a snapshot of the process table for it, which throws while the running CPU is on the kernel interrupt stack.
- Text.ParseNumericDirective: characters are bytes taken modulo 256; integer parsing follows the C grammar with base 0 without locale.
- Memory.Memory.ReadUnsigned: covers the fixed widths by one method with a width; the dump and snapshot functions only print.
- FlagWord.Flags.Restore: reads bits of the saved word by division rather than masking.
- Devices, the MMIO registers behind the bus and the host software-interrupt handler are arbitrary functions of device and machine state; the timer is modelled on its own.
- Trace events hold no content here beyond the last memory access the debuggers look at.
- Breakpoint and watchpoint list management (adding, removing, validating addresses) would only add easy members; the lists are arbitrary.
- Error messages, summaries and dump text; of the printed forms, only instructions and operands.
- Files: opening, reading and writing them, and the `.zsym` text form. The model starts from bytes, lines or records.
- The user interfaces, consoles, JSON output, command-line driver, file system, process table and syscall dispatcher.
- Hardware serial wrappers.

// What one step of the protected CPU does (src/core/CPU.cpp), as functions on
// machine states.  Class Cpu in Processor.dfy does the same in place.
//
// The two interpreters of the source differ in how they find an instruction
// and read its operands.  Both are reduced here to an opcode and two `Arg`s;
// ArgOfOperand and ArgOfField say how each interpreter gets there.
module Machine {
  import opened Words
  import opened Isa
  import opened Interrupts
  import opened Memory
  import opened MemoryMap
  import opened Iteration
  import Alu

  const SLOT: nat := 8
  const FRAME_SLOTS: nat := 4
  const FRAME_SIZE: nat := 32

  // ----- State -----

  type Ram = m: seq<byte> | |m| == MEMORY_SIZE witness seq(MEMORY_SIZE, _ => 0)
  type Regs = r: seq<i64> | |r| == 8 witness seq(8, _ => 0)

  datatype Privilege = Kernel | User

  // `spare` stands for the bits of the flag word that are none of the four flags.
  datatype Flags = Flags(zero: bool, sign: bool, carry: bool, overflow: bool, spare: nat)

  datatype Range = Range(begin: u64, end: u64)

  // Everything outside the CPU that its steps can change: the interrupt
  // controller, and whatever the mapped and clocked devices remember.
  datatype Devices = Devices(controller: Controller, cells: seq<int>)

  datatype State = State(
    regs: Regs, mem: Ram, flags: Flags, priv: Privilege, pc: u64, sp: u64,
    halted: bool, error: bool,
    ksp: u64, onKernelStack: bool,
    range: Option<Range>, exit: Option<i64>,
    dev: Devices)

  datatype DeviceRead = ReadOk(dev: Devices, value: i64) | ReadThrew(dev: Devices)
  datatype DeviceEffect = Done(dev: Devices) | Threw(dev: Devices)
  datatype HostResult = Handled(s: State, terminate: bool, exitCode: i64) | HandlerThrew(s: State)

  // Devices and the host software-interrupt handler are arbitrary functions;
  // `clocked` are the ticks of the clocked devices, in the order they were added.
  datatype Bus = Bus(
    mapped: u64 -> bool,
    read: (Devices, u64) -> DeviceRead,
    write: (Devices, u64, i64) -> DeviceEffect,
    clocked: seq<Devices -> DeviceEffect>,
    handles: byte -> bool,
    handle: (byte, State) -> HostResult)

  datatype Image =
    | Vector(program: seq<Instruction>, labels: Labels)
    | Binary(base: nat, size: nat)

  datatype Setup = Setup(image: Image, bus: Bus, hasController: bool)

  // Fault is the C++ exception that step() turns into the error state; s is what it leaves behind.
  datatype Outcome = Next(s: State) | Fault(s: State)

  // ----- Flags and privilege in an interrupt frame -----

  function PackFlags(f: Flags): i64 {
    (if f.zero then 1 else 0) + (if f.sign then 2 else 0) + (if f.carry then 4 else 0) + (if f.overflow then 8 else 0)
  }

  function UnpackFlags(f: Flags, v: i64): Flags {
    f.(zero := v % 2 == 1, sign := (v / 2) % 2 == 1, carry := (v / 4) % 2 == 1, overflow := (v / 8) % 2 == 1)
  }

  function PrivilegeRaw(p: Privilege): i64 {
    if p.Kernel? then 0 else 1
  }

  function PrivilegeFromRaw(v: i64): Result<Privilege> {
    if v == 0 then Ok(Kernel) else if v == 1 then Ok(User) else Err
  }

  function WithZeroSign(f: Flags, v: i64): Flags {
    f.(zero := v == 0, sign := v < 0)
  }

  function WithResult(f: Flags, r: Alu.AluResult): Flags {
    f.(zero := r.zero, sign := r.sign, carry := r.carry, overflow := r.overflow)
  }

  predicate SignedLess(f: Flags) {
    f.sign != f.overflow
  }

  predicate SignedGreater(f: Flags) {
    !f.zero && f.sign == f.overflow
  }

  // ----- Protection -----

  function Width(image: Image): nat {
    if image.Vector? then 1 else INSTRUCTION_SIZE
  }

  predicate InCode(base: nat, size: nat, pc: nat) {
    base <= pc < base + size && base + size - pc >= INSTRUCTION_SIZE && (pc - base) % INSTRUCTION_SIZE == 0
  }

  predicate IsLoaded(image: Image, address: nat) {
    match image
    case Vector(program, _) => address < |program|
    case Binary(base, size) => InCode(base, size, address)
  }

  predicate MayExecute(c: Setup, s: State, address: nat, priv: Privilege) {
    priv.User? ==>
      s.range.Some? && s.range.value.begin <= address < s.range.value.end && IsLoaded(c.image, address)
  }

  predicate UserDataRange(address: nat, count: nat) {
    address <= USER_DATA_END && count <= USER_DATA_END - address
  }

  predicate MayAccess(s: State, address: nat) {
    s.priv.User? ==> UserDataRange(address, 8)
  }

  predicate NeedsKernel(op: Opcode) {
    op == HALT || op == IRET || op == EI || op == DI
  }

  // ----- Data access -----

  datatype Loaded = Value(dev: Devices, value: i64) | LoadFault(dev: Devices)

  function ReadData(c: Setup, s: State, address: u64): Loaded {
    if !MayAccess(s, address) then LoadFault(s.dev)
    else if c.bus.mapped(address) then
      match c.bus.read(s.dev, address)
      case ReadOk(dev, v) => Value(dev, v)
      case ReadThrew(dev) => LoadFault(dev)
    else if InRange(s.mem, address, 8) then Value(s.dev, Read64(s.mem, address))
    else LoadFault(s.dev)
  }

  function WriteData(c: Setup, s: State, address: u64, v: i64): Outcome {
    if !MayAccess(s, address) then Fault(s)
    else if c.bus.mapped(address) then
      match c.bus.write(s.dev, address, v)
      case Done(dev) => Next(s.(dev := dev))
      case Threw(dev) => Fault(s.(dev := dev))
    else if InRange(s.mem, address, 8) then Next(s.(mem := Write64(s.mem, address, v)))
    else Fault(s)
  }

  // ----- Stacks -----

  function StackBase(s: State): nat {
    if s.priv.User? then USER_STACK_BASE
    else if s.onKernelStack then KERNEL_STACK_BASE
    else DEFAULT_STACK_BASE
  }

  function StackEnd(s: State): nat {
    if s.priv.User? then USER_STACK_END
    else if s.onKernelStack then KERNEL_STACK_END
    else MEMORY_SIZE
  }

  predicate PointerOk(sp: nat, base: nat, end: nat) {
    base <= sp <= end && (sp - base) % SLOT == 0
  }

  predicate RoomAt(sp: nat, base: nat, end: nat, slots: nat) {
    PointerOk(sp, base, end) && slots <= (end - sp) / SLOT
  }

  predicate UsedAt(sp: nat, base: nat, end: nat, slots: nat) {
    PointerOk(sp, base, end) && slots <= (sp - base) / SLOT
  }

  predicate CanPush(s: State, slots: nat) {
    RoomAt(s.sp, StackBase(s), StackEnd(s), slots)
  }

  predicate CanPop(s: State, slots: nat) {
    UsedAt(s.sp, StackBase(s), StackEnd(s), slots)
  }

  /** Moves SP, and the kernel stack pointer with it while the interrupt stack is in use. */
  function MoveSp(s: State, sp: u64): State {
    s.(sp := sp, ksp := if s.onKernelStack then sp else s.ksp)
  }

  function PushValue(s: State, v: i64): Outcome {
    if CanPush(s, 1) then Next(MoveSp(s.(mem := Write64(s.mem, s.sp, v)), s.sp + SLOT)) else Fault(s)
  }

  function Top(s: State): i64
    requires CanPop(s, 1)
  {
    Read64(s.mem, s.sp - SLOT)
  }

  // ----- Interrupt frames -----

  datatype Frame = Frame(ret: i64, flags: i64, priv: i64, sp: i64)

  /** The return address, the four flags, the privilege and SP, one slot each. */
  function FrameBytes(f: Frame): (b: seq<byte>)
    ensures |b| == FRAME_SIZE
  {
    LittleEndian(ToU64(f.ret), 8) + LittleEndian(ToU64(f.flags), 8)
      + LittleEndian(ToU64(f.priv), 8) + LittleEndian(ToU64(f.sp), 8)
  }

  function FrameOf(s: State, ret: u64): Frame {
    Frame(ToI64(ret), PackFlags(s.flags), PrivilegeRaw(s.priv), ToI64(s.sp))
  }

  function WithFrame(m: Ram, base: nat, f: Frame): (r: Ram)
    requires base + FRAME_SIZE <= MEMORY_SIZE
    ensures forall k :: 0 <= k < MEMORY_SIZE && !(base <= k < base + FRAME_SIZE) ==> r[k] == m[k]
  {
    Splice(m, base, FrameBytes(f))
  }

  function FrameBase(s: State): u64 {
    if s.priv.User? then s.ksp else s.sp
  }

  predicate CanPushFrame(s: State) {
    if s.priv.User? then
      && PointerOk(s.sp, USER_STACK_BASE, USER_STACK_END)
      && RoomAt(s.ksp, KERNEL_STACK_BASE, KERNEL_STACK_END, FRAME_SLOTS)
    else
      CanPush(s, FRAME_SLOTS)
  }

  function PushFrame(s: State, ret: u64): State
    requires CanPushFrame(s)
  {
    var base := FrameBase(s);
    var on := s.onKernelStack || s.priv.User?;
    s.(mem := WithFrame(s.mem, base, FrameOf(s, ret)),
       sp := base + FRAME_SIZE,
       priv := Kernel,
       onKernelStack := on,
       ksp := if on then base + FRAME_SIZE else s.ksp)
  }

  function TopFrame(s: State): Frame
    requires CanPop(s, FRAME_SLOTS)
  {
    var base := s.sp - FRAME_SIZE;
    Frame(Read64(s.mem, base), Read64(s.mem, base + 8), Read64(s.mem, base + 16), Read64(s.mem, base + 24))
  }

  predicate SavedSpOk(s: State, sp: nat, priv: Privilege) {
    if priv.User? then PointerOk(sp, USER_STACK_BASE, USER_STACK_END)
    else if s.onKernelStack then PointerOk(sp, KERNEL_STACK_BASE, KERNEL_STACK_END)
    else PointerOk(sp, DEFAULT_STACK_BASE, MEMORY_SIZE)
  }

  /** restoreInterruptFrame: IRET, and the return from a host service. */
  function RestoreFrame(c: Setup, s: State, allowUserEnd: bool): Outcome {
    if !CanPop(s, FRAME_SLOTS) then Fault(s)
    else
      var f := TopFrame(s);
      var p := PrivilegeFromRaw(f.priv);
      if p.Err? || f.ret < 0 || f.sp < 0 then Fault(s)
      else if !(allowUserEnd && p.value.User? && s.range.Some? && f.ret == s.range.value.end)
              && !MayExecute(c, s, f.ret, p.value) then Fault(s)
      else if !SavedSpOk(s, f.sp, p.value) then Fault(s)
      else
        var t := s.(flags := UnpackFlags(s.flags, f.flags), priv := p.value, pc := f.ret, sp := f.sp);
        if p.value.User? then
          Next(t.(ksp := if s.onKernelStack then s.sp - FRAME_SIZE else s.ksp, onKernelStack := false))
        else
          Next(t.(ksp := if s.onKernelStack then f.sp else s.ksp))
  }

  // ----- Operands -----

  // NoArg(clean): an absent operand; `clean` is false for a binary field that
  // has no type but a non-zero payload.  CodeArg(None): a jump target that
  // does not resolve.  BadArg: a field neither interpreter can use.
  datatype Arg =
    | NoArg(clean: bool)
    | RegArg(r: Reg)
    | ImmArg(v: i64)
    | MemArg(address: u64)
    | IndArg(base: Reg)
    | CodeArg(target: Option<u64>)
    | BadArg

  function ArgOfOperand(labels: Labels, o: Operand): Arg {
    match o
    case Absent => NoArg(true)
    case Register(r) => RegArg(r)
    case Immediate(v) => ImmArg(v)
    case MemoryAddress(a) => MemArg(a)
    case RegisterIndirect(r) => IndArg(r)
    case Label(name) => CodeArg(if name in labels then Some(labels[name]) else None)
  }

  function ArgOfField(base: nat, size: nat, f: Field): Arg {
    match f.kind
    case TNone => NoArg(f.payload == 0)
    case TRegister => if 0 <= f.payload < 8 then RegArg(f.payload) else BadArg
    case TImmediate => ImmArg(f.payload)
    case TMemory => if f.payload < 0 then BadArg else MemArg(f.payload)
    case TIndirect => if 0 <= f.payload < 8 then IndArg(f.payload) else BadArg
    case TCode =>
      if f.payload < 0 then BadArg
      else CodeArg(if InCode(base, size, base + f.payload) && base + f.payload < TWO_64
                   then Some(base + f.payload) else None)
  }

  function AddressOf(s: State, a: Arg): Result<u64> {
    match a
    case MemArg(address) => Ok(address)
    case IndArg(r) => if s.regs[r] < 0 then Err else Ok(s.regs[r])
    case _ => Err
  }

  function ValueOf(c: Setup, s: State, a: Arg): Loaded {
    match a
    case RegArg(r) => Value(s.dev, s.regs[r])
    case ImmArg(v) => Value(s.dev, v)
    case _ =>
      match AddressOf(s, a)
      case Ok(address) => ReadData(c, s, address)
      case Err => LoadFault(s.dev)
  }

  predicate NoOperands(dst: Arg, src: Arg) {
    dst == NoArg(true) && src == NoArg(true)
  }

  predicate OneOperand(dst: Arg, src: Arg) {
    !dst.NoArg? && src == NoArg(true)
  }

  predicate TwoOperands(dst: Arg, src: Arg) {
    !dst.NoArg? && !src.NoArg?
  }

  // ----- Instructions -----

  function Advance(c: Setup, s: State): State {
    if s.halted then s else s.(pc := AddSize(s.pc, Width(c.image)))
  }

  /** MOV, LOAD and POP: a value into a register, with ZF and SF. */
  function SetRegister(c: Setup, s: State, r: Reg, v: i64): State {
    Advance(c, s.(regs := s.regs[r := v], flags := WithZeroSign(s.flags, v)))
  }

  function SetResult(c: Setup, s: State, r: Reg, result: Alu.AluResult): State {
    Advance(c, s.(regs := s.regs[r := result.value], flags := WithResult(s.flags, result)))
  }

  function SetFlags(c: Setup, s: State, result: Alu.AluResult): State {
    Advance(c, s.(flags := WithResult(s.flags, result)))
  }

  predicate IsBinaryOp(op: Opcode) {
    op == ADD || op == SUB || op == MUL || op == DIV || op == AND || op == OR || op == XOR
  }

  function Compute(op: Opcode, lhs: i64, rhs: i64): Result<Alu.AluResult>
    requires IsBinaryOp(op)
  {
    match op
    case ADD => Ok(Alu.Add(lhs, rhs))
    case SUB => Ok(Alu.Sub(lhs, rhs))
    case MUL => Ok(Alu.Mul(lhs, rhs))
    case DIV => Alu.Div(lhs, rhs)
    case AND => Ok(Alu.Logic(Alu.AndOp, lhs, rhs))
    case OR => Ok(Alu.Logic(Alu.OrOp, lhs, rhs))
    case XOR => Ok(Alu.Logic(Alu.XorOp, lhs, rhs))
  }

  function ExecMove(c: Setup, s: State, dst: Arg, src: Arg): Outcome {
    if !TwoOperands(dst, src) || !dst.RegArg? then Fault(s)
    else
      match ValueOf(c, s, src)
      case LoadFault(dev) => Fault(s.(dev := dev))
      case Value(dev, v) => Next(SetRegister(c, s.(dev := dev), dst.r, v))
  }

  function ExecLoad(c: Setup, s: State, dst: Arg, src: Arg): Outcome {
    if AddressOf(s, src).Err? then Fault(s) else ExecMove(c, s, dst, src)
  }

  function ExecStore(c: Setup, s: State, dst: Arg, src: Arg): Outcome {
    if !TwoOperands(dst, src) || AddressOf(s, dst).Err? then Fault(s)
    else
      match ValueOf(c, s, src)
      case LoadFault(dev) => Fault(s.(dev := dev))
      case Value(dev, v) =>
        match WriteData(c, s.(dev := dev), AddressOf(s, dst).value, v)
        case Fault(t) => Fault(t)
        case Next(t) => Next(Advance(c, t.(flags := WithZeroSign(t.flags, v))))
  }

  function ExecBinaryOp(c: Setup, s: State, op: Opcode, dst: Arg, src: Arg): Outcome
    requires IsBinaryOp(op)
  {
    if !TwoOperands(dst, src) || !dst.RegArg? then Fault(s)
    else
      match ValueOf(c, s, src)
      case LoadFault(dev) => Fault(s.(dev := dev))
      case Value(dev, rhs) =>
        match Compute(op, s.regs[dst.r], rhs)
        case Err => Fault(s.(dev := dev))
        case Ok(result) => Next(SetResult(c, s.(dev := dev), dst.r, result))
  }

  function ExecNot(c: Setup, s: State, dst: Arg, src: Arg): Outcome {
    if !OneOperand(dst, src) || !dst.RegArg? then Fault(s)
    else Next(SetResult(c, s, dst.r, Alu.BitNot(s.regs[dst.r])))
  }

  function CompareWith(c: Setup, s: State, op: Opcode, lhs: i64, rhs: Loaded): Outcome {
    match rhs
    case LoadFault(dev) => Fault(s.(dev := dev))
    case Value(dev, v) =>
      Next(SetFlags(c, s.(dev := dev), if op == CMP then Alu.Compare(lhs, v) else Alu.Test(lhs, v)))
  }

  /** CMP subtracts and TEST conjoins; only the flags change. */
  function ExecCompare(c: Setup, s: State, op: Opcode, dst: Arg, src: Arg): Outcome {
    if !TwoOperands(dst, src) then Fault(s)
    else
      match ValueOf(c, s, dst)
      case LoadFault(dev) => Fault(s.(dev := dev))
      case Value(dev, lhs) => CompareWith(c, s.(dev := dev), op, lhs, ValueOf(c, s.(dev := dev), src))
  }

  predicate Taken(op: Opcode, f: Flags) {
    match op
    case JMP => true
    case JE => f.zero
    case JNE => !f.zero
    case JG => SignedGreater(f)
    case JL => SignedLess(f)
    case _ => false
  }

  function Target(a: Arg): Option<u64> {
    if a.CodeArg? then a.target else None
  }

  function ExecBranch(c: Setup, s: State, op: Opcode, dst: Arg, src: Arg): Outcome {
    if !OneOperand(dst, src) then Fault(s)
    else if !Taken(op, s.flags) then Next(Advance(c, s))
    else
      match Target(dst)
      case None => Fault(s)
      case Some(t) => if MayExecute(c, s, t, s.priv) then Next(s.(pc := t)) else Fault(s)
  }

  function ExecPush(c: Setup, s: State, dst: Arg, src: Arg): Outcome {
    if !OneOperand(dst, src) then Fault(s)
    else
      match ValueOf(c, s, dst)
      case LoadFault(dev) => Fault(s.(dev := dev))
      case Value(dev, v) =>
        match PushValue(s.(dev := dev), v)
        case Fault(t) => Fault(t)
        case Next(t) => Next(Advance(c, t))
  }

  function ExecPop(c: Setup, s: State, dst: Arg, src: Arg): Outcome {
    if !OneOperand(dst, src) || !dst.RegArg? || !CanPop(s, 1) then Fault(s)
    else Next(SetRegister(c, MoveSp(s, s.sp - SLOT), dst.r, Top(s)))
  }

  function ExecCall(c: Setup, s: State, dst: Arg, src: Arg): Outcome {
    if !OneOperand(dst, src) then Fault(s)
    else
      var ret := AddSize(s.pc, Width(c.image));
      match Target(dst)
      case None => Fault(s)
      case Some(t) =>
        if !MayExecute(c, s, t, s.priv) || !MayExecute(c, s, ret, s.priv) then Fault(s)
        else
          match PushValue(s, ToI64(ret))
          case Fault(u) => Fault(u)
          case Next(u) => Next(u.(pc := t))
  }

  function ExecRet(c: Setup, s: State, dst: Arg, src: Arg): Outcome {
    if !NoOperands(dst, src) || !CanPop(s, 1) then Fault(s)
    else if Top(s) < 0 || !MayExecute(c, s, Top(s), s.priv) then Fault(s)
    else Next(MoveSp(s, s.sp - SLOT).(pc := Top(s)))
  }

  function SetEnabled(s: State, on: bool): State {
    s.(dev := s.dev.(controller := s.dev.controller.(enabled := on)))
  }

  function ExecEnable(c: Setup, s: State, on: bool, dst: Arg, src: Arg): Outcome {
    if !NoOperands(dst, src) || !c.hasController then Fault(s) else Next(Advance(c, SetEnabled(s, on)))
  }

  /** A handler sees and may change the architectural state, but not the CPU's private fields. */
  function AfterHandler(before: State, h: State): State {
    h.(ksp := before.ksp, onKernelStack := before.onKernelStack, range := before.range, exit := before.exit)
  }

  function HostService(c: Setup, s: State, vector: byte, ret: u64): Outcome {
    if !CanPushFrame(s) then Fault(s)
    else
      var p := PushFrame(s, ret);
      var entered := p.(regs := p.regs[0 := vector]);
      match c.bus.handle(vector, entered)
      case HandlerThrew(h) => Fault(RestoreFrame(c, AfterHandler(entered, h), false).s)
      case Handled(h, terminate, exitCode) =>
        match RestoreFrame(c, AfterHandler(entered, h), terminate)
        case Fault(t) => Fault(t)
        case Next(t) => Next(if terminate then t.(exit := Some(exitCode), halted := true) else t)
  }

  function ExecInt(c: Setup, s: State, dst: Arg, src: Arg): Outcome {
    if !OneOperand(dst, src) || !c.hasController then Fault(s)
    else
      match ValueOf(c, s, dst)
      case LoadFault(dev) => Fault(s.(dev := dev))
      case Value(dev, v) =>
        var t := s.(dev := dev);
        var ret := AddSize(s.pc, Width(c.image));
        if v < 0 || v > 255 then Fault(t)
        else if c.bus.handles(v) then HostService(c, t, v, ret)
        else
          match t.dev.controller.handlers[v]
          case None => Fault(t)
          case Some(handler) =>
            if !IsLoaded(c.image, handler) || !CanPushFrame(t) then Fault(t)
            else
              var p := PushFrame(t, ret);
              Next(p.(regs := p.regs[0 := v], pc := handler))
  }

  predicate IsBranch(op: Opcode) {
    op == JMP || op == JE || op == JNE || op == JG || op == JL
  }

  function ExecData(c: Setup, s: State, op: Opcode, dst: Arg, src: Arg): Outcome {
    if op == MOV then ExecMove(c, s, dst, src)
    else if op == LOAD then ExecLoad(c, s, dst, src)
    else if op == STORE then ExecStore(c, s, dst, src)
    else if op == NOT then ExecNot(c, s, dst, src)
    else ExecCompare(c, s, op, dst, src)
  }

  function ExecStack(c: Setup, s: State, op: Opcode, dst: Arg, src: Arg): Outcome {
    if op == PUSH then ExecPush(c, s, dst, src)
    else if op == POP then ExecPop(c, s, dst, src)
    else if op == CALL then ExecCall(c, s, dst, src)
    else ExecRet(c, s, dst, src)
  }

  function ExecSystem(c: Setup, s: State, op: Opcode, dst: Arg, src: Arg): Outcome {
    match op
    case NOP => if NoOperands(dst, src) then Next(Advance(c, s)) else Fault(s)
    case HALT => if NoOperands(dst, src) then Next(s.(halted := true)) else Fault(s)
    case EI => ExecEnable(c, s, true, dst, src)
    case DI => ExecEnable(c, s, false, dst, src)
    case _ => Fault(s)
  }

  predicate IsData(op: Opcode) {
    op == MOV || op == LOAD || op == STORE || op == NOT || op == CMP || op == TEST
  }

  predicate IsStack(op: Opcode) {
    op == PUSH || op == POP || op == CALL || op == RET
  }

  function ExecReturn(c: Setup, s: State, dst: Arg, src: Arg): Outcome {
    if NoOperands(dst, src) then RestoreFrame(c, s, false) else Fault(s)
  }

  /** One instruction; a privileged one faults in user mode. */
  function Exec(c: Setup, s: State, op: Opcode, dst: Arg, src: Arg): Outcome {
    if s.priv.User? && NeedsKernel(op) then Fault(s)
    else if IsData(op) then ExecData(c, s, op, dst, src)
    else if IsBinaryOp(op) then ExecBinaryOp(c, s, op, dst, src)
    else if IsBranch(op) then ExecBranch(c, s, op, dst, src)
    else if IsStack(op) then ExecStack(c, s, op, dst, src)
    else if op == INT then ExecInt(c, s, dst, src)
    else if op == IRET then ExecReturn(c, s, dst, src)
    else ExecSystem(c, s, op, dst, src)
  }

  // ----- One step -----

  datatype Fetched = Fetched(op: Opcode, dst: Arg, src: Arg)

  /** The instruction at the pc, or Err when fetching it throws. */
  function Fetch(c: Setup, s: State): Result<Fetched> {
    if !MayExecute(c, s, s.pc, s.priv) then Err
    else
      match c.image
      case Vector(program, labels) =>
        if s.pc >= |program| then Err
        else
          var i := program[s.pc];
          Ok(Fetched(i.opcode, ArgOfOperand(labels, i.dst), ArgOfOperand(labels, i.src)))
      case Binary(base, size) =>
        if !InCode(base, size, s.pc) || !InRange(s.mem, s.pc, INSTRUCTION_SIZE) then Err
        else
          match DecodeInstruction(s.mem[s.pc..s.pc + INSTRUCTION_SIZE])
          case Err => Err
          case Ok(d) =>
            var dst, src := ArgOfField(base, size, d.dst), ArgOfField(base, size, d.src);
            // step() renders the instruction for the trace first, which rejects unusable fields.
            if dst.BadArg? || src.BadArg? then Err else Ok(Fetched(d.opcode, dst, src))
  }

  function ExecCurrent(c: Setup, s: State): Outcome {
    match Fetch(c, s)
    case Err => Fault(s)
    case Ok(f) => Exec(c, s, f.op, f.dst, f.src)
  }

  /** setRuntimeError: the error state is also halted. */
  function Failed(s: State): State {
    s.(error := true, halted := true)
  }

  predicate Stopped(s: State) {
    s.halted || s.error
  }

  predicate InterruptDue(c: Setup, s: State) {
    c.hasController && HasPending(s.dev.controller)
  }

  /** servicePendingInterruptIfNeeded when a request is deliverable: the request is consumed first. */
  function ServiceInterrupt(c: Setup, s: State): Outcome
    requires InterruptDue(c, s)
  {
    var k := FindDeliverable(s.dev.controller);
    var request := s.dev.controller.pending[k];
    var t := s.(dev := s.dev.(controller := Take(s.dev.controller, k)));
    var handler := s.dev.controller.handlers[request.vector].value;
    if !IsLoaded(c.image, handler) || !CanPushFrame(t) then Fault(t)
    else
      var p := PushFrame(t, t.pc);
      Next(p.(regs := p.regs[0 := request.vector as i64][1 := request.payload], pc := handler))
  }

  /** tickClockedDevices: in order, up to the first that throws. */
  function Tick(clocked: seq<Devices -> DeviceEffect>, dev: Devices): DeviceEffect {
    if |clocked| == 0 then Done(dev)
    else
      match clocked[0](dev)
      case Threw(d) => Threw(d)
      case Done(d) => Tick(clocked[1..], d)
  }

  function TickDevices(c: Setup, s: State): State {
    match Tick(c.bus.clocked, s.dev)
    case Done(dev) => s.(dev := dev)
    case Threw(dev) => Failed(s.(dev := dev))
  }

  function Step(c: Setup, s: State): State {
    if Stopped(s) then s
    else if InterruptDue(c, s) then
      match ServiceInterrupt(c, s)
      case Next(t) => t
      case Fault(t) => Failed(t)
    else
      match ExecCurrent(c, s)
      case Fault(t) => Failed(t)
      case Next(t) => if Stopped(t) then t else TickDevices(c, t)
  }

  function StepOf(c: Setup): State -> State {
    s => Step(c, s)
  }

  function Steps(c: Setup, s: State, n: nat): State {
    Iterate(StepOf(c), s, n)
  }

  /** run(maxSteps): steps until stopped; running out of steps is itself an error. */
  function Run(c: Setup, s: State, maxSteps: nat): State
    decreases maxSteps
  {
    if Stopped(s) then s
    else if maxSteps == 0 then Failed(s)
    else Run(c, Step(c, s), maxSteps - 1)
  }
}

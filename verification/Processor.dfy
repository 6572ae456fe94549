// The CPU object (src/core/CPU.cpp): the same steps as Machine.dfy, done by
// updating fields in place in the order the C++ code does.  A method that
// returns false is a C++ exception; what it has written by then stays.
module Processor {
  import opened Words
  import opened Isa
  import opened Interrupts
  import opened Machine
  import opened MemoryMap
  import Alu
  import Interpreters
  import InterruptFrames
  import M = Memory

  class Cpu {
    const registers: array<i64>
    const memory: M.Memory
    var flags: Flags
    var priv: Privilege
    var pc: u64
    var sp: u64
    var halted: bool
    var error: bool

    var ksp: u64
    var onKernelStack: bool
    var range: Option<Range>
    var exit: Option<i64>

    var dev: Devices
    const image: Image
    const bus: Bus
    const hasController: bool

    ghost predicate Valid()
      reads this, memory
    {
      registers.Length == 8 && memory.bytes.Length == MEMORY_SIZE
    }

    function View(): State
      requires Valid()
      reads this, registers, memory, memory.bytes
    {
      State(registers[..], memory.bytes[..], flags, priv, pc, sp, halted, error,
            ksp, onKernelStack, range, exit, dev)
    }

    function Config(): Setup {
      Setup(image, bus, hasController)
    }

    /** loadProgram or loadBinaryProgram on a CPU whose memory already holds the image. */
    constructor (image: Image, bus: Bus, hasController: bool, memory: M.Memory, entry: u64, range: Option<Range>,
                 dev: Devices)
      requires memory.bytes.Length == MEMORY_SIZE
      ensures Valid() && this.memory == memory && fresh(registers)
      ensures Config() == Setup(image, bus, hasController)
      ensures View() == State(seq(8, _ => 0), old(memory.bytes[..]), Flags(false, false, false, false, 0), Kernel,
                              entry, DEFAULT_STACK_BASE, false, false, KERNEL_STACK_BASE, false, range, None, dev)
    {
      registers := new i64[8](_ => 0);
      this.memory := memory;
      this.image, this.bus, this.hasController := image, bus, hasController;
      flags := Flags(false, false, false, false, 0);
      priv, pc, sp, halted, error := Kernel, entry, DEFAULT_STACK_BASE, false, false;
      ksp, onKernelStack := KERNEL_STACK_BASE, false;
      this.range, exit, this.dev := range, None, dev;
    }

    method SetRegister(r: Reg, v: i64)
      requires Valid()
      modifies registers
      ensures Valid() && View() == old(View()).(regs := old(View()).regs[r := v])
    {
      registers[r] := v;
    }

    method UpdateZeroAndSign(v: i64)
      requires Valid()
      modifies this`flags
      ensures Valid() && View() == old(View()).(flags := WithZeroSign(old(flags), v))
    {
      flags := flags.(zero := v == 0);
      flags := flags.(sign := v < 0);
    }

    method ApplyResult(r: Alu.AluResult)
      requires Valid()
      modifies this`flags
      ensures Valid() && View() == old(View()).(flags := WithResult(old(flags), r))
    {
      flags := flags.(zero := r.zero);
      flags := flags.(sign := r.sign);
      flags := flags.(carry := r.carry);
      flags := flags.(overflow := r.overflow);
    }

    method AdvancePcUnlessHalted()
      requires Valid()
      modifies this`pc
      ensures Valid() && View() == Advance(Config(), old(View()))
    {
      if !halted {
        pc := AddSize(pc, Width(image));
      }
    }

    // ----- Code protection -----

    /** requireExecutionAddress */
    method RequireExecution(address: u64, privilege: Privilege) returns (ok: bool)
      requires Valid()
      ensures ok == MayExecute(Config(), View(), address, privilege)
    {
      if privilege.Kernel? {
        return true;
      }
      var insideUserRange := range.Some? && range.value.begin <= address && address < range.value.end;
      return insideUserRange && IsLoaded(image, address);
    }

    // ----- Data memory -----

    method ReadDataMemory(address: u64) returns (r: Result<i64>)
      requires Valid()
      modifies this`dev
      ensures Valid()
      ensures var l := ReadData(Config(), old(View()), address);
              View() == old(View()).(dev := l.dev) && r == if l.Value? then Ok(l.value) else Err
    {
      if priv.User? && !UserDataRange(address, 8) {
        return Err;
      }
      if bus.mapped(address) {
        var d := bus.read(dev, address);
        dev := d.dev;
        return if d.ReadOk? then Ok(d.value) else Err;
      }
      r := memory.Read(address);
    }

    method WriteDataMemory(address: u64, v: i64) returns (ok: bool)
      requires Valid()
      modifies this`dev, memory.bytes
      ensures Valid()
      ensures var o := WriteData(Config(), old(View()), address, v);
              View() == o.s && ok == o.Next?
    {
      if priv.User? && !UserDataRange(address, 8) {
        return false;
      }
      if bus.mapped(address) {
        var d := bus.write(dev, address, v);
        dev := d.dev;
        return d.Done?;
      }
      ok := memory.Write(address, v);
    }

    method ReadOperandValue(a: Arg) returns (r: Result<i64>)
      requires Valid()
      modifies this`dev
      ensures Valid()
      ensures var l := ValueOf(Config(), old(View()), a);
              View() == old(View()).(dev := l.dev) && r == if l.Value? then Ok(l.value) else Err
    {
      if a.RegArg? {
        return Ok(registers[a.r]);
      }
      if a.ImmArg? {
        return Ok(a.v);
      }
      var address := ReadMemoryAddress(a);
      if address.Err? {
        return Err;
      }
      r := ReadDataMemory(address.value);
    }

    method ReadMemoryAddress(a: Arg) returns (r: Result<u64>)
      requires Valid()
      ensures r == AddressOf(View(), a)
    {
      if a.MemArg? {
        return Ok(a.address);
      }
      if a.IndArg? {
        var address := registers[a.base];
        if address < 0 {
          return Err;
        }
        return Ok(address);
      }
      return Err;
    }

    // ----- Stacks -----

    // activeStackBase and activeStackEndExclusive
    method ActiveStack() returns (base: nat, end: nat)
      requires Valid()
      ensures base == StackBase(View()) && end == StackEnd(View())
      ensures base % SLOT == 0 && end % SLOT == 0 && DEFAULT_STACK_BASE <= base < end <= MEMORY_SIZE
    {
      if priv.User? {
        return USER_STACK_BASE, USER_STACK_END;
      }
      if onKernelStack {
        return KERNEL_STACK_BASE, KERNEL_STACK_END;
      }
      return DEFAULT_STACK_BASE, memory.bytes.Length;
    }

    static method StackPointerInRange(at: nat, base: nat, end: nat) returns (ok: bool)
      ensures ok == PointerOk(at, base, end)
    {
      if at < base {
        return false;
      }
      if (at - base) % SLOT != 0 {
        return false;
      }
      return at <= end;
    }

    /** The slots above `at` lie inside the stack, counted in whole slots from its base. */
    static method PushSlotsAt(at: nat, base: nat, end: nat, slots: nat) returns (ok: bool)
      ensures ok <==> base <= at && at + SLOT * slots <= end && (at - base) % SLOT == 0
      ensures ok == RoomAt(at, base, end, slots)
    {
      ok := StackPointerInRange(at, base, end);
      if ok {
        var available := (end - at) / SLOT;
        ok := slots <= available;
      }
    }

    /** The slots below `at` lie inside the stack. */
    static method PopSlotsAt(at: nat, base: nat, end: nat, slots: nat) returns (ok: bool)
      ensures ok <==> base + SLOT * slots <= at <= end && (at - base) % SLOT == 0
      ensures ok == UsedAt(at, base, end, slots)
    {
      ok := StackPointerInRange(at, base, end);
      if ok {
        var used := (at - base) / SLOT;
        ok := slots <= used;
      }
    }

    method PushSlotsOk(slots: nat) returns (ok: bool)
      requires Valid()
      ensures ok <==> sp % SLOT == 0 && StackBase(View()) <= sp && sp + SLOT * slots <= StackEnd(View())
      ensures ok == CanPush(View(), slots)
    {
      var base, end := ActiveStack();
      ok := PushSlotsAt(sp, base, end, slots);
    }

    method PopSlotsOk(slots: nat) returns (ok: bool)
      requires Valid()
      ensures ok <==> sp % SLOT == 0 && StackBase(View()) + SLOT * slots <= sp <= StackEnd(View())
      ensures ok == CanPop(View(), slots)
    {
      var base, end := ActiveStack();
      ok := PopSlotsAt(sp, base, end, slots);
    }

    method PushOne(v: i64) returns (ok: bool)
      requires Valid()
      modifies this`sp, this`ksp, memory.bytes
      ensures Valid()
      ensures var o := PushValue(old(View()), v); View() == o.s && ok == o.Next?
    {
      ok := PushSlotsOk(1);
      if ok {
        var written := memory.Write(sp, v);
        assert written;
        sp := sp + SLOT;
        if onKernelStack {
          ksp := sp;
        }
      }
    }

    method PopOne() returns (r: Result<i64>)
      requires Valid()
      modifies this`sp, this`ksp
      ensures Valid()
      ensures if CanPop(old(View()), 1)
              then View() == MoveSp(old(View()), old(sp) - SLOT) && r == Ok(Top(old(View())))
              else View() == old(View()) && r == Err
    {
      var ok := PopSlotsOk(1);
      if !ok {
        return Err;
      }
      var newSp := sp - SLOT;
      r := memory.Read(newSp);
      sp := newSp;
      if onKernelStack {
        ksp := newSp;
      }
    }

    // ----- Interrupt frames -----

    method PushInterruptFrame(ret: u64) returns (ok: bool)
      requires Valid()
      modifies this`sp, this`ksp, this`priv, this`onKernelStack, memory.bytes
      ensures Valid()
      ensures ok == CanPushFrame(old(View()))
      ensures View() == if ok then PushFrame(old(View()), ret) else old(View())
    {
      var interruptedSp, base := sp, sp;
      if priv.User? {
        if !PointerOk(interruptedSp, USER_STACK_BASE, USER_STACK_END) {
          return false;
        }
        base := ksp;
        ok := PushSlotsAt(base, KERNEL_STACK_BASE, KERNEL_STACK_END, FRAME_SLOTS);
        if !ok {
          return false;
        }
      } else {
        ok := PushSlotsOk(FRAME_SLOTS);
        if !ok {
          return false;
        }
      }
      ghost var before := memory.bytes[..];
      WriteFrame(base, FrameOf(View(), ret));
      var fromUser := priv.User?;
      sp := base + FRAME_SIZE;
      priv := Kernel;
      if fromUser {
        onKernelStack := true;
      }
      if onKernelStack {
        ksp := sp;
      }
      return true;
    }

    // The four slot writes of pushInterruptFrame.
    method WriteFrame(base: nat, f: Frame)
      requires Valid() && base + FRAME_SIZE <= MEMORY_SIZE
      modifies memory.bytes
      ensures Valid() && memory.bytes[..] == WithFrame(old(memory.bytes[..]), base, f)
    {
      ghost var m0 := memory.bytes[..];
      var ok := memory.Write(base, f.ret);
      ghost var m1 := memory.bytes[..];
      ok := memory.Write(base + 8, f.flags);
      ghost var m2 := memory.bytes[..];
      ok := memory.Write(base + 16, f.priv);
      ghost var m3 := memory.bytes[..];
      ok := memory.Write(base + 24, f.sp);
      InterruptFrames.FourSlots(m0, base, f, m1, m2, m3);
    }

    method ReadFrame() returns (f: Frame)
      requires Valid() && CanPop(View(), FRAME_SLOTS)
      ensures f == TopFrame(View())
    {
      var base := sp - FRAME_SIZE;
      var ret := memory.Read(base);
      var savedFlags := memory.Read(base + 8);
      var savedPriv := memory.Read(base + 16);
      var savedSp := memory.Read(base + 24);
      f := Frame(ret.value, savedFlags.value, savedPriv.value, savedSp.value);
    }

    method RestoreInterruptFrame(allowUserEnd: bool) returns (ok: bool)
      requires Valid()
      modifies this`flags, this`priv, this`pc, this`sp, this`ksp, this`onKernelStack
      ensures Valid()
      ensures var o := RestoreFrame(Config(), old(View()), allowUserEnd); View() == o.s && ok == o.Next?
    {
      hide TopFrame, UnpackFlags, SavedSpOk;
      ok := PopSlotsOk(FRAME_SLOTS);
      if !ok {
        return false;
      }
      var base := sp - FRAME_SIZE;
      var f := ReadFrame();
      var p := PrivilegeFromRaw(f.priv);
      if p.Err? || f.ret < 0 || f.sp < 0 {
        return false;
      }
      var toUserEnd := allowUserEnd && p.value.User? && range.Some? && f.ret == range.value.end;
      if !toUserEnd {
        ok := RequireExecution(f.ret, p.value);
        if !ok {
          return false;
        }
      }
      if !SavedSpOk(View(), f.sp, p.value) {
        return false;
      }
      flags := UnpackFlags(flags, f.flags);
      priv := p.value;
      pc := f.ret;
      if priv.User? {
        if onKernelStack {
          ksp := base;
        }
        onKernelStack := false;
        sp := f.sp;
        return true;
      }
      sp := f.sp;
      if onKernelStack {
        ksp := f.sp;
      }
      return true;
    }

    // ----- Instructions -----

    method ExecuteMove(op: Opcode, dst: Arg, src: Arg) returns (ok: bool)
      requires Valid() && (op == MOV || op == LOAD)
      modifies this, registers
      ensures Valid()
      ensures var o := ExecData(Config(), old(View()), op, dst, src); View() == o.s && ok == o.Next?
    {
      if !TwoOperands(dst, src) || !dst.RegArg? {
        return false;
      }
      if op == LOAD {
        var address := ReadMemoryAddress(src);
        if address.Err? {
          return false;
        }
      }
      var v := ReadOperandValue(src);
      if v.Err? {
        return false;
      }
      SetRegister(dst.r, v.value);
      UpdateZeroAndSign(v.value);
      AdvancePcUnlessHalted();
      return true;
    }

    method ExecuteStore(dst: Arg, src: Arg) returns (ok: bool)
      requires Valid()
      modifies this, memory.bytes
      ensures Valid()
      ensures var o := ExecStore(Config(), old(View()), dst, src); View() == o.s && ok == o.Next?
    {
      if !TwoOperands(dst, src) {
        return false;
      }
      var address := ReadMemoryAddress(dst);
      if address.Err? {
        return false;
      }
      var v := ReadOperandValue(src);
      if v.Err? {
        return false;
      }
      ok := WriteDataMemory(address.value, v.value);
      if ok {
        UpdateZeroAndSign(v.value);
        AdvancePcUnlessHalted();
      }
    }

    // executeAdd, executeSub, executeMul, executeDiv, executeAnd, executeOr, executeXor
    method ExecuteBinaryOp(op: Opcode, dst: Arg, src: Arg) returns (ok: bool)
      requires Valid() && IsBinaryOp(op)
      modifies this, registers
      ensures Valid()
      ensures var o := ExecBinaryOp(Config(), old(View()), op, dst, src); View() == o.s && ok == o.Next?
    {
      hide Compute;
      if !TwoOperands(dst, src) || !dst.RegArg? {
        return false;
      }
      var lhs := registers[dst.r];
      var rhs := ReadOperandValue(src);
      if rhs.Err? {
        return false;
      }
      var result := Compute(op, lhs, rhs.value);
      if result.Err? {
        return false;
      }
      SetRegister(dst.r, result.value.value);
      ApplyResult(result.value);
      AdvancePcUnlessHalted();
      return true;
    }

    method ExecuteNot(dst: Arg, src: Arg) returns (ok: bool)
      requires Valid()
      modifies this, registers
      ensures Valid()
      ensures var o := ExecNot(Config(), old(View()), dst, src); View() == o.s && ok == o.Next?
    {
      if !OneOperand(dst, src) || !dst.RegArg? {
        return false;
      }
      var result := Alu.BitNot(registers[dst.r]);
      SetRegister(dst.r, result.value);
      ApplyResult(result);
      AdvancePcUnlessHalted();
      return true;
    }

    method ExecuteCompare(op: Opcode, dst: Arg, src: Arg) returns (ok: bool)
      requires Valid()
      modifies this
      ensures Valid()
      ensures var o := ExecCompare(Config(), old(View()), op, dst, src); View() == o.s && ok == o.Next?
    {
      hide Alu.Compare, Alu.Test, ValueOf;
      if !TwoOperands(dst, src) {
        return false;
      }
      var lhs := ReadOperandValue(dst);
      if lhs.Err? {
        return false;
      }
      var rhs := ReadOperandValue(src);
      if rhs.Err? {
        return false;
      }
      ApplyResult(if op == CMP then Alu.Compare(lhs.value, rhs.value) else Alu.Test(lhs.value, rhs.value));
      AdvancePcUnlessHalted();
      return true;
    }

    // executeJmp, executeJe, executeJne, executeJg, executeJl
    method ExecuteBranch(op: Opcode, dst: Arg, src: Arg) returns (ok: bool)
      requires Valid()
      modifies this`pc
      ensures Valid()
      ensures var o := ExecBranch(Config(), old(View()), op, dst, src); View() == o.s && ok == o.Next?
    {
      if !OneOperand(dst, src) {
        return false;
      }
      if Taken(op, flags) {
        var target := Target(dst);
        if target.None? {
          return false;
        }
        ok := RequireExecution(target.value, priv);
        if !ok {
          return false;
        }
        pc := target.value;
      } else {
        AdvancePcUnlessHalted();
      }
      return true;
    }

    method ExecutePush(dst: Arg, src: Arg) returns (ok: bool)
      requires Valid()
      modifies this, memory.bytes
      ensures Valid()
      ensures var o := ExecPush(Config(), old(View()), dst, src); View() == o.s && ok == o.Next?
    {
      if !OneOperand(dst, src) {
        return false;
      }
      var v := ReadOperandValue(dst);
      if v.Err? {
        return false;
      }
      ok := PushOne(v.value);
      if ok {
        AdvancePcUnlessHalted();
      }
    }

    method ExecutePop(dst: Arg, src: Arg) returns (ok: bool)
      requires Valid()
      modifies this, registers
      ensures Valid()
      ensures var o := ExecPop(Config(), old(View()), dst, src); View() == o.s && ok == o.Next?
    {
      if !OneOperand(dst, src) || !dst.RegArg? {
        return false;
      }
      var v := PopOne();
      if v.Err? {
        return false;
      }
      SetRegister(dst.r, v.value);
      UpdateZeroAndSign(v.value);
      AdvancePcUnlessHalted();
      return true;
    }

    method ExecuteCall(dst: Arg, src: Arg) returns (ok: bool)
      requires Valid()
      modifies this, memory.bytes
      ensures Valid()
      ensures var o := ExecCall(Config(), old(View()), dst, src); View() == o.s && ok == o.Next?
    {
      if !OneOperand(dst, src) || Target(dst).None? {
        return false;
      }
      var target := Target(dst).value;
      var ret := AddSize(pc, Width(image));
      ok := RequireExecution(target, priv);
      if !ok {
        return false;
      }
      ok := RequireExecution(ret, priv);
      if !ok {
        return false;
      }
      ok := PushOne(ToI64(ret));
      if ok {
        pc := target;
      }
    }

    method ExecuteRet(dst: Arg, src: Arg) returns (ok: bool)
      requires Valid()
      modifies this
      ensures Valid()
      ensures var o := ExecRet(Config(), old(View()), dst, src); View() == o.s && ok == o.Next?
    {
      if !NoOperands(dst, src) {
        return false;
      }
      ok := PopSlotsOk(1);
      if !ok {
        return false;
      }
      var ret := memory.Read(sp - SLOT);
      if ret.value < 0 {
        return false;
      }
      ok := RequireExecution(ret.value, priv);
      if !ok {
        return false;
      }
      var popped := PopOne();
      pc := ret.value;
      return true;
    }

    // A handler is any function of the architectural state; this stores what it left.
    method AdoptHandlerState(h: State)
      requires Valid()
      modifies this`flags, this`priv, this`pc, this`sp, this`halted, this`error, this`dev, registers, memory.bytes
      ensures Valid() && View() == AfterHandler(old(View()), h)
    {
      for i := 0 to 8
        invariant registers[..i] == h.regs[..i]
      {
        registers[i] := h.regs[i];
      }
      assert registers[..] == h.regs;
      for i := 0 to MEMORY_SIZE
        invariant memory.bytes.Length == MEMORY_SIZE && memory.bytes[..i] == h.mem[..i]
        invariant registers[..] == h.regs
      {
        memory.bytes[i] := h.mem[i];
      }
      assert memory.bytes[..] == h.mem;
      flags, priv, pc, sp, halted, error, dev := h.flags, h.priv, h.pc, h.sp, h.halted, h.error, h.dev;
    }

    method ServiceHost(vector: byte, ret: u64) returns (ok: bool)
      requires Valid()
      modifies this, registers, memory.bytes
      ensures Valid()
      ensures var o := HostService(Config(), old(View()), vector, ret); View() == o.s && ok == o.Next?
    {
      hide RestoreFrame, PushFrame;
      ok := PushInterruptFrame(ret);
      if !ok {
        return false;
      }
      SetRegister(0, vector);
      var result := bus.handle(vector, View());
      AdoptHandlerState(result.s);
      if result.HandlerThrew? {
        var restored := RestoreInterruptFrame(false);
        return false;
      }
      ok := RestoreInterruptFrame(result.terminate);
      if ok && result.terminate {
        exit := Some(result.exitCode);
        halted := true;
      }
    }

    method ExecuteInt(dst: Arg, src: Arg) returns (ok: bool)
      requires Valid()
      modifies this, registers, memory.bytes
      ensures Valid()
      ensures var o := ExecInt(Config(), old(View()), dst, src); View() == o.s && ok == o.Next?
    {
      hide HostService, PushFrame;
      if !OneOperand(dst, src) || !hasController {
        return false;
      }
      var v := ReadOperandValue(dst);
      if v.Err? || v.value < 0 || v.value > 255 {
        return false;
      }
      var ret := AddSize(pc, Width(image));
      if bus.handles(v.value) {
        ok := ServiceHost(v.value, ret);
        return;
      }
      var handler := dev.controller.handlers[v.value];
      if handler.None? || !IsLoaded(image, handler.value) {
        return false;
      }
      ok := PushInterruptFrame(ret);
      if ok {
        SetRegister(0, v.value);
        pc := handler.value;
      }
    }

    method ExecuteSystem(op: Opcode, dst: Arg, src: Arg) returns (ok: bool)
      requires Valid()
      modifies this
      ensures Valid()
      ensures var o := ExecSystem(Config(), old(View()), op, dst, src); View() == o.s && ok == o.Next?
    {
      hide ExecEnable;
      EnableNeedsNoOperands(Config(), View(), true, dst, src);
      EnableNeedsNoOperands(Config(), View(), false, dst, src);
      if !NoOperands(dst, src) {
        return false;
      }
      if op == HALT {
        halted := true;
        return true;
      }
      if op == EI || op == DI {
        ok := ExecuteEnable(op == EI);
        return;
      }
      if op == NOP {
        AdvancePcUnlessHalted();
        return true;
      }
      return false;
    }

    // executeEi, executeDi
    method ExecuteEnable(on: bool) returns (ok: bool)
      requires Valid()
      modifies this
      ensures Valid()
      ensures var o := ExecEnable(Config(), old(View()), on, NoArg(true), NoArg(true)); View() == o.s && ok == o.Next?
    {
      if !hasController {
        return false;
      }
      dev := dev.(controller := dev.controller.(enabled := on));
      AdvancePcUnlessHalted();
      return true;
    }

    method ExecuteData(op: Opcode, dst: Arg, src: Arg) returns (ok: bool)
      requires Valid() && IsData(op)
      modifies this, registers, memory.bytes
      ensures Valid()
      ensures var o := ExecData(Config(), old(View()), op, dst, src); View() == o.s && ok == o.Next?
    {
      hide ExecStore, ExecNot, ExecCompare;
      match op
      case MOV | LOAD => ok := ExecuteMove(op, dst, src);
      case STORE => ok := ExecuteStore(dst, src);
      case NOT => ok := ExecuteNot(dst, src);
      case CMP | TEST => ok := ExecuteCompare(op, dst, src);
    }

    method ExecuteStack(op: Opcode, dst: Arg, src: Arg) returns (ok: bool)
      requires Valid() && IsStack(op)
      modifies this, registers, memory.bytes
      ensures Valid()
      ensures var o := ExecStack(Config(), old(View()), op, dst, src); View() == o.s && ok == o.Next?
    {
      hide ExecPush, ExecPop, ExecCall, ExecRet;
      match op
      case PUSH => ok := ExecutePush(dst, src);
      case POP => ok := ExecutePop(dst, src);
      case CALL => ok := ExecuteCall(dst, src);
      case RET => ok := ExecuteRet(dst, src);
    }

    method ExecuteIret(dst: Arg, src: Arg) returns (ok: bool)
      requires Valid()
      modifies this
      ensures Valid()
      ensures var o := ExecReturn(Config(), old(View()), dst, src); View() == o.s && ok == o.Next?
    {
      hide RestoreFrame;
      if !NoOperands(dst, src) {
        return false;
      }
      ok := RestoreInterruptFrame(false);
    }

    static lemma DispatchCases(c: Setup, s: State, op: Opcode, dst: Arg, src: Arg)
      ensures Exec(c, s, op, dst, src)
           == if s.priv.User? && NeedsKernel(op) then Fault(s)
              else if IsData(op) then ExecData(c, s, op, dst, src)
              else if IsBinaryOp(op) then ExecBinaryOp(c, s, op, dst, src)
              else if IsBranch(op) then ExecBranch(c, s, op, dst, src)
              else if IsStack(op) then ExecStack(c, s, op, dst, src)
              else if op == INT then ExecInt(c, s, dst, src)
              else if op == IRET then ExecReturn(c, s, dst, src)
              else ExecSystem(c, s, op, dst, src)
    {
      hide ExecData, ExecStack, ExecBinaryOp, ExecBranch, ExecReturn, ExecSystem, ExecInt;
      hide IsData, IsBinaryOp, IsBranch, IsStack, NeedsKernel;
    }

    method Execute(op: Opcode, dst: Arg, src: Arg) returns (ok: bool)
      requires Valid()
      modifies this, registers, memory.bytes
      ensures Valid()
      ensures var o := Exec(Config(), old(View()), op, dst, src); View() == o.s && ok == o.Next?
    {
      var refused := priv.User? && NeedsKernel(op);
      DispatchCases(Config(), View(), op, dst, src);
      hide Exec, ExecData, ExecStack, ExecBinaryOp, ExecBranch, ExecReturn, ExecSystem, ExecInt, IsData, IsStack,
        IsBinaryOp,
        IsBranch, NeedsKernel, View;
      if refused {
        ok := false;
      } else if IsData(op) {
        ok := ExecuteData(op, dst, src);
      } else if IsBinaryOp(op) {
        ok := ExecuteBinaryOp(op, dst, src);
      } else if IsBranch(op) {
        ok := ExecuteBranch(op, dst, src);
      } else if IsStack(op) {
        ok := ExecuteStack(op, dst, src);
      } else if op == INT {
        ok := ExecuteInt(dst, src);
      } else if op == IRET {
        ok := ExecuteIret(dst, src);
      } else {
        ok := ExecuteSystem(op, dst, src);
      }
    }

    // ----- The two interpreters -----

    /** execute, on a decoded instruction. */
    method ExecuteInstruction(i: Instruction) returns (ok: bool)
      requires Valid() && image.Vector?
      modifies this, registers, memory.bytes
      ensures Valid()
      ensures var o := Interpreters.ExecuteVector(Config(), image.program, image.labels, old(View()), i);
              View() == o.s && ok == o.Next?
    {
      hide Exec, Interpreters.ExecuteVector, ArgOfOperand;
      Interpreters.VectorIsExec(Config(), image.program, image.labels, View(), i);
      ok := Execute(i.opcode, ArgOfOperand(image.labels, i.dst), ArgOfOperand(image.labels, i.src));
    }

    /** executeBinaryInstruction, on fields the trace could render. */
    method ExecuteBinaryInstruction(d: Decoded) returns (ok: bool)
      requires Valid() && image.Binary? && !Interpreters.Unusable(d.dst) && !Interpreters.Unusable(d.src)
      modifies this, registers, memory.bytes
      ensures Valid()
      ensures var o := Interpreters.ExecuteBinary(Config(), image.base, image.size, old(View()), d);
              View() == o.s && ok == o.Next?
    {
      hide Exec, Interpreters.ExecuteBinary, InCode;
      var dst, src := ArgOfField(image.base, image.size, d.dst), ArgOfField(image.base, image.size, d.src);
      Interpreters.BinaryIsExec(Config(), image.base, image.size, View(), d);
      ok := Execute(d.opcode, dst, src);
    }

    // The vector branch of step(), up to the device tick.
    method StepVector() returns (ok: bool)
      requires Valid() && image.Vector?
      modifies this, registers, memory.bytes
      ensures Valid()
      ensures var o := ExecCurrent(Config(), old(View())); View() == o.s && ok == o.Next?
    {
      hide ExecCurrent, MayExecute, Interpreters.ExecuteVector;
      Interpreters.VectorStepBody(Config(), image.program, image.labels, View());
      ok := RequireExecution(pc, priv);
      if !ok {
        return false;
      }
      if pc >= |image.program| {
        return false;
      }
      ok := ExecuteInstruction(image.program[pc]);
    }

    // The binary branch: protection, fetch, decoding and trace rendering, then the instruction.
    method StepBinary() returns (ok: bool)
      requires Valid() && image.Binary?
      modifies this, registers, memory.bytes
      ensures Valid()
      ensures var o := ExecCurrent(Config(), old(View())); View() == o.s && ok == o.Next?
    {
      hide ExecCurrent, MayExecute, InCode, DecodeInstruction, Interpreters.ExecuteBinary, Interpreters.Unusable;
      Interpreters.BinaryStepBody(Config(), image.base, image.size, View());
      ok := RequireExecution(pc, priv);
      if !ok {
        return false;
      }
      if !InCode(image.base, image.size, pc) {
        return false;
      }
      var bytes := memory.ReadBytes(pc, INSTRUCTION_SIZE);
      if bytes.Err? {
        return false;
      }
      assert bytes.value == View().mem[pc..pc + INSTRUCTION_SIZE];
      var d := DecodeInstruction(bytes.value);
      if d.Err? {
        return false;
      }
      if Interpreters.Unusable(d.value.dst) || Interpreters.Unusable(d.value.src) {
        return false;
      }
      ok := ExecuteBinaryInstruction(d.value);
    }

    // ----- Steps and runs -----

    method SetRuntimeError()
      requires Valid()
      modifies this`error, this`halted
      ensures Valid() && View() == Failed(old(View()))
    {
      error := true;
      halted := true;
    }

    method ServicePending() returns (ok: bool)
      requires Valid() && InterruptDue(Config(), View())
      modifies this, registers, memory.bytes
      ensures Valid()
      ensures var o := ServiceInterrupt(Config(), old(View())); View() == o.s && ok == o.Next?
    {
      hide PushFrame;
      var k := FindDeliverable(dev.controller);
      var request := dev.controller.pending[k];
      dev := dev.(controller := Take(dev.controller, k));
      var handler := dev.controller.handlers[request.vector].value;
      if !IsLoaded(image, handler) {
        return false;
      }
      ok := PushInterruptFrame(pc);
      if ok {
        SetRegister(0, request.vector);
        SetRegister(1, request.payload);
        pc := handler;
      }
    }

    method TickClockedDevices() returns (ok: bool)
      requires Valid()
      modifies this`dev
      ensures Valid()
      ensures var r := Tick(bus.clocked, old(dev)); View() == old(View()).(dev := r.dev) && ok == r.Done?
    {
      for i := 0 to |bus.clocked|
        invariant Valid() && View() == old(View()).(dev := dev)
        invariant Tick(bus.clocked[i..], dev) == Tick(bus.clocked, old(dev))
      {
        assert bus.clocked[i..][0] == bus.clocked[i] && bus.clocked[i..][1..] == bus.clocked[i + 1..];
        var r := bus.clocked[i](dev);
        dev := r.dev;
        if r.Threw? {
          return false;
        }
      }
      return true;
    }

    method StepOnce()
      requires Valid()
      modifies this, registers, memory.bytes
      ensures Valid() && View() == Step(Config(), old(View()))
    {
      hide ExecCurrent, ServiceInterrupt;
      if halted || error {
        return;
      }
      if hasController && HasPending(dev.controller) {
        var serviced := ServicePending();
        if !serviced {
          SetRuntimeError();
        }
        return;
      }
      var ok;
      if image.Binary? {
        ok := StepBinary();
      } else {
        ok := StepVector();
      }
      if ok && !halted && !error {
        ok := TickClockedDevices();
      }
      if !ok {
        SetRuntimeError();
      }
    }

    method RunUpTo(maxSteps: nat)
      requires Valid()
      modifies this, registers, memory.bytes
      ensures Valid() && View() == Run(Config(), old(View()), maxSteps)
    {
      hide Step;
      var count := 0;
      while !halted && !error && count < maxSteps
        invariant Valid() && count <= maxSteps
        invariant Run(Config(), View(), maxSteps - count) == Run(Config(), old(View()), maxSteps)
        decreases maxSteps - count
      {
        StepOnce();
        count := count + 1;
      }
      if !halted && !error && count >= maxSteps {
        SetRuntimeError();
      }
    }
  }

  lemma EnableNeedsNoOperands(c: Setup, s: State, on: bool, dst: Arg, src: Arg)
    ensures !NoOperands(dst, src) ==> ExecEnable(c, s, on, dst, src) == Fault(s)
  {
  }
}

// What an instruction can change, and what a fault leaves behind.
module Effects {
  import opened Words
  import opened Isa
  import opened Interrupts
  import opened Memory
  import opened MemoryMap
  import opened Machine
  import opened Iteration
  import Alu

  /** Memory agrees outside [lo, hi). */
  ghost predicate SameOutside(m: Ram, m': Ram, lo: int, hi: int) {
    forall k :: 0 <= k < MEMORY_SIZE && !(lo <= k < hi) ==> m'[k] == m[k]
  }

  /** Fields that only interrupt entry, interrupt return and host calls change. */
  predicate SameRegime(s: State, t: State) {
    && t.priv == s.priv && t.onKernelStack == s.onKernelStack
    && t.range == s.range && t.exit == s.exit && t.error == s.error
    && t.flags.spare == s.flags.spare
  }

  predicate SpMoved(s: State, t: State, sp: int) {
    t.sp == sp && t.ksp == if s.onKernelStack then sp else s.ksp
  }

  predicate SpKept(s: State, t: State) {
    t.sp == s.sp && t.ksp == s.ksp
  }

  /** STORE reaches either a device or eight bytes of RAM that the mode may touch. */
  ghost predicate Stored(c: Setup, s: State, t: State, address: u64) {
    && MayAccess(s, address)
    && if c.bus.mapped(address) then t.mem == s.mem
       else InRange(s.mem, address, 8) && SameOutside(s.mem, t.mem, address, address + 8)
  }

  /** The footprint of an instruction other than INT and IRET. */
  ghost predicate Footprint(c: Setup, s: State, op: Opcode, dst: Arg, t: State) {
    && SameRegime(s, t)
    && match op
       case PUSH | CALL =>
         CanPush(s, 1) && SpMoved(s, t, s.sp + SLOT) && SameOutside(s.mem, t.mem, s.sp, s.sp + SLOT)
       case POP | RET =>
         CanPop(s, 1) && SpMoved(s, t, s.sp - SLOT) && t.mem == s.mem
       case STORE =>
         SpKept(s, t) && AddressOf(s, dst).Ok? && Stored(c, s, t, AddressOf(s, dst).value)
       case _ =>
         SpKept(s, t) && t.mem == s.mem
  }

  predicate Ordinary(op: Opcode) {
    op != INT && op != IRET
  }

  ghost predicate NoDevices(bus: Bus) {
    forall a: u64 :: !bus.mapped(a)
  }

  /** A fault changes no architectural state: at most a device that was reached. */
  ghost predicate FaultKeeps(c: Setup, s: State, t: State) {
    t == s.(dev := t.dev) && (NoDevices(c.bus) ==> t.dev == s.dev)
  }

  ghost predicate Bounded(c: Setup, s: State, op: Opcode, dst: Arg, o: Outcome) {
    if o.Fault? then FaultKeeps(c, s, o.s) else Footprint(c, s, op, dst, o.s)
  }

  lemma MoveFootprint(c: Setup, s: State, op: Opcode, dst: Arg, src: Arg)
    requires op == MOV || op == LOAD
    ensures Bounded(c, s, op, dst, ExecMove(c, s, dst, src))
  {
  }

  lemma WriteFootprint(c: Setup, s: State, address: u64, v: i64)
    ensures match WriteData(c, s, address, v)
            case Fault(t) => FaultKeeps(c, s, t)
            case Next(t) => t == s.(dev := t.dev, mem := t.mem) && Stored(c, s, t, address)
  {
  }

  lemma StoreFootprint(c: Setup, s: State, dst: Arg, src: Arg)
    ensures Bounded(c, s, STORE, dst, ExecStore(c, s, dst, src))
  {
    if TwoOperands(dst, src) && AddressOf(s, dst).Ok? {
      var v, a := ValueOf(c, s, src), AddressOf(s, dst).value;
      if v.Value? {
        WriteFootprint(c, s.(dev := v.dev), a, v.value);
      }
    }
  }

  lemma SetResultFootprint(c: Setup, s: State, op: Opcode, dst: Arg, dev: Devices, result: Alu.AluResult)
    requires (IsBinaryOp(op) || op == NOT) && dst.RegArg?
    ensures Footprint(c, s, op, dst, SetResult(c, s.(dev := dev), dst.r, result))
  {
  }

  lemma AluFootprint(c: Setup, s: State, op: Opcode, dst: Arg, src: Arg)
    requires IsBinaryOp(op)
    ensures Bounded(c, s, op, dst, ExecBinaryOp(c, s, op, dst, src))
  {
    if TwoOperands(dst, src) && dst.RegArg? {
      var v := ValueOf(c, s, src);
      if v.Value? {
        var r := Compute(op, s.regs[dst.r], v.value);
        if r.Ok? {
          SetResultFootprint(c, s, op, dst, v.dev, r.value);
        }
      }
    }
  }

  lemma CompareWithFootprint(c: Setup, s: State, op: Opcode, dst: Arg, dev: Devices, lhs: i64, rhs: Loaded)
    requires op == CMP || op == TEST
    ensures var o := CompareWith(c, s.(dev := dev), op, lhs, rhs);
            if o.Fault? then o.s == s.(dev := rhs.dev) else Footprint(c, s, op, dst, o.s)
  {
    hide Alu.Compare, Alu.Test;
  }

  lemma CompareFootprint(c: Setup, s: State, op: Opcode, dst: Arg, src: Arg)
    requires op == CMP || op == TEST
    ensures Bounded(c, s, op, dst, ExecCompare(c, s, op, dst, src))
  {
    hide CompareWith;
    var x := ValueOf(c, s, dst);
    if x.Value? {
      CompareWithFootprint(c, s, op, dst, x.dev, x.value, ValueOf(c, s.(dev := x.dev), src));
    }
  }

  lemma NotFootprint(c: Setup, s: State, dst: Arg, src: Arg)
    ensures Bounded(c, s, NOT, dst, ExecNot(c, s, dst, src))
  {
    if OneOperand(dst, src) && dst.RegArg? {
      SetResultFootprint(c, s, NOT, dst, s.dev, Alu.BitNot(s.regs[dst.r]));
    }
  }

  lemma DataFootprint(c: Setup, s: State, op: Opcode, dst: Arg, src: Arg)
    requires IsData(op)
    ensures Bounded(c, s, op, dst, ExecData(c, s, op, dst, src))
  {
    hide ExecMove, ExecStore, ExecNot, ExecCompare;
    if op == MOV || op == LOAD {
      MoveFootprint(c, s, op, dst, src);
    } else if op == STORE {
      StoreFootprint(c, s, dst, src);
    } else if op == NOT {
      NotFootprint(c, s, dst, src);
    } else {
      CompareFootprint(c, s, op, dst, src);
    }
  }

  lemma BranchFootprint(c: Setup, s: State, op: Opcode, dst: Arg, src: Arg)
    requires IsBranch(op)
    ensures Bounded(c, s, op, dst, ExecBranch(c, s, op, dst, src))
  {
  }

  lemma StackFootprint(c: Setup, s: State, op: Opcode, dst: Arg, src: Arg)
    requires IsStack(op)
    ensures Bounded(c, s, op, dst, ExecStack(c, s, op, dst, src))
  {
    hide Bounded, ExecPush, ExecPop, ExecCall, ExecRet;
    if op == PUSH {
      PushFootprint(c, s, dst, src);
    } else if op == POP {
      PopFootprint(c, s, dst, src);
    } else if op == CALL {
      CallFootprint(c, s, dst, src);
    } else {
      RetFootprint(c, s, dst, src);
    }
  }

  lemma PushFootprint(c: Setup, s: State, dst: Arg, src: Arg)
    ensures Bounded(c, s, PUSH, dst, ExecPush(c, s, dst, src))
  {
    hide AddressOf, RoomAt;
  }

  lemma PopFootprint(c: Setup, s: State, dst: Arg, src: Arg)
    ensures Bounded(c, s, POP, dst, ExecPop(c, s, dst, src))
  {
  }

  lemma CallFootprint(c: Setup, s: State, dst: Arg, src: Arg)
    ensures Bounded(c, s, CALL, dst, ExecCall(c, s, dst, src))
  {
  }

  lemma RetFootprint(c: Setup, s: State, dst: Arg, src: Arg)
    ensures Bounded(c, s, RET, dst, ExecRet(c, s, dst, src))
  {
  }

  lemma SystemFootprint(c: Setup, s: State, op: Opcode, dst: Arg, src: Arg)
    requires op in {NOP, HALT, EI, DI, Invalid}
    ensures Bounded(c, s, op, dst, ExecSystem(c, s, op, dst, src))
  {
  }

  lemma FaultBounded(c: Setup, s: State, op: Opcode, dst: Arg)
    ensures Bounded(c, s, op, dst, Fault(s))
  {
  }

  lemma ExecDispatch(c: Setup, s: State, op: Opcode, dst: Arg, src: Arg)
    requires Ordinary(op)
    ensures var o := Exec(c, s, op, dst, src);
            || o == Fault(s)
            || if IsData(op) then o == ExecData(c, s, op, dst, src)
               else if IsBinaryOp(op) then o == ExecBinaryOp(c, s, op, dst, src)
               else if IsBranch(op) then o == ExecBranch(c, s, op, dst, src)
               else if IsStack(op) then o == ExecStack(c, s, op, dst, src)
               else op in {NOP, HALT, EI, DI, Invalid} && o == ExecSystem(c, s, op, dst, src)
  {
    hide ExecData, ExecBinaryOp, ExecBranch, ExecStack, ExecSystem, ExecInt, ExecReturn;
  }

  lemma SystemOps(op: Opcode)
    ensures Ordinary(op) && !IsData(op) && !IsBinaryOp(op) && !IsBranch(op) && !IsStack(op) ==>
              op in {NOP, HALT, EI, DI, Invalid}
  {
  }

  lemma ExecIsBounded(c: Setup, s: State, op: Opcode, dst: Arg, src: Arg)
    requires Ordinary(op)
    ensures Bounded(c, s, op, dst, Exec(c, s, op, dst, src))
  {
    FaultBounded(c, s, op, dst);
    ExecDispatch(c, s, op, dst, src);
    SystemOps(op);
    hide *;
    if IsData(op) {
      DataFootprint(c, s, op, dst, src);
    } else if IsBinaryOp(op) {
      AluFootprint(c, s, op, dst, src);
    } else if IsBranch(op) {
      BranchFootprint(c, s, op, dst, src);
    } else if IsStack(op) {
      StackFootprint(c, s, op, dst, src);
    } else {
      SystemFootprint(c, s, op, dst, src);
    }
  }

  // ----- What is written, kind by kind -----

  predicate WritesRegister(op: Opcode) {
    op == MOV || op == LOAD || op == POP || op == NOT || IsBinaryOp(op)
  }

  /** The value operand `a` has at s, or 0 where it has none. */
  function Reads(c: Setup, s: State, a: Arg): i64 {
    match ValueOf(c, s, a)
    case Value(_, v) => v
    case LoadFault(_) => 0
  }

  /** The second operand of CMP and TEST is read after the first. */
  function ReadsSecond(c: Setup, s: State, first: Arg, second: Arg): i64 {
    Reads(c, s.(dev := ValueOf(c, s, first).dev), second)
  }

  /** One register at most, and only the destination; what it gets is the value moved, popped or computed. */
  predicate RegisterEffect(c: Setup, s: State, op: Opcode, dst: Arg, src: Arg, t: State) {
    if !WritesRegister(op) then t.regs == s.regs
    else
      && dst.RegArg?
      && t.regs == s.regs[dst.r := t.regs[dst.r]]
      && (op == MOV || op == LOAD ==> t.regs[dst.r] == Reads(c, s, src))
      && (op == POP ==> CanPop(s, 1) && t.regs[dst.r] == Top(s))
      && (IsBinaryOp(op) ==>
            var r := Compute(op, s.regs[dst.r], Reads(c, s, src));
            r.Ok? && t.regs[dst.r] == r.value.value)
      && (op == NOT ==> t.regs[dst.r] == Alu.BitNot(s.regs[dst.r]).value)
  }

  /** Flags follow the value moved or stored, or the ALU result; every other instruction leaves them. */
  predicate FlagEffect(c: Setup, s: State, op: Opcode, dst: Arg, src: Arg, t: State) {
    if op == MOV || op == LOAD || op == STORE then t.flags == WithZeroSign(s.flags, Reads(c, s, src))
    else if op == POP then CanPop(s, 1) && t.flags == WithZeroSign(s.flags, Top(s))
    else if IsBinaryOp(op) then
      && dst.RegArg?
      && var r := Compute(op, s.regs[dst.r], Reads(c, s, src)); r.Ok? && t.flags == WithResult(s.flags, r.value)
    else if op == NOT then dst.RegArg? && t.flags == WithResult(s.flags, Alu.BitNot(s.regs[dst.r]))
    else if op == CMP then t.flags == WithResult(s.flags, Alu.Compare(Reads(c, s, dst), ReadsSecond(c, s, dst, src)))
    else if op == TEST then t.flags == WithResult(s.flags, Alu.Test(Reads(c, s, dst), ReadsSecond(c, s, dst, src)))
    else t.flags == s.flags
  }

  /** The pc advances by one instruction, or goes to an executable target or return address. */
  predicate PcEffect(c: Setup, s: State, op: Opcode, dst: Arg, t: State) {
    if op == CALL || (IsBranch(op) && Taken(op, s.flags)) then
      Target(dst) == Some(t.pc) && MayExecute(c, s, t.pc, s.priv)
    else if op == RET then CanPop(s, 1) && Top(s) == t.pc && MayExecute(c, s, t.pc, s.priv)
    else if op == HALT then t.pc == s.pc
    else t.pc == Advance(c, s).pc
  }

  /** Eight bytes of memory at most: the value stored or pushed, or the return address of a call. */
  predicate MemoryEffect(c: Setup, s: State, op: Opcode, dst: Arg, src: Arg, t: State) {
    if op == PUSH then CanPush(s, 1) && t.mem == Write64(s.mem, s.sp, Reads(c, s, dst))
    else if op == CALL then CanPush(s, 1) && t.mem == Write64(s.mem, s.sp, ToI64(AddSize(s.pc, Width(c.image))))
    else if op == STORE then
      && AddressOf(s, dst).Ok?
      && var a := AddressOf(s, dst).value;
         if c.bus.mapped(a) then t.mem == s.mem
         else InRange(s.mem, a, 8) && t.mem == Write64(s.mem, a, Reads(c, s, src))
    else t.mem == s.mem
  }

  predicate Writes(c: Setup, s: State, op: Opcode, dst: Arg, src: Arg, t: State) {
    && RegisterEffect(c, s, op, dst, src, t) && FlagEffect(c, s, op, dst, src, t)
    && PcEffect(c, s, op, dst, t) && MemoryEffect(c, s, op, dst, src, t)
    && t.halted == (s.halted || op == HALT)
  }

  predicate Written(c: Setup, s: State, op: Opcode, dst: Arg, src: Arg, o: Outcome) {
    o.Next? ==> Writes(c, s, op, dst, src, o.s)
  }

  lemma MoveWrites(c: Setup, s: State, op: Opcode, dst: Arg, src: Arg)
    requires op == MOV || op == LOAD
    ensures Written(c, s, op, dst, src, ExecMove(c, s, dst, src))
  {
    hide ValueOf;
  }

  /** What WriteData leaves behind when it succeeds. */
  predicate StoreResult(c: Setup, s: State, a: u64, v: i64, t: State) {
    && t == s.(dev := t.dev, mem := t.mem)
    && if c.bus.mapped(a) then t.mem == s.mem else InRange(s.mem, a, 8) && t.mem == Write64(s.mem, a, v)
  }

  lemma WriteDataResult(c: Setup, s: State, a: u64, v: i64)
    requires WriteData(c, s, a, v).Next?
    ensures StoreResult(c, s, a, v, WriteData(c, s, a, v).s)
  {
    hide Write64, MayAccess;
  }

  lemma StoreResultEffects(c: Setup, s: State, dst: Arg, src: Arg, t: State)
    requires AddressOf(s, dst).Ok? && ValueOf(c, s, src).Value?
    requires StoreResult(c, s.(dev := ValueOf(c, s, src).dev), AddressOf(s, dst).value, ValueOf(c, s, src).value, t)
    ensures var v := ValueOf(c, s, src).value;
            Writes(c, s, STORE, dst, src, Advance(c, t.(flags := WithZeroSign(t.flags, v))))
  {
    hide ValueOf, AddressOf, Write64;
  }

  lemma StoreWrites(c: Setup, s: State, dst: Arg, src: Arg)
    ensures Written(c, s, STORE, dst, src, ExecStore(c, s, dst, src))
  {
    hide ValueOf, AddressOf, WriteData, StoreResult, RegisterEffect, FlagEffect, PcEffect, MemoryEffect;
    if TwoOperands(dst, src) && AddressOf(s, dst).Ok? {
      var v, a := ValueOf(c, s, src), AddressOf(s, dst).value;
      if v.Value? {
        var o := WriteData(c, s.(dev := v.dev), a, v.value);
        if o.Next? {
          WriteDataResult(c, s.(dev := v.dev), a, v.value);
          StoreResultEffects(c, s, dst, src, o.s);
        }
      }
    }
  }

  lemma SetResultRegister(c: Setup, s: State, op: Opcode, dst: Arg, src: Arg, dev: Devices, r: Alu.AluResult)
    requires IsBinaryOp(op) && dst.RegArg? && Compute(op, s.regs[dst.r], Reads(c, s, src)) == Ok(r)
    ensures RegisterEffect(c, s, op, dst, src, SetResult(c, s.(dev := dev), dst.r, r))
  {
    hide Compute, Reads;
  }

  lemma SetResultWrites(c: Setup, s: State, op: Opcode, dst: Arg, src: Arg, dev: Devices, r: Alu.AluResult)
    requires IsBinaryOp(op) && dst.RegArg? && Compute(op, s.regs[dst.r], Reads(c, s, src)) == Ok(r)
    ensures Writes(c, s, op, dst, src, SetResult(c, s.(dev := dev), dst.r, r))
  {
    hide Compute, Reads, RegisterEffect;
    SetResultRegister(c, s, op, dst, src, dev, r);
  }

  lemma AluWrites(c: Setup, s: State, op: Opcode, dst: Arg, src: Arg)
    requires IsBinaryOp(op)
    ensures Written(c, s, op, dst, src, ExecBinaryOp(c, s, op, dst, src))
  {
    hide ValueOf, Compute, Writes, SetResult;
    var v := ValueOf(c, s, src);
    if dst.RegArg? && v.Value? {
      var r := Compute(op, s.regs[dst.r], v.value);
      if r.Ok? {
        SetResultWrites(c, s, op, dst, src, v.dev, r.value);
      }
    }
  }

  lemma NotWrites(c: Setup, s: State, dst: Arg, src: Arg)
    ensures Written(c, s, NOT, dst, src, ExecNot(c, s, dst, src))
  {
    hide Alu.BitNot;
  }

  lemma SetFlagsFlags(c: Setup, s: State, op: Opcode, dst: Arg, src: Arg, dev: Devices)
    requires op == CMP || op == TEST
    ensures var x, y := Reads(c, s, dst), ReadsSecond(c, s, dst, src);
            var r := if op == CMP then Alu.Compare(x, y) else Alu.Test(x, y);
            FlagEffect(c, s, op, dst, src, SetFlags(c, s.(dev := dev), r))
  {
    hide Reads, ReadsSecond, Alu.Compare, Alu.Test;
  }

  lemma SetFlagsWrites(c: Setup, s: State, op: Opcode, dst: Arg, src: Arg, dev: Devices)
    requires op == CMP || op == TEST
    ensures var x, y := Reads(c, s, dst), ReadsSecond(c, s, dst, src);
            var r := if op == CMP then Alu.Compare(x, y) else Alu.Test(x, y);
            Writes(c, s, op, dst, src, SetFlags(c, s.(dev := dev), r))
  {
    hide Reads, ReadsSecond, Alu.Compare, Alu.Test, FlagEffect;
    SetFlagsFlags(c, s, op, dst, src, dev);
  }

  lemma CompareWrites(c: Setup, s: State, op: Opcode, dst: Arg, src: Arg)
    requires op == CMP || op == TEST
    ensures Written(c, s, op, dst, src, ExecCompare(c, s, op, dst, src))
  {
    hide ValueOf, Alu.Compare, Alu.Test, Writes, SetFlags;
    var x := ValueOf(c, s, dst);
    if x.Value? {
      var y := ValueOf(c, s.(dev := x.dev), src);
      if y.Value? {
        SetFlagsWrites(c, s, op, dst, src, y.dev);
      }
    }
  }

  predicate LeavesData(op: Opcode) {
    IsBranch(op) || op == RET || op == NOP || op == HALT || op == EI || op == DI || op == Invalid
  }

  lemma LeavesDataIs(op: Opcode)
    requires LeavesData(op)
    ensures !WritesRegister(op) && !IsBinaryOp(op)
    ensures op != MOV && op != LOAD && op != STORE && op != POP && op != NOT && op != CMP && op != TEST
  {
  }

  lemma NoRegisterWritten(c: Setup, s: State, op: Opcode, dst: Arg, src: Arg, t: State)
    requires LeavesData(op) && t.regs == s.regs
    ensures RegisterEffect(c, s, op, dst, src, t)
  {
    LeavesDataIs(op);
    hide Reads, Compute, Top, CanPop, Alu.BitNot, WritesRegister, IsBinaryOp, LeavesData;
  }

  lemma NoFlagWritten(c: Setup, s: State, op: Opcode, dst: Arg, src: Arg, t: State)
    requires LeavesData(op) && t.flags == s.flags
    ensures FlagEffect(c, s, op, dst, src, t)
  {
    LeavesDataIs(op);
    hide Reads, ReadsSecond, Compute, Top, CanPop, WithZeroSign, WithResult, Alu.Compare, Alu.Test, Alu.BitNot,
      IsBinaryOp, LeavesData;
  }

  lemma NoMemoryWritten(c: Setup, s: State, op: Opcode, dst: Arg, src: Arg, t: State)
    requires LeavesData(op) && t.mem == s.mem
    ensures MemoryEffect(c, s, op, dst, src, t)
  {
  }

  /** Branches, RET and the system instructions write no register, flag or memory. */
  lemma NothingWritten(c: Setup, s: State, op: Opcode, dst: Arg, src: Arg, t: State)
    requires LeavesData(op)
    requires t.regs == s.regs && t.flags == s.flags && t.mem == s.mem
    ensures RegisterEffect(c, s, op, dst, src, t) && FlagEffect(c, s, op, dst, src, t)
    ensures MemoryEffect(c, s, op, dst, src, t)
  {
    hide RegisterEffect, FlagEffect, MemoryEffect;
    NoRegisterWritten(c, s, op, dst, src, t);
    NoFlagWritten(c, s, op, dst, src, t);
    NoMemoryWritten(c, s, op, dst, src, t);
  }

  lemma FallThroughWrites(c: Setup, s: State, op: Opcode, dst: Arg, src: Arg)
    requires IsBranch(op) && !Taken(op, s.flags)
    ensures Writes(c, s, op, dst, src, Advance(c, s))
  {
    BranchLeavesData(op);
    AdvanceKeeps(c, s);
    hide Taken, RegisterEffect, FlagEffect, MemoryEffect, LeavesData, IsBranch, Advance;
    NothingWritten(c, s, op, dst, src, Advance(c, s));
  }

  lemma AdvanceKeeps(c: Setup, s: State)
    ensures var t := Advance(c, s);
            t.regs == s.regs && t.flags == s.flags && t.mem == s.mem && t.halted == s.halted && t == s.(pc := t.pc)
  {
  }

  lemma BranchLeavesData(op: Opcode)
    requires IsBranch(op)
    ensures LeavesData(op) && op != CALL && op != RET && op != HALT
  {
  }

  lemma JumpWrites(c: Setup, s: State, op: Opcode, dst: Arg, src: Arg, target: u64)
    requires IsBranch(op) && Taken(op, s.flags) && Target(dst) == Some(target) && MayExecute(c, s, target, s.priv)
    ensures Writes(c, s, op, dst, src, s.(pc := target))
  {
    hide Taken, MayExecute, RegisterEffect, FlagEffect, MemoryEffect;
    NothingWritten(c, s, op, dst, src, s.(pc := target));
  }

  lemma BranchWrites(c: Setup, s: State, op: Opcode, dst: Arg, src: Arg)
    requires IsBranch(op)
    ensures Written(c, s, op, dst, src, ExecBranch(c, s, op, dst, src))
  {
    hide Writes, Taken, MayExecute, Advance;
    if !Taken(op, s.flags) {
      FallThroughWrites(c, s, op, dst, src);
    } else if Target(dst).Some? && MayExecute(c, s, Target(dst).value, s.priv) {
      JumpWrites(c, s, op, dst, src, Target(dst).value);
    }
  }

  lemma PushWrites(c: Setup, s: State, dst: Arg, src: Arg)
    ensures Written(c, s, PUSH, dst, src, ExecPush(c, s, dst, src))
  {
    hide ValueOf, Write64, RoomAt;
    assert forall dev :: CanPush(s.(dev := dev), 1) == CanPush(s, 1);
  }

  lemma PopWrites(c: Setup, s: State, dst: Arg, src: Arg)
    ensures Written(c, s, POP, dst, src, ExecPop(c, s, dst, src))
  {
    hide Top, CanPop;
  }

  lemma CallWrites(c: Setup, s: State, dst: Arg, src: Arg)
    ensures Written(c, s, CALL, dst, src, ExecCall(c, s, dst, src))
  {
    hide Write64, CanPush, MayExecute;
  }

  lemma RetWrites(c: Setup, s: State, dst: Arg, src: Arg)
    ensures Written(c, s, RET, dst, src, ExecRet(c, s, dst, src))
  {
    hide Top, CanPop, MayExecute;
  }

  lemma SystemWrites(c: Setup, s: State, op: Opcode, dst: Arg, src: Arg)
    requires op in {NOP, HALT, EI, DI, Invalid}
    ensures Written(c, s, op, dst, src, ExecSystem(c, s, op, dst, src))
  {
    hide AddSize, ValueOf;
  }

  lemma FaultWrites(c: Setup, s: State, op: Opcode, dst: Arg, src: Arg)
    ensures Written(c, s, op, dst, src, Fault(s))
  {
  }

  lemma ExecWrites(c: Setup, s: State, op: Opcode, dst: Arg, src: Arg)
    requires Ordinary(op)
    ensures Written(c, s, op, dst, src, Exec(c, s, op, dst, src))
  {
    hide ExecMove, ExecStore, ExecNot, ExecCompare, ExecBinaryOp, ExecBranch, ExecPush, ExecPop, ExecCall, ExecRet,
      ExecSystem, ExecInt, ExecReturn, Written, AddressOf, Taken, LeavesData, Compute;
    FaultWrites(c, s, op, dst, src);
    match op
    case MOV | LOAD => MoveWrites(c, s, op, dst, src);
    case STORE => StoreWrites(c, s, dst, src);
    case NOT => NotWrites(c, s, dst, src);
    case CMP | TEST => CompareWrites(c, s, op, dst, src);
    case ADD | SUB | MUL | DIV | AND | OR | XOR => AluWrites(c, s, op, dst, src);
    case JMP | JE | JNE | JG | JL => BranchWrites(c, s, op, dst, src);
    case PUSH => PushWrites(c, s, dst, src);
    case POP => PopWrites(c, s, dst, src);
    case CALL => CallWrites(c, s, dst, src);
    case RET => RetWrites(c, s, dst, src);
    case _ => SystemWrites(c, s, op, dst, src);
  }

  /**
   * What an ordinary instruction does, kind by kind: at most one register, at
   * most eight bytes of memory, the flags of its value or result, the next or
   * the target pc, SP by one slot; a fault changes nothing but a device.
   */
  lemma ExecFootprint(c: Setup, s: State, op: Opcode, dst: Arg, src: Arg)
    requires Ordinary(op)
    ensures Bounded(c, s, op, dst, Exec(c, s, op, dst, src)) && Written(c, s, op, dst, src, Exec(c, s, op, dst, src))
  {
    hide Exec, Bounded, Written;
    ExecIsBounded(c, s, op, dst, src);
    ExecWrites(c, s, op, dst, src);
  }

  /** INT without a host handler for its vector: it enters the guest handler or changes nothing. */
  predicate EntersFrame(s: State, t: State, ret: u64) {
    && CanPushFrame(s)
    && var p := PushFrame(s, ret);
       t == p.(regs := t.regs, pc := t.pc, dev := t.dev)
  }

  predicate HostCalled(c: Setup, s: State, op: Opcode, dst: Arg) {
    op == INT && match ValueOf(c, s, dst)
                 case Value(_, v) => 0 <= v <= 255 && c.bus.handles(v)
                 case LoadFault(_) => false
  }

  lemma IntFootprint(c: Setup, s: State, dst: Arg, src: Arg)
    requires !HostCalled(c, s, INT, dst)
    ensures var o := ExecInt(c, s, dst, src);
            if o.Fault? then FaultKeeps(c, s, o.s)
            else EntersFrame(s, o.s, AddSize(s.pc, Width(c.image)))
  {
  }

  lemma HostCallOutcome(c: Setup, s: State, dst: Arg, src: Arg)
    requires HostCalled(c, s, INT, dst)
    ensures var v := ValueOf(c, s, dst);
            ExecInt(c, s, dst, src) == if !OneOperand(dst, src) || !c.hasController then Fault(s)
                                       else HostService(c, s.(dev := v.dev), v.value, AddSize(s.pc, Width(c.image)))
  {
  }

  lemma ReturnFootprint(c: Setup, s: State, dst: Arg, src: Arg)
    ensures var o := ExecReturn(c, s, dst, src);
            if o.Fault? then o.s == s else o.s.error == s.error
  {
    hide TopFrame, UnpackFlags, MayExecute, SavedSpOk, CanPop;
  }

  lemma BoundedKeepsError(c: Setup, s: State, op: Opcode, dst: Arg, o: Outcome)
    requires Bounded(c, s, op, dst, o)
    ensures if o.Fault? then FaultKeeps(c, s, o.s) else o.s.error == s.error
  {
  }

  lemma EntryKeepsError(s: State, t: State, ret: u64)
    requires EntersFrame(s, t, ret)
    ensures t.error == s.error
  {
  }

  /** A faulting instruction of either interpreter changes no architectural state. */
  lemma FaultIsAtomic(c: Setup, s: State, op: Opcode, dst: Arg, src: Arg)
    requires !HostCalled(c, s, op, dst)
    ensures var o := Exec(c, s, op, dst, src);
            if o.Fault? then FaultKeeps(c, s, o.s) else o.s.error == s.error
  {
    hide ExecData, ExecBinaryOp, ExecBranch, ExecStack, ExecSystem, ExecInt, ExecReturn, ValueOf, Bounded, EntersFrame;
    if op == INT {
      IntFootprint(c, s, dst, src);
      var o := ExecInt(c, s, dst, src);
      if o.Next? {
        EntryKeepsError(s, o.s, AddSize(s.pc, Width(c.image)));
      }
    } else if op == IRET {
      ReturnFootprint(c, s, dst, src);
    } else {
      hide Exec;
      ExecIsBounded(c, s, op, dst, src);
      BoundedKeepsError(c, s, op, dst, Exec(c, s, op, dst, src));
    }
  }

  /** The instruction that would run at s, if fetching succeeds, is not one the host handles. */
  predicate NoHostCall(c: Setup, s: State) {
    match Fetch(c, s)
    case Ok(f) => !HostCalled(c, s, f.op, f.dst)
    case Err => true
  }

  /**
   * A step that ends in the error state has changed only the error and halt
   * bits and the devices, unless the fault came after the instruction, from a
   * device tick.  A failed interrupt entry has consumed its request.
   */
  lemma FailedStepKeepsState(c: Setup, s: State)
    requires !Stopped(s) && (InterruptDue(c, s) || NoHostCall(c, s))
    requires Step(c, s).error
    ensures var t := Step(c, s);
            if InterruptDue(c, s) then
              t == Failed(s.(dev := s.dev.(controller := Take(s.dev.controller, FindDeliverable(s.dev.controller)))))
            else if ExecCurrent(c, s).Fault? then
              t == Failed(s.(dev := t.dev)) && (NoDevices(c.bus) ==> t.dev == s.dev)
            else Tick(c.bus.clocked, ExecCurrent(c, s).s.dev).Threw? && t == Failed(ExecCurrent(c, s).s.(dev := t.dev))
  {
    hide Exec, HostCalled;
    if !InterruptDue(c, s) && Fetch(c, s).Ok? {
      var f := Fetch(c, s).value;
      FaultIsAtomic(c, s, f.op, f.dst, f.src);
    }
  }

  // ----- Runs -----

  lemma StepsZero(c: Setup, s: State)
    ensures Steps(c, s, 0) == s
  {
  }

  lemma StepsLast(c: Setup, s: State, n: nat)
    ensures Steps(c, s, n + 1) == Step(c, Steps(c, s, n))
  {
  }

  lemma StepsFirst(c: Setup, s: State, n: nat)
    ensures Steps(c, s, n + 1) == Steps(c, Step(c, s), n)
  {
    IterateFirst(StepOf(c), s, n);
    assert StepOf(c)(s) == Step(c, s);
  }

  /** A stopped machine absorbs every later step and run. */
  lemma {:induction false} StoppedIsAbsorbing(c: Setup, s: State, n: nat)
    requires Stopped(s)
    ensures Steps(c, s, n) == s && Run(c, s, n) == s
  {
    hide Exec;
    if n > 0 {
      StoppedIsAbsorbing(c, s, n - 1);
    }
  }

  /** run(n) is n steps, and running out of steps is an error exactly when they did not stop the machine. */
  lemma {:induction false} RunIsSteps(c: Setup, s: State, n: nat)
    ensures var t := Steps(c, s, n);
            Run(c, s, n) == if Stopped(t) then t else Failed(t)
    decreases n
  {
    hide Step;
    if Stopped(s) {
      StoppedIsAbsorbing(c, s, n);
    } else if n > 0 {
      var next := Step(c, s);
      RunIsSteps(c, next, n - 1);
      StepsFirst(c, s, n - 1);
    }
  }

  // ----- Signed branches -----

  /** CMP a, b then a branch decides the true signed order, overflow included. */
  lemma CompareThenBranch(f: Flags, lhs: i64, rhs: i64)
    ensures var g := WithResult(f, Alu.Compare(lhs, rhs));
            && (Taken(JL, g) <==> lhs < rhs)
            && (Taken(JG, g) <==> lhs > rhs)
            && (Taken(JE, g) <==> lhs == rhs)
            && (Taken(JNE, g) <==> lhs != rhs)
  {
    Alu.SubIsExact(lhs, rhs);
  }
}

// Branches, stacks and the system instructions in their own terms: which
// addresses may be gone to, what lies on which stack, and what only the kernel
// may do (docs/semantics.md, docs/memory-map.md).
module ControlLaws {
  import opened Words
  import opened Isa
  import opened Memory
  import opened Machine
  import opened InstructionLaws

  /** An instruction of the loaded program is at address a. */
  predicate InProgram(image: Image, a: nat) {
    match image
    case Vector(program, _) => a < |program|
    case Binary(base, size) => base <= a && a + 24 <= base + size && (a - base) % 24 == 0
  }

  /** Code of privilege `priv` may go to address a: user code stays on instructions of its own range. */
  predicate MayGo(c: Setup, s: State, a: nat, priv: Privilege) {
    priv.User? ==> s.range.Some? && s.range.value.begin <= a < s.range.value.end && InProgram(c.image, a)
  }

  lemma MayGoIsMayExecute(c: Setup, s: State, a: nat, priv: Privilege)
    ensures MayGo(c, s, a, priv) <==> MayExecute(c, s, a, priv)
  {
  }

  // ----- Branches -----

  /** The condition of a branch, on the flags a CMP left. */
  predicate Holds(op: Opcode, f: Flags) {
    match op
    case JMP => true
    case JE => f.zero
    case JNE => !f.zero
    case JG => !f.zero && f.sign == f.overflow
    case JL => f.sign != f.overflow
    case _ => false
  }

  /** A branch goes to its target when its condition holds, and on to the next instruction when not. */
  lemma BranchLaw(c: Setup, s: State, op: Opcode, target: Option<u64>)
    requires op == JMP || op == JE || op == JNE || op == JG || op == JL
    ensures Exec(c, s, op, CodeArg(target), NoArg(true))
         == if !Holds(op, s.flags) then Next(s.(pc := Following(c, s)))
            else if target.Some? && MayGo(c, s, target.value, s.priv) then Next(s.(pc := target.value))
            else Fault(s)
  {
    hide Exec, MayGo, MayExecute;
    StackDispatch(c, s, op, CodeArg(target), NoArg(true));
    if target.Some? {
      MayGoIsMayExecute(c, s, target.value, s.priv);
    }
  }

  /** Only a code operand is a target: with any other, a branch that is taken faults, and so does a CALL. */
  lemma NoTargetLaw(c: Setup, s: State, op: Opcode, dst: Arg)
    requires !dst.CodeArg? && !dst.NoArg?
    ensures op == JMP || op == JE || op == JNE || op == JG || op == JL ==>
              Exec(c, s, op, dst, NoArg(true))
              == if Holds(op, s.flags) then Fault(s) else Next(s.(pc := Following(c, s)))
    ensures Exec(c, s, CALL, dst, NoArg(true)) == Fault(s)
  {
    hide Exec, MayExecute;
    StackDispatch(c, s, op, dst, NoArg(true));
    StackDispatch(c, s, CALL, dst, NoArg(true));
  }

  /** What `CMP x, y` followed by a branch decides: the true order of the two words. */
  predicate Decides(op: Opcode, a: i64, b: i64) {
    match op
    case JMP => true
    case JE => a == b
    case JNE => a != b
    case JG => a > b
    case JL => a < b
    case _ => false
  }

  lemma FlagsDecide(s: State, c: Setup, e: Devices, a: i64, b: i64, op: Opcode)
    requires op == JMP || op == JE || op == JNE || op == JG || op == JL
    ensures var t := Flagged(c, s, e, a == b, (a - b) % TWO_64 >= TWO_63, a % TWO_64 < b % TWO_64,
                             !(-TWO_63 <= a - b < TWO_63));
            Holds(op, t.flags) <==> Decides(op, a, b)
  {
  }

  /** CMP, then a branch: it is taken exactly when the signed order of the operands says so. */
  lemma CompareBranchLaw(c: Setup, s: State, x: Arg, a: i64, d: Devices, y: Arg, b: i64, e: Devices,
                         op: Opcode, target: Option<u64>)
    requires op == JMP || op == JE || op == JNE || op == JG || op == JL
    requires Source(c, s, x, a, d) && Source(c, s.(dev := d), y, b, e)
    ensures Exec(c, s, CMP, x, y).Next?
    ensures var t := Exec(c, s, CMP, x, y).s;
            Exec(c, t, op, CodeArg(target), NoArg(true))
            == if !Decides(op, a, b) then Next(t.(pc := Following(c, t)))
               else if target.Some? && MayGo(c, s, target.value, s.priv) then Next(t.(pc := target.value))
               else Fault(t)
  {
    hide Exec, Source, Flagged, Holds, Decides, MayGo;
    CompareLaw(c, s, x, a, d, y, b, e);
    FlagsDecide(s, c, e, a, b, op);
    var t := Exec(c, s, CMP, x, y).s;
    BranchLaw(c, t, op, target);
    if target.Some? {
      SameReach(c, s, e, a == b, (a - b) % TWO_64 >= TWO_63, a % TWO_64 < b % TWO_64,
                !(-TWO_63 <= a - b < TWO_63), target.value);
    }
  }

  lemma SameReach(c: Setup, s: State, e: Devices, z: bool, n: bool, cf: bool, v: bool, target: u64)
    ensures var t := Flagged(c, s, e, z, n, cf, v);
            t.priv == s.priv && MayGo(c, t, target, t.priv) == MayGo(c, s, target, s.priv)
  {
  }

  // ----- Stacks -----

  /** The stack in use: the user's, the interrupt stack, or the default kernel stack. */
  function StackOf(s: State): (nat, nat) {
    if s.priv.User? then (0x800, 0xFA0) else if s.onKernelStack then (0xFA0, 0x1000) else (0x800, 0x1000)
  }

  /** SP is on a slot of the stack in use, and n more slots fit above it. */
  predicate HasRoom(s: State, n: nat) {
    var (base, end) := StackOf(s);
    base <= s.sp && (s.sp - base) % 8 == 0 && s.sp + 8 * n <= end
  }

  /** SP is on a slot of the stack in use, and n slots lie below it. */
  predicate HasSlots(s: State, n: nat) {
    var (base, end) := StackOf(s);
    base + 8 * n <= s.sp <= end && (s.sp - base) % 8 == 0
  }

  lemma RoomIsCanPush(s: State, n: nat)
    ensures HasRoom(s, n) <==> CanPush(s, n)
    ensures HasSlots(s, n) <==> CanPop(s, n)
  {
  }

  /** SP, and the kernel's copy of it while the interrupt stack is in use. */
  function AtSp(s: State, sp: u64): State {
    s.(sp := sp, ksp := if s.onKernelStack then sp else s.ksp)
  }

  lemma PushOutcome(c: Setup, s: State, dst: Arg, v: i64, d: Devices)
    requires ValueOf(c, s, dst) == Value(d, v)
    ensures Exec(c, s, PUSH, dst, NoArg(true))
         == if !CanPush(s, 1) then Fault(s.(dev := d))
            else Next(AtSp(s, s.sp + 8).(dev := d, mem := Write64(s.mem, s.sp, v), pc := Following(c, s)))
  {
    hide Exec, ValueOf, Write64;
    ValueNeedsOperand(c, s, dst);
    StackDispatch(c, s, PUSH, dst, NoArg(true));
  }

  /** PUSH: one slot, the value in it, SP past it; no room faults. */
  lemma PushLaw(c: Setup, s: State, dst: Arg, v: i64, d: Devices)
    requires Source(c, s, dst, v, d)
    ensures var o := Exec(c, s, PUSH, dst, NoArg(true));
            if !HasRoom(s, 1) then o == Fault(s.(dev := d))
            else
              && WordStored(s.mem, o.s.mem, s.sp, v)
              && o == Next(AtSp(s, s.sp + 8).(dev := d, mem := o.s.mem, pc := Following(c, s)))
  {
    hide Exec, ValueOf, Source, Write64, WordStored;
    SourceIsValue(c, s, dst, v, d);
    RoomIsCanPush(s, 1);
    PushOutcome(c, s, dst, v, d);
    if HasRoom(s, 1) {
      WriteIsWord(s.mem, s.sp, v);
    }
  }

  lemma PoppedState(c: Setup, s: State, r: Reg, v: i64)
    requires s.sp >= 8
    ensures SetRegister(c, MoveSp(s, s.sp - SLOT), r, v)
         == AtSp(Computed(c, s, s.dev, r, v, s.flags.carry, s.flags.overflow), s.sp - 8)
  {
  }

  lemma PopOutcome(c: Setup, s: State, r: Reg)
    ensures Exec(c, s, POP, RegArg(r), NoArg(true))
         == if !CanPop(s, 1) then Fault(s)
            else Next(AtSp(Computed(c, s, s.dev, r, Top(s), s.flags.carry, s.flags.overflow), s.sp - 8))
  {
    hide Exec, Top, SetRegister, MoveSp, Computed, AtSp;
    StackDispatch(c, s, POP, RegArg(r), NoArg(true));
    if CanPop(s, 1) {
      PoppedState(c, s, r, Top(s));
    }
  }

  /** POP: the word below SP, with its zero and sign flags; an empty stack faults. */
  lemma PopLaw(c: Setup, s: State, r: Reg)
    ensures var o := Exec(c, s, POP, RegArg(r), NoArg(true));
            if !HasSlots(s, 1) then o == Fault(s)
            else
              var v := o.s.regs[r];
              && WordAt(s.mem, s.sp - 8, v)
              && o == Next(AtSp(Computed(c, s, s.dev, r, v, s.flags.carry, s.flags.overflow), s.sp - 8))
  {
    hide Exec, Read64, WordAt;
    RoomIsCanPush(s, 1);
    PopOutcome(c, s, r);
    if HasSlots(s, 1) {
      ReadIsWord(s.mem, s.sp - 8, Top(s));
    }
  }

  /** The address a call returns to. */
  function ReturnAddress(c: Setup, s: State): u64 {
    (s.pc + if c.image.Vector? then 1 else 24) % 0x1_0000_0000_0000_0000
  }

  lemma CallOutcome(c: Setup, s: State, target: Option<u64>)
    ensures var ret := ReturnAddress(c, s);
            Exec(c, s, CALL, CodeArg(target), NoArg(true))
            == if target.None? || !MayExecute(c, s, target.value, s.priv) || !MayExecute(c, s, ret, s.priv)
                  || !CanPush(s, 1)
               then Fault(s)
               else Next(AtSp(s, s.sp + 8).(mem := Write64(s.mem, s.sp, ToI64(ret)), pc := target.value))
  {
    hide Exec, MayExecute, Write64;
    StackDispatch(c, s, CALL, CodeArg(target), NoArg(true));
  }

  lemma WordOfAddress(m: Ram, m': Ram, a: nat, ret: u64)
    requires WordStored(m, m', a, ToI64(ret))
    ensures WordStored(m, m', a, ret)
  {
    var x := Eight(m', a);
    if ret >= TWO_63 {
      assert x - ret == (x - ToI64(ret)) - TWO_64;
    }
  }

  /** CALL: the address of the next instruction is pushed and the target gone to; both must be executable. */
  lemma CallLaw(c: Setup, s: State, target: Option<u64>)
    ensures var o, ret := Exec(c, s, CALL, CodeArg(target), NoArg(true)), ReturnAddress(c, s);
            if target.None? || !MayGo(c, s, target.value, s.priv) || !MayGo(c, s, ret, s.priv) || !HasRoom(s, 1)
            then o == Fault(s)
            else
              && WordStored(s.mem, o.s.mem, s.sp, ret)
              && o == Next(AtSp(s, s.sp + 8).(mem := o.s.mem, pc := target.value))
  {
    hide Exec, MayGo, MayExecute, Write64, WordStored;
    var ret := ReturnAddress(c, s);
    RoomIsCanPush(s, 1);
    CallOutcome(c, s, target);
    MayGoIsMayExecute(c, s, ret, s.priv);
    if target.Some? {
      MayGoIsMayExecute(c, s, target.value, s.priv);
      if HasRoom(s, 1) {
        WriteIsWord(s.mem, s.sp, ToI64(ret));
        WordOfAddress(s.mem, Write64(s.mem, s.sp, ToI64(ret)), s.sp, ret);
      }
    }
  }

  lemma RetOutcome(c: Setup, s: State)
    ensures Exec(c, s, RET, NoArg(true), NoArg(true))
         == if !CanPop(s, 1) || Top(s) < 0 || !MayExecute(c, s, Top(s), s.priv) then Fault(s)
            else Next(AtSp(s, s.sp - 8).(pc := Top(s)))
  {
    hide Exec, MayExecute, Read64;
    StackDispatch(c, s, RET, NoArg(true), NoArg(true));
  }

  /** RET: to the word v below SP, which must be an executable address. */
  lemma RetLaw(c: Setup, s: State, v: i64)
    requires HasSlots(s, 1) ==> WordAt(s.mem, s.sp - 8, v)
    ensures Exec(c, s, RET, NoArg(true), NoArg(true))
         == if !HasSlots(s, 1) || v < 0 || !MayGo(c, s, v, s.priv) then Fault(s)
            else Next(AtSp(s, s.sp - 8).(pc := v))
  {
    hide Exec, MayGo, MayExecute, Read64, WordAt;
    RoomIsCanPush(s, 1);
    RetOutcome(c, s);
    if HasSlots(s, 1) {
      ReadIsWord(s.mem, s.sp - 8, v);
      if v >= 0 {
        MayGoIsMayExecute(c, s, v, s.priv);
      }
    }
  }

  // ----- System instructions -----

  /** HALT, IRET, EI and DI are the kernel's: user code faults on them and changes nothing. */
  lemma PrivilegeLaw(c: Setup, s: State, op: Opcode, dst: Arg, src: Arg)
    requires s.priv.User? && (op == HALT || op == IRET || op == EI || op == DI)
    ensures Exec(c, s, op, dst, src) == Fault(s)
  {
    PrivilegeDispatch(c, s, op, dst, src);
  }

  /** NOP in either mode; HALT stops in place; EI and DI switch interrupts on and off where there is a controller. */
  lemma SystemLaw(c: Setup, s: State, on: bool)
    ensures Exec(c, s, NOP, NoArg(true), NoArg(true)) == Next(s.(pc := Following(c, s)))
    ensures s.priv.Kernel? ==> Exec(c, s, HALT, NoArg(true), NoArg(true)) == Next(s.(halted := true))
    ensures s.priv.Kernel? ==>
              Exec(c, s, if on then EI else DI, NoArg(true), NoArg(true))
              == if !c.hasController then Fault(s)
                 else Next(s.(pc := Following(c, s), dev := s.dev.(controller := s.dev.controller.(enabled := on))))
  {
    hide Exec;
    SystemDispatch(c, s, NOP, NoArg(true), NoArg(true));
    if s.priv.Kernel? {
      KernelDispatch(c, s, HALT, NoArg(true), NoArg(true));
      KernelDispatch(c, s, if on then EI else DI, NoArg(true), NoArg(true));
    }
  }
}

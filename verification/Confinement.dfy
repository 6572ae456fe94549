// User mode is confined: whole runs of user code change only the user data
// window and the user stack, never reach a device, and keep executing the
// bytes that were loaded.
module Confinement {
  import opened Words
  import opened Isa
  import opened Interrupts
  import opened MemoryMap
  import opened Machine
  import opened Effects
  import opened Reachable
  import opened InterruptFrames
  import Alu

  predicate InUserWindow(k: int) {
    0 <= k < USER_DATA_END || USER_STACK_BASE <= k < USER_STACK_END
  }

  /** Memory differs at most in the user windows and in the frame slots at `ksp`. */
  ghost predicate Confined(m: Ram, m': Ram, ksp: int) {
    forall k :: 0 <= k < MEMORY_SIZE && !InUserWindow(k) && !(ksp <= k < ksp + FRAME_SIZE) ==> m'[k] == m[k]
  }

  /** Memory differs at most in the user windows. */
  ghost predicate StrictlyConfined(m: Ram, m': Ram) {
    forall k :: 0 <= k < MEMORY_SIZE && !InUserWindow(k) ==> m'[k] == m[k]
  }

  /** A host service writes guest memory only where user code could. */
  ghost predicate HandlerConfined(bus: Bus) {
    forall v: byte, s: State ::
      var r := bus.handle(v, s).s;
      r.sp == s.sp && r.priv == s.priv && StrictlyConfined(s.mem, r.mem)
  }

  lemma HandlerConfinedKeepsStack(bus: Bus)
    requires HandlerConfined(bus)
    ensures HandlerKeepsStack(bus)
  {
    forall v: byte, s: State
      ensures bus.handle(v, s).s.sp == s.sp && bus.handle(v, s).s.priv == s.priv
    {
      var r := bus.handle(v, s).s;
      assert r.sp == s.sp && r.priv == s.priv;
    }
  }

  /** A binary image is inside memory and a decoded program has fewer than 2^63 instructions. */
  predicate CodeFits(c: Setup) {
    match c.image
    case Binary(base, size) => base + size <= MEMORY_SIZE
    case Vector(program, _) => |program| < TWO_63
  }

  /** What a step from user mode leaves behind, in user mode or just after kernel entry. */
  ghost predicate UserEffect(s: State, t: State) {
    && Confined(s.mem, t.mem, s.ksp) && t.range == s.range
    && (t.priv.User? ==> t.ksp == s.ksp)
    && (t.priv.Kernel? ==> t.onKernelStack && t.ksp == s.ksp + FRAME_SIZE && t.sp == t.ksp)
  }

  lemma BoundedIsConfined(c: Setup, s: State, op: Opcode, dst: Arg, o: Outcome)
    requires s.priv.User? && Invariant(s) && Bounded(c, s, op, dst, o)
    ensures UserEffect(s, o.s) && StrictlyConfined(s.mem, o.s.mem) && o.s.priv.User?
  {
    if o.Next? && op == STORE && !c.bus.mapped(AddressOf(s, dst).value) {
      var a := AddressOf(s, dst).value;
      assert SameOutside(s.mem, o.s.mem, a, a + 8);
    }
  }

  lemma EntryIsConfined(s: State, t: State, ret: u64)
    requires s.priv.User? && Invariant(s) && EntersFrame(s, t, ret)
    ensures UserEffect(s, t) && t.priv.Kernel?
  {
  }

  lemma HandlerReady(s: State, entered: State, h: State, ret: u64)
    requires s.priv.User? && Invariant(s) && EntersFrame(s, entered, ret) && entered.pc == s.pc
    requires h.sp == entered.sp && h.priv == entered.priv && StrictlyConfined(entered.mem, h.mem)
    ensures ReadyToReturn(s, ret, AfterHandler(entered, h))
  {
    PushFrameKeepsInvariant(s, ret);
    assert forall k :: FrameBase(s) <= k < FrameBase(s) + FRAME_SIZE ==> !InUserWindow(k);
  }

  lemma ReturnIsConfined(c: Setup, s: State, ret: u64, q: State, allowUserEnd: bool)
    requires s.priv.User? && Invariant(s) && CanPushFrame(s) && ret < TWO_63 && ReadyToReturn(s, ret, q)
    requires Confined(s.mem, q.mem, s.ksp)
    ensures UserEffect(s, RestoreFrame(c, q, allowUserEnd).s)
    ensures RestoreFrame(c, q, allowUserEnd).Next? ==> RestoreFrame(c, q, allowUserEnd).s.priv.User?
  {
    ReturnFrameReads(s, ret, q);
    PrivilegeRoundTrip(User, 0);
  }

  lemma HostServiceIsConfined(c: Setup, s: State, vector: byte, ret: u64)
    requires s.priv.User? && Invariant(s) && HandlerConfined(c.bus) && ret < TWO_63
    ensures UserEffect(s, HostService(c, s, vector, ret).s)
  {
    if CanPushFrame(s) {
      var p := PushFrame(s, ret);
      var entered := p.(regs := p.regs[0 := vector]);
      assert EntersFrame(s, entered, ret);
      EntryIsConfined(s, entered, ret);
      var r := c.bus.handle(vector, entered);
      assert r.s.sp == entered.sp && StrictlyConfined(entered.mem, r.s.mem);
      HandlerReady(s, entered, r.s, ret);
      var q := AfterHandler(entered, r.s);
      ReturnIsConfined(c, s, ret, q, r.Handled? && r.terminate);
    }
  }

  lemma IntIsConfined(c: Setup, s: State, dst: Arg, src: Arg)
    requires s.priv.User? && Invariant(s) && HandlerConfined(c.bus) && AddSize(s.pc, Width(c.image)) < TWO_63
    ensures UserEffect(s, ExecInt(c, s, dst, src).s)
  {
    var ret := AddSize(s.pc, Width(c.image));
    if HostCalled(c, s, INT, dst) {
      HostCallOutcome(c, s, dst, src);
      var v := ValueOf(c, s, dst);
      HostServiceIsConfined(c, s.(dev := v.dev), v.value, ret);
    } else {
      IntFootprint(c, s, dst, src);
      var o := ExecInt(c, s, dst, src);
      if o.Next? {
        EntryIsConfined(s, o.s, ret);
      }
    }
  }

  lemma NextPcFits(c: Setup, s: State)
    requires CodeFits(c) && Fetch(c, s).Ok?
    ensures AddSize(s.pc, Width(c.image)) < TWO_63
  {
    hide DecodeInstruction, ArgOfField, ArgOfOperand, MayExecute;
  }

  lemma ExecIsConfined(c: Setup, s: State)
    requires s.priv.User? && Invariant(s) && HandlerConfined(c.bus) && CodeFits(c)
    ensures UserEffect(s, ExecCurrent(c, s).s)
  {
    hide ExecData, ExecBinaryOp, ExecBranch, ExecStack, ExecSystem, ExecInt, ExecReturn, Fetch, CodeFits,
      HandlerConfined, Invariant, Bounded;
    if Fetch(c, s).Ok? {
      var f := Fetch(c, s).value;
      NextPcFits(c, s);
      if f.op == INT {
        IntIsConfined(c, s, f.dst, f.src);
      } else if f.op != IRET {
        ExecIsBounded(c, s, f.op, f.dst, f.src);
        BoundedIsConfined(c, s, f.op, f.dst, Exec(c, s, f.op, f.dst, f.src));
      }
    }
  }

  lemma UserStepIsConfined(c: Setup, s: State)
    requires s.priv.User? && Invariant(s) && HandlerConfined(c.bus) && CodeFits(c)
    ensures UserEffect(s, Step(c, s))
  {
    hide Exec;
    if Stopped(s) {
    } else if InterruptDue(c, s) {
      var o := ServiceInterrupt(c, s);
      if o.Next? {
        var k := FindDeliverable(s.dev.controller);
        var t := s.(dev := s.dev.(controller := Take(s.dev.controller, k)));
        EntryIsConfined(t, o.s, t.pc);
      }
    } else {
      ExecIsConfined(c, s);
    }
  }

  // ----- Runs -----

  /** The first n steps from s are all taken in user mode. */
  predicate UserRun(c: Setup, s: State, n: nat) {
    forall i: nat :: i < n ==> Steps(c, s, i).priv.User?
  }

  /**
   * A whole run of user steps, with the kernel entry that may end it, changes
   * nothing outside the user windows but the one frame at the kernel stack pointer.
   */
  lemma {:induction false} UserRunIsConfined(c: Setup, s: State, n: nat)
    requires s.priv.User? && Invariant(s) && HandlerConfined(c.bus) && CodeFits(c) && UserRun(c, s, n)
    ensures UserEffect(s, Steps(c, s, n)) && Invariant(Steps(c, s, n))
  {
    hide Step;
    StepsZero(c, s);
    if n > 0 {
      UserRunIsConfined(c, s, n - 1);
      StepsLast(c, s, n - 1);
      assert Steps(c, s, n - 1).priv.User?;
      UserStepKeeps(c, Steps(c, s, n - 1), Steps(c, s, n));
      EffectsCompose(s, Steps(c, s, n - 1), Steps(c, s, n));
    }
  }

  lemma UserStepKeeps(c: Setup, s: State, t: State)
    requires s.priv.User? && Invariant(s) && HandlerConfined(c.bus) && CodeFits(c) && t == Step(c, s)
    ensures UserEffect(s, t) && Invariant(t)
  {
    hide Step;
    UserStepIsConfined(c, s);
    HandlerConfinedKeepsStack(c.bus);
    StepKeepsInvariant(c, s);
  }

  lemma EffectsCompose(s: State, t: State, u: State)
    requires UserEffect(s, t) && t.priv.User? && UserEffect(t, u)
    ensures UserEffect(s, u)
  {
  }

  /** User code below the user stack: what README.md's memory map calls loaded code. */
  predicate CodeInUserArea(c: Setup) {
    c.image.Binary? && USER_DATA_END <= c.image.base && c.image.base + c.image.size <= USER_STACK_BASE
  }

  /** Every instruction the run executes decodes from the bytes that were loaded. */
  lemma UserRunKeepsCode(c: Setup, s: State, n: nat, pc: nat)
    requires s.priv.User? && Invariant(s) && HandlerConfined(c.bus) && CodeInUserArea(c) && UserRun(c, s, n)
    requires InCode(c.image.base, c.image.size, pc)
    ensures Steps(c, s, n).mem[pc..pc + INSTRUCTION_SIZE] == s.mem[pc..pc + INSTRUCTION_SIZE]
  {
    UserRunIsConfined(c, s, n);
    var t := Steps(c, s, n);
    forall k | pc <= k < pc + INSTRUCTION_SIZE
      ensures t.mem[k] == s.mem[k]
    {
      assert !InUserWindow(k) && k < s.ksp;
    }
  }

  // ----- No device is reached -----

  /** No device is mapped where a user-mode access can start. */
  ghost predicate NoDeviceInUserData(bus: Bus) {
    forall a: u64 :: UserDataRange(a, 8) ==> !bus.mapped(a)
  }

  /** The same machine with other device registers behind the bus. */
  ghost predicate OtherDevices(c: Setup, c': Setup) {
    && c'.image == c.image && c'.hasController == c.hasController
    && (forall a: u64 :: c'.bus.mapped(a) == c.bus.mapped(a))
    && (forall d: Devices :: Tick(c'.bus.clocked, d) == Tick(c.bus.clocked, d))
    && (forall v: byte :: c'.bus.handles(v) == c.bus.handles(v))
    && (forall v: byte, s: State :: c'.bus.handle(v, s) == c.bus.handle(v, s))
  }

  /** User mode at s, with no device where it may access data. */
  ghost predicate Undisturbed(c: Setup, c': Setup, s: State) {
    OtherDevices(c, c') && s.priv.User? && NoDeviceInUserData(c.bus)
  }

  lemma AccessIgnoresDevices(c: Setup, c': Setup, s: State, a: u64, v: i64)
    requires Undisturbed(c, c', s)
    ensures ReadData(c', s, a) == ReadData(c, s, a) && ReadData(c, s, a).dev == s.dev
    ensures WriteData(c', s, a, v) == WriteData(c, s, a, v)
  {
    if MayAccess(s, a) {
      assert !c.bus.mapped(a);
    }
  }

  lemma ValueIgnoresDevices(c: Setup, c': Setup, s: State, a: Arg)
    requires Undisturbed(c, c', s)
    ensures ValueOf(c', s, a) == ValueOf(c, s, a) && ValueOf(c, s, a).dev == s.dev
  {
    if AddressOf(s, a).Ok? {
      AccessIgnoresDevices(c, c', s, AddressOf(s, a).value, 0);
    }
  }

  /** Both machines read the operand alike, without touching a device. */
  ghost predicate ReadAlike(c: Setup, c': Setup, s: State, a: Arg) {
    c'.image == c.image && ValueOf(c', s, a) == ValueOf(c, s, a) && ValueOf(c, s, a).dev == s.dev
  }

  lemma StoreAlike(c: Setup, c': Setup, s: State, dst: Arg, src: Arg)
    requires ReadAlike(c, c', s, src)
    requires forall a: u64, v: i64 :: WriteData(c', s, a, v) == WriteData(c, s, a, v)
    ensures ExecStore(c', s, dst, src) == ExecStore(c, s, dst, src)
  {
    hide ValueOf, WriteData;
    assert s.(dev := s.dev) == s;
  }

  lemma MoveAlike(c: Setup, c': Setup, s: State, dst: Arg, src: Arg)
    requires ReadAlike(c, c', s, src)
    ensures ExecMove(c', s, dst, src) == ExecMove(c, s, dst, src)
  {
    hide ValueOf;
  }

  lemma BinaryOpAlike(c: Setup, c': Setup, s: State, op: Opcode, dst: Arg, src: Arg)
    requires ReadAlike(c, c', s, src) && IsBinaryOp(op)
    ensures ExecBinaryOp(c', s, op, dst, src) == ExecBinaryOp(c, s, op, dst, src)
  {
    hide ValueOf, Compute;
  }

  lemma CompareAlike(c: Setup, c': Setup, s: State, op: Opcode, dst: Arg, src: Arg)
    requires ReadAlike(c, c', s, dst) && ReadAlike(c, c', s, src)
    ensures ExecCompare(c', s, op, dst, src) == ExecCompare(c, s, op, dst, src)
  {
    hide ValueOf, Alu.Compare, Alu.Test;
    assert s.(dev := s.dev) == s;
  }

  lemma PushAlike(c: Setup, c': Setup, s: State, dst: Arg, src: Arg)
    requires ReadAlike(c, c', s, dst)
    ensures ExecPush(c', s, dst, src) == ExecPush(c, s, dst, src)
  {
    hide ValueOf, PushValue;
  }

  lemma ReturnAlike(c: Setup, c': Setup, s: State, allowUserEnd: bool)
    requires c'.image == c.image
    ensures RestoreFrame(c', s, allowUserEnd) == RestoreFrame(c, s, allowUserEnd)
  {
    hide TopFrame, UnpackFlags;
  }

  lemma HostAlike(c: Setup, c': Setup, s: State, vector: byte, ret: u64)
    requires c'.image == c.image && (forall v: byte, s: State :: c'.bus.handle(v, s) == c.bus.handle(v, s))
    ensures HostService(c', s, vector, ret) == HostService(c, s, vector, ret)
  {
    hide RestoreFrame, PushFrame;
    if CanPushFrame(s) {
      var p := PushFrame(s, ret);
      var entered := p.(regs := p.regs[0 := vector]);
      var r := c.bus.handle(vector, entered);
      ReturnAlike(c, c', AfterHandler(entered, r.s), r.Handled? && r.terminate);
    }
  }

  lemma IntAlike(c: Setup, c': Setup, s: State, dst: Arg, src: Arg)
    requires ReadAlike(c, c', s, dst) && c'.hasController == c.hasController
    requires forall v: byte :: c'.bus.handles(v) == c.bus.handles(v)
    requires forall t: State, v: byte, ret: u64 :: HostService(c', t, v, ret) == HostService(c, t, v, ret)
    ensures ExecInt(c', s, dst, src) == ExecInt(c, s, dst, src)
  {
    hide ValueOf, HostService, PushFrame;
  }

  lemma ControlAlike(c: Setup, c': Setup, s: State, op: Opcode, dst: Arg, src: Arg)
    requires c'.image == c.image && c'.hasController == c.hasController
    ensures ExecBranch(c', s, op, dst, src) == ExecBranch(c, s, op, dst, src)
    ensures ExecSystem(c', s, op, dst, src) == ExecSystem(c, s, op, dst, src)
    ensures ExecNot(c', s, dst, src) == ExecNot(c, s, dst, src)
  {
  }

  lemma StackAlike(c: Setup, c': Setup, s: State, op: Opcode, dst: Arg, src: Arg)
    requires ReadAlike(c, c', s, dst)
    ensures ExecStack(c', s, op, dst, src) == ExecStack(c, s, op, dst, src)
  {
    hide ExecPush, ValueOf, PushValue, Top;
    PushAlike(c, c', s, dst, src);
  }

  lemma DataAlike(c: Setup, c': Setup, s: State, op: Opcode, dst: Arg, src: Arg)
    requires c'.hasController == c.hasController
    requires ReadAlike(c, c', s, dst) && ReadAlike(c, c', s, src)
    requires forall a: u64, v: i64 :: WriteData(c', s, a, v) == WriteData(c, s, a, v)
    ensures ExecData(c', s, op, dst, src) == ExecData(c, s, op, dst, src)
  {
    hide ExecMove, ExecStore, ExecNot, ExecCompare, ValueOf, WriteData;
    MoveAlike(c, c', s, dst, src);
    StoreAlike(c, c', s, dst, src);
    ControlAlike(c, c', s, op, dst, src);
    CompareAlike(c, c', s, op, dst, src);
  }

  lemma DataIgnoresDevices(c: Setup, c': Setup, s: State, op: Opcode, dst: Arg, src: Arg)
    requires Undisturbed(c, c', s)
    ensures ExecData(c', s, op, dst, src) == ExecData(c, s, op, dst, src)
  {
    hide ExecData, ValueOf, WriteData;
    ValueIgnoresDevices(c, c', s, dst);
    ValueIgnoresDevices(c, c', s, src);
    forall a: u64, v: i64
      ensures WriteData(c', s, a, v) == WriteData(c, s, a, v)
    {
      AccessIgnoresDevices(c, c', s, a, v);
    }
    DataAlike(c, c', s, op, dst, src);
  }

  lemma IntIgnoresDevices(c: Setup, c': Setup, s: State, dst: Arg, src: Arg)
    requires Undisturbed(c, c', s)
    ensures ExecInt(c', s, dst, src) == ExecInt(c, s, dst, src)
  {
    hide ExecInt, ValueOf, HostService;
    ValueIgnoresDevices(c, c', s, dst);
    forall t: State, v: byte, ret: u64
      ensures HostService(c', t, v, ret) == HostService(c, t, v, ret)
    {
      HostAlike(c, c', t, v, ret);
    }
    IntAlike(c, c', s, dst, src);
  }

  lemma OthersIgnoreDevices(c: Setup, c': Setup, s: State, op: Opcode, dst: Arg, src: Arg)
    requires Undisturbed(c, c', s)
    ensures IsBinaryOp(op) ==> ExecBinaryOp(c', s, op, dst, src) == ExecBinaryOp(c, s, op, dst, src)
    ensures ExecBranch(c', s, op, dst, src) == ExecBranch(c, s, op, dst, src)
    ensures ExecStack(c', s, op, dst, src) == ExecStack(c, s, op, dst, src)
    ensures ExecSystem(c', s, op, dst, src) == ExecSystem(c, s, op, dst, src)
    ensures ExecReturn(c', s, dst, src) == ExecReturn(c, s, dst, src)
  {
    hide ExecBinaryOp, ExecBranch, ExecStack, ExecSystem, ValueOf, RestoreFrame;
    ValueIgnoresDevices(c, c', s, dst);
    ValueIgnoresDevices(c, c', s, src);
    if IsBinaryOp(op) {
      BinaryOpAlike(c, c', s, op, dst, src);
    }
    ControlAlike(c, c', s, op, dst, src);
    StackAlike(c, c', s, op, dst, src);
    ReturnAlike(c, c', s, false);
  }

  lemma ExecAlike(c: Setup, c': Setup, s: State, op: Opcode, dst: Arg, src: Arg)
    requires ExecData(c', s, op, dst, src) == ExecData(c, s, op, dst, src)
    requires ExecInt(c', s, dst, src) == ExecInt(c, s, dst, src)
    requires IsBinaryOp(op) ==> ExecBinaryOp(c', s, op, dst, src) == ExecBinaryOp(c, s, op, dst, src)
    requires ExecBranch(c', s, op, dst, src) == ExecBranch(c, s, op, dst, src)
    requires ExecStack(c', s, op, dst, src) == ExecStack(c, s, op, dst, src)
    requires ExecSystem(c', s, op, dst, src) == ExecSystem(c, s, op, dst, src)
    requires ExecReturn(c', s, dst, src) == ExecReturn(c, s, dst, src)
    ensures Exec(c', s, op, dst, src) == Exec(c, s, op, dst, src)
  {
    hide ExecData, ExecBinaryOp, ExecBranch, ExecStack, ExecSystem, ExecInt, ExecReturn;
    hide IsData, IsBinaryOp, IsBranch, IsStack, NeedsKernel;
  }

  lemma ExecIgnoresDevices(c: Setup, c': Setup, s: State, op: Opcode, dst: Arg, src: Arg)
    requires Undisturbed(c, c', s)
    ensures Exec(c', s, op, dst, src) == Exec(c, s, op, dst, src)
  {
    hide Exec, ExecData, ExecBinaryOp, ExecBranch, ExecStack, ExecSystem, ExecInt, ExecReturn, Undisturbed, IsBinaryOp;
    DataIgnoresDevices(c, c', s, op, dst, src);
    IntIgnoresDevices(c, c', s, dst, src);
    OthersIgnoreDevices(c, c', s, op, dst, src);
    ExecAlike(c, c', s, op, dst, src);
  }

  lemma UserStepIgnoresDevices(c: Setup, c': Setup, s: State)
    requires Undisturbed(c, c', s)
    ensures Step(c', s) == Step(c, s)
  {
    hide Exec;
    assert Fetch(c', s) == Fetch(c, s);
    if Fetch(c, s).Ok? {
      var f := Fetch(c, s).value;
      ExecIgnoresDevices(c, c', s, f.op, f.dst, f.src);
    }
    assert ExecCurrent(c', s) == ExecCurrent(c, s);
  }

  /**
   * A run of user steps makes no MMIO access: whatever device registers are
   * behind the bus, the run is the same, state for state.
   */
  lemma {:induction false} UserRunIgnoresDevices(c: Setup, c': Setup, s: State, n: nat)
    requires OtherDevices(c, c') && NoDeviceInUserData(c.bus) && UserRun(c, s, n)
    ensures Steps(c', s, n) == Steps(c, s, n)
  {
    hide Step;
    StepsZero(c, s);
    StepsZero(c', s);
    if n > 0 {
      UserRunIgnoresDevices(c, c', s, n - 1);
      StepsLast(c, s, n - 1);
      StepsLast(c', s, n - 1);
      assert Steps(c, s, n - 1).priv.User?;
      UserStepIgnoresDevices(c, c', Steps(c, s, n - 1));
    }
  }
}

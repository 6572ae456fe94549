// The invariant of every reachable CPU state: which stack is in use, where SP
// and the kernel stack pointer are, and how many frames the kernel stack holds.
module Reachable {
  import opened Words
  import opened Isa
  import opened MemoryMap
  import opened Machine
  import opened Effects

  predicate Invariant(s: State) {
    && PointerOk(s.ksp, KERNEL_STACK_BASE, KERNEL_STACK_END)
    && PointerOk(s.sp, StackBase(s), StackEnd(s))
    && (s.priv.User? ==> !s.onKernelStack)
    && (s.onKernelStack ==> s.ksp == s.sp)
  }

  /** The host handler may change anything but SP and the privilege level. */
  ghost predicate HandlerKeepsStack(bus: Bus) {
    forall v: byte, s: State :: bus.handle(v, s).s.sp == s.sp && bus.handle(v, s).s.priv == s.priv
  }

  lemma OrdinaryKeepsInvariant(c: Setup, s: State, op: Opcode, dst: Arg, src: Arg)
    requires Invariant(s) && Ordinary(op)
    ensures Invariant(Exec(c, s, op, dst, src).s)
  {
    hide Exec;
    ExecIsBounded(c, s, op, dst, src);
    BoundedKeepsInvariant(c, s, op, dst, Exec(c, s, op, dst, src));
  }

  lemma BoundedKeepsInvariant(c: Setup, s: State, op: Opcode, dst: Arg, o: Outcome)
    requires Invariant(s) && Bounded(c, s, op, dst, o)
    ensures Invariant(o.s)
  {
    hide NoDevices, Stored, SameOutside;
    var t := o.s;
    assert StackBase(t) == StackBase(s) && StackEnd(t) == StackEnd(s);
  }

  lemma PushFrameKeepsInvariant(s: State, ret: u64)
    requires Invariant(s) && CanPushFrame(s)
    ensures var p := PushFrame(s, ret);
            Invariant(p) && p.priv.Kernel? && CanPop(p, FRAME_SLOTS)
  {
  }

  lemma RestoreKeepsInvariant(c: Setup, s: State, allowUserEnd: bool)
    requires Invariant(s)
    ensures Invariant(RestoreFrame(c, s, allowUserEnd).s)
  {
  }

  lemma HostServiceKeepsInvariant(c: Setup, s: State, vector: byte, ret: u64)
    requires Invariant(s) && HandlerKeepsStack(c.bus)
    ensures Invariant(HostService(c, s, vector, ret).s)
  {
    if CanPushFrame(s) {
      PushFrameKeepsInvariant(s, ret);
      var p := PushFrame(s, ret);
      var entered := p.(regs := p.regs[0 := vector]);
      var r := c.bus.handle(vector, entered);
      assert r.s.sp == entered.sp && r.s.priv == entered.priv;
      var h := AfterHandler(entered, r.s);
      assert Invariant(h);
      RestoreKeepsInvariant(c, h, r.Handled? && r.terminate);
    }
  }

  lemma EnteredKeepsInvariant(s: State, o: Outcome, ret: u64)
    requires Invariant(s)
    requires if o.Fault? then o.s == s.(dev := o.s.dev) else EntersFrame(s, o.s, ret)
    ensures Invariant(o.s)
  {
    if o.Next? {
      PushFrameKeepsInvariant(s, ret);
    }
  }

  lemma IntKeepsInvariant(c: Setup, s: State, dst: Arg, src: Arg)
    requires Invariant(s) && HandlerKeepsStack(c.bus)
    ensures Invariant(ExecInt(c, s, dst, src).s)
  {
    var ret := AddSize(s.pc, Width(c.image));
    if HostCalled(c, s, INT, dst) {
      var v := ValueOf(c, s, dst);
      HostCallOutcome(c, s, dst, src);
      HostServiceKeepsInvariant(c, s.(dev := v.dev), v.value, ret);
    } else {
      IntFootprint(c, s, dst, src);
      EnteredKeepsInvariant(s, ExecInt(c, s, dst, src), ret);
    }
  }

  lemma ExecKeepsInvariant(c: Setup, s: State, op: Opcode, dst: Arg, src: Arg)
    requires Invariant(s) && HandlerKeepsStack(c.bus)
    ensures Invariant(Exec(c, s, op, dst, src).s)
  {
    hide ExecData, ExecBinaryOp, ExecBranch, ExecStack, ExecSystem, ExecInt, RestoreFrame;
    if op == IRET {
      RestoreKeepsInvariant(c, s, false);
    } else if op == INT {
      IntKeepsInvariant(c, s, dst, src);
    } else {
      OrdinaryKeepsInvariant(c, s, op, dst, src);
    }
  }

  lemma StepKeepsInvariant(c: Setup, s: State)
    requires Invariant(s) && HandlerKeepsStack(c.bus)
    ensures Invariant(Step(c, s))
  {
    hide Exec;
    if Stopped(s) {
    } else if InterruptDue(c, s) {
      if CanPushFrame(s) {
        PushFrameKeepsInvariant(s, s.pc);
      }
    } else if Fetch(c, s).Ok? {
      var f := Fetch(c, s).value;
      ExecKeepsInvariant(c, s, f.op, f.dst, f.src);
    }
  }

  lemma {:induction false} StepsKeepInvariant(c: Setup, s: State, n: nat)
    requires Invariant(s) && HandlerKeepsStack(c.bus)
    ensures Invariant(Steps(c, s, n))
  {
    hide Step;
    StepsZero(c, s);
    if n > 0 {
      StepsKeepInvariant(c, s, n - 1);
      StepsLast(c, s, n - 1);
      StepKeepsInvariant(c, Steps(c, s, n - 1));
    }
  }

  // ----- What a host program can do to the CPU between steps -----

  // Saved process context (src/kernel/ProcessContext.cpp).
  datatype Context = Context(
    regs: Regs, flags: Flags, pc: u64, sp: u64, priv: Privilege,
    range: Option<Range>, userStackBegin: u64, userStackEnd: u64, ksp: u64)

  datatype HostCall =
    | StepCpu
    | RunCpu(maxSteps: nat)
    | SetKernelStackPointer(value: u64)
    | SetUserCodeRange(begin: u64, end: u64)
    | ClearUserCodeRange
    | RestoreContext(ctx: Context)

  /** The state loadProgram and loadBinaryProgram leave (CPUState::reset and the loaded memory). */
  function FreshCpu(mem: Ram, pc: u64, range: Option<Range>, dev: Devices): State {
    State(seq(8, _ => 0), mem, Flags(false, false, false, false, 0), Kernel, pc, DEFAULT_STACK_BASE,
          false, false, KERNEL_STACK_BASE, false, range, None, dev)
  }

  predicate RangeOk(image: Image, begin: u64, end: u64) {
    && begin < end
    && match image
       case Vector(program, _) => |program| > 0 && end <= |program|
       case Binary(base, size) =>
         base <= begin && end <= base + size
         && (begin - base) % INSTRUCTION_SIZE == 0 && (end - base) % INSTRUCTION_SIZE == 0
  }

  predicate ContextOk(c: Setup, ctx: Context) {
    && (ctx.range.None? ==> ctx.priv.Kernel?)
    && (ctx.range.Some? ==> ctx.range.value.begin < ctx.range.value.end)
    && USER_STACK_BASE <= ctx.userStackBegin < ctx.userStackEnd <= USER_STACK_END
    && ctx.userStackBegin % SLOT == 0 && ctx.userStackEnd % SLOT == 0
    && ctx.userStackBegin <= ctx.sp <= ctx.userStackEnd && (ctx.sp - ctx.userStackBegin) % SLOT == 0
    && PointerOk(ctx.ksp, KERNEL_STACK_BASE, KERNEL_STACK_END)
    && (ctx.priv.User? ==> ctx.range.Some? && ctx.range.value.begin <= ctx.pc < ctx.range.value.end)
    && (ctx.range.Some? ==> RangeOk(c.image, ctx.range.value.begin, ctx.range.value.end))
  }

  /** A host call that throws leaves the CPU as it was. */
  function Perform(c: Setup, s: State, call: HostCall): State {
    match call
    case StepCpu => Step(c, s)
    case RunCpu(n) => Run(c, s, n)
    case SetKernelStackPointer(v) =>
      if s.onKernelStack || !PointerOk(v, KERNEL_STACK_BASE, KERNEL_STACK_END) then s else s.(ksp := v)
    case SetUserCodeRange(begin, end) =>
      if RangeOk(c.image, begin, end) then s.(range := Some(Range(begin, end))) else s
    case ClearUserCodeRange => s.(range := None)
    case RestoreContext(ctx) =>
      if s.onKernelStack || !ContextOk(c, ctx) then s
      else s.(range := ctx.range, ksp := ctx.ksp, regs := ctx.regs, flags := ctx.flags, pc := ctx.pc,
              sp := ctx.sp, priv := ctx.priv, error := false, halted := false)
  }

  function PerformAll(c: Setup, s: State, calls: seq<HostCall>): State {
    if |calls| == 0 then s else Perform(c, PerformAll(c, s, calls[..|calls| - 1]), calls[|calls| - 1])
  }

  lemma PerformKeepsInvariant(c: Setup, s: State, call: HostCall)
    requires Invariant(s) && HandlerKeepsStack(c.bus)
    ensures Invariant(Perform(c, s, call))
  {
    hide Step;
    match call {
      case StepCpu => StepKeepsInvariant(c, s);
      case RunCpu(n) =>
        RunIsSteps(c, s, n);
        StepsKeepInvariant(c, s, n);
      case _ =>
    }
  }

  /** The invariant holds after any sequence of steps, runs and host calls on a freshly loaded CPU. */
  lemma {:induction false} ReachableInvariant(
    c: Setup, mem: Ram, pc: u64, range: Option<Range>, dev: Devices, calls: seq<HostCall>)
    requires HandlerKeepsStack(c.bus)
    ensures Invariant(PerformAll(c, FreshCpu(mem, pc, range, dev), calls))
  {
    var s := FreshCpu(mem, pc, range, dev);
    if |calls| == 0 {
    } else {
      ReachableInvariant(c, mem, pc, range, dev, calls[..|calls| - 1]);
      PerformKeepsInvariant(c, PerformAll(c, s, calls[..|calls| - 1]), calls[|calls| - 1]);
    }
  }

  // ----- Consequences -----

  /** A stack check that passes leaves room inside the active stack, so the writes stay inside memory. */
  lemma CheckedFrameFits(s: State)
    requires Invariant(s) && CanPushFrame(s)
    ensures if s.priv.User? || s.onKernelStack
            then KERNEL_STACK_BASE <= FrameBase(s) && FrameBase(s) + FRAME_SIZE <= KERNEL_STACK_END
            else DEFAULT_STACK_BASE <= FrameBase(s) && FrameBase(s) + FRAME_SIZE <= MEMORY_SIZE
    ensures KERNEL_STACK_END == MEMORY_SIZE
  {
  }

  /** Entering `depth` interrupts in a row, none of them returning. */
  function EnterNested(s: State, rets: seq<u64>): Option<State> {
    if |rets| == 0 then Some(s)
    else
      match EnterNested(s, rets[..|rets| - 1])
      case None => None
      case Some(t) => if CanPushFrame(t) then Some(PushFrame(t, rets[|rets| - 1])) else None
  }

  function FramesOnKernelStack(s: State): nat
    requires Invariant(s)
  {
    (s.ksp - KERNEL_STACK_BASE) / FRAME_SIZE
  }

  /** From user mode with an empty kernel stack, entries nest three deep and no deeper. */
  lemma {:induction false} KernelStackHoldsThreeFrames(s: State, rets: seq<u64>)
    requires Invariant(s) && s.priv.User? && s.ksp == KERNEL_STACK_BASE
    ensures EnterNested(s, rets).Some? <==> |rets| <= 3
    ensures EnterNested(s, rets).Some? ==>
              var t := EnterNested(s, rets).value;
              && Invariant(t)
              && t.ksp == KERNEL_STACK_BASE + FRAME_SIZE * |rets|
              && FramesOnKernelStack(t) == |rets|
              && t.onKernelStack == (|rets| > 0) && (|rets| == 0 ==> t == s)
  {
    if |rets| == 0 {
    } else {
      KernelStackHoldsThreeFrames(s, rets[..|rets| - 1]);
      if EnterNested(s, rets[..|rets| - 1]).Some? {
        var t := EnterNested(s, rets[..|rets| - 1]).value;
        if CanPushFrame(t) {
          PushFrameKeepsInvariant(t, rets[|rets| - 1]);
        }
      }
    }
  }
}

// Interrupts in their own terms: when one is taken and which, what its frame
// holds, what IRET makes of a frame, and what the host and the clock may do
// around the instructions (src/core/CPU.cpp, docs/memory-map.md).
module InterruptLaws {
  import opened Words
  import opened Isa
  import opened Interrupts
  import opened Memory
  import opened Machine
  import opened InstructionLaws
  import opened ControlLaws
  import InterruptFrames

  // ----- Entry -----

  /** Room for a frame: user code needs a sound SP and 32 bytes of interrupt stack, kernel code 32 of its own. */
  predicate FrameRoom(s: State) {
    if s.priv.User? then
      && 0x800 <= s.sp <= 0xFA0 && (s.sp - 0x800) % 8 == 0
      && 0xFA0 <= s.ksp && (s.ksp - 0xFA0) % 8 == 0 && s.ksp + 32 <= 0x1000
    else HasRoom(s, 4)
  }

  /** The four words of a frame at `base`: return address, flags, privilege and SP. */
  predicate FrameAt(m: Ram, base: nat, s: State, ret: u64)
    requires base + 32 <= 0x1000
  {
    && WordAt(m, base, ret)
    && WordAt(m, base + 8, (if s.flags.zero then 1 else 0) + (if s.flags.sign then 2 else 0)
                           + (if s.flags.carry then 4 else 0) + (if s.flags.overflow then 8 else 0))
    && WordAt(m, base + 16, if s.priv.User? then 1 else 0)
    && WordAt(m, base + 24, s.sp)
  }

  /**
   * t is s inside a handler at `pc` with registers `regs`: a frame on the
   * stack that interrupts use, kernel privilege, and nothing else changed.
   */
  ghost predicate Inside(s: State, t: State, ret: u64, regs: Regs, pc: u64) {
    var base := if s.priv.User? then s.ksp else s.sp;
    var on := s.onKernelStack || s.priv.User?;
    && base + 32 <= 0x1000 && FrameAt(t.mem, base, s, ret)
    && (forall k :: 0 <= k < 0x1000 && !(base <= k < base + 32) ==> t.mem[k] == s.mem[k])
    && t == s.(mem := t.mem, regs := regs, pc := pc, sp := base + 32, priv := Kernel, onKernelStack := on,
               ksp := if on then base + 32 else s.ksp)
  }

  lemma RoomIsCanPushFrame(s: State)
    ensures FrameRoom(s) <==> CanPushFrame(s)
  {
  }

  lemma FrameWords(m: Ram, base: nat, f: Frame)
    requires base + 32 <= 0x1000
    ensures var r := WithFrame(m, base, f);
            WordAt(r, base, f.ret) && WordAt(r, base + 8, f.flags) && WordAt(r, base + 16, f.priv)
            && WordAt(r, base + 24, f.sp)
  {
    hide FrameBytes, WithFrame, Read64, WordAt;
    InterruptFrames.FrameReadBack(m, base, f);
    var r := WithFrame(m, base, f);
    ReadIsWord(r, base, f.ret);
    ReadIsWord(r, base + 8, f.flags);
    ReadIsWord(r, base + 16, f.priv);
    ReadIsWord(r, base + 24, f.sp);
  }

  lemma PushedFrame(s: State, ret: u64)
    requires CanPushFrame(s)
    ensures var m, base := PushFrame(s, ret).mem, FrameBase(s);
            base + 32 <= 0x1000 && FrameAt(m, base, s, ret)
  {
    var base := FrameBase(s);
    assert base + 32 <= 0x1000;
    hide WithFrame, FrameBase, CanPushFrame, WordAt;
    var m := PushFrame(s, ret).mem;
    FrameWords(s.mem, base, FrameOf(s, ret));
    UnsignedWord(m, base, ret);
    UnsignedWord(m, base + 24, s.sp);
  }

  lemma UnsignedWord(m: Ram, a: nat, v: u64)
    requires a + 8 <= 0x1000
    ensures WordAt(m, a, ToI64(v)) <==> WordAt(m, a, v)
  {
    var x := Eight(m, a);
    hide Eight;
    if v >= TWO_63 {
      assert x - ToI64(v) == x - v + TWO_64;
    }
  }

  lemma PushedIsInside(s: State, ret: u64, regs: Regs, pc: u64)
    requires CanPushFrame(s)
    ensures Inside(s, PushFrame(s, ret).(regs := regs, pc := pc), ret, regs, pc)
  {
    PushedFrame(s, ret);
    hide FrameAt, FrameOf, FrameBytes;
  }

  // ----- Which interrupt is taken -----

  /** The request is unmasked and its vector has a handler. */
  predicate Ready(ctl: Controller, r: Request) {
    !ctl.masks[r.vector] && ctl.handlers[r.vector].Some?
  }

  /** Request k is the first that is ready. */
  predicate FirstReady(ctl: Controller, k: nat) {
    k < |ctl.pending| && Ready(ctl, ctl.pending[k]) && forall j :: 0 <= j < k ==> !Ready(ctl, ctl.pending[j])
  }

  /** Nothing to take: no controller, interrupts off, or no request that is ready. */
  predicate Quiet(c: Setup, s: State) {
    var ctl := s.dev.controller;
    !c.hasController || !ctl.enabled || forall j :: 0 <= j < |ctl.pending| ==> !Ready(ctl, ctl.pending[j])
  }

  lemma FirstReadyIsFound(ctl: Controller, k: nat)
    requires ctl.enabled && FirstReady(ctl, k)
    ensures FindDeliverable(ctl) == k
  {
    var f := FindDeliverable(ctl);
    assert forall j :: 0 <= j < f ==> !Deliverable(ctl, ctl.pending[j]);
    assert Deliverable(ctl, ctl.pending[k]);
  }

  lemma QuietIsNotDue(c: Setup, s: State)
    ensures Quiet(c, s) <==> !InterruptDue(c, s)
  {
    var ctl := s.dev.controller;
    var f := FindDeliverable(ctl);
    if f < |ctl.pending| {
      assert Deliverable(ctl, ctl.pending[f]);
    }
    assert ctl.enabled ==> forall j :: 0 <= j < f ==> !Deliverable(ctl, ctl.pending[j]);
  }

  /**
   * A due interrupt comes before the instruction.  The first ready request
   * leaves the queue; its handler is entered with the vector in R0, the
   * payload in R1 and the pc in the frame.  A handler outside the program or
   * a stack without room stops the machine with only the queue changed.
   */
  lemma InterruptLaw(c: Setup, s: State, k: nat)
    requires !s.halted && !s.error && c.hasController && s.dev.controller.enabled
    requires FirstReady(s.dev.controller, k)
    ensures var ctl, t := s.dev.controller, Step(c, s);
            var r := ctl.pending[k];
            var handler := ctl.handlers[r.vector].value;
            var u := s.(dev := s.dev.(controller := ctl.(pending := ctl.pending[..k] + ctl.pending[k + 1..])));
            if InProgram(c.image, handler) && FrameRoom(s)
            then Inside(u, t, s.pc, s.regs[0 := r.vector as i64][1 := r.payload], handler)
            else t == u.(error := true, halted := true)
  {
    hide FindDeliverable, PushFrame, Inside, FrameRoom, CanPushFrame, ExecCurrent;
    FirstReadyIsFound(s.dev.controller, k);
    var ctl := s.dev.controller;
    var r := ctl.pending[k];
    var u := s.(dev := s.dev.(controller := ctl.(pending := ctl.pending[..k] + ctl.pending[k + 1..])));
    SameRoom(s, u.dev);
    RoomIsCanPushFrame(u);
    if CanPushFrame(u) {
      PushedIsInside(u, s.pc, s.regs[0 := r.vector as i64][1 := r.payload], ctl.handlers[r.vector].value);
      PushedRegisters(u, s.pc);
    }
  }

  lemma SameRoom(s: State, d: Devices)
    ensures FrameRoom(s.(dev := d)) <==> FrameRoom(s)
  {
  }

  lemma PushedRegisters(s: State, ret: u64)
    requires CanPushFrame(s)
    ensures PushFrame(s, ret).regs == s.regs
  {
  }

  lemma {:induction false} SomeFirstReady(ctl: Controller, j: nat) returns (k: nat)
    requires j < |ctl.pending| && Ready(ctl, ctl.pending[j])
    ensures k <= j && FirstReady(ctl, k)
  {
    if i :| 0 <= i < j && Ready(ctl, ctl.pending[i]) {
      k := SomeFirstReady(ctl, i);
    } else {
      k := j;
    }
  }

  /** Every step with an interrupt due that does not fail delivers the first ready request. */
  lemma DueInterruptIsDelivered(c: Setup, s: State)
    requires !s.halted && !s.error && !Quiet(c, s) && !Step(c, s).error
    ensures exists k: nat ::
              && FirstReady(s.dev.controller, k)
              && var q, t := s.dev.controller.pending, Step(c, s);
                 && t.regs == s.regs[0 := q[k].vector as i64][1 := q[k].payload]
                 && Some(t.pc) == s.dev.controller.handlers[q[k].vector]
                 && t.dev.controller.pending == q[..k] + q[k + 1..]
  {
    var ctl := s.dev.controller;
    var j :| 0 <= j < |ctl.pending| && Ready(ctl, ctl.pending[j]);
    var k := SomeFirstReady(ctl, j);
    hide Step;
    InterruptLaw(c, s, k);
  }

  // ----- The order of a step -----

  /** A machine that has halted or failed stays as it is. */
  lemma StoppedLaw(c: Setup, s: State)
    requires s.halted || s.error
    ensures Step(c, s) == s
  {
  }

  /** The devices' ticks, one after the other from d: `ds` are what each leaves behind. */
  ghost predicate Ticked(clocked: seq<Devices -> DeviceEffect>, d: Devices, ds: seq<Devices>) {
    && 1 <= |ds| <= |clocked| + 1 && ds[0] == d
    && forall i :: 0 <= i < |ds| - 1 ==> clocked[i](ds[i]) == Done(ds[i + 1])
  }

  lemma {:induction false} TicksInOrder(clocked: seq<Devices -> DeviceEffect>, d: Devices, ds: seq<Devices>)
    requires Ticked(clocked, d, ds)
    ensures |ds| == |clocked| + 1 ==> Tick(clocked, d) == Done(ds[|ds| - 1])
    ensures |ds| <= |clocked| && clocked[|ds| - 1](ds[|ds| - 1]).Threw? ==>
              Tick(clocked, d) == Threw(clocked[|ds| - 1](ds[|ds| - 1]).dev)
  {
    if |ds| > 1 {
      assert clocked[0](ds[0]) == Done(ds[1]);
      TicksInOrder(clocked[1..], ds[1], ds[1..]);
    }
  }

  /** What a step makes of the instruction's outcome: a fault stops the machine with an error. */
  ghost predicate Continues(c: Setup, o: Outcome, t: State) {
    if o.Fault? then t == o.s.(error := true, halted := true)
    else if o.s.halted || o.s.error then t == o.s
    else
      && (forall ds :: Ticked(c.bus.clocked, o.s.dev, ds) && |ds| == |c.bus.clocked| + 1 ==>
                         t == o.s.(dev := ds[|ds| - 1]))
      && (forall ds :: Ticked(c.bus.clocked, o.s.dev, ds) && |ds| <= |c.bus.clocked| ==>
                         var r := c.bus.clocked[|ds| - 1](ds[|ds| - 1]);
                         r.Threw? ==> t == o.s.(dev := r.dev, error := true, halted := true))
  }

  lemma TickContinues(c: Setup, t: State)
    requires !t.halted && !t.error
    ensures Continues(c, Next(t), TickDevices(c, t))
  {
    forall ds | Ticked(c.bus.clocked, t.dev, ds)
      ensures |ds| == |c.bus.clocked| + 1 ==> Tick(c.bus.clocked, t.dev) == Done(ds[|ds| - 1])
      ensures |ds| <= |c.bus.clocked| && c.bus.clocked[|ds| - 1](ds[|ds| - 1]).Threw? ==>
                Tick(c.bus.clocked, t.dev) == Threw(c.bus.clocked[|ds| - 1](ds[|ds| - 1]).dev)
    {
      TicksInOrder(c.bus.clocked, t.dev, ds);
    }
  }

  /**
   * With no interrupt to take, the instruction at the pc runs.  The clocked
   * devices tick after it, in the order they were added and up to the first
   * that fails, unless it stopped the machine.
   */
  lemma InstructionLaw(c: Setup, s: State, f: Fetched)
    requires !s.halted && !s.error && Quiet(c, s) && Fetch(c, s) == Ok(f)
    ensures Continues(c, Exec(c, s, f.op, f.dst, f.src), Step(c, s))
  {
    hide Quiet, Exec, Fetch, InterruptDue, TickDevices, Ticked;
    QuietIsNotDue(c, s);
    var o := Exec(c, s, f.op, f.dst, f.src);
    if o.Next? && !o.s.halted && !o.s.error {
      TickContinues(c, o.s);
    }
  }

  /** When nothing can be fetched the step fails and changes nothing else. */
  lemma NoInstructionLaw(c: Setup, s: State)
    requires !s.halted && !s.error && Quiet(c, s) && Fetch(c, s).Err?
    ensures Step(c, s) == s.(error := true, halted := true)
  {
    hide Quiet, Exec, InterruptDue, Fetch, TickDevices;
    QuietIsNotDue(c, s);
  }

  // ----- Return -----

  /** The eight bytes at a as a signed number. */
  function SignedAt(m: Ram, a: nat): int
    requires a + 8 <= 0x1000
  {
    var x := Eight(m, a);
    if x < 0x8000_0000_0000_0000 then x else x - 0x1_0000_0000_0000_0000
  }

  lemma SignedAtIsRead(m: Ram, a: nat)
    requires a + 8 <= 0x1000
    ensures SignedAt(m, a) == Read64(m, a)
  {
    ReadIsWord(m, a, Read64(m, a));
    EightRange(m, a);
    hide Eight, Read64;
    Congruent(Eight(m, a), Read64(m, a));
  }

  lemma EightRange(m: Ram, a: nat)
    requires a + 8 <= 0x1000
    ensures 0 <= Eight(m, a) < TWO_64
  {
  }

  /** Where a frame may send the machine; `toEnd` also lets a terminating service leave user code at its end. */
  predicate MayReturn(c: Setup, s: State, ret: int, priv: int, sp: int, toEnd: bool) {
    && 0 <= ret && 0 <= sp
    && match priv
       case 0 =>
         if s.onKernelStack then 0xFA0 <= sp <= 0x1000 && (sp - 0xFA0) % 8 == 0
         else 0x800 <= sp <= 0x1000 && (sp - 0x800) % 8 == 0
       case 1 =>
         && 0x800 <= sp <= 0xFA0 && (sp - 0x800) % 8 == 0
         && ((toEnd && s.range.Some? && ret == s.range.value.end) || MayGo(c, s, ret, User))
       case _ => false
  }

  /** What the frame on top of the stack in use makes of s. */
  function Unwound(c: Setup, s: State, toEnd: bool): Outcome {
    if !HasSlots(s, 4) then Fault(s)
    else
      var ret, flags := SignedAt(s.mem, s.sp - 32), SignedAt(s.mem, s.sp - 24);
      var priv, sp := SignedAt(s.mem, s.sp - 16), SignedAt(s.mem, s.sp - 8);
      if !MayReturn(c, s, ret, priv, sp, toEnd) then Fault(s)
      else
        Next(s.(pc := ret, sp := sp, priv := if priv == 1 then User else Kernel,
                flags := Flags(flags % 2 == 1, flags / 2 % 2 == 1, flags / 4 % 2 == 1, flags / 8 % 2 == 1,
                               s.flags.spare),
                onKernelStack := s.onKernelStack && priv == 0,
                ksp := if !s.onKernelStack then s.ksp else if priv == 1 then s.sp - 32 else sp))
  }

  lemma MayReturnIsChecked(c: Setup, s: State, f: Frame, toEnd: bool)
    ensures MayReturn(c, s, f.ret, f.priv, f.sp, toEnd) <==>
              var p := PrivilegeFromRaw(f.priv);
              && p.Ok? && f.ret >= 0 && f.sp >= 0 && SavedSpOk(s, f.sp, p.value)
              && ((toEnd && p.value.User? && s.range.Some? && f.ret == s.range.value.end)
                  || MayExecute(c, s, f.ret, p.value))
  {
    hide MayGo, InProgram;
    if f.ret >= 0 {
      MayGoIsMayExecute(c, s, f.ret, User);
    }
  }

  lemma UnwoundIsRestored(c: Setup, s: State, toEnd: bool)
    ensures Unwound(c, s, toEnd) == RestoreFrame(c, s, toEnd)
  {
    RoomIsCanPush(s, 4);
    if HasSlots(s, 4) {
      SignedAtIsRead(s.mem, s.sp - 32);
      SignedAtIsRead(s.mem, s.sp - 24);
      SignedAtIsRead(s.mem, s.sp - 16);
      SignedAtIsRead(s.mem, s.sp - 8);
      hide Read64, MayReturn, MayExecute, SavedSpOk, SignedAt, HasSlots, CanPop;
      var f := TopFrame(s);
      MayReturnIsChecked(c, s, f, toEnd);
      if MayReturn(c, s, f.ret, f.priv, f.sp, toEnd) {
        MayReturnPrivilege(c, s, f, toEnd);
      }
    }
  }

  lemma MayReturnPrivilege(c: Setup, s: State, f: Frame, toEnd: bool)
    requires MayReturn(c, s, f.ret, f.priv, f.sp, toEnd)
    ensures f.priv == 0 || f.priv == 1
  {
  }

  /** IRET, which is the kernel's: the frame on top is taken off and resumed, or nothing happens. */
  lemma ReturnLaw(c: Setup, s: State)
    requires s.priv.Kernel?
    ensures Exec(c, s, IRET, NoArg(true), NoArg(true)) == Unwound(c, s, false)
  {
    hide Exec, Unwound, RestoreFrame;
    KernelDispatch(c, s, IRET, NoArg(true), NoArg(true));
    UnwoundIsRestored(c, s, false);
  }

  // ----- INT -----

  lemma IntOutcome(c: Setup, s: State, x: Arg, v: i64, d: Devices)
    requires c.hasController && ValueOf(c, s, x) == Value(d, v)
    requires 0 <= v <= 255 && !c.bus.handles(v)
    ensures Exec(c, s, INT, x, NoArg(true))
         == match d.controller.handlers[v]
            case None => Fault(s.(dev := d))
            case Some(handler) =>
              if !IsLoaded(c.image, handler) || !CanPushFrame(s.(dev := d)) then Fault(s.(dev := d))
              else Next(PushFrame(s.(dev := d), ReturnAddress(c, s)).(regs := s.regs[0 := v], pc := handler))
  {
    hide Exec, ValueOf, CanPushFrame, PushFrame;
    ValueNeedsOperand(c, s, x);
    SystemDispatch(c, s, INT, x, NoArg(true));
    if CanPushFrame(s.(dev := d)) {
      PushedRegisters(s.(dev := d), ReturnAddress(c, s));
    }
  }

  /** INT v of a vector the program handles: its handler is entered with v in R0 and the next address in the frame. */
  lemma InterruptCallLaw(c: Setup, s: State, x: Arg, v: i64, d: Devices)
    requires c.hasController && Source(c, s, x, v, d)
    requires 0 <= v <= 255 && !c.bus.handles(v)
    ensures var o, t := Exec(c, s, INT, x, NoArg(true)), s.(dev := d);
            var handler := d.controller.handlers[v];
            if handler.Some? && InProgram(c.image, handler.value) && FrameRoom(s)
            then o.Next? && Inside(t, o.s, ReturnAddress(c, s), s.regs[0 := v], handler.value)
            else o == Fault(t)
  {
    hide Exec, ValueOf, Source, PushFrame, FrameRoom, CanPushFrame, Inside, ReturnAddress;
    SourceIsValue(c, s, x, v, d);
    IntOutcome(c, s, x, v, d);
    SameRoom(s, d);
    RoomIsCanPushFrame(s.(dev := d));
    var handler := d.controller.handlers[v];
    if handler.Some? && CanPushFrame(s.(dev := d)) {
      PushedIsInside(s.(dev := d), ReturnAddress(c, s), s.regs[0 := v], handler.value);
    }
  }

  /** INT without a controller, or of a number that is no vector, faults. */
  lemma BadVectorLaw(c: Setup, s: State, x: Arg, v: i64, d: Devices)
    requires Source(c, s, x, v, d)
    requires !c.hasController || v < 0 || v > 255
    ensures Exec(c, s, INT, x, NoArg(true)) == if c.hasController then Fault(s.(dev := d)) else Fault(s)
  {
    hide Exec, ValueOf, Source;
    SourceIsValue(c, s, x, v, d);
    SystemDispatch(c, s, INT, x, NoArg(true));
    ValueNeedsOperand(c, s, x);
  }

  lemma HostOutcome(c: Setup, s: State, x: Arg, v: i64, d: Devices)
    requires c.hasController && ValueOf(c, s, x) == Value(d, v)
    requires 0 <= v <= 255 && c.bus.handles(v)
    ensures Exec(c, s, INT, x, NoArg(true)) == HostService(c, s.(dev := d), v, ReturnAddress(c, s))
  {
    hide Exec, ValueOf, HostService;
    ValueNeedsOperand(c, s, x);
    SystemDispatch(c, s, INT, x, NoArg(true));
  }

  /** What the host left of the machine it was given, with the CPU's private fields as they were. */
  function Handed(e: State, h: State): State {
    h.(ksp := e.ksp, onKernelStack := e.onKernelStack, range := e.range, exit := e.exit)
  }

  /** After a host service: its frame is taken off; a terminating service halts with its exit code. */
  function Served(c: Setup, e: State, r: HostResult): Outcome {
    match r
    case HandlerThrew(h) => Fault(Unwound(c, Handed(e, h), false).s)
    case Handled(h, terminate, code) =>
      match Unwound(c, Handed(e, h), terminate)
      case Fault(t) => Fault(t)
      case Next(t) => if terminate then Next(t.(exit := Some(code), halted := true)) else Next(t)
  }

  lemma ServedIsHostService(c: Setup, s: State, v: byte, ret: u64)
    requires CanPushFrame(s)
    ensures HostService(c, s, v, ret)
         == var e := PushFrame(s, ret).(regs := s.regs[0 := v]);
            Served(c, e, c.bus.handle(v, e))
  {
    var e := PushFrame(s, ret).(regs := s.regs[0 := v]);
    PushedRegisters(s, ret);
    var r := c.bus.handle(v, e);
    hide PushFrame, RestoreFrame, Unwound;
    UnwoundIsRestored(c, Handed(e, r.s), false);
    UnwoundIsRestored(c, Handed(e, r.s), true);
  }

  /**
   * INT v of a vector the host handles: it sees the machine as a handler
   * would, with v in R0 and the pc still at the INT, and its frame is undone
   * when it is done.
   */
  lemma HostCallLaw(c: Setup, s: State, x: Arg, v: i64, d: Devices) returns (e: State)
    requires c.hasController && Source(c, s, x, v, d)
    requires 0 <= v <= 255 && c.bus.handles(v)
    ensures if FrameRoom(s)
            then Inside(s.(dev := d), e, ReturnAddress(c, s), s.regs[0 := v], s.pc)
                 && Exec(c, s, INT, x, NoArg(true)) == Served(c, e, c.bus.handle(v, e))
            else Exec(c, s, INT, x, NoArg(true)) == Fault(s.(dev := d))
  {
    hide Exec, ValueOf, Source, FrameRoom, CanPushFrame, Inside, ReturnAddress, Served;
    SourceIsValue(c, s, x, v, d);
    HostOutcome(c, s, x, v, d);
    SameRoom(s, d);
    var t, ret := s.(dev := d), ReturnAddress(c, s);
    RoomIsCanPushFrame(t);
    e := t;
    if CanPushFrame(t) {
      e := PushFrame(t, ret).(regs := s.regs[0 := v]);
      PushedIsInside(t, ret, s.regs[0 := v], s.pc);
      ServedIsHostService(c, t, v, ret);
    }
  }

  // ----- Fetching -----

  /** The vector interpreter fetches instruction `pc` of the program where the code may go there. */
  lemma VectorFetchLaw(c: Setup, s: State)
    requires c.image.Vector?
    ensures if MayGo(c, s, s.pc, s.priv) && s.pc < |c.image.program| then
              var i := c.image.program[s.pc];
              && Fetch(c, s).Ok? && Fetch(c, s).value.op == i.opcode
              && StandsFor(c.image.labels, i.dst, Fetch(c, s).value.dst)
              && StandsFor(c.image.labels, i.src, Fetch(c, s).value.src)
            else Fetch(c, s).Err?
  {
    hide MayGo, MayExecute;
    MayGoIsMayExecute(c, s, s.pc, s.priv);
  }

  /** The operand, with a label replaced by its index. */
  predicate StandsFor(labels: Labels, o: Operand, a: Arg) {
    match a
    case NoArg(clean) => o.Absent? && clean
    case RegArg(r) => o == Register(r)
    case ImmArg(v) => o == Immediate(v)
    case MemArg(address) => o == MemoryAddress(address)
    case IndArg(base) => o == RegisterIndirect(base)
    case CodeArg(Some(target)) => o.Label? && o.name in labels && labels[o.name] == target
    case CodeArg(None) => o.Label? && o.name !in labels
    case BadArg => false
  }
}

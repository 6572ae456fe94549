// Interrupt entry and return: what the frame saves comes back exactly, over
// real runs of the handler and any nesting of further interrupts inside it.
module InterruptFrames {
  import opened Words
  import opened Isa
  import opened Interrupts
  import opened Memory
  import opened MemoryMap
  import opened Machine
  import opened Effects
  import opened Reachable

  /** restoreFlags undoes packFlags and leaves the other bits of the flag word alone. */
  lemma FlagsRoundTrip(saved: Flags, current: Flags)
    ensures UnpackFlags(current, PackFlags(saved)) == saved.(spare := current.spare)
  {
  }

  lemma PrivilegeRoundTrip(p: Privilege, v: i64)
    ensures PrivilegeFromRaw(PrivilegeRaw(p)) == Ok(p)
    ensures PrivilegeFromRaw(v).Ok? ==> PrivilegeRaw(PrivilegeFromRaw(v).value) == v
  {
  }

  lemma SlotReadBack(m: Ram, base: nat, f: Frame, slot: nat, v: i64)
    requires base + FRAME_SIZE <= MEMORY_SIZE && slot < FRAME_SLOTS
    requires v == [f.ret, f.flags, f.priv, f.sp][slot]
    ensures Read64(WithFrame(m, base, f), base + SLOT * slot) == v
  {
    var r, b, at := WithFrame(m, base, f), FrameBytes(f), SLOT * slot;
    SliceOfSlice(r, base, FRAME_SIZE, at, 8);
    assert b[at..at + 8] == LittleEndian(ToU64(v), 8);
    PayloadRoundTrip(v);
  }

  lemma FrameReadBack(m: Ram, base: nat, f: Frame)
    requires base + FRAME_SIZE <= MEMORY_SIZE
    ensures var r := WithFrame(m, base, f);
            && Read64(r, base) == f.ret && Read64(r, base + 8) == f.flags
            && Read64(r, base + 16) == f.priv && Read64(r, base + 24) == f.sp
  {
    SlotReadBack(m, base, f, 0, f.ret);
    SlotReadBack(m, base, f, 1, f.flags);
    SlotReadBack(m, base, f, 2, f.priv);
    SlotReadBack(m, base, f, 3, f.sp);
  }

  /** A frame is four slots, one after the other. */
  lemma FourSlots(m0: Ram, base: nat, f: Frame, m1: Ram, m2: Ram, m3: Ram)
    requires base + FRAME_SIZE <= MEMORY_SIZE
    requires m1 == Write64(m0, base, f.ret)
    requires m2 == Write64(m1, base + 8, f.flags)
    requires m3 == Write64(m2, base + 16, f.priv)
    ensures Write64(m3, base + 24, f.sp) == WithFrame(m0, base, f)
  {
    var r, b := Write64(m3, base + 24, f.sp), FrameBytes(f);
    var b0, b1 := LittleEndian(ToU64(f.ret), 8), LittleEndian(ToU64(f.flags), 8);
    var b2, b3 := LittleEndian(ToU64(f.priv), 8), LittleEndian(ToU64(f.sp), 8);
    SlotBytes(m0, base, f.ret, m1);
    SlotBytes(m1, base + 8, f.flags, m2);
    SlotBytes(m2, base + 16, f.priv, m3);
    SlotBytes(m3, base + 24, f.sp, r);
    forall k | 0 <= k < FRAME_SIZE
      ensures r[base + k] == b[k]
    {
      if k < 8 {
        assert b[k] == b0[k];
      } else if k < 16 {
        assert b[k] == b1[k - 8];
      } else if k < 24 {
        assert b[k] == b2[k - 16];
      } else {
        assert b[k] == b3[k - 24];
      }
    }
    SpliceAt(m0, base, b, r);
  }

  lemma SlotBytes(m: Ram, at: nat, v: i64, r: Ram)
    requires at + 8 <= MEMORY_SIZE && r == Write64(m, at, v)
    ensures forall k :: at <= k < at + 8 ==> r[k] == LittleEndian(ToU64(v), 8)[k - at]
  {
    var b := LittleEndian(ToU64(v), 8);
    assert r[at..at + 8] == b;
    forall k | at <= k < at + 8
      ensures r[k] == b[k - at]
    {
      assert r[k] == r[at..at + 8][k - at];
    }
  }

  /** The bytes [lo, hi) agree. */
  ghost predicate SameWithin(m: Ram, m': Ram, lo: int, hi: int) {
    forall k :: 0 <= k < MEMORY_SIZE && lo <= k < hi ==> m'[k] == m[k]
  }

  /** Everything an interrupt frame is responsible for. */
  predicate Resumed(s: State, t: State, ret: u64) {
    && t.pc == ret
    && t.flags == s.flags.(spare := t.flags.spare)
    && t.priv == s.priv && t.sp == s.sp
    && t.ksp == s.ksp && t.onKernelStack == s.onKernelStack
  }

  /** The frame pushed at s is on top of the stack in use at q. */
  predicate FrameOnTop(s: State, ret: u64, q: State)
    requires CanPushFrame(s)
  {
    var p := PushFrame(s, ret);
    && q.priv.Kernel? && q.sp == p.sp && q.onKernelStack == p.onKernelStack
    && q.ksp == p.ksp && q.range == s.range
  }

  ghost predicate FrameIntact(s: State, ret: u64, m: Ram)
    requires CanPushFrame(s)
  {
    SameWithin(PushFrame(s, ret).mem, m, FrameBase(s), FrameBase(s) + FRAME_SIZE)
  }

  /** q is where a handler entered from s stands when it is about to return. */
  ghost predicate ReadyToReturn(s: State, ret: u64, q: State)
    requires CanPushFrame(s)
  {
    FrameOnTop(s, ret, q) && FrameIntact(s, ret, q.mem)
  }

  /** q with every field a frame is responsible for as it was at s. */
  function ResumedFrom(s: State, ret: u64, q: State): State {
    q.(flags := s.flags.(spare := q.flags.spare), priv := s.priv, pc := ret, sp := s.sp,
       ksp := s.ksp, onKernelStack := s.onKernelStack)
  }

  lemma ReturnFrameReads(s: State, ret: u64, q: State)
    requires Invariant(s) && CanPushFrame(s) && ReadyToReturn(s, ret, q) && ret < TWO_63
    ensures CanPop(q, FRAME_SLOTS)
    ensures TopFrame(q) == Frame(ret, PackFlags(s.flags), PrivilegeRaw(s.priv), s.sp)
    ensures q.sp == FrameBase(s) + FRAME_SIZE && q.onKernelStack == (s.onKernelStack || s.priv.User?)
    ensures !q.onKernelStack ==> q.ksp == s.ksp
  {
    var base := FrameBase(s);
    var p := PushFrame(s, ret);
    PushFrameKeepsInvariant(s, ret);
    FrameReadBack(s.mem, base, FrameOf(s, ret));
    ReadDependsOnBytes(p.mem, q.mem, base);
    ReadDependsOnBytes(p.mem, q.mem, base + 8);
    ReadDependsOnBytes(p.mem, q.mem, base + 16);
    ReadDependsOnBytes(p.mem, q.mem, base + 24);
  }

  /** A return through an intact frame changes exactly the fields the frame is responsible for. */
  lemma FrameRestores(c: Setup, s: State, ret: u64, q: State)
    requires Invariant(s) && CanPushFrame(s) && ReadyToReturn(s, ret, q)
    requires ret < TWO_63 && MayExecute(c, s, ret, s.priv)
    ensures RestoreFrame(c, q, false) == Next(ResumedFrom(s, ret, q))
  {
    ReturnFrameReads(s, ret, q);
    FlagsRoundTrip(s.flags, q.flags);
    PrivilegeRoundTrip(s.priv, 0);
    assert MayExecute(c, q, ret, s.priv) by {
      assert q.range == s.range;
    }
    ReturnOutcome(c, s, ret, q);
  }

  lemma ReturnOutcome(c: Setup, s: State, ret: u64, q: State)
    requires Invariant(s) && ret < TWO_63 && MayExecute(c, q, ret, s.priv)
    requires CanPop(q, FRAME_SLOTS)
    requires TopFrame(q) == Frame(ret, PackFlags(s.flags), PrivilegeRaw(s.priv), s.sp)
    requires q.sp == FrameBase(s) + FRAME_SIZE && q.onKernelStack == (s.onKernelStack || s.priv.User?)
    requires !q.onKernelStack ==> q.ksp == s.ksp
    ensures RestoreFrame(c, q, false)
         == Next(q.(flags := UnpackFlags(q.flags, PackFlags(s.flags)), priv := s.priv, pc := ret, sp := s.sp,
                    ksp := s.ksp, onKernelStack := s.onKernelStack))
  {
  }

  // ----- Running the handler -----

  /** The host handler leaves SP, the privilege, the spare flag bits and the bytes [lo, hi) alone. */
  ghost predicate HandlerLeaves(bus: Bus, lo: int, hi: int) {
    forall v: byte, s: State ::
      var r := bus.handle(v, s).s;
      r.sp == s.sp && r.priv == s.priv && r.flags.spare == s.flags.spare && SameWithin(s.mem, r.mem, lo, hi)
  }

  /** The next instruction is not a STORE into RAM bytes of [lo, hi). */
  predicate StoreAvoids(c: Setup, s: State, lo: int, hi: int) {
    match Fetch(c, s)
    case Err => true
    case Ok(f) =>
      f.op == STORE && AddressOf(s, f.dst).Ok? ==>
        var a := AddressOf(s, f.dst).value;
        c.bus.mapped(a) || a + 8 <= lo || hi <= a
  }

  /** What the states of one kernel-mode activation share: the regime and the live bytes below `top`. */
  ghost predicate SameActivation(s: State, t: State, lo: int, hi: int) {
    && t.onKernelStack == s.onKernelStack && t.range == s.range && t.flags.spare == s.flags.spare
    && (!s.onKernelStack ==> t.ksp == s.ksp)
    && SameWithin(s.mem, t.mem, lo, hi)
  }

  lemma EntryKeepsActivation(s: State, t: State, ret: u64, lo: int, hi: int)
    requires s.priv.Kernel? && hi <= s.sp && EntersFrame(s, t, ret)
    ensures SameActivation(s, t, lo, hi)
  {
  }

  lemma RestoreKeepsActivation(c: Setup, s: State, allowUserEnd: bool, lo: int, hi: int)
    requires s.priv.Kernel?
    ensures var t := RestoreFrame(c, s, allowUserEnd).s;
            t.priv.Kernel? ==> SameActivation(s, t, lo, hi)
  {
  }

  lemma HostServiceKeepsActivation(c: Setup, s: State, vector: byte, ret: u64, lo: int, hi: int)
    requires s.priv.Kernel? && hi <= s.sp && HandlerLeaves(c.bus, lo, hi)
    ensures var t := HostService(c, s, vector, ret).s;
            t.priv.Kernel? ==> SameActivation(s, t, lo, hi)
  {
    if CanPushFrame(s) {
      var p := PushFrame(s, ret);
      var entered := p.(regs := p.regs[0 := vector]);
      assert EntersFrame(s, entered, ret);
      EntryKeepsActivation(s, entered, ret, lo, hi);
      var r := c.bus.handle(vector, entered);
      assert r.s.sp == entered.sp && SameWithin(entered.mem, r.s.mem, lo, hi);
      var h := AfterHandler(entered, r.s);
      assert SameActivation(s, h, lo, hi);
      RestoreKeepsActivation(c, h, r.Handled? && r.terminate, lo, hi);
    }
  }

  lemma OrdinaryKeepsActivation(c: Setup, s: State, op: Opcode, dst: Arg, src: Arg, lo: int, hi: int)
    requires Ordinary(op) && s.priv.Kernel? && hi <= s.sp
    requires op == STORE && AddressOf(s, dst).Ok? ==>
               var a := AddressOf(s, dst).value;
               c.bus.mapped(a) || a + 8 <= lo || hi <= a
    ensures SameActivation(s, Exec(c, s, op, dst, src).s, lo, hi)
  {
    hide Exec;
    ExecIsBounded(c, s, op, dst, src);
    BoundedKeepsActivation(c, s, op, dst, Exec(c, s, op, dst, src), lo, hi);
  }

  lemma BoundedKeepsActivation(c: Setup, s: State, op: Opcode, dst: Arg, o: Outcome, lo: int, hi: int)
    requires Bounded(c, s, op, dst, o) && s.priv.Kernel? && hi <= s.sp
    requires op == STORE && AddressOf(s, dst).Ok? ==>
               var a := AddressOf(s, dst).value;
               c.bus.mapped(a) || a + 8 <= lo || hi <= a
    ensures SameActivation(s, o.s, lo, hi)
  {
    if o.Next? && op == STORE && !c.bus.mapped(AddressOf(s, dst).value) {
      var a := AddressOf(s, dst).value;
      assert SameOutside(s.mem, o.s.mem, a, a + 8);
    }
  }

  lemma IntKeepsActivation(c: Setup, s: State, dst: Arg, src: Arg, lo: int, hi: int)
    requires s.priv.Kernel? && hi <= s.sp && HandlerLeaves(c.bus, lo, hi)
    ensures var t := ExecInt(c, s, dst, src).s;
            t.priv.Kernel? ==> SameActivation(s, t, lo, hi)
  {
    var ret := AddSize(s.pc, Width(c.image));
    if HostCalled(c, s, INT, dst) {
      HostCallOutcome(c, s, dst, src);
      var v := ValueOf(c, s, dst);
      HostServiceKeepsActivation(c, s.(dev := v.dev), v.value, ret, lo, hi);
    } else {
      IntFootprint(c, s, dst, src);
      var o := ExecInt(c, s, dst, src);
      if o.Next? {
        EntryKeepsActivation(s, o.s, ret, lo, hi);
      }
    }
  }

  lemma ExecKeepsActivation(c: Setup, s: State, lo: int, hi: int)
    requires s.priv.Kernel? && hi <= s.sp && HandlerLeaves(c.bus, lo, hi) && StoreAvoids(c, s, lo, hi)
    ensures var t := ExecCurrent(c, s).s;
            t.priv.Kernel? ==> SameActivation(s, t, lo, hi)
  {
    hide ExecData, ExecBinaryOp, ExecBranch, ExecStack, ExecSystem, ExecInt, RestoreFrame;
    if Fetch(c, s).Ok? {
      var f := Fetch(c, s).value;
      if f.op == INT {
        IntKeepsActivation(c, s, f.dst, f.src, lo, hi);
      } else if f.op == IRET {
        RestoreKeepsActivation(c, s, false, lo, hi);
      } else {
        OrdinaryKeepsActivation(c, s, f.op, f.dst, f.src, lo, hi);
      }
    }
  }

  lemma ServiceKeepsActivation(c: Setup, s: State, lo: int, hi: int)
    requires s.priv.Kernel? && hi <= s.sp && InterruptDue(c, s)
    ensures SameActivation(s, ServiceInterrupt(c, s).s, lo, hi)
  {
    var o := ServiceInterrupt(c, s);
    if o.Next? {
      var k := FindDeliverable(s.dev.controller);
      var t := s.(dev := s.dev.(controller := Take(s.dev.controller, k)));
      assert EntersFrame(t, o.s, t.pc);
      EntryKeepsActivation(t, o.s, t.pc, lo, hi);
    }
  }

  lemma ServiceEnters(c: Setup, s: State)
    requires !Stopped(s) && InterruptDue(c, s) && !Step(c, s).error
    ensures EntersFrame(s, Step(c, s), s.pc)
  {
    assert ServiceInterrupt(c, s).Next?;
  }

  lemma StepKeepsActivation(c: Setup, s: State, lo: int, hi: int)
    requires s.priv.Kernel? && hi <= s.sp && HandlerLeaves(c.bus, lo, hi)
    requires Stopped(s) || InterruptDue(c, s) || StoreAvoids(c, s, lo, hi)
    ensures var t := Step(c, s);
            t.priv.Kernel? ==> SameActivation(s, t, lo, hi)
  {
    hide ExecCurrent, ServiceInterrupt;
    if Stopped(s) {
    } else if InterruptDue(c, s) {
      ServiceKeepsActivation(c, s, lo, hi);
    } else {
      ExecKeepsActivation(c, s, lo, hi);
    }
  }

  /**
   * A handler's run of n steps from p that stays in kernel mode, never pops
   * below the top of its frame and never stores into it.  Further interrupts
   * may be taken and returned from inside the run, to any depth.
   */
  ghost predicate HandlerRun(c: Setup, p: State, lo: int, n: nat) {
    && (forall i :: 0 <= i <= n ==> Steps(c, p, i).priv.Kernel? && Steps(c, p, i).sp >= p.sp)
    && (forall i :: 0 <= i < n ==>
          var s := Steps(c, p, i);
          Stopped(s) || InterruptDue(c, s) || StoreAvoids(c, s, lo, p.sp))
  }

  lemma {:induction false} HandlerRunKeepsFrame(c: Setup, p: State, lo: int, n: nat)
    requires HandlerRun(c, p, lo, n) && HandlerLeaves(c.bus, lo, p.sp)
    ensures SameActivation(p, Steps(c, p, n), lo, p.sp)
  {
    hide Step;
    StepsZero(c, p);
    if n > 0 {
      HandlerRunKeepsFrame(c, p, lo, n - 1);
      StepsLast(c, p, n - 1);
      var s := Steps(c, p, n - 1);
      assert s.priv.Kernel? && s.sp >= p.sp && Steps(c, p, n).priv.Kernel?;
      StepKeepsActivation(c, s, lo, p.sp);
    }
  }

  lemma HandlerLeavesKeepsStack(bus: Bus, lo: int, hi: int)
    requires HandlerLeaves(bus, lo, hi)
    ensures HandlerKeepsStack(bus)
  {
    forall v: byte, s: State
      ensures bus.handle(v, s).s.sp == s.sp && bus.handle(v, s).s.priv == s.priv
    {
      var r := bus.handle(v, s).s;
      assert r.sp == s.sp && r.priv == s.priv;
    }
  }

  /** The state right after entry: the frame is pushed and control is in the handler. */
  predicate Entered(s: State, p: State, ret: u64) {
    EntersFrame(s, p, ret)
  }

  /**
   * Interrupts are transparent: if a handler entered from s comes back to its
   * frame, the next IRET resumes s exactly, with pc, flags, privilege, SP and
   * both kernel-stack fields as they were.
   */
  lemma HandlerReturnResumes(c: Setup, s: State, ret: u64, p: State, n: nat)
    requires Invariant(s) && Entered(s, p, ret)
    requires HandlerLeaves(c.bus, FrameBase(s), p.sp) && HandlerRun(c, p, FrameBase(s), n)
    requires Steps(c, p, n).sp == p.sp
    requires ret < TWO_63 && MayExecute(c, s, ret, s.priv)
    ensures var o := RestoreFrame(c, Steps(c, p, n), false);
            o.Next? && Resumed(s, o.s, ret) && o.s.flags == s.flags
  {
    var q := Steps(c, p, n);
    HandlerRunKeepsFrame(c, p, FrameBase(s), n);
    PushFrameKeepsInvariant(s, ret);
    HandlerLeavesKeepsStack(c.bus, FrameBase(s), p.sp);
    assert Invariant(p);
    StepsKeepInvariant(c, p, n);
    assert q.priv.Kernel?;
    assert ReadyToReturn(s, ret, q);
    FrameRestores(c, s, ret, q);
  }

  /** At q the machine will execute a well-formed IRET. */
  predicate AtReturn(c: Setup, q: State) {
    !Stopped(q) && !InterruptDue(c, q) && Fetch(c, q).Ok? &&
    Fetch(c, q).value == Fetched(IRET, NoArg(true), NoArg(true))
  }

  lemma ReturnKeepsRunning(c: Setup, q: State)
    ensures var t := RestoreFrame(c, q, false).s;
            t.halted == q.halted && t.error == q.error
  {
  }

  lemma ReturnStep(c: Setup, q: State)
    requires AtReturn(c, q) && q.priv.Kernel? && RestoreFrame(c, q, false).Next?
    ensures var t := RestoreFrame(c, q, false).s;
            Step(c, q) == TickDevices(c, t)
  {
    hide RestoreFrame, Fetch;
    var t := RestoreFrame(c, q, false).s;
    assert ExecCurrent(c, q) == RestoreFrame(c, q, false);
    assert !Stopped(t) by { ReturnKeepsRunning(c, q); }
  }

  lemma ReturnStepResumes(c: Setup, s: State, ret: u64, p: State, n: nat)
    requires Invariant(s) && Entered(s, p, ret)
    requires HandlerLeaves(c.bus, FrameBase(s), p.sp) && HandlerRun(c, p, FrameBase(s), n)
    requires Steps(c, p, n).sp == p.sp && AtReturn(c, Steps(c, p, n))
    requires ret < TWO_63 && MayExecute(c, s, ret, s.priv)
    ensures var t := Step(c, Steps(c, p, n));
            Resumed(s, t, ret) && t.flags == s.flags
  {
    var q := Steps(c, p, n);
    HandlerReturnResumes(c, s, ret, p, n);
    assert q.priv.Kernel?;
    ReturnStep(c, q);
  }

  /** The same over whole steps, for a device interrupt taken at s: the interrupted program does not notice. */
  lemma DeviceInterruptIsTransparent(c: Setup, s: State, n: nat)
    requires Invariant(s) && !Stopped(s) && InterruptDue(c, s) && !Step(c, s).error
    requires HandlerLeaves(c.bus, FrameBase(s), Step(c, s).sp) && HandlerRun(c, Step(c, s), FrameBase(s), n)
    requires Steps(c, s, n + 1).sp == Step(c, s).sp && AtReturn(c, Steps(c, s, n + 1))
    requires s.pc < TWO_63 && MayExecute(c, s, s.pc, s.priv)
    ensures Resumed(s, Steps(c, s, n + 2), s.pc) && Steps(c, s, n + 2).flags == s.flags
  {
    var p := Step(c, s);
    StepsFirst(c, s, n);
    StepsLast(c, s, n + 1);
    ServiceEnters(c, s);
    ReturnStepResumes(c, s, s.pc, p, n);
  }

  lemma IntEnters(c: Setup, s: State, dst: Arg)
    requires !Stopped(s) && !InterruptDue(c, s)
    requires Fetch(c, s) == Ok(Fetched(INT, dst, NoArg(true))) && !HostCalled(c, s, INT, dst)
    requires !Step(c, s).error
    ensures EntersFrame(s, Step(c, s), AddSize(s.pc, Width(c.image)))
  {
    hide ExecInt;
    IntFootprint(c, s, dst, NoArg(true));
    IntStep(c, s, dst);
  }

  lemma IntStep(c: Setup, s: State, dst: Arg)
    requires !Stopped(s) && !InterruptDue(c, s) && Fetch(c, s) == Ok(Fetched(INT, dst, NoArg(true)))
    ensures var o := ExecInt(c, s, dst, NoArg(true));
            Step(c, s) == match o
                          case Fault(t) => Failed(t)
                          case Next(t) => if Stopped(t) then t else TickDevices(c, t)
  {
    hide ExecInt, Fetch;
  }

  /** The same for an INT instruction serviced by guest code: execution resumes after the INT. */
  lemma SoftwareInterruptIsTransparent(c: Setup, s: State, dst: Arg, n: nat)
    requires Invariant(s) && !Stopped(s) && !InterruptDue(c, s)
    requires Fetch(c, s) == Ok(Fetched(INT, dst, NoArg(true))) && !HostCalled(c, s, INT, dst)
    requires !Step(c, s).error
    requires HandlerLeaves(c.bus, FrameBase(s), Step(c, s).sp) && HandlerRun(c, Step(c, s), FrameBase(s), n)
    requires Steps(c, s, n + 1).sp == Step(c, s).sp && AtReturn(c, Steps(c, s, n + 1))
    requires var ret := AddSize(s.pc, Width(c.image)); ret < TWO_63 && MayExecute(c, s, ret, s.priv)
    ensures var ret := AddSize(s.pc, Width(c.image));
            Resumed(s, Steps(c, s, n + 2), ret) && Steps(c, s, n + 2).flags == s.flags
  {
    var p := Step(c, s);
    var ret := AddSize(s.pc, Width(c.image));
    StepsFirst(c, s, n);
    StepsLast(c, s, n + 1);
    IntEnters(c, s, dst);
    ReturnStepResumes(c, s, ret, p, n);
  }

  // ----- Unwinding a stack of frames -----

  function ReturnTimes(c: Setup, s: State, n: nat): Outcome
    decreases n
  {
    if n == 0 then Next(s)
    else
      match RestoreFrame(c, s, false)
      case Fault(t) => Fault(t)
      case Next(t) => ReturnTimes(c, t, n - 1)
  }

  /** An interrupted state and the address its handler is to return to. */
  datatype Level = Level(s: State, ret: u64)

  ghost predicate MayReturnTo(c: Setup, l: Level) {
    Invariant(l.s) && CanPushFrame(l.s) && l.ret < TWO_63 && MayExecute(c, l.s, l.ret, l.s.priv)
  }

  /** Where level i's frame is on top: the next interrupted state, or q for the last level. */
  function Above(levels: seq<Level>, i: nat, q: State): State
    requires i < |levels|
  {
    if i + 1 < |levels| then levels[i + 1].s else q
  }

  /**
   * Each level's frame is on top of the stack where the next level was
   * interrupted, the last one's at q, and all are intact at q.  Between two
   * entries a handler may have changed flags, registers, devices and memory.
   */
  ghost predicate Stacked(c: Setup, levels: seq<Level>, q: State) {
    && (forall i :: 0 <= i < |levels| ==> MayReturnTo(c, levels[i]) && FrameIntact(levels[i].s, levels[i].ret, q.mem))
    && (forall i :: 0 <= i < |levels| ==> FrameOnTop(levels[i].s, levels[i].ret, Above(levels, i, q)))
  }

  lemma TopLevel(c: Setup, levels: seq<Level>, q: State)
    requires |levels| > 0 && Stacked(c, levels, q)
    ensures var l := levels[|levels| - 1];
            MayReturnTo(c, l) && FrameOnTop(l.s, l.ret, q) && FrameIntact(l.s, l.ret, q.mem)
  {
    hide Invariant, CanPushFrame, PushFrame, MayExecute, FrameIntact, FrameOnTop;
    var n := |levels| - 1;
    var l := levels[n];
    assert MayReturnTo(c, l) && Above(levels, n, q) == q;
  }

  lemma LowerLevelsStacked(c: Setup, levels: seq<Level>, q: State, back: State)
    requires |levels| > 1 && Stacked(c, levels, q)
    requires back == ResumedFrom(levels[|levels| - 1].s, levels[|levels| - 1].ret, q)
    ensures Stacked(c, levels[..|levels| - 1], back)
  {
    hide Invariant, CanPushFrame, MayExecute, FrameIntact, PushFrame;
    var n := |levels| - 1;
    TopLevel(c, levels, q);
    var rest := levels[..n];
    forall i | 0 <= i < n
      ensures FrameOnTop(rest[i].s, rest[i].ret, Above(rest, i, back))
    {
      assert MayReturnTo(c, levels[i]) && FrameOnTop(levels[i].s, levels[i].ret, Above(levels, i, q));
    }
    assert forall i :: 0 <= i < n ==> MayReturnTo(c, levels[i]) && FrameIntact(rest[i].s, rest[i].ret, back.mem);
  }

  /** Any stack of entries, unwound by as many returns, resumes the first interrupted state. */
  lemma {:induction false} NestedLevelsUnwind(c: Setup, levels: seq<Level>, q: State)
    requires |levels| > 0 && Stacked(c, levels, q)
    ensures ReturnTimes(c, q, |levels|) == Next(ResumedFrom(levels[0].s, levels[0].ret, q))
  {
    hide RestoreFrame, Invariant, CanPushFrame, PushFrame, MayExecute, FrameIntact;
    var n := |levels| - 1;
    var last := levels[n];
    TopLevel(c, levels, q);
    FrameRestores(c, last.s, last.ret, q);
    var back := ResumedFrom(last.s, last.ret, q);
    ReturnTimesFirst(c, q, back, n);
    if n > 0 {
      LowerLevelsStacked(c, levels, q, back);
      NestedLevelsUnwind(c, levels[..n], back);
    }
  }

  lemma ReturnTimesFirst(c: Setup, q: State, back: State, n: nat)
    requires RestoreFrame(c, q, false) == Next(back)
    ensures ReturnTimes(c, q, n + 1) == ReturnTimes(c, back, n)
    ensures ReturnTimes(c, back, 0) == Next(back)
  {
  }

  /** Returns that the code protection lets each level take. */
  predicate Resumable(c: Setup, s: State, rets: seq<u64>) {
    && (forall i :: 0 <= i < |rets| ==> rets[i] < TWO_63)
    && (|rets| > 0 ==> MayExecute(c, s, rets[0], s.priv))
  }

  /** q has the stack of EnterNested(s, rets); flags, registers, devices and the rest of memory may differ. */
  ghost predicate StackedLike(s: State, rets: seq<u64>, q: State) {
    EnterNested(s, rets).Some? &&
    var e := EnterNested(s, rets).value;
    && q.priv == e.priv && q.sp == e.sp && q.ksp == e.ksp && q.onKernelStack == e.onKernelStack
    && q.range == e.range && SameWithin(e.mem, q.mem, FrameBase(s), e.sp)
  }

  function LevelsOf(s: State, rets: seq<u64>): seq<Level>
    requires EnterNested(s, rets).Some?
  {
    if |rets| == 0 then []
    else
      var n := |rets| - 1;
      LevelsOf(s, rets[..n]) + [Level(EnterNested(s, rets[..n]).value, rets[n])]
  }

  /** Back-to-back entries, any number, unwound by as many returns. */
  lemma NestedEntriesUnwind(c: Setup, s: State, rets: seq<u64>, q: State)
    requires Invariant(s) && |rets| > 0 && Resumable(c, s, rets) && StackedLike(s, rets, q)
    ensures ReturnTimes(c, q, |rets|) == Next(ResumedFrom(s, rets[0], q))
  {
    EntriesAreStacked(c, s, rets, q);
    NestedLevelsUnwind(c, LevelsOf(s, rets), q);
  }

  lemma OneMoreLevel(c: Setup, levels: seq<Level>, l: Level, q: State)
    requires |levels| > 0 ==> Stacked(c, levels, l.s.(mem := q.mem))
    requires MayReturnTo(c, l) && FrameOnTop(l.s, l.ret, q) && FrameIntact(l.s, l.ret, q.mem)
    ensures Stacked(c, levels + [l], q)
  {
    hide Invariant, CanPushFrame, MayExecute, FrameIntact, PushFrame;
    var all := levels + [l];
    forall i | 0 <= i < |all|
      ensures MayReturnTo(c, all[i]) && FrameIntact(all[i].s, all[i].ret, q.mem)
      ensures FrameOnTop(all[i].s, all[i].ret, Above(all, i, q))
    {
      if i < |levels| {
        assert MayReturnTo(c, levels[i]);
        assert FrameOnTop(levels[i].s, levels[i].ret, Above(levels, i, l.s.(mem := q.mem)));
      }
    }
  }

  lemma {:induction false} EntriesAreStacked(c: Setup, s: State, rets: seq<u64>, q: State)
    requires Invariant(s) && |rets| > 0 && Resumable(c, s, rets) && StackedLike(s, rets, q)
    ensures var levels := LevelsOf(s, rets);
            Stacked(c, levels, q) && |levels| == |rets| && levels[0] == Level(s, rets[0])
  {
    hide Invariant, CanPushFrame, PushFrame, FrameIntact, FrameOnTop, Stacked;
    var n := |rets| - 1;
    EnterLast(s, rets);
    NestedIsKernel(s, rets[..n]);
    var t := EnterNested(s, rets[..n]).value;
    PushedBelow(t, rets[n], q, FrameBase(s));
    if n > 0 {
      EntriesAreStacked(c, s, rets[..n], t.(mem := q.mem));
    }
    OneMoreLevel(c, LevelsOf(s, rets[..n]), Level(t, rets[n]), q);
  }

  lemma EnterLast(s: State, rets: seq<u64>)
    requires |rets| > 0 && EnterNested(s, rets).Some?
    ensures EnterNested(s, rets[..|rets| - 1]).Some?
    ensures var t := EnterNested(s, rets[..|rets| - 1]).value;
            CanPushFrame(t) && EnterNested(s, rets) == Some(PushFrame(t, rets[|rets| - 1]))
  {
  }

  lemma PushedBelow(t: State, ret: u64, q: State, lo: int)
    requires CanPushFrame(t) && lo <= FrameBase(t)
    requires var p := PushFrame(t, ret);
             && q.priv == p.priv && q.sp == p.sp && q.ksp == p.ksp && q.onKernelStack == p.onKernelStack
             && q.range == p.range && SameWithin(p.mem, q.mem, lo, p.sp)
    ensures FrameOnTop(t, ret, q) && FrameIntact(t, ret, q.mem)
    ensures SameWithin(t.mem, q.mem, lo, FrameBase(t))
  {
    var p := PushFrame(t, ret);
    assert SameOutside(t.mem, p.mem, FrameBase(t), FrameBase(t) + FRAME_SIZE);
  }

  lemma {:induction false} NestedIsKernel(s: State, rets: seq<u64>)
    requires Invariant(s) && EnterNested(s, rets).Some?
    ensures var t := EnterNested(s, rets).value;
            && Invariant(t) && t.range == s.range && FrameBase(s) <= FrameBase(t)
            && (|rets| == 0 ==> t == s)
            && (|rets| > 0 ==> t.priv.Kernel? && FrameBase(s) <= t.sp)
  {
    if |rets| > 0 {
      NestedIsKernel(s, rets[..|rets| - 1]);
      PushFrameKeepsInvariant(EnterNested(s, rets[..|rets| - 1]).value, rets[|rets| - 1]);
    }
  }
}

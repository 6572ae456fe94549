// Lockstep of user code: exactly when it holds over whole runs, the states it
// starts from, and where the two interpreters part.
module LockstepUser {
  import opened Words
  import opened Isa
  import opened Memory
  import opened MemoryMap
  import opened Machine
  import opened Effects
  import opened Reachable
  import opened Lockstep
  import opened LockstepSteps

  /** User code in its area of the memory map, with no INT, and return slots only on the user stack. */
  ghost predicate UserTwin(w: Twin) {
    && GoodTwin(w)
    && USER_DATA_END <= w.base && w.base + |w.code| <= USER_STACK_BASE
    && (forall i :: 0 <= i < |w.program| ==> w.program[i].opcode != INT)
    && (forall a :: a in w.slots ==> USER_STACK_BASE <= a)
  }

  /** The instruction at v, if it can be fetched, keeps calls and returns bracketed. */
  predicate StepBracketed(w: Twin, c: Setup, v: State) {
    match Fetch(c, v)
    case Err => true
    case Ok(f) => Bracketed(w, c, v, f)
  }

  lemma UserAccessIsClear(w: Twin, c: Setup, v: State, a: Arg, op: Opcode)
    requires UserTwin(w) && v.priv.User?
    ensures OperandClear(w, c, v, a) && StackOffCode(w, v, op)
  {
    hide GoodTwin;
  }

  lemma UserStepIsClear(w: Twin, cv: Setup, cb: Setup, v: State)
    requires UserTwin(w) && Paired(w, cv, cb) && v.priv.User? && !InterruptDue(cv, v) && StepBracketed(w, cv, v)
    ensures Clear(w, cv, v)
  {
    hide OperandClear, StackOffCode, Bracketed, GoodTwin;
    if Fetch(cv, v).Ok? {
      var f := Fetch(cv, v).value;
      UserAccessIsClear(w, cv, v, f.dst, f.op);
      UserAccessIsClear(w, cv, v, f.src, f.op);
    }
  }

  lemma FetchedFromProgram(w: Twin, c: Setup, v: State)
    requires c.image == Vector(w.program, w.labels) && Fetch(c, v).Ok?
    ensures v.pc < |w.program| && Fetch(c, v).value.op == w.program[v.pc].opcode
  {
    hide MayExecute, ArgOfOperand;
  }

  lemma StackExec(c: Setup, s: State, op: Opcode, dst: Arg, src: Arg)
    ensures op == POP ==> Exec(c, s, op, dst, src) == ExecPop(c, s, dst, src)
    ensures op == RET ==> Exec(c, s, op, dst, src) == ExecRet(c, s, dst, src)
    ensures op == CALL ==> Exec(c, s, op, dst, src) == ExecCall(c, s, dst, src)
  {
    hide ExecPop, ExecRet, ExecCall, ExecData, ExecBinaryOp, ExecBranch, ExecInt, ExecReturn, ExecSystem;
  }

  lemma CallPushesOnUserStack(c: Setup, v: State, dst: Arg, src: Arg)
    requires v.priv.User? && Exec(c, v, CALL, dst, src).Next?
    ensures USER_STACK_BASE <= v.sp
  {
    hide Exec, MayExecute, Write64;
    StackExec(c, v, CALL, dst, src);
  }

  /** CALL adds only slots of the user stack. */
  lemma NextTwinIsUser(w: Twin, cv: Setup, v: State)
    requires UserTwin(w) && v.priv.User? && !InterruptDue(cv, v) && cv.image == Vector(w.program, w.labels)
    ensures UserTwin(NextTwin(w, cv, v))
  {
    hide Fetch, GoodTwin, Exec, InterruptDue;
    NextTwinIsGood(w, cv, v);
    if Fetch(cv, v).Ok? {
      var f := Fetch(cv, v).value;
      FetchedFromProgram(w, cv, v);
      if f.op == CALL && Exec(cv, v, f.op, f.dst, f.src).Next? {
        CallPushesOnUserStack(cv, v, f.dst, f.src);
      }
    }
  }

  lemma NextTwinIsGood(w: Twin, cv: Setup, v: State)
    requires GoodTwin(w)
    ensures GoodTwin(NextTwin(w, cv, v))
  {
    hide ExecCurrent, Fetch;
  }

  lemma UserStepStaysUser(w: Twin, cv: Setup, cb: Setup, v: State)
    requires UserTwin(w) && Paired(w, cv, cb) && v.priv.User? && !InterruptDue(cv, v)
    ensures Step(cv, v).priv.User?
  {
    hide Exec, GoodTwin;
    if Fetch(cv, v).Ok? {
      var f := Fetch(cv, v).value;
      if f.op == IRET {
        FaultIsAtomic(cv, v, f.op, f.dst, f.src);
        PrivilegedFaults(cv, v, f.dst, f.src);
      } else {
        ExecIsBounded(cv, v, f.op, f.dst, f.src);
      }
    }
  }

  lemma PrivilegedFaults(c: Setup, s: State, dst: Arg, src: Arg)
    requires s.priv.User?
    ensures Exec(c, s, IRET, dst, src) == Fault(s)
  {
  }

  /**
   * In user mode nothing needs to be assumed about accesses: the protection
   * keeps them off the code and off the return addresses.  What remains is
   * that no interrupt comes from outside and that calls are bracketed.
   */
  lemma {:induction false} UserLockstep(w: Twin, cv: Setup, cb: Setup, v: State, b: State, n: nat)
    requires UserTwin(w) && Paired(w, cv, cb) && Related(w, v, b) && v.priv.User?
    requires forall i: nat :: i < n ==> !InterruptDue(cv, Steps(cv, v, i))
    requires forall i: nat :: i < n ==> BracketedAt(w, cv, v, i)
    ensures Related(TwinAt(w, cv, v, n), Steps(cv, v, n), Steps(cb, b, n)) && Steps(cv, v, n).priv.User?
    ensures UserTwin(TwinAt(w, cv, v, n)) && Paired(TwinAt(w, cv, v, n), cv, cb)
  {
    hide Step, Related, UserTwin, Paired, Clear, Stopped, InterruptDue, NextTwin, StepBracketed;
    StepsZero(cv, v);
    StepsZero(cb, b);
    if n > 0 {
      UserLockstep(w, cv, cb, v, b, n - 1);
      StepsLast(cv, v, n - 1);
      StepsLast(cb, b, n - 1);
      assert !InterruptDue(cv, Steps(cv, v, n - 1)) && BracketedAt(w, cv, v, n - 1);
      UserStep(TwinAt(w, cv, v, n - 1), cv, cb, Steps(cv, v, n - 1), Steps(cb, b, n - 1));
    }
  }

  /** Step i of the vector machine from v finds its calls and returns bracketed. */
  predicate BracketedAt(w: Twin, c: Setup, v: State, i: nat) {
    Stopped(Steps(c, v, i)) || StepBracketed(TwinAt(w, c, v, i), c, Steps(c, v, i))
  }

  lemma UserStep(w: Twin, cv: Setup, cb: Setup, v: State, b: State)
    requires UserTwin(w) && Paired(w, cv, cb) && Related(w, v, b) && v.priv.User? && !InterruptDue(cv, v)
    requires Stopped(v) || StepBracketed(w, cv, v)
    ensures var u := NextTwin(w, cv, v);
            Related(u, Step(cv, v), Step(cb, b)) && UserTwin(u) && Paired(u, cv, cb) && Step(cv, v).priv.User?
  {
    hide Step, Related, GoodTwin, Paired, Clear, InterruptDue, NextTwin, StepBracketed;
    PairedShape(w, cv, cb);
    if !Stopped(v) {
      UserStepIsClear(w, cv, cb, v);
    }
    UserStepStaysUser(w, cv, cb, v);
    StepRelated(w, cv, cb, v, b);
    NextTwinIsUser(w, cv, v);
    NextTwinKeeps(w, cv, cb, v);
  }

  // ----- Bracketing is necessary -----

  /** POP of a return address puts different values into the register. */
  lemma PopOfReturnSeparates(w: Twin, cv: Setup, cb: Setup, v: State, b: State, dst: Arg, src: Arg)
    requires Related(w, v, b) && OneOperand(dst, src) && dst.RegArg? && CanPop(v, 1) && v.sp - SLOT in w.slots
    requires w.base > 0
    ensures ExecPop(cv, v, dst, src).s.regs != ExecPop(cb, b, dst, src).s.regs
  {
    hide Related, Top;
    SlotHoldsReturn(w, v, b);
    SameStack(w, v, b);
    var x, y := ExecPop(cv, v, dst, src).s.regs, ExecPop(cb, b, dst, src).s.regs;
    assert x[dst.r] == Top(v) && y[dst.r] == Top(b);
  }

  /** RET through a plain word that either machine may run separates pc or the stack pointer. */
  lemma StrayReturnSeparates(w: Twin, cv: Setup, cb: Setup, v: State, b: State, dst: Arg, src: Arg)
    requires SameShape(w, cv, cb) && Related(w, v, b) && NoOperands(dst, src) && CanPop(v, 1) && w.base > 0
    requires v.sp - SLOT !in w.slots && OffCode(w, v.sp - SLOT) && !Nowhere(w, cv, v, Top(v))
    ensures var x, y := ExecRet(cv, v, dst, src).s, ExecRet(cb, b, dst, src).s;
            y.sp != x.sp || y.pc != Address(w, x.pc)
  {
    hide Related, Top, MayExecute, ExecRet;
    RetOutcome(cv, v, dst, src);
    RetOutcome(cb, b, dst, src);
    SameStack(w, v, b);
    SameTop(w, v, b);
    NowhereFaults(w, cv, cb, v, b, Top(v));
  }

  /** A step leaves registers, pc and SP as its instruction did. */
  lemma StepAsExecuted(c: Setup, s: State)
    requires !Stopped(s) && !InterruptDue(c, s)
    ensures var t, e := Step(c, s), ExecCurrent(c, s).s;
            t.regs == e.regs && t.pc == e.pc && t.sp == e.sp
  {
    hide ExecCurrent;
  }

  lemma ApartMeansUnrelated(w: Twin, v: State, b: State)
    requires b.regs != v.regs || b.sp != v.sp || b.pc != Address(w, v.pc)
    ensures !Related(w, v, b)
  {
    hide SameData;
  }

  lemma UnbracketedExec(w: Twin, cv: Setup, cb: Setup, v: State, b: State)
    requires UserTwin(w) && Paired(w, cv, cb) && Related(w, v, b) && v.priv.User? && !StepBracketed(w, cv, v)
    ensures var x, y := ExecCurrent(cv, v).s, ExecCurrent(cb, b).s;
            y.regs != x.regs || y.sp != x.sp || y.pc != Address(w, x.pc)
  {
    hide Fetch, Related, GoodTwin, ExecPop, ExecRet, Nowhere, Top, CanPop, OperandClear, StackOffCode;
    PairedShape(w, cv, cb);
    FetchRelated(w, cv, cb, v, b);
    var fv, fb := Fetch(cv, v).value, Fetch(cb, b).value;
    UserAccessIsClear(w, cv, v, fv.dst, fv.op);
    SamePrivilege(w, v, b);
    StackExec(cv, v, fv.op, fv.dst, fv.src);
    StackExec(cb, b, fb.op, fb.dst, fb.src);
    if fv.op == POP {
      PopOfReturnSeparates(w, cv, cb, v, b, fv.dst, fv.src);
    } else {
      StackIsOffCode(w, v);
      StrayReturnSeparates(w, cv, cb, v, b, fv.dst, fv.src);
    }
  }

  lemma StackIsOffCode(w: Twin, v: State)
    requires UserTwin(w) && v.priv.User? && CanPop(v, 1)
    ensures OffCode(w, v.sp - SLOT)
  {
    hide GoodTwin;
  }

  lemma SamePrivilege(w: Twin, v: State, b: State)
    requires Related(w, v, b)
    ensures b.priv == v.priv && Stopped(b) == Stopped(v)
  {
  }

  /** One step without the bracketing leaves the relation, whatever slots are tracked afterwards. */
  lemma UnbracketedStepSeparates(w: Twin, cv: Setup, cb: Setup, v: State, b: State, u: Twin)
    requires UserTwin(w) && Paired(w, cv, cb) && Related(w, v, b) && v.priv.User? && !InterruptDue(cv, v)
    requires !Stopped(v) && !StepBracketed(w, cv, v) && u == w.(slots := u.slots)
    ensures !Related(u, Step(cv, v), Step(cb, b))
  {
    hide ExecCurrent, Step, Related, GoodTwin, StepBracketed, InterruptDue, Paired;
    PairedShape(w, cv, cb);
    DueRelated(w, cv, cb, v, b);
    SamePrivilege(w, v, b);
    UnbracketedExec(w, cv, cb, v, b);
    StepAsExecuted(cv, v);
    StepAsExecuted(cb, b);
    ApartMeansUnrelated(u, Step(cv, v), Step(cb, b));
  }

  ghost predicate RelatedAt(w: Twin, cv: Setup, cb: Setup, v: State, b: State, i: nat) {
    Related(TwinAt(w, cv, v, i), Steps(cv, v, i), Steps(cb, b, i))
  }

  /**
   * Exactly which user runs the two interpreters share: they are related
   * after every step up to n if and only if every RET of the first n steps
   * finds a return address, or a word no one may run, and every POP plain data.
   */
  lemma {:induction false} UserLockstepIff(w: Twin, cv: Setup, cb: Setup, v: State, b: State, n: nat)
    requires UserTwin(w) && Paired(w, cv, cb) && Related(w, v, b) && v.priv.User?
    requires forall i: nat :: i < n ==> !InterruptDue(cv, Steps(cv, v, i))
    ensures (forall i: nat :: i <= n ==> RelatedAt(w, cv, cb, v, b, i))
            <==> (forall i: nat :: i < n ==> BracketedAt(w, cv, v, i))
  {
    hide Step, Related, UserTwin, Paired, Stopped, InterruptDue, NextTwin, StepBracketed, BracketedAt;
    if forall i: nat :: i < n ==> BracketedAt(w, cv, v, i) {
      forall i: nat | i <= n
        ensures RelatedAt(w, cv, cb, v, b, i)
      {
        UserLockstep(w, cv, cb, v, b, i);
      }
    } else if n > 0 && forall i: nat :: i < n - 1 ==> BracketedAt(w, cv, v, i) {
      LastStepSeparates(w, cv, cb, v, b, n);
    } else if n > 0 {
      UserLockstepIff(w, cv, cb, v, b, n - 1);
    }
  }

  lemma LastStepSeparates(w: Twin, cv: Setup, cb: Setup, v: State, b: State, n: nat)
    requires n > 0 && UserTwin(w) && Paired(w, cv, cb) && Related(w, v, b) && v.priv.User?
    requires forall i: nat :: i < n ==> !InterruptDue(cv, Steps(cv, v, i))
    requires (forall i: nat :: i < n - 1 ==> BracketedAt(w, cv, v, i)) && !BracketedAt(w, cv, v, n - 1)
    ensures !RelatedAt(w, cv, cb, v, b, n)
  {
    hide Step, Related, UserTwin, Paired, Stopped, InterruptDue, NextTwin, StepBracketed;
    UserLockstep(w, cv, cb, v, b, n - 1);
    StepsLast(cv, v, n - 1);
    StepsLast(cb, b, n - 1);
    var u := TwinAt(w, cv, v, n - 1);
    assert !InterruptDue(cv, Steps(cv, v, n - 1));
    OnlySlotsChange(u, cv, Steps(cv, v, n - 1));
    UnbracketedStepSeparates(u, cv, cb, Steps(cv, v, n - 1), Steps(cb, b, n - 1), TwinAt(w, cv, v, n));
  }

  lemma OnlySlotsChange(w: Twin, c: Setup, v: State)
    ensures NextTwin(w, c, v) == w.(slots := NextTwin(w, c, v).slots)
  {
    hide ExecCurrent, Fetch;
  }

  // ----- Subroutines are bracketed -----

  /** Nothing is pushed at or below slot a from s, nor an interrupt frame. */
  predicate KeepsAbove(s: State, a: nat) {
    s.sp > a && FrameBase(s) > a
  }

  lemma NextTwinKeepsSlot(w: Twin, c: Setup, s: State, a: nat)
    requires a in w.slots && KeepsAbove(s, a)
    ensures a in NextTwin(w, c, s).slots
  {
    hide ExecCurrent, ServiceInterrupt, Fetch, InterruptDue;
  }

  /** A return slot stays tracked while the stack pointers keep above it. */
  lemma {:induction false} SlotStays(w: Twin, c: Setup, v: State, a: nat, m: nat, n: nat)
    requires m <= n && a in TwinAt(w, c, v, m).slots
    requires forall i: nat :: m <= i < n ==> KeepsAbove(Steps(c, v, i), a)
    ensures a in TwinAt(w, c, v, n).slots
    decreases n - m
  {
    hide Steps, NextTwin, KeepsAbove;
    if m < n {
      NextTwinKeepsSlot(TwinAt(w, c, v, m), c, Steps(c, v, m), a);
      SlotStays(w, c, v, a, m + 1, n);
    }
  }

  /**
   * A subroutine that keeps the stack above its return address and comes back
   * to it returns bracketed, whatever it pushes, pops, calls or is interrupted
   * by in between.
   */
  lemma CalleeReturnIsBracketed(w: Twin, c: Setup, v: State, n: nat)
    requires !Stopped(v) && !InterruptDue(c, v)
    requires Fetch(c, v).Ok? && Fetch(c, v).value.op == CALL && ExecCurrent(c, v).Next?
    requires n > 0 && Steps(c, v, n).sp == v.sp + SLOT
    requires forall i: nat :: 0 < i < n ==> KeepsAbove(Steps(c, v, i), v.sp)
    requires Fetch(c, Steps(c, v, n)).Ok? && Fetch(c, Steps(c, v, n)).value.op == RET
    ensures BracketedAt(w, c, v, n)
  {
    hide Steps, Fetch, ExecCurrent, Nowhere, CanPop, InterruptDue, KeepsAbove;
    StepsZero(c, v);
    assert TwinAt(w, c, v, 0) == w && TwinAt(w, c, v, 1) == NextTwin(w, c, v);
    assert v.sp in NextTwin(w, c, v).slots;
    SlotStays(w, c, v, v.sp, 1, n);
  }

  // ----- Programs without calls -----

  ghost predicate CallFree(w: Twin) {
    w.slots == {} && forall i :: 0 <= i < |w.program| ==> w.program[i].opcode != CALL && w.program[i].opcode != RET
  }

  lemma CallFreeStep(w: Twin, c: Setup, v: State)
    requires UserTwin(w) && CallFree(w) && c.image == Vector(w.program, w.labels)
    ensures StepBracketed(w, c, v) && (!InterruptDue(c, v) ==> NextTwin(w, c, v) == w)
  {
    hide ExecCurrent, Fetch, GoodTwin, InterruptDue, ServiceInterrupt;
    if Fetch(c, v).Ok? {
      FetchedFromProgram(w, c, v);
    }
    assert w.(slots := {}) == w && {} - {v.sp} == {};
  }

  lemma {:induction false} CallFreeTwinAt(w: Twin, c: Setup, v: State, n: nat)
    requires UserTwin(w) && CallFree(w) && c.image == Vector(w.program, w.labels)
    requires forall i: nat :: i < n ==> !InterruptDue(c, Steps(c, v, i))
    ensures TwinAt(w, c, v, n) == w
  {
    hide NextTwin, Steps, InterruptDue, UserTwin, CallFree, StepBracketed;
    if n > 0 {
      CallFreeTwinAt(w, c, v, n - 1);
      assert !InterruptDue(c, Steps(c, v, n - 1));
      CallFreeStep(w, c, Steps(c, v, n - 1));
    }
  }

  /** Without CALL and RET there is nothing to bracket: every uninterrupted user run is shared. */
  lemma CallFreeLockstep(w: Twin, cv: Setup, cb: Setup, v: State, b: State, n: nat)
    requires UserTwin(w) && CallFree(w) && Paired(w, cv, cb) && Related(w, v, b) && v.priv.User?
    requires forall i: nat :: i < n ==> !InterruptDue(cv, Steps(cv, v, i))
    ensures Related(w, Steps(cv, v, n), Steps(cb, b, n))
  {
    hide Related, UserTwin, CallFree, InterruptDue, Steps, StepBracketed, NextTwin, TwinAt, Paired;
    PairedShape(w, cv, cb);
    forall i: nat | i < n
      ensures BracketedAt(w, cv, v, i)
    {
      CallFreeTwinAt(w, cv, v, i);
      CallFreeStep(w, cv, Steps(cv, v, i));
    }
    UserLockstep(w, cv, cb, v, b, n);
    CallFreeTwinAt(w, cv, v, n);
  }

  /** loadProgram, and loadBinaryProgram entering at instruction 0, leave related states. */
  lemma LoadedStatesRelated(w: Twin, m: Ram, dv: Devices, db: Devices)
    requires GoodTwin(w) && |w.program| > 0 && w.slots == {} && DevicesAlike(w.base, |w.program|, dv, db)
    ensures InRange(m, w.base, |w.code|)
    ensures Related(w, FreshCpu(m, 0, Some(Range(0, |w.program|)), dv),
                    FreshCpu(Splice(m, w.base, w.code), w.base, Some(Range(w.base, w.base + |w.code|)), db))
  {
    SizeOfCode(w);
    var r := Splice(m, w.base, w.code);
    forall k | w.base <= k < w.base + |w.code|
      ensures r[k] == w.code[k - w.base]
    {
      assert r[w.base..w.base + |w.code|][k - w.base] == r[k];
    }
  }

  // ----- Where the interpreters part -----

  /**
   * A taken branch to label index t keeps the interpreters together exactly
   * when t is inside the program or the mode is user.  The assembler can
   * place a label after the last instruction: kernel code may then jump past
   * the end in one interpreter and faults at once in the other.
   */
  lemma TakenBranchAgreesIff(w: Twin, cv: Setup, cb: Setup, v: State, b: State, op: Opcode, t: nat)
    requires GoodTwin(w) && SameShape(w, cv, cb) && Related(w, v, b) && v.pc < |w.program|
    requires IsBranch(op) && Taken(op, v.flags) && INSTRUCTION_SIZE * t < TWO_63
    ensures (ExecBranch(cv, v, op, CodeArg(Some(t)), NoArg(true)).Next?
             == ExecBranch(cb, b, op, ArgOfField(w.base, |w.code|, Field(TCode, INSTRUCTION_SIZE * t)),
                           NoArg(true)).Next?)
            <==> t < |w.program| || v.priv.User?
  {
    hide Related;
    SlotInCode(w, t);
    MayExecuteRelated(w, cv, cb, v, b, t, v.priv);
    FaultRelated(w, v, b);
    SizeOfCode(w);
  }

  /** The same for CALL, which also needs room on the stack to get there. */
  lemma CallAgreesIff(w: Twin, cv: Setup, cb: Setup, v: State, b: State, t: nat)
    requires GoodTwin(w) && SameShape(w, cv, cb) && Related(w, v, b) && v.pc < |w.program|
    requires INSTRUCTION_SIZE * t < TWO_63
    ensures (ExecCall(cv, v, CodeArg(Some(t)), NoArg(true)).Next?
             == ExecCall(cb, b, ArgOfField(w.base, |w.code|, Field(TCode, INSTRUCTION_SIZE * t)), NoArg(true)).Next?)
            <==> t < |w.program| || v.priv.User? || !CanPush(v, 1)
  {
    hide Related, ExecCall, Called, RoomAt, GoodTwin, DevicesAlike, SameData;
    var target := ArgOfField(w.base, |w.code|, Field(TCode, INSTRUCTION_SIZE * t));
    SlotInCode(w, t);
    SizeOfCode(w);
    SameStack(w, v, b);
    CallOutcome(cv, v, CodeArg(Some(t)), NoArg(true), v.pc + 1);
    NextSlotAddress(w, v, b);
    CallOutcome(cb, b, target, NoArg(true), Address(w, v.pc + 1));
    MayExecuteRelated(w, cv, cb, v, b, t, v.priv);
    MayExecuteRelated(w, cv, cb, v, b, v.pc + 1, v.priv);
    if t >= |w.program| {
      PastEndIsNotExecutable(w, cv, v, t);
    }
    SamePrivilege(w, v, b);
  }

  lemma PastEndIsNotExecutable(w: Twin, cv: Setup, v: State, t: nat)
    requires cv.image == Vector(w.program, w.labels) && t >= |w.program|
    ensures MayExecute(cv, v, t, v.priv) <==> v.priv.Kernel?
  {
  }

  /** A label after the last instruction: `JMP end` with `end` at index 1 of a one-instruction program. */
  lemma EndLabelSeparates(cv: Setup, cb: Setup, m: Ram, dev: Devices)
    requires cv.image == Vector([Instruction(JMP, Label("end"), Absent)], map["end" := 1])
    requires cb.image == Binary(DEFAULT_CODE_BASE, INSTRUCTION_SIZE)
    ensures ExecBranch(cv, FreshCpu(m, 0, None, dev), JMP, ArgOfOperand(cv.image.labels, Label("end")),
                       NoArg(true)).Next?
    ensures ExecBranch(cb, FreshCpu(m, DEFAULT_CODE_BASE, None, dev), JMP,
                       ArgOfField(DEFAULT_CODE_BASE, INSTRUCTION_SIZE,
                                  EncodeOperand(Label("end"), cv.image.labels).value),
                       NoArg(true)).Fault?
  {
  }

  lemma PushedSlots(v: State, b: State, x: i64, y: i64)
    requires CanPush(v, 1) && CanPush(b, 1) && v.sp == b.sp && x != y
    ensures exists k :: v.sp <= k < v.sp + SLOT && PushValue(v, x).s.mem[k] != PushValue(b, y).s.mem[k]
  {
    var m, m' := PushValue(v, x).s.mem, PushValue(b, y).s.mem;
    ReadAfterWrite(v.mem, v.sp, x);
    ReadAfterWrite(b.mem, b.sp, y);
    if forall k :: v.sp <= k < v.sp + SLOT ==> m[k] == m'[k] {
      ReadDependsOnBytes(m, m', v.sp);
    }
  }

  /** Tracking the slot is needed: with the slots unchanged, CALL always leaves the relation. */
  lemma CallLeavesRelation(w: Twin, cv: Setup, cb: Setup, v: State, b: State, dv: Arg, db: Arg)
    requires GoodTwin(w) && SameShape(w, cv, cb) && Related(w, v, b) && v.pc < |w.program|
    requires Disjoint(w, v.sp)
    requires ExecCall(cv, v, dv, NoArg(true)).Next? && ExecCall(cb, b, db, NoArg(true)).Next?
    ensures !Related(w, ExecCall(cv, v, dv, NoArg(true)).s, ExecCall(cb, b, db, NoArg(true)).s)
  {
    hide ExecCall, PushValue;
    SizeOfCode(w);
    CallPushes(cv, v, dv, v.pc + 1);
    CallPushes(cb, b, db, Address(w, v.pc + 1));
    PushedSlots(v, b, v.pc + 1, Address(w, v.pc + 1));
  }

  lemma CallPushes(c: Setup, s: State, dst: Arg, ret: i64)
    requires ExecCall(c, s, dst, NoArg(true)).Next? && s.pc + Width(c.image) == ret
    ensures CanPush(s, 1) && ExecCall(c, s, dst, NoArg(true)).s.mem == PushValue(s, ret).s.mem
  {
    hide Write64;
  }
}

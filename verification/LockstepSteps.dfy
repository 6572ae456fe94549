// Whole steps of the two interpreters in lockstep, through interrupt frames:
// what an entry pushes and an interrupt return restores, and the theorem for
// any number of steps.
module LockstepSteps {
  import opened Words
  import opened Isa
  import opened Interrupts
  import opened Memory
  import opened MemoryMap
  import opened Machine
  import opened Effects
  import opened Lockstep
  import InterruptFrames

  // ----- Side conditions of a step -----

  predicate FrameOffCode(w: Twin, base: int) {
    base + FRAME_SIZE <= w.base || w.base + |w.code| <= base
  }

  /** The frame on top of the stack is one that an entry pushed: a return address, then three plain words. */
  predicate FrameTracked(w: Twin, v: State) {
    var base := v.sp - FRAME_SIZE;
    && FrameOffCode(w, base) && base in w.slots
    && base + 8 !in w.slots && base + 16 !in w.slots && base + 24 !in w.slots
  }

  /** INT is serviced by guest code, and IRET finds a frame. */
  predicate FramesClear(w: Twin, c: Setup, v: State, f: Fetched) {
    && (f.op == INT ==> !HostCalled(c, v, INT, f.dst) && (CanPushFrame(v) ==> FrameOffCode(w, FrameBase(v))))
    && (f.op == IRET && v.priv.Kernel? && NoOperands(f.dst, f.src) && CanPop(v, FRAME_SLOTS) ==> FrameTracked(w, v))
  }

  /** The step from v calls no host handler, keeps calls and frames bracketed and does not overlap the loaded code. */
  ghost predicate Clear(w: Twin, c: Setup, v: State) {
    if InterruptDue(c, v) then CanPushFrame(v) ==> FrameOffCode(w, FrameBase(v))
    else
      match Fetch(c, v)
      case Err => true
      case Ok(f) =>
        && FramesClear(w, c, v, f) && StaysInside(w, v, f) && Bracketed(w, c, v, f) && StackOffCode(w, v, f.op)
        && OperandClear(w, c, v, f.dst) && OperandClear(w, c, v, f.src)
  }

  function NextTwin(w: Twin, c: Setup, v: State): Twin {
    if Stopped(v) then w
    else if InterruptDue(c, v) then
      if ServiceInterrupt(c, v).Next? then FrameTwin(w, FrameBase(v)) else w
    else if Fetch(c, v).Err? then w
    else TwinAfter(w, v, Fetch(c, v).value.op, ExecCurrent(c, v))
  }

  /** The twin after n steps of the vector machine from v. */
  function TwinAt(w: Twin, c: Setup, v: State, n: nat): Twin {
    if n == 0 then w else NextTwin(TwinAt(w, c, v, n - 1), c, Steps(c, v, n - 1))
  }

  // ----- Entering -----

  /** The two frames differ in the return address only, which becomes one more tracked slot. */
  lemma FrameKeepsData(w: Twin, m: Ram, m': Ram, base: nat, fv: Frame, fb: Frame)
    requires SameData(w, m, m') && Small(w) && base + FRAME_SIZE <= MEMORY_SIZE && base % SLOT == 0
    requires FrameOffCode(w, base) && 0 <= fv.ret <= |w.program| && fb == fv.(ret := Address(w, fv.ret))
    ensures SameData(FrameTwin(w, base), WithFrame(m, base, fv), WithFrame(m', base, fb))
  {
    hide SameData, Write64, WithFrame;
    var w1 := w.(slots := w.slots + {base});
    var m1, m1' := Write64(m, base, fv.ret), Write64(m', base, fb.ret);
    CallKeepsData(w, m, m', base, fv.ret);
    var w2, m2, m2' := PlainWrite(w1, m1, m1', base + 8, fv.flags);
    var w3, m3, m3' := PlainWrite(w2, m2, m2', base + 16, fv.priv);
    var w4, m4, m4' := PlainWrite(w3, m3, m3', base + 24, fv.sp);
    InterruptFrames.FourSlots(m, base, fv, m1, m2, m3);
    InterruptFrames.FourSlots(m', base, fb, m1', m2', m3');
    assert w4.slots == FrameTwin(w, base).slots;
  }

  lemma PlainWrite(w: Twin, m: Ram, m': Ram, at: nat, x: i64) returns (u: Twin, r: Ram, r': Ram)
    requires SameData(w, m, m') && at + SLOT <= MEMORY_SIZE && at % SLOT == 0 && OffCode(w, at)
    ensures u == w.(slots := w.slots - {at}) && r == Write64(m, at, x) && r' == Write64(m', at, x)
    ensures SameData(u, r, r')
  {
    hide SameData, Write64;
    u, r, r' := w.(slots := w.slots - {at}), Write64(m, at, x), Write64(m', at, x);
    PlainSlot(u, at);
    WriteKeepsData(w, m, m', at, x, {at});
  }

  lemma FrameBaseIsAligned(s: State)
    requires CanPushFrame(s)
    ensures FrameBase(s) % SLOT == 0 && FrameBase(s) + FRAME_SIZE <= MEMORY_SIZE
  {
  }

  /** Entering from related states, with an index and its address to return to, keeps them related. */
  lemma EnterRelated(w: Twin, v: State, b: State, ret: nat)
    requires Related(w, v, b) && CanPushFrame(v) && FrameOffCode(w, FrameBase(v)) && ret <= |w.program|
    ensures CanPushFrame(b) && FrameBase(b) == FrameBase(v)
    ensures Related(FrameTwin(w, FrameBase(v)), PushFrame(v, ret), PushFrame(b, Address(w, ret)))
  {
    hide SameData, DevicesAlike, WithFrame;
    FrameBaseIsAligned(v);
    SameFields(w, v, b);
    FrameKeepsData(w, v.mem, b.mem, FrameBase(v), FrameOf(v, ret), FrameOf(b, Address(w, ret)));
  }

  lemma SameFields(w: Twin, v: State, b: State)
    requires Related(w, v, b)
    ensures CanPushFrame(b) == CanPushFrame(v) && FrameBase(b) == FrameBase(v) && Small(w)
    ensures b.flags == v.flags && b.priv == v.priv && b.sp == v.sp
    ensures b.halted == v.halted && b.error == v.error && b.pc == Address(w, v.pc) && v.pc <= |w.program|
  {
    hide SameData, DevicesAlike;
  }

  /** The handler's first registers and its address. */
  lemma InHandlerRelated(w: Twin, v: State, b: State, regs: Regs, handler: nat)
    requires Related(w, v, b) && handler <= |w.program|
    ensures Related(w, v.(regs := regs, pc := handler), b.(regs := regs, pc := Address(w, handler)))
    ensures b.regs == v.regs
  {
    hide SameData, DevicesAlike;
  }

  lemma HandlerRelated(w: Twin, v: State, b: State, x: byte)
    requires Related(w, v, b)
    ensures HandlersRelated(w.base, |w.program|, v.dev.controller.handlers[x], b.dev.controller.handlers[x])
  {
    hide SameData, HandlersRelated;
  }

  lemma HandlerLoaded(w: Twin, cv: Setup, cb: Setup, handler: nat)
    requires GoodTwin(w) && SameShape(w, cv, cb)
    ensures IsLoaded(cb.image, Address(w, handler)) <==> IsLoaded(cv.image, handler)
  {
    SlotInCode(w, handler);
  }

  // ----- Interrupt requests -----

  lemma {:induction false} FirstDeliverableAlike(c: Controller, d: Controller, i: nat)
    requires i <= |c.pending| && d == c.(handlers := d.handlers)
    requires forall x: byte :: d.handlers[x].Some? == c.handlers[x].Some?
    ensures FirstDeliverableFrom(d, i) == FirstDeliverableFrom(c, i)
    decreases |c.pending| - i
  {
    if i < |c.pending| {
      assert d.handlers[c.pending[i].vector].Some? == c.handlers[c.pending[i].vector].Some?;
      FirstDeliverableAlike(c, d, i + 1);
    }
  }

  lemma DueRelated(w: Twin, cv: Setup, cb: Setup, v: State, b: State)
    requires SameShape(w, cv, cb) && Related(w, v, b)
    ensures InterruptDue(cb, b) == InterruptDue(cv, v)
    ensures FindDeliverable(b.dev.controller) == FindDeliverable(v.dev.controller)
    ensures b.dev.controller == v.dev.controller.(handlers := b.dev.controller.handlers)
  {
    hide SameData;
    forall x: byte
      ensures b.dev.controller.handlers[x].Some? == v.dev.controller.handlers[x].Some?
    {
      assert HandlersRelated(w.base, |w.program|, v.dev.controller.handlers[x], b.dev.controller.handlers[x]);
    }
    FirstDeliverableAlike(v.dev.controller, b.dev.controller, 0);
  }

  lemma TakenAlike(base: nat, n: nat, d: Devices, d': Devices, k: nat)
    requires DevicesAlike(base, n, d, d') && k < |d.controller.pending|
    ensures DevicesAlike(base, n, d.(controller := Take(d.controller, k)), d'.(controller := Take(d'.controller, k)))
  {
    hide HandlersRelated;
    var e, e' := d.(controller := Take(d.controller, k)), d'.(controller := Take(d'.controller, k));
    forall x: byte
      ensures HandlersRelated(base, n, e.controller.handlers[x], e'.controller.handlers[x])
    {
      assert HandlersRelated(base, n, d.controller.handlers[x], d'.controller.handlers[x]);
    }
  }

  /** servicePendingInterruptIfNeeded takes the same request and enters related handlers. */
  lemma ServiceRelated(w: Twin, cv: Setup, cb: Setup, v: State, b: State)
    requires GoodTwin(w) && SameShape(w, cv, cb) && Related(w, v, b) && InterruptDue(cv, v)
    requires CanPushFrame(v) ==> FrameOffCode(w, FrameBase(v))
    ensures InterruptDue(cb, b)
    ensures var o := ServiceInterrupt(cv, v);
            OutcomesRelated(if o.Next? then FrameTwin(w, FrameBase(v)) else w, o, ServiceInterrupt(cb, b))
  {
    hide Related, DevicesAlike, IsLoaded, PushFrame, CanPushFrame, FrameTwin, GoodTwin, FindDeliverable, Take;
    DueRelated(w, cv, cb, v, b);
    var k := FindDeliverable(v.dev.controller);
    var request := v.dev.controller.pending[k];
    var v' := v.(dev := v.dev.(controller := Take(v.dev.controller, k)));
    var b' := b.(dev := b.dev.(controller := Take(b.dev.controller, k)));
    DueHandler(cv, v);
    DevicesOf(w, v, b);
    TakenAlike(w.base, |w.program|, v.dev, b.dev, k);
    DevicesRelated(w, v, b, v'.dev, b'.dev);
    HandlerRelated(w, v, b, request.vector);
    var handler := v.dev.controller.handlers[request.vector].value;
    HandlerLoaded(w, cv, cb, handler);
    SameFields(w, v', b');
    SameFrameBase(v, v'.dev);
    FaultRelated(w, v', b');
    if CanPushFrame(v') {
      EnterRelated(w, v', b', v.pc);
      var p, q := PushFrame(v', v.pc), PushFrame(b', Address(w, v.pc));
      TwinAddress(w, FrameBase(v), handler);
      InHandlerRelated(FrameTwin(w, FrameBase(v)), p, q,
                       p.regs[0 := request.vector as i64][1 := request.payload], handler);
    }
  }

  lemma DueHandler(c: Setup, s: State)
    requires InterruptDue(c, s)
    ensures var k := FindDeliverable(s.dev.controller);
            k < |s.dev.controller.pending| && s.dev.controller.handlers[s.dev.controller.pending[k].vector].Some?
  {
  }

  lemma DevicesOf(w: Twin, v: State, b: State)
    requires Related(w, v, b)
    ensures DevicesAlike(w.base, |w.program|, v.dev, b.dev)
  {
  }

  lemma SameFrameBase(s: State, dev: Devices)
    ensures CanPushFrame(s.(dev := dev)) == CanPushFrame(s) && FrameBase(s.(dev := dev)) == FrameBase(s)
  {
  }

  lemma TwinAddress(w: Twin, base: nat, index: nat)
    ensures Address(FrameTwin(w, base), index) == Address(w, index) && FrameTwin(w, base).program == w.program
  {
  }

  // ----- INT and IRET -----

  /** A guest-serviced vector, once its number is known. */
  function GuestService(c: Setup, t: State, x: byte, ret: u64): Outcome {
    match t.dev.controller.handlers[x]
    case None => Fault(t)
    case Some(handler) =>
      if !IsLoaded(c.image, handler) || !CanPushFrame(t) then Fault(t)
      else
        var p := PushFrame(t, ret);
        Next(p.(regs := p.regs[0 := x], pc := handler))
  }

  lemma IntOutcome(c: Setup, s: State, dst: Arg, src: Arg, ret: u64)
    requires !HostCalled(c, s, INT, dst) && ret == AddSize(s.pc, Width(c.image))
    ensures var l := ValueOf(c, s, dst);
            ExecInt(c, s, dst, src)
            == if !OneOperand(dst, src) || !c.hasController then Fault(s)
               else if l.LoadFault? || !(0 <= l.value <= 255) then Fault(s.(dev := l.dev))
               else GuestService(c, s.(dev := l.dev), l.value, ret)
  {
    hide ValueOf, PushFrame, CanPushFrame, IsLoaded, HostService;
  }

  lemma GuestServiceRelated(w: Twin, cv: Setup, cb: Setup, v: State, b: State, x: byte, ret: nat)
    requires GoodTwin(w) && SameShape(w, cv, cb) && Related(w, v, b) && ret <= |w.program|
    requires Small(w) && (CanPushFrame(v) ==> FrameOffCode(w, FrameBase(v)))
    ensures var o := GuestService(cv, v, x, ret);
            OutcomesRelated(if o.Next? then FrameTwin(w, FrameBase(v)) else w, o,
                            GuestService(cb, b, x, Address(w, ret)))
  {
    hide Related, DevicesAlike, IsLoaded, PushFrame, CanPushFrame, FrameTwin, GoodTwin, FrameBase;
    FaultRelated(w, v, b);
    SameFields(w, v, b);
    HandlerRelated(w, v, b, x);
    var handler := v.dev.controller.handlers[x];
    if handler.Some? {
      HandlerLoaded(w, cv, cb, handler.value);
      if CanPushFrame(v) {
        EnterRelated(w, v, b, ret);
        var p, q := PushFrame(v, ret), PushFrame(b, Address(w, ret));
        TwinAddress(w, FrameBase(v), handler.value);
        InHandlerRelated(FrameTwin(w, FrameBase(v)), p, q, p.regs[0 := x], handler.value);
      }
    }
  }

  lemma IntRelated(w: Twin, cv: Setup, cb: Setup, v: State, b: State, dv: Arg, db: Arg, sv: Arg, sb: Arg)
    requires GoodTwin(w) && Paired(w, cv, cb) && Related(w, v, b) && v.pc < |w.program|
    requires ArgsRelated(w, dv, db) && ArgsRelated(w, sv, sb) && OperandClear(w, cv, v, dv)
    requires !HostCalled(cv, v, INT, dv) && (CanPushFrame(v) ==> FrameOffCode(w, FrameBase(v)))
    ensures var o := ExecInt(cv, v, dv, sv);
            OutcomesRelated(TwinAfter(w, v, INT, o), o, ExecInt(cb, b, db, sb))
  {
    hide Related, DevicesAlike, GoodTwin, OperandClear, ValueOf, Paired, ExecInt, GuestService, FrameTwin, FrameBase,
      CanPushFrame, FrameOffCode, ArgsRelated, OneOperand, HostCalled, AddSize;
    SameCounts(w, dv, db, sv, sb);
    NextSlotAddress(w, v, b);
    PairedShape(w, cv, cb);
    ValueRelated(w, cv, cb, v, b, dv, db);
    SameHostCalls(w, cv, cb, v, b, dv, db);
    FaultRelated(w, v, b);
    SameFields(w, v, b);
    var x, y := ValueOf(cv, v, dv), ValueOf(cb, b, db);
    DevicesRelated(w, v, b, x.dev, y.dev);
    IntOutcome(cv, v, dv, sv, v.pc + 1);
    IntOutcome(cb, b, db, sb, Address(w, v.pc + 1));
    FaultRelated(w, v.(dev := x.dev), b.(dev := y.dev));
    SameFrameBase(v, x.dev);
    if x.Value? && 0 <= x.value <= 255 {
      GuestServiceRelated(w, cv, cb, v.(dev := x.dev), b.(dev := y.dev), x.value, v.pc + 1);
    }
  }

  lemma SameHostCalls(w: Twin, cv: Setup, cb: Setup, v: State, b: State, dv: Arg, db: Arg)
    requires Paired(w, cv, cb) && LoadsRelated(w, ValueOf(cv, v, dv), ValueOf(cb, b, db))
    ensures HostCalled(cb, b, INT, db) == HostCalled(cv, v, INT, dv)
  {
    hide ValueOf, DevicesAlike, ReadsAlike, EffectsAlike;
  }

  /** The frames on top of related stacks differ in the return address only. */
  lemma TopFrameRelated(w: Twin, v: State, b: State)
    requires Related(w, v, b) && CanPop(v, FRAME_SLOTS) && FrameTracked(w, v)
    ensures CanPop(b, FRAME_SLOTS)
    ensures var f := TopFrame(v);
            0 <= f.ret <= |w.program| && TopFrame(b) == f.(ret := Address(w, f.ret))
  {
    hide DevicesAlike, Read64;
    var base := v.sp - FRAME_SIZE;
    assert HoldsReturn(w, v.mem, b.mem, base);
    PlainWordRelated(w, v, b, base + 8);
    PlainWordRelated(w, v, b, base + 16);
    PlainWordRelated(w, v, b, base + 24);
  }

  lemma PlainWordRelated(w: Twin, v: State, b: State, at: nat)
    requires Related(w, v, b) && at % SLOT == 0 && at !in w.slots && OffCode(w, at) && at + SLOT <= MEMORY_SIZE
    ensures Read64(b.mem, at) == Read64(v.mem, at)
  {
    hide DevicesAlike, Read64, SameData;
    PlainSlot(w, at);
    BytesAgree(w, v.mem, b.mem, at);
    ReadDependsOnBytes(v.mem, b.mem, at);
  }

  lemma RestoreRelated(w: Twin, cv: Setup, cb: Setup, v: State, b: State)
    requires GoodTwin(w) && SameShape(w, cv, cb) && Related(w, v, b)
    requires CanPop(v, FRAME_SLOTS) ==> FrameTracked(w, v)
    ensures OutcomesRelated(w, RestoreFrame(cv, v, false), RestoreFrame(cb, b, false))
  {
    hide SameData, DevicesAlike, TopFrame, UnpackFlags, MayExecute, GoodTwin, FrameTracked;
    FaultRelated(w, v, b);
    if CanPop(v, FRAME_SLOTS) {
      TopFrameRelated(w, v, b);
      var f := TopFrame(v);
      var p := PrivilegeFromRaw(f.priv);
      if p.Ok? {
        MayExecuteRelated(w, cv, cb, v, b, f.ret, p.value);
      }
    }
  }

  lemma ReturnRelated(w: Twin, cv: Setup, cb: Setup, v: State, b: State, dv: Arg, db: Arg, sv: Arg, sb: Arg)
    requires GoodTwin(w) && SameShape(w, cv, cb) && Related(w, v, b)
    requires ArgsRelated(w, dv, db) && ArgsRelated(w, sv, sb)
    requires NoOperands(dv, sv) && CanPop(v, FRAME_SLOTS) ==> FrameTracked(w, v)
    ensures OutcomesRelated(w, ExecReturn(cv, v, dv, sv), ExecReturn(cb, b, db, sb))
  {
    hide Related, RestoreFrame, GoodTwin, FrameTracked;
    FaultRelated(w, v, b);
    if NoOperands(dv, sv) {
      RestoreRelated(w, cv, cb, v, b);
    }
  }

  // ----- One instruction -----

  lemma TwinKept(w: Twin, v: State, op: Opcode, o: Outcome)
    ensures (!IsStack(op) && op != INT) || o.Fault? ==> TwinAfter(w, v, op, o) == w
    ensures IsData(op) || IsBinaryOp(op) || IsBranch(op) ==> TwinAfter(w, v, op, o) == w
  {
  }

  /** INT, IRET and the system instructions. */
  lemma OthersRelated(w: Twin, cv: Setup, cb: Setup, v: State, b: State,
                      op: Opcode, dv: Arg, db: Arg, sv: Arg, sb: Arg)
    requires GoodTwin(w) && Paired(w, cv, cb) && Related(w, v, b) && v.pc < |w.program|
    requires ArgsRelated(w, dv, db) && ArgsRelated(w, sv, sb) && OperandClear(w, cv, v, dv)
    requires FramesClear(w, cv, v, Fetched(op, dv, sv)) && (op == IRET ==> v.priv.Kernel?)
    ensures op == INT ==>
              var o := ExecInt(cv, v, dv, sv);
              OutcomesRelated(TwinAfter(w, v, op, o), o, ExecInt(cb, b, db, sb))
    ensures op == IRET ==> OutcomesRelated(w, ExecReturn(cv, v, dv, sv), ExecReturn(cb, b, db, sb))
    ensures OutcomesRelated(w, ExecSystem(cv, v, op, dv, sv), ExecSystem(cb, b, op, db, sb))
  {
    hide ExecSystem, ExecInt, ExecReturn, Related, OutcomesRelated, GoodTwin, ArgsRelated, OperandClear, TwinAfter,
      Paired, FrameTracked, FrameOffCode, HostCalled, NoOperands;
    PairedShape(w, cv, cb);
    SystemRelated(w, cv, cb, v, b, op, dv, db, sv, sb);
    if op == INT {
      IntRelated(w, cv, cb, v, b, dv, db, sv, sb);
    } else if op == IRET {
      ReturnRelated(w, cv, cb, v, b, dv, db, sv, sb);
    }
  }

  /** One instruction of each interpreter, on related states and operands. */
  lemma ExecRelated(w: Twin, cv: Setup, cb: Setup, v: State, b: State,
                    op: Opcode, dv: Arg, db: Arg, sv: Arg, sb: Arg)
    requires GoodTwin(w) && Paired(w, cv, cb) && Related(w, v, b) && v.pc < |w.program|
    requires ArgsRelated(w, dv, db) && ArgsRelated(w, sv, sb)
    requires OperandClear(w, cv, v, dv) && OperandClear(w, cv, v, sv)
    requires Bracketed(w, cv, v, Fetched(op, dv, sv)) && StackOffCode(w, v, op)
    requires StaysInside(w, v, Fetched(op, dv, sv)) && FramesClear(w, cv, v, Fetched(op, dv, sv))
    ensures var o := Exec(cv, v, op, dv, sv);
            OutcomesRelated(TwinAfter(w, v, op, o), o, Exec(cb, b, op, db, sb))
  {
    hide ExecData, ExecBinaryOp, ExecBranch, ExecStack, ExecSystem, ExecInt, ExecReturn, Related, OutcomesRelated,
      GoodTwin, Paired, ArgsRelated, OperandClear, Bracketed, StackOffCode, StaysInside, FramesClear, TwinAfter,
      IsData, IsBinaryOp, IsBranch, IsStack;
    PairedShape(w, cv, cb);
    FaultRelated(w, v, b);
    TwinKept(w, v, op, Exec(cv, v, op, dv, sv));
    if v.priv.User? && NeedsKernel(op) {
    } else if IsData(op) {
      DataRelated(w, cv, cb, v, b, op, dv, db, sv, sb);
    } else if IsBinaryOp(op) {
      AluRelated(w, cv, cb, v, b, op, dv, db, sv, sb);
    } else if IsBranch(op) {
      BranchRelated(w, cv, cb, v, b, op, dv, db, sv, sb);
    } else if IsStack(op) {
      StackRelated(w, cv, cb, v, b, op, dv, db, sv, sb);
    } else {
      OthersRelated(w, cv, cb, v, b, op, dv, db, sv, sb);
    }
  }

  lemma ExecCurrentRelated(w: Twin, cv: Setup, cb: Setup, v: State, b: State)
    requires GoodTwin(w) && Paired(w, cv, cb) && Related(w, v, b) && !Stopped(v) && !InterruptDue(cv, v)
    requires Clear(w, cv, v)
    ensures OutcomesRelated(NextTwin(w, cv, v), ExecCurrent(cv, v), ExecCurrent(cb, b))
  {
    hide Exec, Fetch, Related, OutcomesRelated, Paired, GoodTwin, ArgsRelated, OperandClear, Bracketed, StackOffCode,
      StaysInside, FramesClear, TwinAfter, InterruptDue;
    PairedShape(w, cv, cb);
    FetchRelated(w, cv, cb, v, b);
    FaultRelated(w, v, b);
    if Fetch(cv, v).Ok? {
      var fv, fb := Fetch(cv, v).value, Fetch(cb, b).value;
      ExecRelated(w, cv, cb, v, b, fv.op, fv.dst, fb.dst, fv.src, fb.src);
    }
  }

  /** The tracked slots change; the program and its encoding do not. */
  lemma NextTwinKeeps(w: Twin, cv: Setup, cb: Setup, v: State)
    requires GoodTwin(w) && Paired(w, cv, cb)
    ensures GoodTwin(NextTwin(w, cv, v)) && Paired(NextTwin(w, cv, v), cv, cb)
  {
    hide ExecCurrent, Fetch;
  }

  lemma TickRelated(w: Twin, cv: Setup, cb: Setup, v: State, b: State)
    requires Paired(w, cv, cb) && Related(w, v, b)
    ensures Related(w, TickDevices(cv, v), TickDevices(cb, b))
  {
    hide SameData, DevicesAlike, Paired, Tick;
    TicksAlike(w, cv, cb, v.dev, b.dev);
  }

  lemma FailedRelated(w: Twin, v: State, b: State)
    requires Related(w, v, b)
    ensures Related(w, Failed(v), Failed(b))
  {
    hide SameData, DevicesAlike;
  }

  /** One whole step: an interrupt entry, or an instruction and the device ticks after it. */
  lemma StepRelated(w: Twin, cv: Setup, cb: Setup, v: State, b: State)
    requires GoodTwin(w) && Paired(w, cv, cb) && Related(w, v, b)
    requires Stopped(v) || Clear(w, cv, v)
    ensures Related(NextTwin(w, cv, v), Step(cv, v), Step(cb, b))
  {
    hide ExecCurrent, ServiceInterrupt, InterruptDue, GoodTwin, Fetch, Related, Paired, Clear, TickDevices, Failed;
    PairedShape(w, cv, cb);
    SameFields(w, v, b);
    DueRelated(w, cv, cb, v, b);
    if !Stopped(v) {
      if InterruptDue(cv, v) {
        if CanPushFrame(v) {
          ClearEntry(w, cv, v);
        }
        ServiceRelated(w, cv, cb, v, b);
        FailedRelated(NextTwin(w, cv, v), ServiceInterrupt(cv, v).s, ServiceInterrupt(cb, b).s);
      } else {
        ExecCurrentRelated(w, cv, cb, v, b);
        var u, x, y := NextTwin(w, cv, v), ExecCurrent(cv, v).s, ExecCurrent(cb, b).s;
        NextTwinKeeps(w, cv, cb, v);
        SameFields(u, x, y);
        FailedRelated(u, x, y);
        TickRelated(u, cv, cb, x, y);
      }
    }
  }

  lemma ClearEntry(w: Twin, c: Setup, v: State)
    requires Clear(w, c, v) && InterruptDue(c, v) && CanPushFrame(v)
    ensures FrameOffCode(w, FrameBase(v))
  {
    hide InterruptDue;
  }

  /** Lockstep: n steps of the two interpreters stay related while every step is clear. */
  lemma {:induction false} StepsStayRelated(w: Twin, cv: Setup, cb: Setup, v: State, b: State, n: nat)
    requires GoodTwin(w) && Paired(w, cv, cb) && Related(w, v, b)
    requires forall i: nat :: i < n ==> Stopped(Steps(cv, v, i)) || Clear(TwinAt(w, cv, v, i), cv, Steps(cv, v, i))
    ensures Related(TwinAt(w, cv, v, n), Steps(cv, v, n), Steps(cb, b, n))
    ensures GoodTwin(TwinAt(w, cv, v, n)) && Paired(TwinAt(w, cv, v, n), cv, cb)
  {
    hide Step, Related, GoodTwin, Paired, Clear, Stopped, NextTwin;
    StepsZero(cv, v);
    StepsZero(cb, b);
    if n > 0 {
      StepsStayRelated(w, cv, cb, v, b, n - 1);
      StepsLast(cv, v, n - 1);
      StepsLast(cb, b, n - 1);
      var u := TwinAt(w, cv, v, n - 1);
      StepRelated(u, cv, cb, Steps(cv, v, n - 1), Steps(cb, b, n - 1));
      NextTwinKeeps(u, cv, cb, Steps(cv, v, n - 1));
    }
  }

  // ----- Handlers return through tracked frames -----

  predicate FrameSlots(w: Twin, base: nat) {
    base in w.slots && base + 8 !in w.slots && base + 16 !in w.slots && base + 24 !in w.slots
  }

  lemma NextTwinKeepsFrame(w: Twin, c: Setup, s: State, base: nat)
    requires FrameSlots(w, base) && s.priv.Kernel? && s.sp >= base + FRAME_SIZE
    ensures FrameSlots(NextTwin(w, c, s), base)
  {
    hide ExecCurrent, ServiceInterrupt, Fetch, InterruptDue;
  }

  lemma {:induction false} FrameSlotsStay(w: Twin, c: Setup, v: State, base: nat, m: nat, n: nat)
    requires m <= n && FrameSlots(TwinAt(w, c, v, m), base)
    requires forall i: nat :: m <= i < n ==> Steps(c, v, i).priv.Kernel? && Steps(c, v, i).sp >= base + FRAME_SIZE
    ensures FrameSlots(TwinAt(w, c, v, n), base)
    decreases n - m
  {
    hide Steps, NextTwin, FrameSlots;
    if m < n {
      assert Steps(c, v, m).priv.Kernel?;
      NextTwinKeepsFrame(TwinAt(w, c, v, m), c, Steps(c, v, m), base);
      FrameSlotsStay(w, c, v, base, m + 1, n);
    }
  }

  /**
   * A handler entered by an interrupt at v that stays in kernel mode above its
   * frame and comes back to it finds the frame tracked, whatever it calls,
   * pushes or is interrupted by in between.
   */
  lemma HandlerReturnIsTracked(w: Twin, c: Setup, v: State, n: nat)
    requires !Stopped(v) && InterruptDue(c, v) && ServiceInterrupt(c, v).Next? && FrameOffCode(w, FrameBase(v))
    requires n > 0 && Steps(c, v, n).sp == FrameBase(v) + FRAME_SIZE
    requires forall i: nat :: 0 < i < n ==>
               Steps(c, v, i).priv.Kernel? && Steps(c, v, i).sp >= FrameBase(v) + FRAME_SIZE
    ensures FrameTracked(TwinAt(w, c, v, n), Steps(c, v, n))
  {
    hide Steps, Fetch, ExecCurrent, ServiceInterrupt, InterruptDue, FrameBase;
    StepsZero(c, v);
    assert TwinAt(w, c, v, 0) == w;
    assert TwinAt(w, c, v, 1) == NextTwin(w, c, v) == FrameTwin(w, FrameBase(v));
    FrameSlotsStay(w, c, v, FrameBase(v), 1, n);
    TwinKeepsCode(w, c, v, n);
  }

  lemma {:induction false} TwinKeepsCode(w: Twin, c: Setup, v: State, n: nat)
    ensures TwinAt(w, c, v, n) == w.(slots := TwinAt(w, c, v, n).slots)
  {
    hide ExecCurrent, Fetch, Steps, ServiceInterrupt, InterruptDue;
    if n > 0 {
      TwinKeepsCode(w, c, v, n - 1);
    }
  }
}

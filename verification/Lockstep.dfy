// The two interpreters run in lockstep: stepping a program held as decoded
// instructions and stepping its 24-byte encoding keep the machines related,
// calls, returns, interrupt entries and interrupt returns included.  A return
// address on a stack is an index in one machine and a byte address in the
// other, and so are the handlers of the vector table; the relation scales the
// table and tracks which stack slots hold a return address.
module Lockstep {
  import opened Words
  import opened Isa
  import opened Memory
  import opened MemoryMap
  import opened Machine
  import Alu

  // The program, where its encoding is loaded, the encoding, and the addresses
  // of the stack slots that hold return addresses.
  datatype Twin = Twin(program: seq<Instruction>, labels: Labels, base: nat, code: seq<byte>, slots: set<nat>)

  /** The assembler parses addresses as non-negative signed words. */
  predicate SourceOperand(o: Operand) {
    o.MemoryAddress? ==> o.address < TWO_63
  }

  /** The encoding is loaded inside memory and every label lies in the program or at its end. */
  ghost predicate GoodTwin(w: Twin) {
    && EncodeProgram(w.program, w.labels) == Ok(w.code)
    && w.base + |w.code| <= MEMORY_SIZE
    && (forall l :: l in w.labels ==> w.labels[l] <= |w.program|)
    && (forall i :: 0 <= i < |w.program| ==> SourceOperand(w.program[i].dst) && SourceOperand(w.program[i].src))
  }

  predicate SameShape(w: Twin, cv: Setup, cb: Setup) {
    && cv.image == Vector(w.program, w.labels) && cb.image == Binary(w.base, |w.code|)
    && cb.hasController == cv.hasController
  }

  /** A vector-table entry of a program of n instructions at `base`: an index, and the address of that index. */
  predicate HandlersRelated(base: nat, n: nat, v: Option<u64>, b: Option<u64>) {
    v.Some? == b.Some? && (v.Some? ==> v.value <= n && b.value == base + INSTRUCTION_SIZE * v.value)
  }

  /** The same devices, with the vector table in the terms of each interpreter. */
  ghost predicate DevicesAlike(base: nat, n: nat, v: Devices, b: Devices) {
    && b == v.(controller := v.controller.(handlers := b.controller.handlers))
    && forall x: byte :: HandlersRelated(base, n, v.controller.handlers[x], b.controller.handlers[x])
  }

  ghost predicate ReadsAlike(base: nat, n: nat, v: DeviceRead, b: DeviceRead) {
    v.ReadOk? == b.ReadOk? && DevicesAlike(base, n, v.dev, b.dev) && (v.ReadOk? ==> b.value == v.value)
  }

  ghost predicate EffectsAlike(base: nat, n: nat, v: DeviceEffect, b: DeviceEffect) {
    v.Done? == b.Done? && DevicesAlike(base, n, v.dev, b.dev)
  }

  /** The same CPU with the same devices, which leave the vector table alone, loaded once each way. */
  ghost predicate Paired(w: Twin, cv: Setup, cb: Setup) {
    var n := |w.program|;
    && SameShape(w, cv, cb)
    && (forall a: u64 :: cb.bus.mapped(a) == cv.bus.mapped(a))
    && (forall x: byte :: cb.bus.handles(x) == cv.bus.handles(x))
    && (forall d: Devices, d': Devices, a: u64 :: DevicesAlike(w.base, n, d, d') ==>
          ReadsAlike(w.base, n, cv.bus.read(d, a), cb.bus.read(d', a)))
    && (forall d: Devices, d': Devices, a: u64, x: i64 :: DevicesAlike(w.base, n, d, d') ==>
          EffectsAlike(w.base, n, cv.bus.write(d, a, x), cb.bus.write(d', a, x)))
    && (forall d: Devices, d': Devices :: DevicesAlike(w.base, n, d, d') ==>
          EffectsAlike(w.base, n, Tick(cv.bus.clocked, d), Tick(cb.bus.clocked, d')))
  }

  function Address(w: Twin, index: nat): nat {
    w.base + INSTRUCTION_SIZE * index
  }

  /** Indices of the loaded program, and the one past its end, have addresses below 2^64. */
  predicate Small(w: Twin) {
    w.base + INSTRUCTION_SIZE * |w.program| <= MEMORY_SIZE
  }

  function ScaleRange(w: Twin, r: Option<Range>): Option<Range>
    requires Small(w) && (r.Some? ==> r.value.begin <= |w.program| && r.value.end <= |w.program|)
  {
    if r.None? then None else Some(Range(Address(w, r.value.begin), Address(w, r.value.end)))
  }

  /** The vector state is inside the program. */
  predicate Inside(w: Twin, v: State) {
    v.pc <= |w.program| && (v.range.Some? ==> v.range.value.begin <= |w.program| && v.range.value.end <= |w.program|)
  }

  /** The binary state that corresponds to v, with memory m and devices dev. */
  function Lift(w: Twin, v: State, m: Ram, dev: Devices): State
    requires Small(w) && Inside(w, v)
  {
    v.(pc := Address(w, v.pc), range := ScaleRange(w, v.range), mem := m, dev := dev)
  }

  /** The aligned slot that byte k belongs to. */
  function SlotOf(k: int): int {
    k - k % SLOT
  }

  predicate OffCode(w: Twin, address: int) {
    address + 8 <= w.base || w.base + |w.code| <= address
  }

  /** Slot a holds a return address: an index in m and the address of that index in m'. */
  predicate HoldsReturn(w: Twin, m: Ram, m': Ram, a: nat) {
    && a % SLOT == 0 && a + SLOT <= MEMORY_SIZE && OffCode(w, a)
    && 0 <= Read64(m, a) <= |w.program| && Read64(m', a) == Address(w, Read64(m, a))
  }

  /** Memories agree outside the code and the return slots, and the code is the encoding. */
  ghost predicate SameData(w: Twin, m: Ram, m': Ram) {
    && (forall k ::
          0 <= k < MEMORY_SIZE && !(w.base <= k < w.base + |w.code|) && SlotOf(k) !in w.slots ==> m'[k] == m[k])
    && (forall k :: w.base <= k < w.base + |w.code| && k < MEMORY_SIZE ==> m'[k] == w.code[k - w.base])
    && (forall a :: a in w.slots ==> HoldsReturn(w, m, m', a))
  }

  /** The simulation relation. */
  ghost predicate Related(w: Twin, v: State, b: State) {
    && Small(w) && Inside(w, v) && b == Lift(w, v, b.mem, b.dev)
    && SameData(w, v.mem, b.mem) && DevicesAlike(w.base, |w.program|, v.dev, b.dev)
  }

  ghost predicate LoadsRelated(w: Twin, v: Loaded, b: Loaded) {
    v.Value? == b.Value? && DevicesAlike(w.base, |w.program|, v.dev, b.dev) && (v.Value? ==> b.value == v.value)
  }

  ghost predicate OutcomesRelated(w: Twin, v: Outcome, b: Outcome) {
    v.Next? == b.Next? && Related(w, v.s, b.s)
  }

  // ----- Operands -----

  predicate ArgsRelated(w: Twin, v: Arg, b: Arg) {
    match v
    case CodeArg(target) =>
      target.Some? && target.value <= |w.program| && Address(w, target.value) < TWO_64
      && b == CodeArg(if target.value < |w.program| then Some(Address(w, target.value)) else None)
    case _ => b == v
  }

  lemma SameCounts(w: Twin, dv: Arg, db: Arg, sv: Arg, sb: Arg)
    requires ArgsRelated(w, dv, db) && ArgsRelated(w, sv, sb)
    ensures NoOperands(db, sb) == NoOperands(dv, sv) && OneOperand(db, sb) == OneOperand(dv, sv)
    ensures TwoOperands(db, sb) == TwoOperands(dv, sv)
  {
  }

  lemma SizeOfCode(w: Twin)
    requires GoodTwin(w)
    ensures |w.code| == INSTRUCTION_SIZE * |w.program| && Small(w)
  {
  }

  lemma SlotInCode(w: Twin, index: nat)
    requires GoodTwin(w)
    ensures InCode(w.base, |w.code|, Address(w, index)) <==> index < |w.program|
  {
    SizeOfCode(w);
  }

  lemma OperandRelated(w: Twin, o: Operand)
    requires GoodTwin(w) && SourceOperand(o) && EncodeOperand(o, w.labels).Ok?
    ensures var b := ArgOfField(w.base, |w.code|, EncodeOperand(o, w.labels).value);
            !b.BadArg? && ArgsRelated(w, ArgOfOperand(w.labels, o), b)
  {
    SizeOfCode(w);
    if o.Label? {
      var t := w.labels[o.name];
      SlotInCode(w, t);
      SignedRoundTrip(t * INSTRUCTION_SIZE, 0);
    }
  }

  // ----- Fetch -----

  lemma CodeSlice(w: Twin, m: Ram, m': Ram, index: nat)
    requires GoodTwin(w) && SameData(w, m, m') && index < |w.program|
    ensures Address(w, index) + INSTRUCTION_SIZE <= MEMORY_SIZE
    ensures m'[Address(w, index)..Address(w, index) + INSTRUCTION_SIZE]
         == w.code[INSTRUCTION_SIZE * index..INSTRUCTION_SIZE * (index + 1)]
  {
    SizeOfCode(w);
    var at := Address(w, index);
    assert at + INSTRUCTION_SIZE <= w.base + |w.code|;
    var a, b := m'[at..at + INSTRUCTION_SIZE], w.code[INSTRUCTION_SIZE * index..INSTRUCTION_SIZE * (index + 1)];
    forall k | 0 <= k < INSTRUCTION_SIZE
      ensures a[k] == b[k]
    {
      assert m'[at + k] == w.code[at + k - w.base];
    }
  }

  lemma MayExecuteRelated(w: Twin, cv: Setup, cb: Setup, v: State, b: State, index: nat, priv: Privilege)
    requires GoodTwin(w) && SameShape(w, cv, cb) && Related(w, v, b)
    ensures MayExecute(cb, b, Address(w, index), priv) <==> MayExecute(cv, v, index, priv)
  {
    SlotInCode(w, index);
  }

  ghost predicate FetchesRelated(w: Twin, fv: Result<Fetched>, fb: Result<Fetched>) {
    && fv.Ok? == fb.Ok?
    && (fv.Ok? ==>
          && fb.value.op == fv.value.op && fv.value.op != Invalid
          && ArgsRelated(w, fv.value.dst, fb.value.dst) && ArgsRelated(w, fv.value.src, fb.value.src))
  }

  lemma DecodeSlot(w: Twin, v: State, b: State)
    requires GoodTwin(w) && Related(w, v, b) && v.pc < |w.program|
    ensures var i := w.program[v.pc];
            && EncodeOperand(i.dst, w.labels).Ok? && EncodeOperand(i.src, w.labels).Ok? && i.opcode != Invalid
            && b.pc + INSTRUCTION_SIZE <= MEMORY_SIZE
            && DecodeInstruction(b.mem[b.pc..b.pc + INSTRUCTION_SIZE])
               == Ok(Decoded(i.opcode, EncodeOperand(i.dst, w.labels).value, EncodeOperand(i.src, w.labels).value))
  {
    hide DecodeInstruction, EncodeOperand;
    var i := w.program[v.pc];
    CodeSlice(w, v.mem, b.mem, v.pc);
    EncodeProgramSlot(w.program, w.labels, v.pc);
    DecodeUndoesEncode(i, w.labels);
  }

  lemma FetchRelated(w: Twin, cv: Setup, cb: Setup, v: State, b: State)
    requires GoodTwin(w) && SameShape(w, cv, cb) && Related(w, v, b)
    ensures FetchesRelated(w, Fetch(cv, v), Fetch(cb, b))
    ensures Fetch(cv, v).Ok? ==> v.pc < |w.program|
  {
    hide DecodeInstruction, EncodeOperand, ArgOfField, ArgOfOperand, ArgsRelated, DevicesAlike, SameData, MayExecute;
    MayExecuteRelated(w, cv, cb, v, b, v.pc, v.priv);
    SlotInCode(w, v.pc);
    if v.pc < |w.program| {
      DecodeSlot(w, v, b);
      OperandRelated(w, w.program[v.pc].dst);
      OperandRelated(w, w.program[v.pc].src);
    }
  }

  // ----- Side conditions -----

  /** The eight bytes at `address` are neither code nor part of a return address. */
  ghost predicate Disjoint(w: Twin, address: int) {
    OffCode(w, address) && forall k :: address <= k < address + 8 ==> SlotOf(k) !in w.slots
  }

  /** A data access at `address` from s reads or writes RAM. */
  predicate ReachesRam(c: Setup, s: State, address: u64) {
    MayAccess(s, address) && !c.bus.mapped(address) && InRange(s.mem, address, 8)
  }

  ghost predicate OperandClear(w: Twin, c: Setup, s: State, a: Arg) {
    AddressOf(s, a).Ok? && ReachesRam(c, s, AddressOf(s, a).value) ==> Disjoint(w, AddressOf(s, a).value)
  }

  /** Word x is executable in neither interpreter. */
  predicate Nowhere(w: Twin, c: Setup, v: State, x: i64) {
    x < 0 ||
    (v.priv.User? && !MayExecute(c, v, x, v.priv)
     && !(v.range.Some? && Address(w, v.range.value.begin) <= x < Address(w, v.range.value.end)
          && InCode(w.base, |w.code|, x)))
  }

  /** RET finds a return address or a word no one can run, and POP finds plain data. */
  predicate Bracketed(w: Twin, c: Setup, v: State, f: Fetched) {
    && (f.op == POP && OneOperand(f.dst, f.src) && f.dst.RegArg? && CanPop(v, 1) ==> v.sp - SLOT !in w.slots)
    && (f.op == RET && NoOperands(f.dst, f.src) && CanPop(v, 1) ==>
          v.sp - SLOT in w.slots || Nowhere(w, c, v, Top(v)))
  }

  /** Kernel code does not go to the end of the program, which only the vector interpreter accepts as a target. */
  predicate StaysInside(w: Twin, v: State, f: Fetched) {
    v.priv.Kernel? && OneOperand(f.dst, f.src)
    && ((IsBranch(f.op) && Taken(f.op, v.flags)) || (f.op == CALL && CanPush(v, 1))) ==>
      Target(f.dst) != Some(|w.program|)
  }

  predicate StackOffCode(w: Twin, s: State, op: Opcode) {
    && ((op == PUSH || op == CALL) && CanPush(s, 1) ==> OffCode(w, s.sp))
    && ((op == POP || op == RET) && CanPop(s, 1) ==> OffCode(w, s.sp - SLOT))
  }

  /** The slots once a frame lies at `base`: its first slot holds a return address, the other three plain words. */
  function FrameTwin(w: Twin, base: nat): Twin {
    w.(slots := w.slots - {base + 8, base + 16, base + 24} + {base})
  }

  /** The slots after an instruction at v that came out as o: CALL adds one, PUSH overwrites one, INT pushes a frame. */
  function TwinAfter(w: Twin, v: State, op: Opcode, o: Outcome): Twin {
    if o.Fault? then w
    else if op == CALL then w.(slots := w.slots + {v.sp})
    else if op == PUSH then w.(slots := w.slots - {v.sp})
    else if op == INT then FrameTwin(w, FrameBase(v))
    else w
  }

  // ----- Data accesses -----

  lemma DevicesAnswerAlike(w: Twin, cv: Setup, cb: Setup, d: Devices, d': Devices, a: u64, x: i64)
    requires Paired(w, cv, cb) && DevicesAlike(w.base, |w.program|, d, d')
    ensures cb.bus.mapped(a) == cv.bus.mapped(a)
    ensures ReadsAlike(w.base, |w.program|, cv.bus.read(d, a), cb.bus.read(d', a))
    ensures EffectsAlike(w.base, |w.program|, cv.bus.write(d, a, x), cb.bus.write(d', a, x))
  {
    hide DevicesAlike, ReadsAlike, EffectsAlike;
  }

  lemma TicksAlike(w: Twin, cv: Setup, cb: Setup, d: Devices, d': Devices)
    requires Paired(w, cv, cb) && DevicesAlike(w.base, |w.program|, d, d')
    ensures EffectsAlike(w.base, |w.program|, Tick(cv.bus.clocked, d), Tick(cb.bus.clocked, d'))
  {
    hide DevicesAlike, ReadsAlike, EffectsAlike;
  }

  lemma ReadRelated(w: Twin, cv: Setup, cb: Setup, v: State, b: State, address: u64)
    requires Paired(w, cv, cb) && Related(w, v, b)
    requires ReachesRam(cv, v, address) ==> Disjoint(w, address)
    ensures LoadsRelated(w, ReadData(cv, v, address), ReadData(cb, b, address))
  {
    hide DevicesAlike, SameData, Paired;
    DevicesAnswerAlike(w, cv, cb, v.dev, b.dev, address, 0);
    if ReachesRam(cv, v, address) {
      BytesAgree(w, v.mem, b.mem, address);
      ReadDependsOnBytes(v.mem, b.mem, address);
    }
  }

  lemma BytesAgree(w: Twin, m: Ram, m': Ram, address: nat)
    requires SameData(w, m, m') && address + 8 <= MEMORY_SIZE && Disjoint(w, address)
    ensures forall k :: address <= k < address + 8 ==> m'[k] == m[k]
  {
    forall k | address <= k < address + 8
      ensures m'[k] == m[k]
    {
      assert SlotOf(k) !in w.slots;
    }
  }

  lemma AlignedSlot(a: int, k: int)
    requires a % SLOT == 0 && a <= k < a + SLOT
    ensures SlotOf(k) == a
  {
  }

  lemma StackSlotIsAligned(s: State)
    ensures CanPush(s, 1) || CanPop(s, 1) ==> s.sp % SLOT == 0 && (s.sp - SLOT) % SLOT == 0
  {
  }

  /** An aligned stack slot that holds no return address is disjoint from all that do. */
  lemma PlainSlot(w: Twin, a: int)
    requires a % SLOT == 0 && a !in w.slots && OffCode(w, a)
    ensures Disjoint(w, a)
  {
    forall k | a <= k < a + 8
      ensures SlotOf(k) !in w.slots
    {
      AlignedSlot(a, k);
    }
  }

  /** A write that does not reach slot a leaves its return address. */
  lemma OtherSlotKept(w: Twin, m: Ram, m': Ram, address: nat, x: i64, x': i64, a: nat)
    requires HoldsReturn(w, m, m', a) && InRange(m, address, 8)
    requires a + SLOT <= address || address + 8 <= a
    ensures HoldsReturn(w, Write64(m, address, x), Write64(m', address, x'), a)
  {
    ReadDependsOnBytes(m, Write64(m, address, x), a);
    ReadDependsOnBytes(m', Write64(m', address, x'), a);
  }

  lemma WrittenBytes(m: Ram, m': Ram, address: nat, x: i64)
    requires InRange(m, address, 8)
    ensures forall k :: address <= k < address + 8 ==> Write64(m', address, x)[k] == Write64(m, address, x)[k]
  {
    var r, r' := Write64(m, address, x), Write64(m', address, x);
    var bytes := LittleEndian(ToU64(x), 8);
    forall k | address <= k < address + 8
      ensures r[k] == r'[k]
    {
      assert r[address..address + 8] == bytes && r'[address..address + 8] == bytes;
      assert r[k] == r[address..address + 8][k - address];
      assert r'[k] == r'[address..address + 8][k - address];
    }
  }

  /** The same word stored in both memories, off the code, at a place that is not or no longer a return slot. */
  lemma WriteKeepsData(w: Twin, m: Ram, m': Ram, address: nat, x: i64, gone: set<nat>)
    requires SameData(w, m, m') && InRange(m, address, 8) && Disjoint(w.(slots := w.slots - gone), address)
    requires forall a :: a in gone ==> a == address && a % SLOT == 0
    ensures SameData(w.(slots := w.slots - gone), Write64(m, address, x), Write64(m', address, x))
  {
    hide Write64, HoldsReturn, SlotOf;
    var u, r, r' := w.(slots := w.slots - gone), Write64(m, address, x), Write64(m', address, x);
    WrittenBytes(m, m', address, x);
    forall k | 0 <= k < MEMORY_SIZE && !(w.base <= k < w.base + |w.code|) && SlotOf(k) !in u.slots
      ensures r'[k] == r[k]
    {
      if !(address <= k < address + 8) {
        NotGone(k, address, gone);
      }
    }
    forall a | a in u.slots
      ensures HoldsReturn(u, r, r', a)
    {
      SlotsDoNotMatter(w, u, m, m', a);
      SlotsApart(u, m, m', a, address);
      OtherSlotKept(w, m, m', address, x, x, a);
      SlotsDoNotMatter(w, u, r, r', a);
    }
  }

  lemma NotGone(k: int, address: nat, gone: set<nat>)
    requires !(address <= k < address + 8)
    requires forall a :: a in gone ==> a == address && a % SLOT == 0
    ensures SlotOf(k) !in gone
  {
  }

  lemma SlotsApart(w: Twin, m: Ram, m': Ram, a: nat, address: nat)
    requires a in w.slots && HoldsReturn(w, m, m', a) && Disjoint(w, address)
    ensures a + SLOT <= address || address + 8 <= a
  {
    if !(a + SLOT <= address || address + 8 <= a) {
      var k := if a <= address then address else a;
      AlignedSlot(a, k);
      assert false;
    }
  }

  lemma SlotsDoNotMatter(w: Twin, u: Twin, m: Ram, m': Ram, a: nat)
    requires HoldsReturn(w, m, m', a) && u == w.(slots := u.slots)
    ensures HoldsReturn(u, m, m', a)
  {
  }

  lemma WriteRelated(w: Twin, cv: Setup, cb: Setup, v: State, b: State, address: u64, x: i64)
    requires Paired(w, cv, cb) && Related(w, v, b)
    requires ReachesRam(cv, v, address) ==> Disjoint(w, address)
    ensures OutcomesRelated(w, WriteData(cv, v, address, x), WriteData(cb, b, address, x))
    ensures WriteData(cv, v, address, x).s.pc == v.pc
  {
    hide Write64, DevicesAlike, SameData, Paired;
    DevicesAnswerAlike(w, cv, cb, v.dev, b.dev, address, x);
    if ReachesRam(cv, v, address) {
      assert w.(slots := w.slots - {}) == w;
      WriteKeepsData(w, v.mem, b.mem, address, x, {});
    }
  }

  lemma ValueRelated(w: Twin, cv: Setup, cb: Setup, v: State, b: State, av: Arg, ab: Arg)
    requires Paired(w, cv, cb) && Related(w, v, b) && ArgsRelated(w, av, ab) && OperandClear(w, cv, v, av)
    ensures LoadsRelated(w, ValueOf(cv, v, av), ValueOf(cb, b, ab))
    ensures AddressOf(b, ab) == AddressOf(v, av)
  {
    hide ReadData, DevicesAlike, SameData;
    if AddressOf(v, av).Ok? {
      ReadRelated(w, cv, cb, v, b, AddressOf(v, av).value);
    }
  }

  // ----- Instructions -----

  lemma FaultRelated(w: Twin, v: State, b: State)
    requires Related(w, v, b)
    ensures OutcomesRelated(w, Fault(v), Fault(b)) && b.priv == v.priv && b.flags == v.flags
  {
  }

  lemma DevicesRelated(w: Twin, v: State, b: State, dv: Devices, db: Devices)
    requires Related(w, v, b) && DevicesAlike(w.base, |w.program|, dv, db)
    ensures Related(w, v.(dev := dv), b.(dev := db)) && b.regs == v.regs
  {
    hide DevicesAlike, SameData;
  }

  lemma PairedShape(w: Twin, cv: Setup, cb: Setup)
    requires Paired(w, cv, cb)
    ensures SameShape(w, cv, cb)
  {
  }

  lemma NextSlotAddress(w: Twin, v: State, b: State)
    requires Related(w, v, b) && v.pc < |w.program|
    ensures v.pc + 1 == AddSize(v.pc, 1)
    ensures Address(w, v.pc + 1) < TWO_63 && Address(w, v.pc + 1) == AddSize(b.pc, INSTRUCTION_SIZE)
  {
    hide SameData, DevicesAlike;
  }

  lemma AdvanceRelated(w: Twin, cv: Setup, cb: Setup, v: State, b: State)
    requires SameShape(w, cv, cb) && Related(w, v, b) && v.pc < |w.program|
    ensures Related(w, Advance(cv, v), Advance(cb, b))
  {
    hide DevicesAlike, SameData;
  }

  lemma MoveRelated(w: Twin, cv: Setup, cb: Setup, v: State, b: State, dv: Arg, db: Arg, sv: Arg, sb: Arg)
    requires SameShape(w, cv, cb) && Related(w, v, b) && v.pc < |w.program|
    requires ArgsRelated(w, dv, db) && ArgsRelated(w, sv, sb) && LoadsRelated(w, ValueOf(cv, v, sv), ValueOf(cb, b, sb))
    ensures OutcomesRelated(w, ExecMove(cv, v, dv, sv), ExecMove(cb, b, db, sb))
  {
    hide ValueOf, Advance, DevicesAlike, SameData;
    var x, y := ValueOf(cv, v, sv), ValueOf(cb, b, sb);
    if TwoOperands(dv, sv) && dv.RegArg? && x.Value? {
      AdvanceRelated(w, cv, cb,
                     v.(dev := x.dev, regs := v.regs[dv.r := x.value], flags := WithZeroSign(v.flags, x.value)),
                     b.(dev := y.dev, regs := b.regs[dv.r := x.value], flags := WithZeroSign(b.flags, x.value)));
    }
  }

  lemma ZeroSignRelated(w: Twin, v: State, b: State, x: i64)
    requires Related(w, v, b)
    ensures Related(w, v.(flags := WithZeroSign(v.flags, x)), b.(flags := WithZeroSign(b.flags, x)))
  {
    hide DevicesAlike, SameData;
  }

  lemma StoreRelated(w: Twin, cv: Setup, cb: Setup, v: State, b: State, dv: Arg, db: Arg, sv: Arg, sb: Arg)
    requires Paired(w, cv, cb) && Related(w, v, b) && v.pc < |w.program| && OperandClear(w, cv, v, dv)
    requires ArgsRelated(w, dv, db) && ArgsRelated(w, sv, sb) && LoadsRelated(w, ValueOf(cv, v, sv), ValueOf(cb, b, sb))
    requires AddressOf(b, db) == AddressOf(v, dv)
    ensures OutcomesRelated(w, ExecStore(cv, v, dv, sv), ExecStore(cb, b, db, sb))
  {
    hide ValueOf, WriteData, Advance, DevicesAlike, Related, Disjoint, Paired;
    var x, y := ValueOf(cv, v, sv), ValueOf(cb, b, sb);
    PairedShape(w, cv, cb);
    FaultRelated(w, v, b);
    DevicesRelated(w, v, b, x.dev, y.dev);
    if TwoOperands(dv, sv) && AddressOf(v, dv).Ok? && x.Value? {
      var a := AddressOf(v, dv).value;
      var v', b' := v.(dev := x.dev), b.(dev := y.dev);
      WriteRelated(w, cv, cb, v', b', a, x.value);
      var ov, ob := WriteData(cv, v', a, x.value), WriteData(cb, b', a, x.value);
      if ov.Next? {
        ZeroSignRelated(w, ov.s, ob.s, x.value);
        AdvanceRelated(w, cv, cb, ov.s.(flags := WithZeroSign(ov.s.flags, x.value)),
                       ob.s.(flags := WithZeroSign(ob.s.flags, x.value)));
      }
    }
  }

  lemma ResultRelated(w: Twin, cv: Setup, cb: Setup, v: State, b: State, r: Reg, result: Alu.AluResult)
    requires SameShape(w, cv, cb) && Related(w, v, b) && v.pc < |w.program|
    ensures Related(w, SetResult(cv, v, r, result), SetResult(cb, b, r, result))
  {
    hide Advance, DevicesAlike, SameData;
    AdvanceRelated(w, cv, cb, v.(regs := v.regs[r := result.value], flags := WithResult(v.flags, result)),
                   b.(regs := b.regs[r := result.value], flags := WithResult(b.flags, result)));
  }

  lemma FlagsRelated(w: Twin, cv: Setup, cb: Setup, v: State, b: State, result: Alu.AluResult)
    requires SameShape(w, cv, cb) && Related(w, v, b) && v.pc < |w.program|
    ensures Related(w, SetFlags(cv, v, result), SetFlags(cb, b, result))
  {
    hide Advance, DevicesAlike, SameData;
    AdvanceRelated(w, cv, cb, v.(flags := WithResult(v.flags, result)), b.(flags := WithResult(b.flags, result)));
  }

  lemma BinaryOpRelated(w: Twin, cv: Setup, cb: Setup, v: State, b: State,
                        op: Opcode, dv: Arg, db: Arg, sv: Arg, sb: Arg)
    requires SameShape(w, cv, cb) && Related(w, v, b) && v.pc < |w.program| && IsBinaryOp(op)
    requires ArgsRelated(w, dv, db) && ArgsRelated(w, sv, sb) && LoadsRelated(w, ValueOf(cv, v, sv), ValueOf(cb, b, sb))
    ensures OutcomesRelated(w, ExecBinaryOp(cv, v, op, dv, sv), ExecBinaryOp(cb, b, op, db, sb))
  {
    hide ValueOf, Compute, SetResult, Related, DevicesAlike;
    var x, y := ValueOf(cv, v, sv), ValueOf(cb, b, sb);
    FaultRelated(w, v, b);
    DevicesRelated(w, v, b, x.dev, y.dev);
    if TwoOperands(dv, sv) && dv.RegArg? && x.Value? {
      var r := Compute(op, v.regs[dv.r], x.value);
      if r.Ok? {
        ResultRelated(w, cv, cb, v.(dev := x.dev), b.(dev := y.dev), dv.r, r.value);
      }
    }
  }

  lemma NotRelated(w: Twin, cv: Setup, cb: Setup, v: State, b: State, dv: Arg, db: Arg, sv: Arg, sb: Arg)
    requires SameShape(w, cv, cb) && Related(w, v, b) && v.pc < |w.program|
    requires ArgsRelated(w, dv, db) && ArgsRelated(w, sv, sb)
    ensures OutcomesRelated(w, ExecNot(cv, v, dv, sv), ExecNot(cb, b, db, sb))
  {
    hide SetResult, DevicesAlike, SameData;
    if OneOperand(dv, sv) && dv.RegArg? {
      ResultRelated(w, cv, cb, v, b, dv.r, Alu.BitNot(v.regs[dv.r]));
    }
  }

  lemma CompareRelated(w: Twin, cv: Setup, cb: Setup, v: State, b: State,
                       op: Opcode, dv: Arg, db: Arg, sv: Arg, sb: Arg)
    requires SameShape(w, cv, cb) && Related(w, v, b) && v.pc < |w.program|
    requires ArgsRelated(w, dv, db) && ArgsRelated(w, sv, sb) && LoadsRelated(w, ValueOf(cv, v, dv), ValueOf(cb, b, db))
    requires var v', b' := v.(dev := ValueOf(cv, v, dv).dev), b.(dev := ValueOf(cb, b, db).dev);
             LoadsRelated(w, ValueOf(cv, v', sv), ValueOf(cb, b', sb))
    ensures OutcomesRelated(w, ExecCompare(cv, v, op, dv, sv), ExecCompare(cb, b, op, db, sb))
  {
    hide ValueOf, CompareWith, DevicesAlike, SameData;
    var x, y := ValueOf(cv, v, dv), ValueOf(cb, b, db);
    if x.Value? {
      var v', b' := v.(dev := x.dev), b.(dev := y.dev);
      CompareWithRelated(w, cv, cb, v', b', op, x.value, ValueOf(cv, v', sv), ValueOf(cb, b', sb));
    }
  }

  lemma CompareWithRelated(w: Twin, cv: Setup, cb: Setup, v: State, b: State, op: Opcode, lhs: i64,
                           rv: Loaded, rb: Loaded)
    requires SameShape(w, cv, cb) && Related(w, v, b) && v.pc < |w.program| && LoadsRelated(w, rv, rb)
    ensures OutcomesRelated(w, CompareWith(cv, v, op, lhs, rv), CompareWith(cb, b, op, lhs, rb))
  {
    hide SetFlags, Alu.Compare, Alu.Test, DevicesAlike, SameData;
    if rv.Value? {
      var r := if op == CMP then Alu.Compare(lhs, rv.value) else Alu.Test(lhs, rv.value);
      FlagsRelated(w, cv, cb, v.(dev := rv.dev), b.(dev := rb.dev), r);
    }
  }

  lemma BranchRelated(w: Twin, cv: Setup, cb: Setup, v: State, b: State,
                      op: Opcode, dv: Arg, db: Arg, sv: Arg, sb: Arg)
    requires GoodTwin(w) && SameShape(w, cv, cb) && Related(w, v, b) && v.pc < |w.program|
    requires ArgsRelated(w, dv, db) && ArgsRelated(w, sv, sb) && IsBranch(op) && StaysInside(w, v, Fetched(op, dv, sv))
    ensures OutcomesRelated(w, ExecBranch(cv, v, op, dv, sv), ExecBranch(cb, b, op, db, sb))
  {
    hide Advance, MayExecute, Related;
    AdvanceRelated(w, cv, cb, v, b);
    if Target(dv).Some? {
      MayExecuteRelated(w, cv, cb, v, b, Target(dv).value, v.priv);
      if Target(dv).value < |w.program| {
        JumpRelated(w, v, b, Target(dv).value);
      }
      EndIsNotExecutable(w, cv, cb, v);
    }
    FaultRelated(w, v, b);
  }

  lemma EndIsNotExecutable(w: Twin, cv: Setup, cb: Setup, v: State)
    requires SameShape(w, cv, cb)
    ensures MayExecute(cv, v, |w.program|, v.priv) <==> v.priv.Kernel?
  {
  }

  lemma JumpRelated(w: Twin, v: State, b: State, index: nat)
    requires Related(w, v, b) && index < |w.program| && Address(w, index) < TWO_64
    ensures Related(w, v.(pc := index), b.(pc := Address(w, index)))
  {
  }

  /** The state after pushing x. */
  function Pushed(s: State, x: i64): State
    requires CanPush(s, 1)
  {
    MoveSp(s.(mem := Write64(s.mem, s.sp, x)), s.sp + SLOT)
  }

  lemma PushedRelated(w: Twin, v: State, b: State, x: i64)
    requires Related(w, v, b) && CanPush(v, 1) && OffCode(w, v.sp)
    ensures CanPush(b, 1) && Related(w.(slots := w.slots - {v.sp}), Pushed(v, x), Pushed(b, x))
    ensures Pushed(v, x).pc == v.pc
  {
    hide Write64, SameData;
    StackSlotIsAligned(v);
    PlainSlot(w.(slots := w.slots - {v.sp}), v.sp);
    WriteKeepsData(w, v.mem, b.mem, v.sp, x, {v.sp});
  }

  lemma PushRelated(w: Twin, cv: Setup, cb: Setup, v: State, b: State, dv: Arg, db: Arg, sv: Arg, sb: Arg)
    requires SameShape(w, cv, cb) && Related(w, v, b) && v.pc < |w.program|
    requires ArgsRelated(w, dv, db) && ArgsRelated(w, sv, sb) && LoadsRelated(w, ValueOf(cv, v, dv), ValueOf(cb, b, db))
    requires CanPush(v, 1) ==> OffCode(w, v.sp)
    ensures var o := ExecPush(cv, v, dv, sv);
            OutcomesRelated(TwinAfter(w, v, PUSH, o), o, ExecPush(cb, b, db, sb))
  {
    hide ValueOf, Advance, Write64, Related, OffCode, RoomAt;
    var x, y := ValueOf(cv, v, dv), ValueOf(cb, b, db);
    FaultRelated(w, v, b);
    DevicesRelated(w, v, b, x.dev, y.dev);
    SameStack(w, v, b);
    if OneOperand(dv, sv) && x.Value? && CanPush(v, 1) {
      var v', b', u := v.(dev := x.dev), b.(dev := y.dev), w.(slots := w.slots - {v.sp});
      PushedRelated(w, v', b', x.value);
      AdvanceRelated(u, cv, cb, Pushed(v', x.value), Pushed(b', x.value));
    }
  }

  lemma PopRelated(w: Twin, cv: Setup, cb: Setup, v: State, b: State, dv: Arg, db: Arg, sv: Arg, sb: Arg)
    requires SameShape(w, cv, cb) && Related(w, v, b) && v.pc < |w.program|
    requires ArgsRelated(w, dv, db) && ArgsRelated(w, sv, sb)
    requires OneOperand(dv, sv) && dv.RegArg? && CanPop(v, 1) ==> v.sp - SLOT !in w.slots && OffCode(w, v.sp - SLOT)
    ensures OutcomesRelated(w, ExecPop(cv, v, dv, sv), ExecPop(cb, b, db, sb))
  {
    hide Advance, Read64, SameData;
    if OneOperand(dv, sv) && dv.RegArg? && CanPop(v, 1) {
      SameTop(w, v, b);
      var x := Top(v);
      var v', b' := MoveSp(v, v.sp - SLOT), MoveSp(b, b.sp - SLOT);
      AdvanceRelated(w, cv, cb, v'.(regs := v'.regs[dv.r := x], flags := WithZeroSign(v'.flags, x)),
                     b'.(regs := b'.regs[dv.r := x], flags := WithZeroSign(b'.flags, x)));
    }
  }

  /** A stack top that is plain data is the same word in both machines. */
  lemma SameTop(w: Twin, v: State, b: State)
    requires Related(w, v, b) && CanPop(v, 1) && v.sp - SLOT !in w.slots && OffCode(w, v.sp - SLOT)
    ensures CanPop(b, 1) && Top(b) == Top(v)
  {
    StackSlotIsAligned(v);
    PlainSlot(w, v.sp - SLOT);
    BytesAgree(w, v.mem, b.mem, v.sp - SLOT);
    ReadDependsOnBytes(v.mem, b.mem, v.sp - SLOT);
  }

  /** The two return addresses pushed at the same stack pointer become one more slot of the relation. */
  lemma CallKeepsData(w: Twin, m: Ram, m': Ram, sp: nat, index: nat)
    requires SameData(w, m, m') && InRange(m, sp, 8) && sp % SLOT == 0 && OffCode(w, sp) && Small(w)
    requires index <= |w.program|
    ensures SameData(w.(slots := w.slots + {sp}), Write64(m, sp, index), Write64(m', sp, Address(w, index)))
  {
    hide Write64, SlotOf, Read64;
    var u := w.(slots := w.slots + {sp});
    var r, r' := Write64(m, sp, index), Write64(m', sp, Address(w, index));
    ReadAfterWrite(m, sp, index);
    ReadAfterWrite(m', sp, Address(w, index));
    forall k | 0 <= k < MEMORY_SIZE && !(w.base <= k < w.base + |w.code|) && SlotOf(k) !in u.slots
      ensures r'[k] == r[k]
    {
      if sp <= k < sp + 8 {
        AlignedSlot(sp, k);
      }
    }
    forall a | a in u.slots
      ensures HoldsReturn(u, r, r', a)
    {
      if a != sp {
        assert HoldsReturn(w, m, m', a);
        OtherSlotKept(w, m, m', sp, index, Address(w, index), a);
      }
    }
  }

  /** The state after a call from s to `target`, returning to `ret`. */
  function Called(s: State, target: u64, ret: i64): State
    requires CanPush(s, 1)
  {
    MoveSp(s.(mem := Write64(s.mem, s.sp, ret)), s.sp + SLOT).(pc := target)
  }

  lemma CalledRelated(w: Twin, v: State, b: State, target: nat)
    requires Related(w, v, b) && v.pc < |w.program| && target < |w.program| && CanPush(v, 1) && OffCode(w, v.sp)
    ensures CanPush(b, 1)
    ensures Related(w.(slots := w.slots + {v.sp}), Called(v, target, v.pc + 1),
                    Called(b, Address(w, target), Address(w, v.pc + 1)))
  {
    hide Write64, SameData;
    StackSlotIsAligned(v);
    CallKeepsData(w, v.mem, b.mem, v.sp, v.pc + 1);
  }

  lemma CallOutcome(c: Setup, s: State, dst: Arg, src: Arg, ret: i64)
    requires ret == AddSize(s.pc, Width(c.image))
    ensures ExecCall(c, s, dst, src)
         == if OneOperand(dst, src) && Target(dst).Some? && MayExecute(c, s, Target(dst).value, s.priv)
               && MayExecute(c, s, ret, s.priv) && CanPush(s, 1)
            then Next(Called(s, Target(dst).value, ret)) else Fault(s)
  {
    hide Write64, MayExecute, RoomAt;
  }

  lemma CallRelated(w: Twin, cv: Setup, cb: Setup, v: State, b: State, dv: Arg, db: Arg, sv: Arg, sb: Arg)
    requires GoodTwin(w) && SameShape(w, cv, cb) && Related(w, v, b) && v.pc < |w.program|
    requires ArgsRelated(w, dv, db) && ArgsRelated(w, sv, sb)
    requires (CanPush(v, 1) ==> OffCode(w, v.sp)) && StaysInside(w, v, Fetched(CALL, dv, sv))
    ensures var o := ExecCall(cv, v, dv, sv);
            OutcomesRelated(TwinAfter(w, v, CALL, o), o, ExecCall(cb, b, db, sb))
  {
    hide ExecCall, Called, MayExecute, GoodTwin, SameData, OffCode;
    MayExecuteRelated(w, cv, cb, v, b, v.pc + 1, v.priv);
    CallOutcome(cv, v, dv, sv, v.pc + 1);
    CallOutcome(cb, b, db, sb, Address(w, v.pc + 1));
    if OneOperand(dv, sv) && Target(dv).Some? {
      MayExecuteRelated(w, cv, cb, v, b, Target(dv).value, v.priv);
      EndIsNotExecutable(w, cv, cb, v);
      if CanPush(v, 1) && Target(dv).value < |w.program| {
        CalledRelated(w, v, b, Target(dv).value);
      }
    }
  }

  /** The state after a return from s to `target`. */
  function Returned(s: State, target: u64): State
    requires CanPop(s, 1)
  {
    MoveSp(s, s.sp - SLOT).(pc := target)
  }

  lemma RetOutcome(c: Setup, s: State, dst: Arg, src: Arg)
    ensures ExecRet(c, s, dst, src)
         == if NoOperands(dst, src) && CanPop(s, 1) && Top(s) >= 0 && MayExecute(c, s, Top(s), s.priv)
            then Next(Returned(s, Top(s))) else Fault(s)
  {
    hide Top, MayExecute, UsedAt;
  }

  lemma ReturnedRelated(w: Twin, v: State, b: State, index: nat)
    requires Related(w, v, b) && index <= |w.program| && CanPop(v, 1)
    ensures CanPop(b, 1) && Related(w, Returned(v, index), Returned(b, Address(w, index)))
  {
    hide SameData;
  }

  lemma RetRelated(w: Twin, cv: Setup, cb: Setup, v: State, b: State, dv: Arg, db: Arg, sv: Arg, sb: Arg)
    requires GoodTwin(w) && SameShape(w, cv, cb) && Related(w, v, b) && v.pc < |w.program|
    requires ArgsRelated(w, dv, db) && ArgsRelated(w, sv, sb)
    requires Bracketed(w, cv, v, Fetched(RET, dv, sv)) && StackOffCode(w, v, RET)
    ensures OutcomesRelated(w, ExecRet(cv, v, dv, sv), ExecRet(cb, b, db, sb))
  {
    hide ExecRet, Returned, MayExecute, GoodTwin, Related, Top, Nowhere, OffCode;
    FaultRelated(w, v, b);
    RetOutcome(cv, v, dv, sv);
    RetOutcome(cb, b, db, sb);
    SameStack(w, v, b);
    if NoOperands(dv, sv) && CanPop(v, 1) {
      if v.sp - SLOT in w.slots {
        SlotHoldsReturn(w, v, b);
        MayExecuteRelated(w, cv, cb, v, b, Top(v), v.priv);
        ReturnedRelated(w, v, b, Top(v));
      } else {
        SameTop(w, v, b);
        NowhereFaults(w, cv, cb, v, b, Top(v));
      }
    }
  }

  lemma SameStack(w: Twin, v: State, b: State)
    requires Related(w, v, b)
    ensures CanPop(b, 1) == CanPop(v, 1) && CanPush(b, 1) == CanPush(v, 1) && b.sp == v.sp && b.regs == v.regs
  {
  }

  lemma NowhereFaults(w: Twin, cv: Setup, cb: Setup, v: State, b: State, x: i64)
    requires SameShape(w, cv, cb) && Related(w, v, b)
    ensures Nowhere(w, cv, v, x) <==> (x < 0 || (!MayExecute(cv, v, x, v.priv) && !MayExecute(cb, b, x, b.priv)))
  {
    hide SameData;
  }

  lemma SlotHoldsReturn(w: Twin, v: State, b: State)
    requires Related(w, v, b) && CanPop(v, 1) && v.sp - SLOT in w.slots
    ensures CanPop(b, 1) && 0 <= Top(v) <= |w.program| && Top(b) == Address(w, Top(v))
  {
    assert HoldsReturn(w, v.mem, b.mem, v.sp - SLOT);
  }

  lemma SystemRelated(w: Twin, cv: Setup, cb: Setup, v: State, b: State,
                      op: Opcode, dv: Arg, db: Arg, sv: Arg, sb: Arg)
    requires SameShape(w, cv, cb) && Related(w, v, b) && v.pc < |w.program|
    requires ArgsRelated(w, dv, db) && ArgsRelated(w, sv, sb)
    ensures OutcomesRelated(w, ExecSystem(cv, v, op, dv, sv), ExecSystem(cb, b, op, db, sb))
  {
    hide Advance, Related;
    FaultRelated(w, v, b);
    if op == NOP {
      AdvanceRelated(w, cv, cb, v, b);
    } else if op == HALT {
      HaltRelated(w, v, b);
    } else if op == EI || op == DI {
      EnabledRelated(w, v, b, op == EI);
      AdvanceRelated(w, cv, cb, SetEnabled(v, op == EI), SetEnabled(b, op == EI));
    }
  }

  lemma HaltRelated(w: Twin, v: State, b: State)
    requires Related(w, v, b)
    ensures Related(w, v.(halted := true), b.(halted := true))
  {
  }

  lemma EnabledRelated(w: Twin, v: State, b: State, on: bool)
    requires Related(w, v, b)
    ensures Related(w, SetEnabled(v, on), SetEnabled(b, on)) && SetEnabled(v, on).pc == v.pc
  {
  }

  lemma OperandClearAnyDevice(w: Twin, c: Setup, v: State, a: Arg, dev: Devices)
    requires OperandClear(w, c, v, a)
    ensures OperandClear(w, c, v.(dev := dev), a)
  {
    hide Disjoint;
  }

  lemma DataRelated(w: Twin, cv: Setup, cb: Setup, v: State, b: State,
                    op: Opcode, dv: Arg, db: Arg, sv: Arg, sb: Arg)
    requires Paired(w, cv, cb) && Related(w, v, b) && v.pc < |w.program| && IsData(op)
    requires ArgsRelated(w, dv, db) && ArgsRelated(w, sv, sb)
    requires OperandClear(w, cv, v, dv) && OperandClear(w, cv, v, sv)
    ensures OutcomesRelated(w, ExecData(cv, v, op, dv, sv), ExecData(cb, b, op, db, sb))
  {
    hide ExecMove, ExecStore, ExecNot, ExecCompare, ValueOf, ArgsRelated, OperandClear, OutcomesRelated, Related,
      Paired;
    FaultRelated(w, v, b);
    PairedShape(w, cv, cb);
    ValueRelated(w, cv, cb, v, b, sv, sb);
    if op == MOV || op == LOAD {
      MoveRelated(w, cv, cb, v, b, dv, db, sv, sb);
    } else if op == NOT {
      NotRelated(w, cv, cb, v, b, dv, db, sv, sb);
    } else {
      ValueRelated(w, cv, cb, v, b, dv, db);
      if op == STORE {
        StoreRelated(w, cv, cb, v, b, dv, db, sv, sb);
      } else {
        var d, d' := ValueOf(cv, v, dv).dev, ValueOf(cb, b, db).dev;
        DevicesRelated(w, v, b, d, d');
        OperandClearAnyDevice(w, cv, v, sv, d);
        ValueRelated(w, cv, cb, v.(dev := d), b.(dev := d'), sv, sb);
        CompareRelated(w, cv, cb, v, b, op, dv, db, sv, sb);
      }
    }
  }

  lemma StackRelated(w: Twin, cv: Setup, cb: Setup, v: State, b: State,
                     op: Opcode, dv: Arg, db: Arg, sv: Arg, sb: Arg)
    requires GoodTwin(w) && Paired(w, cv, cb) && Related(w, v, b) && v.pc < |w.program|
    requires ArgsRelated(w, dv, db) && ArgsRelated(w, sv, sb) && OperandClear(w, cv, v, dv)
    requires IsStack(op) && Bracketed(w, cv, v, Fetched(op, dv, sv)) && StackOffCode(w, v, op)
    requires StaysInside(w, v, Fetched(op, dv, sv))
    ensures var o := ExecStack(cv, v, op, dv, sv);
            OutcomesRelated(TwinAfter(w, v, op, o), o, ExecStack(cb, b, op, db, sb))
  {
    hide ExecPush, ExecPop, ExecCall, ExecRet, ValueOf, OutcomesRelated, Related, GoodTwin, ArgsRelated, OperandClear,
      Nowhere;
    if op == PUSH {
      ValueRelated(w, cv, cb, v, b, dv, db);
      PushRelated(w, cv, cb, v, b, dv, db, sv, sb);
    } else if op == POP {
      PopRelated(w, cv, cb, v, b, dv, db, sv, sb);
    } else if op == CALL {
      CallRelated(w, cv, cb, v, b, dv, db, sv, sb);
    } else {
      RetRelated(w, cv, cb, v, b, dv, db, sv, sb);
    }
  }

  lemma AluRelated(w: Twin, cv: Setup, cb: Setup, v: State, b: State,
                   op: Opcode, dv: Arg, db: Arg, sv: Arg, sb: Arg)
    requires Paired(w, cv, cb) && Related(w, v, b) && v.pc < |w.program|
    requires ArgsRelated(w, dv, db) && ArgsRelated(w, sv, sb) && OperandClear(w, cv, v, sv) && IsBinaryOp(op)
    ensures OutcomesRelated(w, ExecBinaryOp(cv, v, op, dv, sv), ExecBinaryOp(cb, b, op, db, sb))
  {
    hide ExecBinaryOp, ValueOf, OutcomesRelated, Related;
    ValueRelated(w, cv, cb, v, b, sv, sb);
    BinaryOpRelated(w, cv, cb, v, b, op, dv, db, sv, sb);
  }
}

// The instruction set in its own terms: what each opcode leaves behind, in
// numbers, bytes and addresses (docs/isa.md, docs/semantics.md).  None of the
// statements uses the functions the machine's semantics is built from.
module InstructionLaws {
  import opened Words
  import opened Isa
  import opened Memory
  import opened Machine
  import Alu

  // ----- Words, operands and the next instruction -----

  /** The weight of byte k of a string in a little-endian number. */
  function Weighed(b: seq<byte>, k: nat, weight: nat): int
    requires k < |b|
  {
    weight * b[k] as int
  }

  /** The eight bytes at a, least significant first. */
  function Eight(b: seq<byte>, a: nat): int
    requires a + 8 <= |b|
  {
    Weighed(b, a, 1) + Weighed(b, a + 1, 0x100) + Weighed(b, a + 2, 0x1_0000) + Weighed(b, a + 3, 0x100_0000)
    + Weighed(b, a + 4, 0x1_0000_0000) + Weighed(b, a + 5, 0x100_0000_0000)
    + Weighed(b, a + 6, 0x1_0000_0000_0000) + Weighed(b, a + 7, 0x100_0000_0000_0000)
  }

  /** The eight bytes at a hold the word v, modulo 2^64. */
  predicate WordAt(m: Ram, a: nat, v: int)
    requires a + 8 <= 0x1000
  {
    (Eight(m, a) - v) % 0x1_0000_0000_0000_0000 == 0
  }

  /** Only the eight bytes at a differ, and they are v. */
  ghost predicate WordStored(m: Ram, m': Ram, a: nat, v: int) {
    a + 8 <= 0x1000 && WordAt(m', a, v) && forall k :: 0 <= k < 0x1000 && !(a <= k < a + 8) ==> m'[k] == m[k]
  }

  /** User code may reach the 0x200 bytes of its data region. */
  predicate Permitted(s: State, a: nat) {
    s.priv.User? ==> a + 8 <= 0x200
  }

  /** A data read at `a` gives v and leaves the devices as d. */
  predicate DataReads(c: Setup, s: State, a: u64, v: i64, d: Devices) {
    && Permitted(s, a)
    && if c.bus.mapped(a) then c.bus.read(s.dev, a) == ReadOk(d, v)
       else a + 8 <= 0x1000 && WordAt(s.mem, a, v) && d == s.dev
  }

  /** The operand names memory address a. */
  predicate Names(s: State, o: Arg, a: u64) {
    o == MemArg(a) || (o.IndArg? && s.regs[o.base] == a)
  }

  /** The operand has the value v; reading it leaves the devices as d. */
  ghost predicate Source(c: Setup, s: State, o: Arg, v: i64, d: Devices) {
    || (o == ImmArg(v) && d == s.dev)
    || (o.RegArg? && s.regs[o.r] == v && d == s.dev)
    || exists a: u64 :: Names(s, o, a) && DataReads(c, s, a, v, d)
  }

  predicate IsAbsent(o: Arg) {
    o == NoArg(true)
  }

  /** The pc after an instruction: one slot on, unless the machine is halted. */
  function Following(c: Setup, s: State): u64 {
    if s.halted then s.pc else (s.pc + if c.image.Vector? then 1 else 24) % 0x1_0000_0000_0000_0000
  }

  /** The state after an instruction that writes v to register r with the flags of its result. */
  function Computed(c: Setup, s: State, d: Devices, r: Reg, v: i64, carry: bool, overflow: bool): State {
    s.(dev := d, regs := s.regs[r := v], pc := Following(c, s),
       flags := Flags(v == 0, v < 0, carry, overflow, s.flags.spare))
  }

  // ----- The reference terms are the machine's -----

  lemma EightBytes(b: seq<byte>)
    requires |b| == 8
    ensures FromLittleEndian(b) == Eight(b, 0)
  {
    FourBytes(b[..4]);
    FourBytes(b[4..]);
    assert b == b[..4] + b[4..];
    Joined(b[..4], b[4..]);
    Pow256Values();
  }

  lemma FourBytes(b: seq<byte>)
    requires |b| == 4
    ensures FromLittleEndian(b)
         == Weighed(b, 0, 1) + Weighed(b, 1, 0x100) + Weighed(b, 2, 0x1_0000) + Weighed(b, 3, 0x100_0000)
  {
    assert b[1..][1..] == b[2..] && b[2..][1..] == b[3..] && b[3..][1..] == [];
    assert FromLittleEndian(b[3..]) == b[3];
    assert FromLittleEndian(b[2..]) == b[2] as int + 256 * b[3] as int;
    assert FromLittleEndian(b[1..]) == b[1] as int + 256 * FromLittleEndian(b[2..]);
  }

  lemma Joined(a: seq<byte>, b: seq<byte>)
    requires |a| == 4
    ensures FromLittleEndian(a + b) == FromLittleEndian(a) + 0x1_0000_0000 * FromLittleEndian(b)
  {
    var all := a + b;
    assert all[1..][1..] == all[2..] && all[2..][1..] == all[3..] && all[3..][1..] == b;
    FourBytes(a);
    var f := FromLittleEndian(b);
    assert FromLittleEndian(all[3..]) == a[3] as int + 256 * f;
    assert FromLittleEndian(all[2..]) == a[2] as int + 256 * FromLittleEndian(all[3..]);
    assert FromLittleEndian(all[1..]) == a[1] as int + 256 * FromLittleEndian(all[2..]);
    assert FromLittleEndian(all) == a[0] as int + 256 * FromLittleEndian(all[1..]);
  }

  lemma Congruent(x: nat, v: int)
    requires x < TWO_64 && (x - v) % TWO_64 == 0 && -TWO_63 <= v < TWO_64
    ensures v >= 0 ==> x == v
    ensures v < 0 ==> x == v + TWO_64
  {
  }

  lemma ReadIsWord(m: Ram, a: nat, v: i64)
    requires a + 8 <= 0x1000
    ensures Read64(m, a) == v <==> WordAt(m, a, v)
  {
    var b := m[a..a + 8];
    EightBytes(b);
    FromLittleEndianWriteBack(b);
    Pow256Values();
    var x := FromLittleEndian(b);
    assert Eight(m, a) == Eight(b, 0);
    hide FromLittleEndian;
    if WordAt(m, a, v) {
      Congruent(x, v);
    }
  }

  lemma WriteIsWord(m: Ram, a: nat, v: i64)
    requires a + 8 <= 0x1000
    ensures WordStored(m, Write64(m, a, v), a, v)
  {
    ReadAfterWrite(m, a, v);
    ReadIsWord(Write64(m, a, v), a, v);
  }

  lemma ReadDataIsReading(c: Setup, s: State, a: u64, v: i64, d: Devices)
    ensures DataReads(c, s, a, v, d) <==> ReadData(c, s, a) == Value(d, v)
  {
    if a + 8 <= 0x1000 {
      ReadIsWord(s.mem, a, v);
    }
  }

  lemma AddressIsNamed(s: State, o: Arg, a: u64)
    ensures Names(s, o, a) <==> AddressOf(s, o) == Ok(a)
  {
  }

  lemma SourceIsValue(c: Setup, s: State, o: Arg, v: i64, d: Devices)
    ensures Source(c, s, o, v, d) <==> ValueOf(c, s, o) == Value(d, v)
  {
    hide DataReads, ReadData;
    if AddressOf(s, o).Ok? {
      AddressIsNamed(s, o, AddressOf(s, o).value);
      ReadDataIsReading(c, s, AddressOf(s, o).value, v, d);
    }
  }

  // ----- What Exec runs for each opcode -----

  lemma DataDispatch(c: Setup, s: State, op: Opcode, dst: Arg, src: Arg)
    ensures op == MOV ==> Exec(c, s, op, dst, src) == ExecMove(c, s, dst, src)
    ensures op == LOAD ==> Exec(c, s, op, dst, src) == ExecLoad(c, s, dst, src)
    ensures op == STORE ==> Exec(c, s, op, dst, src) == ExecStore(c, s, dst, src)
    ensures op == NOT ==> Exec(c, s, op, dst, src) == ExecNot(c, s, dst, src)
    ensures op == CMP || op == TEST ==> Exec(c, s, op, dst, src) == ExecCompare(c, s, op, dst, src)
    ensures IsBinaryOp(op) ==> Exec(c, s, op, dst, src) == ExecBinaryOp(c, s, op, dst, src)
  {
    hide ExecMove, ExecLoad, ExecStore, ExecNot, ExecCompare, ExecBinaryOp, ExecBranch, ExecStack, ExecInt, ExecReturn,
      ExecSystem;
  }

  lemma StackDispatch(c: Setup, s: State, op: Opcode, dst: Arg, src: Arg)
    ensures IsBranch(op) ==> Exec(c, s, op, dst, src) == ExecBranch(c, s, op, dst, src)
    ensures op == PUSH ==> Exec(c, s, op, dst, src) == ExecPush(c, s, dst, src)
    ensures op == POP ==> Exec(c, s, op, dst, src) == ExecPop(c, s, dst, src)
    ensures op == CALL ==> Exec(c, s, op, dst, src) == ExecCall(c, s, dst, src)
    ensures op == RET ==> Exec(c, s, op, dst, src) == ExecRet(c, s, dst, src)
  {
    hide ExecData, ExecBinaryOp, ExecBranch, ExecPush, ExecPop, ExecCall, ExecRet, ExecInt, ExecReturn, ExecSystem;
  }

  lemma PrivilegeDispatch(c: Setup, s: State, op: Opcode, dst: Arg, src: Arg)
    requires s.priv.User? && (op == HALT || op == IRET || op == EI || op == DI)
    ensures Exec(c, s, op, dst, src) == Fault(s)
  {
  }

  lemma KernelDispatch(c: Setup, s: State, op: Opcode, dst: Arg, src: Arg)
    requires s.priv.Kernel?
    ensures op == IRET ==> Exec(c, s, op, dst, src) == ExecReturn(c, s, dst, src)
    ensures op == HALT || op == EI || op == DI ==> Exec(c, s, op, dst, src) == ExecSystem(c, s, op, dst, src)
  {
    hide ExecData, ExecBinaryOp, ExecBranch, ExecStack, ExecInt, ExecReturn, ExecSystem;
  }

  lemma SystemDispatch(c: Setup, s: State, op: Opcode, dst: Arg, src: Arg)
    ensures op == INT ==> Exec(c, s, op, dst, src) == ExecInt(c, s, dst, src)
    ensures op == NOP || op == Invalid ==> Exec(c, s, op, dst, src) == ExecSystem(c, s, op, dst, src)
  {
    hide ExecData, ExecBinaryOp, ExecBranch, ExecStack, ExecInt, ExecReturn, ExecSystem;
  }

  lemma ValueNeedsOperand(c: Setup, s: State, o: Arg)
    ensures ValueOf(c, s, o).Value? ==> !o.NoArg?
    ensures AddressOf(s, o).Ok? ==> !o.NoArg?
  {
  }

  lemma RegisterWritten(c: Setup, s: State, d: Devices, r: Reg, v: i64)
    ensures SetRegister(c, s.(dev := d), r, v) == Computed(c, s, d, r, v, s.flags.carry, s.flags.overflow)
  {
  }

  lemma ResultWritten(c: Setup, s: State, d: Devices, r: Reg, result: Alu.AluResult)
    requires result.zero == (result.value == 0) && result.sign == (result.value < 0)
    ensures SetResult(c, s.(dev := d), r, result)
         == Computed(c, s, d, r, result.value, result.carry, result.overflow)
  {
  }

  /** A two-operand ALU instruction writes the result of its computation. */
  lemma BinaryOutcome(c: Setup, s: State, op: Opcode, r: Reg, src: Arg, b: i64, d: Devices)
    requires IsBinaryOp(op) && ValueOf(c, s, src) == Value(d, b)
    ensures Exec(c, s, op, RegArg(r), src)
         == match Compute(op, s.regs[r], b)
            case Err => Fault(s.(dev := d))
            case Ok(result) => Next(SetResult(c, s.(dev := d), r, result))
  {
    hide Exec, Compute, SetResult, ValueOf;
    DataDispatch(c, s, op, RegArg(r), src);
    ValueNeedsOperand(c, s, src);
  }

  lemma MoveOutcome(c: Setup, s: State, op: Opcode, r: Reg, src: Arg, v: i64, d: Devices)
    requires op == MOV || (op == LOAD && AddressOf(s, src).Ok?)
    requires ValueOf(c, s, src) == Value(d, v)
    ensures Exec(c, s, op, RegArg(r), src) == Next(SetRegister(c, s.(dev := d), r, v))
  {
    hide Exec, SetRegister, ValueOf, AddressOf;
    DataDispatch(c, s, op, RegArg(r), src);
    ValueNeedsOperand(c, s, src);
  }

  // ----- MOV, LOAD and the two-operand ALU instructions -----

  /** MOV and LOAD: the value, its zero and sign flags, carry and overflow as they were. */
  lemma MoveLaw(c: Setup, s: State, op: Opcode, r: Reg, src: Arg, v: i64, d: Devices)
    requires op == MOV || (op == LOAD && (src.MemArg? || src.IndArg?))
    requires Source(c, s, src, v, d)
    ensures Exec(c, s, op, RegArg(r), src) == Next(Computed(c, s, d, r, v, s.flags.carry, s.flags.overflow))
  {
    SourceIsValue(c, s, src, v, d);
    assert op == LOAD ==> AddressOf(s, src).Ok?;
    hide Exec, ValueOf, Source, SetRegister, Computed;
    MoveOutcome(c, s, op, r, src, v, d);
    RegisterWritten(c, s, d, r, v);
  }

  /** ADD: the sum modulo 2^64; overflow when unrepresentable, carry out of bit 63. */
  lemma AddLaw(c: Setup, s: State, r: Reg, src: Arg, b: i64, d: Devices)
    requires Source(c, s, src, b, d)
    ensures var o, a := Exec(c, s, ADD, RegArg(r), src), s.regs[r];
            && (o.s.regs[r] - (a + b)) % TWO_64 == 0
            && o == Next(Computed(c, s, d, r, o.s.regs[r], a % TWO_64 + b % TWO_64 >= TWO_64,
                                  !(-TWO_63 <= a + b < TWO_63)))
  {
    hide Exec, ValueOf, Source, SetResult, Alu.Add, ToU64, Signed;
    SourceIsValue(c, s, src, b, d);
    BinaryOutcome(c, s, ADD, r, src, b, d);
    var a := s.regs[r];
    ResultFlags(a, b);
    ResultWritten(c, s, d, r, Alu.Add(a, b));
    Alu.AddIsExact(a, b);
    SignedIsCongruent(a + b);
    WordOf(a);
    WordOf(b);
  }

  /** SUB: the difference modulo 2^64; overflow when unrepresentable, carry on an unsigned borrow. */
  lemma SubLaw(c: Setup, s: State, r: Reg, src: Arg, b: i64, d: Devices)
    requires Source(c, s, src, b, d)
    ensures var o, a := Exec(c, s, SUB, RegArg(r), src), s.regs[r];
            && (o.s.regs[r] - (a - b)) % TWO_64 == 0
            && o == Next(Computed(c, s, d, r, o.s.regs[r], a % TWO_64 < b % TWO_64, !(-TWO_63 <= a - b < TWO_63)))
  {
    hide Exec, ValueOf, Source, SetResult, Alu.Sub, ToU64, Signed;
    SourceIsValue(c, s, src, b, d);
    BinaryOutcome(c, s, SUB, r, src, b, d);
    var a := s.regs[r];
    ResultFlags(a, b);
    ResultWritten(c, s, d, r, Alu.Sub(a, b));
    Alu.SubIsExact(a, b);
    SignedIsCongruent(a - b);
    WordOf(a);
    WordOf(b);
  }

  /** MUL: the product modulo 2^64; overflow and carry when unrepresentable. */
  lemma MulLaw(c: Setup, s: State, r: Reg, src: Arg, b: i64, d: Devices)
    requires Source(c, s, src, b, d)
    ensures var o, a := Exec(c, s, MUL, RegArg(r), src), s.regs[r];
            var lost := !(-TWO_63 <= a * b < TWO_63);
            (o.s.regs[r] - a * b) % TWO_64 == 0 && o == Next(Computed(c, s, d, r, o.s.regs[r], lost, lost))
  {
    hide Exec, ValueOf, Source, SetResult;
    SourceIsValue(c, s, src, b, d);
    BinaryOutcome(c, s, MUL, r, src, b, d);
    hide Alu.Mul;
    var a := s.regs[r];
    ResultFlags(a, b);
    ResultWritten(c, s, d, r, Alu.Mul(a, b));
    Alu.MulIsExact(a, b);
    SignedIsCongruent(a * b);
  }

  lemma ResultFlags(a: i64, b: i64)
    ensures var r := Alu.Add(a, b); r.zero == (r.value == 0) && r.sign == (r.value < 0)
    ensures var r := Alu.Sub(a, b); r.zero == (r.value == 0) && r.sign == (r.value < 0)
    ensures var r := Alu.Mul(a, b); r.zero == (r.value == 0) && r.sign == (r.value < 0)
    ensures Alu.Div(a, b).Ok? ==>
              var r := Alu.Div(a, b).value;
              r.zero == (r.value == 0) && r.sign == (r.value < 0) && !r.carry && !r.overflow
  {
  }

  lemma SignedIsCongruent(x: int)
    ensures (Signed(x) - x) % TWO_64 == 0
  {
    var q, r := x / TWO_64, x % TWO_64;
    assert Signed(x) - x == if r < TWO_63 then (-q) * TWO_64 else (-q - 1) * TWO_64;
    var k := if r < TWO_63 then -q else -q - 1;
    DivModUnique(k * TWO_64, TWO_64, k, 0);
  }

  /** q is a / b with the fraction cut off. */
  predicate Truncates(a: i64, b: i64, q: i64) {
    var left: int, size: int := a - q * b, if b < 0 then 0 - b as int else b;
    (if a < 0 then left <= 0 else left >= 0) && -size < left < size
  }

  lemma DivTruncates(a: i64, b: i64)
    ensures Alu.Div(a, b).Err? <==> b == 0 || (a == -TWO_63 && b == -1)
    ensures Alu.Div(a, b).Ok? ==> Truncates(a, b, Alu.Div(a, b).value.value)
  {
    hide Alu.Div;
    Alu.DivIsTruncating(a, b);
  }

  /** DIV: faults on 0 and on MIN / -1, and otherwise leaves the quotient truncated toward zero. */
  lemma DivLaw(c: Setup, s: State, r: Reg, src: Arg, b: i64, d: Devices)
    requires Source(c, s, src, b, d)
    ensures var o, a := Exec(c, s, DIV, RegArg(r), src), s.regs[r];
            if b == 0 || (a == -TWO_63 && b == -1) then o == Fault(s.(dev := d))
            else Truncates(a, b, o.s.regs[r]) && o == Next(Computed(c, s, d, r, o.s.regs[r], false, false))
  {
    hide Exec, ValueOf, Source, SetResult, Alu.Div, Truncates;
    SourceIsValue(c, s, src, b, d);
    BinaryOutcome(c, s, DIV, r, src, b, d);
    var a := s.regs[r];
    ResultFlags(a, b);
    DivTruncates(a, b);
    if Alu.Div(a, b).Ok? {
      ResultWritten(c, s, d, r, Alu.Div(a, b).value);
    }
  }

  // ----- Bits -----

  /** Bit k of the 64-bit word v. */
  predicate BitOf(v: i64, k: nat) {
    v % TWO_64 / Alu.Pow2(k) % 2 == 1
  }

  lemma HalfThen(x: nat, m: nat)
    requires m > 0
    ensures x / 2 / m == x / (2 * m)
  {
    var q, r := x / 2 / m, (x / 2) % m;
    var low := x % 2;
    assert x == 2 * (q * m + r) + low;
    assert 2 * (q * m) == q * (2 * m);
    DivModUnique(x, 2 * m, q, 2 * r + low);
  }

  lemma {:induction false} BitAtIsDivision(x: nat, k: nat)
    ensures Alu.BitAt(x, k) == x / Alu.Pow2(k) % 2
  {
    if k > 0 {
      BitAtIsDivision(x / 2, k - 1);
      HalfThen(x, Alu.Pow2(k - 1));
    }
  }

  lemma WordOf(v: i64)
    ensures v % TWO_64 == ToU64(v)
  {
  }

  lemma LogicWord(op: Alu.BitOp, a: i64, b: i64)
    ensures ToU64(Alu.Logic(op, a, b).value) == Alu.Bitwise(op, ToU64(a), ToU64(b), 64)
  {
    Alu.Pow2Of64();
    hide Alu.Bitwise;
    SignedRoundTrip(0, Alu.Bitwise(op, ToU64(a), ToU64(b), 64));
  }

  lemma LogicBits(op: Alu.BitOp, a: i64, b: i64, k: nat)
    requires k < 64
    ensures var v := Alu.Logic(op, a, b).value;
            BitOf(v, k) == match op
                           case AndOp => BitOf(a, k) && BitOf(b, k)
                           case OrOp => BitOf(a, k) || BitOf(b, k)
                           case XorOp => BitOf(a, k) != BitOf(b, k)
  {
    hide Alu.Bitwise, Alu.BitAt, Alu.Pow2, Alu.Logic, ToU64;
    var v := Alu.Logic(op, a, b).value;
    LogicWord(op, a, b);
    WordOf(a);
    WordOf(b);
    WordOf(v);
    Alu.BitwiseIsPointwise(op, ToU64(a), ToU64(b), 64, k);
    BitAtIsDivision(ToU64(v), k);
    BitAtIsDivision(ToU64(a), k);
    BitAtIsDivision(ToU64(b), k);
  }

  /** AND, OR and XOR: every bit on its own, carry and overflow clear. */
  lemma LogicLaw(c: Setup, s: State, op: Opcode, r: Reg, src: Arg, b: i64, d: Devices, k: nat)
    requires (op == AND || op == OR || op == XOR) && Source(c, s, src, b, d) && k < 64
    ensures var o, a := Exec(c, s, op, RegArg(r), src), s.regs[r];
            && o == Next(Computed(c, s, d, r, o.s.regs[r], false, false))
            && BitOf(o.s.regs[r], k) == if op == AND then BitOf(a, k) && BitOf(b, k)
                                        else if op == OR then BitOf(a, k) || BitOf(b, k)
                                        else BitOf(a, k) != BitOf(b, k)
  {
    hide Exec, ValueOf, Source, SetResult, Alu.Bitwise, BitOf;
    SourceIsValue(c, s, src, b, d);
    BinaryOutcome(c, s, op, r, src, b, d);
    var bits := if op == AND then Alu.AndOp else if op == OR then Alu.OrOp else Alu.XorOp;
    var result := Alu.Logic(bits, s.regs[r], b);
    LogicBits(bits, s.regs[r], b, k);
    ResultWritten(c, s, d, r, result);
  }

  lemma NotBits(a: i64, k: nat)
    requires k < 64
    ensures BitOf(-1 - a, k) != BitOf(a, k)
  {
    Alu.NotIsXorOnes(a);
    LogicBits(Alu.XorOp, a, -1, k);
    AllOnes(k);
  }

  lemma AllOnes(k: nat)
    requires k < 64
    ensures BitOf(-1, k)
  {
    Alu.Pow2Of64();
    OnesBelow(64, k);
  }

  lemma {:induction false} OnesBelow(n: nat, k: nat)
    requires k < n
    ensures (Alu.Pow2(n) - 1) / Alu.Pow2(k) % 2 == 1
  {
    var x := Alu.Pow2(n) - 1;
    assert x == 2 * (Alu.Pow2(n - 1) - 1) + 1;
    if k > 0 {
      HalfThen(x, Alu.Pow2(k - 1));
      OnesBelow(n - 1, k - 1);
    }
  }

  lemma NotOutcome(c: Setup, s: State, r: Reg)
    ensures Exec(c, s, NOT, RegArg(r), NoArg(true)) == Next(SetResult(c, s, r, Alu.BitNot(s.regs[r])))
  {
    hide Exec, SetResult, Alu.BitNot;
    DataDispatch(c, s, NOT, RegArg(r), NoArg(true));
  }

  /** NOT: every bit flipped, carry and overflow clear. */
  lemma NotLaw(c: Setup, s: State, r: Reg, k: nat)
    requires k < 64
    ensures var o := Exec(c, s, NOT, RegArg(r), NoArg(true));
            && o == Next(Computed(c, s, s.dev, r, o.s.regs[r], false, false))
            && BitOf(o.s.regs[r], k) != BitOf(s.regs[r], k)
  {
    hide Exec, BitOf, SetResult;
    NotOutcome(c, s, r);
    NotBits(s.regs[r], k);
    assert s.(dev := s.dev) == s;
    ResultWritten(c, s, s.dev, r, Alu.BitNot(s.regs[r]));
  }

  // ----- STORE -----

  /** The state after STORE put v at its address: new memory and devices, zero and sign of v. */
  function Kept(c: Setup, s: State, d: Devices, m: Ram, v: i64): State {
    s.(dev := d, mem := m, pc := Following(c, s),
       flags := Flags(v == 0, v < 0, s.flags.carry, s.flags.overflow, s.flags.spare))
  }

  lemma WriteChanges(c: Setup, s: State, a: u64, v: i64)
    ensures var o := WriteData(c, s, a, v); o.Next? ==> o.s == s.(dev := o.s.dev, mem := o.s.mem)
  {
  }

  lemma KeptIsAdvance(c: Setup, s: State, t: State, v: i64)
    requires t == s.(dev := t.dev, mem := t.mem)
    ensures Advance(c, t.(flags := WithZeroSign(t.flags, v))) == Kept(c, s, t.dev, t.mem, v)
  {
  }

  lemma StoreOutcome(c: Setup, s: State, dst: Arg, a: u64, src: Arg, v: i64, d: Devices)
    requires AddressOf(s, dst) == Ok(a) && ValueOf(c, s, src) == Value(d, v)
    ensures Exec(c, s, STORE, dst, src)
         == match WriteData(c, s.(dev := d), a, v)
            case Fault(t) => Fault(t)
            case Next(t) => Next(Kept(c, s, t.dev, t.mem, v))
  {
    hide Exec, ValueOf, AddressOf, WriteData, Advance, Kept;
    var o := WriteData(c, s.(dev := d), a, v);
    WriteChanges(c, s.(dev := d), a, v);
    if o.Next? {
      KeptIsAdvance(c, s, o.s, v);
    }
    DataDispatch(c, s, STORE, dst, src);
    ValueNeedsOperand(c, s, src);
    ValueNeedsOperand(c, s, dst);
  }

  /** STORE: to a device, or eight bytes of memory and nothing else; a forbidden or missing address faults. */
  lemma StoreLaw(c: Setup, s: State, dst: Arg, a: u64, src: Arg, v: i64, d: Devices)
    requires Names(s, dst, a) && Source(c, s, src, v, d)
    ensures var o := Exec(c, s, STORE, dst, src);
            if !Permitted(s, a) then o == Fault(s.(dev := d))
            else if c.bus.mapped(a) then
              match c.bus.write(d, a, v)
              case Threw(e) => o == Fault(s.(dev := e))
              case Done(e) => o == Next(Kept(c, s, e, s.mem, v))
            else if a + 8 > 0x1000 then o == Fault(s.(dev := d))
            else WordStored(s.mem, o.s.mem, a, v) && o == Next(Kept(c, s, d, o.s.mem, v))
  {
    hide Exec, ValueOf, Source, Write64, WordStored, AddressOf;
    SourceIsValue(c, s, src, v, d);
    AddressIsNamed(s, dst, a);
    StoreOutcome(c, s, dst, a, src, v, d);
    if a + 8 <= 0x1000 {
      WriteIsWord(s.mem, a, v);
    }
  }

  // ----- CMP and TEST -----

  /** The state after CMP or TEST: only flags, devices and pc. */
  function Flagged(c: Setup, s: State, d: Devices, zero: bool, sign: bool, carry: bool, overflow: bool): State {
    s.(dev := d, pc := Following(c, s), flags := Flags(zero, sign, carry, overflow, s.flags.spare))
  }

  lemma FlagsWritten(c: Setup, s: State, e: Devices, r: Alu.AluResult)
    ensures SetFlags(c, s.(dev := e), r) == Flagged(c, s, e, r.zero, r.sign, r.carry, r.overflow)
  {
  }

  lemma CompareOutcome(c: Setup, s: State, op: Opcode, x: Arg, a: i64, d: Devices, y: Arg, b: i64, e: Devices)
    requires (op == CMP || op == TEST) && ValueOf(c, s, x) == Value(d, a) && ValueOf(c, s.(dev := d), y) == Value(e, b)
    ensures var r := if op == CMP then Alu.Sub(a, b) else Alu.Logic(Alu.AndOp, a, b);
            Exec(c, s, op, x, y) == Next(Flagged(c, s, e, r.zero, r.sign, r.carry, r.overflow))
  {
    hide Exec, ValueOf, Alu.Sub, Alu.Logic, SetFlags, Flagged;
    FlagsWritten(c, s, e, if op == CMP then Alu.Sub(a, b) else Alu.Logic(Alu.AndOp, a, b));
    DataDispatch(c, s, op, x, y);
    ValueNeedsOperand(c, s, x);
    ValueNeedsOperand(c, s.(dev := d), y);
  }

  /** CMP: the flags of the difference; nothing else is written. */
  lemma CompareLaw(c: Setup, s: State, x: Arg, a: i64, d: Devices, y: Arg, b: i64, e: Devices)
    requires Source(c, s, x, a, d) && Source(c, s.(dev := d), y, b, e)
    ensures Exec(c, s, CMP, x, y)
         == Next(Flagged(c, s, e, a == b, (a - b) % TWO_64 >= TWO_63, a % TWO_64 < b % TWO_64,
                         !(-TWO_63 <= a - b < TWO_63)))
  {
    hide Exec, ValueOf, Source, Flagged;
    SourceIsValue(c, s, x, a, d);
    SourceIsValue(c, s.(dev := d), y, b, e);
    CompareOutcome(c, s, CMP, x, a, d, y, b, e);
    SubFlags(a, b);
  }

  lemma SubFlags(a: i64, b: i64)
    ensures var r := Alu.Sub(a, b);
            && r.zero == (a == b) && r.sign == ((a - b) % TWO_64 >= TWO_63)
            && r.carry == (a % TWO_64 < b % TWO_64) && r.overflow == !(-TWO_63 <= a - b < TWO_63)
  {
    Alu.SubIsExact(a, b);
  }

  lemma {:induction false} ZeroHasNoBits(k: nat)
    ensures Alu.BitAt(0, k) == 0
  {
    if k > 0 {
      ZeroHasNoBits(k - 1);
    }
  }

  lemma {:induction false} SomeBit(x: nat, n: nat) returns (k: nat)
    requires 0 < x < Alu.Pow2(n)
    ensures k < n && Alu.BitAt(x, k) == 1
  {
    if x % 2 == 1 {
      k := 0;
    } else {
      var j := SomeBit(x / 2, n - 1);
      k := j + 1;
    }
  }

  lemma ZeroWord(v: i64)
    ensures v == 0 <==> forall k: nat :: k < 64 ==> !BitOf(v, k)
  {
    WordOf(v);
    hide Alu.BitAt;
    if v == 0 {
      forall k: nat | k < 64
        ensures !BitOf(v, k)
      {
        ZeroHasNoBits(k);
        BitAtIsDivision(0, k);
      }
    } else {
      Alu.Pow2Of64();
      var k := SomeBit(ToU64(v), 64);
      BitAtIsDivision(ToU64(v), k);
      assert BitOf(v, k);
    }
  }

  lemma TopBit(v: i64)
    ensures BitOf(v, 63) <==> v < 0
  {
    Alu.Pow2Of64();
    assert Alu.Pow2(64) == 2 * Alu.Pow2(63);
    WordOf(v);
  }

  /** TEST: the flags of the conjunction. */
  lemma TestLaw(c: Setup, s: State, x: Arg, a: i64, d: Devices, y: Arg, b: i64, e: Devices)
    requires Source(c, s, x, a, d) && Source(c, s.(dev := d), y, b, e)
    ensures Exec(c, s, TEST, x, y)
         == Next(Flagged(c, s, e, forall k: nat :: k < 64 ==> !(BitOf(a, k) && BitOf(b, k)), a < 0 && b < 0,
                         false, false))
  {
    hide Exec, ValueOf, Source, Flagged, BitOf, Alu.Bitwise;
    SourceIsValue(c, s, x, a, d);
    SourceIsValue(c, s.(dev := d), y, b, e);
    CompareOutcome(c, s, TEST, x, a, d, y, b, e);
    var v := Alu.Logic(Alu.AndOp, a, b).value;
    forall k: nat | k < 64
      ensures BitOf(v, k) == (BitOf(a, k) && BitOf(b, k))
    {
      LogicBits(Alu.AndOp, a, b, k);
    }
    ZeroWord(v);
    LogicBits(Alu.AndOp, a, b, 63);
    TopBit(a);
    TopBit(b);
    TopBit(v);
  }

  // ----- Instructions that fault before they do anything -----

  /** The operands the opcode takes. */
  predicate Shaped(op: Opcode, dst: Arg, src: Arg) {
    match op
    case MOV | ADD | SUB | MUL | DIV | AND | OR | XOR => dst.RegArg? && !src.NoArg?
    case LOAD => dst.RegArg? && (src.MemArg? || src.IndArg?)
    case STORE => (dst.MemArg? || dst.IndArg?) && !src.NoArg?
    case CMP | TEST => !dst.NoArg? && !src.NoArg?
    case NOT | POP => dst.RegArg? && IsAbsent(src)
    case JMP | JE | JNE | JG | JL | CALL | PUSH | INT => !dst.NoArg? && IsAbsent(src)
    case RET | IRET | EI | DI | NOP | HALT => IsAbsent(dst) && IsAbsent(src)
    case Invalid => false
  }

  lemma DataShape(c: Setup, s: State, op: Opcode, dst: Arg, src: Arg)
    requires !Shaped(op, dst, src) && (IsData(op) || IsBinaryOp(op))
    ensures Exec(c, s, op, dst, src) == Fault(s)
  {
    hide Exec, ValueOf, Compute, Advance, WriteData, CompareWith;
    DataDispatch(c, s, op, dst, src);
  }

  lemma ControlShape(c: Setup, s: State, op: Opcode, dst: Arg, src: Arg)
    requires !Shaped(op, dst, src) && !IsData(op) && !IsBinaryOp(op)
    ensures Exec(c, s, op, dst, src) == Fault(s)
  {
    hide Exec, ValueOf, RestoreFrame, CanPop, Top, HostService, PushFrame, PushValue, Advance, Taken, Target,
      SetEnabled;
    StackDispatch(c, s, op, dst, src);
    SystemDispatch(c, s, op, dst, src);
    if op == HALT || op == IRET || op == EI || op == DI {
      if s.priv.User? {
        PrivilegeDispatch(c, s, op, dst, src);
      } else {
        KernelDispatch(c, s, op, dst, src);
      }
    }
  }

  /** Wrong operands fault and change nothing. */
  lemma ShapeLaw(c: Setup, s: State, op: Opcode, dst: Arg, src: Arg)
    requires !Shaped(op, dst, src)
    ensures Exec(c, s, op, dst, src) == Fault(s)
  {
    hide Exec, Shaped;
    if IsData(op) || IsBinaryOp(op) {
      DataShape(c, s, op, dst, src);
    } else {
      ControlShape(c, s, op, dst, src);
    }
  }

  /** A second operand without a value faults. */
  lemma UnreadableSourceLaw(c: Setup, s: State, op: Opcode, dst: Arg, src: Arg)
    requires op == MOV || op == LOAD || op == STORE || IsBinaryOp(op)
    requires forall v: i64, d: Devices :: !Source(c, s, src, v, d)
    ensures Exec(c, s, op, dst, src).Fault?
  {
    hide Exec, ValueOf, Source, Compute, Advance, AddressOf;
    NoSourceNoValue(c, s, src);
    DataDispatch(c, s, op, dst, src);
  }

  lemma NoSourceNoValue(c: Setup, s: State, o: Arg)
    requires forall v: i64, d: Devices :: !Source(c, s, o, v, d)
    ensures ValueOf(c, s, o).LoadFault?
  {
    hide ValueOf, Source;
    var l := ValueOf(c, s, o);
    if l.Value? {
      SourceIsValue(c, s, o, l.value, l.dev);
      assert false;
    }
  }

  /** An operand of CMP, TEST, PUSH or INT without a value faults. */
  lemma UnreadableOperandLaw(c: Setup, s: State, op: Opcode, x: Arg, y: Arg)
    requires op == CMP || op == TEST || op == PUSH || op == INT
    requires forall v: i64, d: Devices :: !Source(c, s, x, v, d)
    ensures Exec(c, s, op, x, y).Fault?
  {
    hide Exec, ValueOf, Source, Advance, HostService, PushFrame, PushValue;
    NoSourceNoValue(c, s, x);
    DataDispatch(c, s, op, x, y);
    StackDispatch(c, s, op, x, y);
    SystemDispatch(c, s, op, x, y);
  }
}

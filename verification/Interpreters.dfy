// The two interpreters as the source writes them: `execute` on decoded
// instructions and `executeBinaryInstruction` on decoded bytes, each with its
// own operand readers, operand-count checks and pc increment.  Both are proved
// to be Machine.Exec on the arguments their readers stand for.
module Interpreters {
  import opened Words
  import opened Isa
  import opened Machine
  import opened MemoryMap
  import Alu

  // ----- execute: operands are Operand values, the pc is an index -----

  predicate NoOperand(i: Instruction) {
    i.dst.Absent? && i.src.Absent?
  }

  predicate SingleOperand(i: Instruction) {
    !i.dst.Absent? && i.src.Absent?
  }

  predicate BothOperands(i: Instruction) {
    !i.dst.Absent? && !i.src.Absent?
  }

  /** readMemoryAddress */
  function OperandAddress(s: State, o: Operand): Result<u64> {
    match o
    case MemoryAddress(address) => Ok(address)
    case RegisterIndirect(base) => if s.regs[base] < 0 then Err else Ok(s.regs[base])
    case _ => Err
  }

  /** readOperandValue */
  function OperandValue(c: Setup, s: State, o: Operand): Loaded {
    match o
    case Register(r) => Value(s.dev, s.regs[r])
    case Immediate(v) => Value(s.dev, v)
    case MemoryAddress(_) => ReadData(c, s, OperandAddress(s, o).value)
    case RegisterIndirect(_) =>
      if OperandAddress(s, o).Err? then LoadFault(s.dev) else ReadData(c, s, OperandAddress(s, o).value)
    case _ => LoadFault(s.dev)
  }

  /** resolveLabelAddress */
  function LabelTarget(labels: Labels, o: Operand): Option<u64> {
    if o.Label? && o.name in labels then Some(labels[o.name]) else None
  }

  /** advancePcUnlessHalted */
  function NextIndex(s: State): State {
    if s.halted then s else s.(pc := AddSize(s.pc, 1))
  }

  function VectorWrite(s: State, r: Reg, v: i64): State {
    NextIndex(s.(regs := s.regs[r := v], flags := WithZeroSign(s.flags, v)))
  }

  function VectorMove(c: Setup, s: State, i: Instruction): Outcome {
    if !BothOperands(i) || !i.dst.Register? then Fault(s)
    else
      match OperandValue(c, s, i.src)
      case LoadFault(dev) => Fault(s.(dev := dev))
      case Value(dev, v) => Next(VectorWrite(s.(dev := dev), i.dst.reg, v))
  }

  function VectorLoad(c: Setup, s: State, i: Instruction): Outcome {
    if !BothOperands(i) || !i.dst.Register? || OperandAddress(s, i.src).Err? then Fault(s)
    else
      match ReadData(c, s, OperandAddress(s, i.src).value)
      case LoadFault(dev) => Fault(s.(dev := dev))
      case Value(dev, v) => Next(VectorWrite(s.(dev := dev), i.dst.reg, v))
  }

  function VectorStore(c: Setup, s: State, i: Instruction): Outcome {
    if !BothOperands(i) || OperandAddress(s, i.dst).Err? then Fault(s)
    else
      match OperandValue(c, s, i.src)
      case LoadFault(dev) => Fault(s.(dev := dev))
      case Value(dev, v) =>
        match WriteData(c, s.(dev := dev), OperandAddress(s, i.dst).value, v)
        case Fault(t) => Fault(t)
        case Next(t) => Next(NextIndex(t.(flags := WithZeroSign(t.flags, v))))
  }

  function VectorAlu(c: Setup, s: State, i: Instruction): Outcome
    requires IsBinaryOp(i.opcode)
  {
    if !BothOperands(i) || !i.dst.Register? then Fault(s)
    else
      match OperandValue(c, s, i.src)
      case LoadFault(dev) => Fault(s.(dev := dev))
      case Value(dev, rhs) =>
        match Compute(i.opcode, s.regs[i.dst.reg], rhs)
        case Err => Fault(s.(dev := dev))
        case Ok(result) =>
          Next(NextIndex(s.(dev := dev, regs := s.regs[i.dst.reg := result.value],
                            flags := WithResult(s.flags, result))))
  }

  function VectorNot(c: Setup, s: State, i: Instruction): Outcome {
    if !SingleOperand(i) || !i.dst.Register? then Fault(s)
    else
      var result := Alu.BitNot(s.regs[i.dst.reg]);
      Next(NextIndex(s.(regs := s.regs[i.dst.reg := result.value], flags := WithResult(s.flags, result))))
  }

  function VectorCompare(c: Setup, s: State, i: Instruction): Outcome {
    if !BothOperands(i) then Fault(s)
    else
      match OperandValue(c, s, i.dst)
      case LoadFault(dev) => Fault(s.(dev := dev))
      case Value(dev, lhs) =>
        match OperandValue(c, s.(dev := dev), i.src)
        case LoadFault(dev') => Fault(s.(dev := dev'))
        case Value(dev', rhs) =>
          var result := if i.opcode == CMP then Alu.Compare(lhs, rhs) else Alu.Test(lhs, rhs);
          Next(NextIndex(s.(dev := dev', flags := WithResult(s.flags, result))))
  }

  function VectorBranch(c: Setup, labels: Labels, s: State, i: Instruction): Outcome {
    if !SingleOperand(i) then Fault(s)
    else if !Taken(i.opcode, s.flags) then Next(NextIndex(s))
    else
      match LabelTarget(labels, i.dst)
      case None => Fault(s)
      case Some(t) => if MayExecute(c, s, t, s.priv) then Next(s.(pc := t)) else Fault(s)
  }

  function VectorPush(c: Setup, s: State, i: Instruction): Outcome {
    if !SingleOperand(i) then Fault(s)
    else
      match OperandValue(c, s, i.dst)
      case LoadFault(dev) => Fault(s.(dev := dev))
      case Value(dev, v) =>
        match PushValue(s.(dev := dev), v)
        case Fault(t) => Fault(t)
        case Next(t) => Next(NextIndex(t))
  }

  function VectorPop(s: State, i: Instruction): Outcome {
    if !SingleOperand(i) || !i.dst.Register? || !CanPop(s, 1) then Fault(s)
    else Next(VectorWrite(MoveSp(s, s.sp - SLOT), i.dst.reg, Top(s)))
  }

  function VectorCall(c: Setup, labels: Labels, s: State, i: Instruction): Outcome {
    if !SingleOperand(i) then Fault(s)
    else
      var ret := AddSize(s.pc, 1);
      match LabelTarget(labels, i.dst)
      case None => Fault(s)
      case Some(t) =>
        if !MayExecute(c, s, t, s.priv) || !MayExecute(c, s, ret, s.priv) then Fault(s)
        else
          match PushValue(s, ToI64(ret))
          case Fault(u) => Fault(u)
          case Next(u) => Next(u.(pc := t))
  }

  function VectorRet(c: Setup, s: State, i: Instruction): Outcome {
    if !NoOperand(i) || !CanPop(s, 1) then Fault(s)
    else if Top(s) < 0 || !MayExecute(c, s, Top(s), s.priv) then Fault(s)
    else Next(MoveSp(s, s.sp - SLOT).(pc := Top(s)))
  }

  /** The INT handler must be an index into the program. */
  function VectorInt(c: Setup, size: nat, s: State, i: Instruction): Outcome {
    if !SingleOperand(i) || !c.hasController then Fault(s)
    else
      match OperandValue(c, s, i.dst)
      case LoadFault(dev) => Fault(s.(dev := dev))
      case Value(dev, v) =>
        var t := s.(dev := dev);
        if v < 0 || v > 255 then Fault(t)
        else if c.bus.handles(v) then HostService(c, t, v, AddSize(s.pc, 1))
        else
          match t.dev.controller.handlers[v]
          case None => Fault(t)
          case Some(handler) =>
            if handler >= size || !CanPushFrame(t) then Fault(t)
            else
              var p := PushFrame(t, AddSize(s.pc, 1));
              Next(p.(regs := p.regs[0 := v], pc := handler))
  }

  function VectorSystem(c: Setup, s: State, i: Instruction): Outcome {
    match i.opcode
    case NOP => if NoOperand(i) then Next(NextIndex(s)) else Fault(s)
    case HALT => if NoOperand(i) then Next(s.(halted := true)) else Fault(s)
    case EI => if NoOperand(i) && c.hasController then Next(NextIndex(SetEnabled(s, true))) else Fault(s)
    case DI => if NoOperand(i) && c.hasController then Next(NextIndex(SetEnabled(s, false))) else Fault(s)
    case _ => Fault(s)
  }

  /** CPU::execute */
  function ExecuteVector(c: Setup, program: seq<Instruction>, labels: Labels, s: State, i: Instruction): Outcome {
    if s.priv.User? && NeedsKernel(i.opcode) then Fault(s)
    else
      match i.opcode
      case MOV => VectorMove(c, s, i)
      case LOAD => VectorLoad(c, s, i)
      case STORE => VectorStore(c, s, i)
      case ADD | SUB | MUL | DIV | AND | OR | XOR => VectorAlu(c, s, i)
      case NOT => VectorNot(c, s, i)
      case CMP | TEST => VectorCompare(c, s, i)
      case JMP | JE | JNE | JG | JL => VectorBranch(c, labels, s, i)
      case PUSH => VectorPush(c, s, i)
      case POP => VectorPop(s, i)
      case CALL => VectorCall(c, labels, s, i)
      case RET => VectorRet(c, s, i)
      case IRET => if NoOperand(i) then RestoreFrame(c, s, false) else Fault(s)
      case INT => VectorInt(c, |program|, s, i)
      case NOP | HALT | EI | DI | Invalid => VectorSystem(c, s, i)
  }

  // ----- executeBinaryInstruction: operands are typed payloads, the pc is a byte address -----

  /** requireNoBinaryOperands: payloads must be zero too. */
  predicate NoField(d: Decoded) {
    d.dst.kind.TNone? && d.src.kind.TNone? && d.dst.payload == 0 && d.src.payload == 0
  }

  predicate SingleField(d: Decoded) {
    !d.dst.kind.TNone? && d.src.kind.TNone? && d.src.payload == 0
  }

  predicate BothFields(d: Decoded) {
    !d.dst.kind.TNone? && !d.src.kind.TNone?
  }

  predicate IsRegisterField(f: Field) {
    f.kind.TRegister? && 0 <= f.payload < 8
  }

  /** readBinaryMemoryAddress */
  function FieldAddress(s: State, f: Field): Result<u64> {
    match f.kind
    case TMemory => if f.payload < 0 then Err else Ok(f.payload)
    case TIndirect =>
      if f.payload < 0 || f.payload > 7 then Err
      else if s.regs[f.payload] < 0 then Err
      else Ok(s.regs[f.payload])
    case _ => Err
  }

  /** readBinaryOperandValue */
  function FieldValue(c: Setup, s: State, f: Field): Loaded {
    match f.kind
    case TRegister => if 0 <= f.payload < 8 then Value(s.dev, s.regs[f.payload]) else LoadFault(s.dev)
    case TImmediate => Value(s.dev, f.payload)
    case TMemory | TIndirect =>
      if FieldAddress(s, f).Err? then LoadFault(s.dev) else ReadData(c, s, FieldAddress(s, f).value)
    case _ => LoadFault(s.dev)
  }

  /** readBinaryCodeAddress: a byte offset from the code base to a slot of the loaded code. */
  function FieldTarget(base: nat, size: nat, f: Field): Option<u64> {
    if !f.kind.TCode? || f.payload < 0 then None
    else if InCode(base, size, base + f.payload) && base + f.payload < TWO_64 then Some(base + f.payload)
    else None
  }

  /** advanceBinaryPcUnlessHalted */
  function NextSlot(s: State): State {
    if s.halted then s else s.(pc := AddSize(s.pc, INSTRUCTION_SIZE))
  }

  function BinaryWrite(s: State, f: Field, v: i64): State
    requires IsRegisterField(f)
  {
    NextSlot(s.(regs := s.regs[f.payload := v], flags := WithZeroSign(s.flags, v)))
  }

  function BinaryMove(c: Setup, s: State, d: Decoded): Outcome {
    if !BothFields(d) || !IsRegisterField(d.dst) then Fault(s)
    else
      match FieldValue(c, s, d.src)
      case LoadFault(dev) => Fault(s.(dev := dev))
      case Value(dev, v) => Next(BinaryWrite(s.(dev := dev), d.dst, v))
  }

  function BinaryLoad(c: Setup, s: State, d: Decoded): Outcome {
    if !BothFields(d) || !IsRegisterField(d.dst) || FieldAddress(s, d.src).Err? then Fault(s)
    else
      match ReadData(c, s, FieldAddress(s, d.src).value)
      case LoadFault(dev) => Fault(s.(dev := dev))
      case Value(dev, v) => Next(BinaryWrite(s.(dev := dev), d.dst, v))
  }

  function BinaryStore(c: Setup, s: State, d: Decoded): Outcome {
    if !BothFields(d) || FieldAddress(s, d.dst).Err? then Fault(s)
    else
      match FieldValue(c, s, d.src)
      case LoadFault(dev) => Fault(s.(dev := dev))
      case Value(dev, v) =>
        match WriteData(c, s.(dev := dev), FieldAddress(s, d.dst).value, v)
        case Fault(t) => Fault(t)
        case Next(t) => Next(NextSlot(t.(flags := WithZeroSign(t.flags, v))))
  }

  function BinaryAlu(c: Setup, s: State, d: Decoded): Outcome
    requires IsBinaryOp(d.opcode)
  {
    if !BothFields(d) || !IsRegisterField(d.dst) then Fault(s)
    else
      match FieldValue(c, s, d.src)
      case LoadFault(dev) => Fault(s.(dev := dev))
      case Value(dev, rhs) =>
        match Compute(d.opcode, s.regs[d.dst.payload], rhs)
        case Err => Fault(s.(dev := dev))
        case Ok(result) =>
          Next(NextSlot(s.(dev := dev, regs := s.regs[d.dst.payload := result.value],
                           flags := WithResult(s.flags, result))))
  }

  function BinaryNot(c: Setup, s: State, d: Decoded): Outcome {
    if !SingleField(d) || !IsRegisterField(d.dst) then Fault(s)
    else
      var result := Alu.BitNot(s.regs[d.dst.payload]);
      Next(NextSlot(s.(regs := s.regs[d.dst.payload := result.value], flags := WithResult(s.flags, result))))
  }

  function BinaryCompare(c: Setup, s: State, d: Decoded): Outcome {
    if !BothFields(d) then Fault(s)
    else
      match FieldValue(c, s, d.dst)
      case LoadFault(dev) => Fault(s.(dev := dev))
      case Value(dev, lhs) =>
        match FieldValue(c, s.(dev := dev), d.src)
        case LoadFault(dev') => Fault(s.(dev := dev'))
        case Value(dev', rhs) =>
          var result := if d.opcode == CMP then Alu.Compare(lhs, rhs) else Alu.Test(lhs, rhs);
          Next(NextSlot(s.(dev := dev', flags := WithResult(s.flags, result))))
  }

  function BinaryBranch(c: Setup, base: nat, size: nat, s: State, d: Decoded): Outcome {
    if !SingleField(d) then Fault(s)
    else if !Taken(d.opcode, s.flags) then Next(NextSlot(s))
    else
      match FieldTarget(base, size, d.dst)
      case None => Fault(s)
      case Some(t) => if MayExecute(c, s, t, s.priv) then Next(s.(pc := t)) else Fault(s)
  }

  function BinaryPush(c: Setup, s: State, d: Decoded): Outcome {
    if !SingleField(d) then Fault(s)
    else
      match FieldValue(c, s, d.dst)
      case LoadFault(dev) => Fault(s.(dev := dev))
      case Value(dev, v) =>
        match PushValue(s.(dev := dev), v)
        case Fault(t) => Fault(t)
        case Next(t) => Next(NextSlot(t))
  }

  function BinaryPop(s: State, d: Decoded): Outcome {
    if !SingleField(d) || !IsRegisterField(d.dst) || !CanPop(s, 1) then Fault(s)
    else Next(BinaryWrite(MoveSp(s, s.sp - SLOT), d.dst, Top(s)))
  }

  function BinaryCall(c: Setup, base: nat, size: nat, s: State, d: Decoded): Outcome {
    if !SingleField(d) then Fault(s)
    else
      var ret := AddSize(s.pc, INSTRUCTION_SIZE);
      match FieldTarget(base, size, d.dst)
      case None => Fault(s)
      case Some(t) =>
        if !MayExecute(c, s, t, s.priv) || !MayExecute(c, s, ret, s.priv) then Fault(s)
        else
          match PushValue(s, ToI64(ret))
          case Fault(u) => Fault(u)
          case Next(u) => Next(u.(pc := t))
  }

  function BinaryRet(c: Setup, s: State, d: Decoded): Outcome {
    if !NoField(d) || !CanPop(s, 1) then Fault(s)
    else if Top(s) < 0 || !MayExecute(c, s, Top(s), s.priv) then Fault(s)
    else Next(MoveSp(s, s.sp - SLOT).(pc := Top(s)))
  }

  /** The INT handler must be a slot of the loaded code. */
  function BinaryInt(c: Setup, base: nat, size: nat, s: State, d: Decoded): Outcome {
    if !SingleField(d) || !c.hasController then Fault(s)
    else
      match FieldValue(c, s, d.dst)
      case LoadFault(dev) => Fault(s.(dev := dev))
      case Value(dev, v) =>
        var t := s.(dev := dev);
        if v < 0 || v > 255 then Fault(t)
        else if c.bus.handles(v) then HostService(c, t, v, AddSize(s.pc, INSTRUCTION_SIZE))
        else
          match t.dev.controller.handlers[v]
          case None => Fault(t)
          case Some(handler) =>
            if !InCode(base, size, handler) || !CanPushFrame(t) then Fault(t)
            else
              var p := PushFrame(t, AddSize(s.pc, INSTRUCTION_SIZE));
              Next(p.(regs := p.regs[0 := v], pc := handler))
  }

  function BinarySystem(c: Setup, s: State, d: Decoded): Outcome {
    match d.opcode
    case NOP => if NoField(d) then Next(NextSlot(s)) else Fault(s)
    case HALT => if NoField(d) then Next(s.(halted := true)) else Fault(s)
    case EI => if NoField(d) && c.hasController then Next(NextSlot(SetEnabled(s, true))) else Fault(s)
    case DI => if NoField(d) && c.hasController then Next(NextSlot(SetEnabled(s, false))) else Fault(s)
    case _ => Fault(s)
  }

  /** CPU::executeBinaryInstruction */
  function ExecuteBinary(c: Setup, base: nat, size: nat, s: State, d: Decoded): Outcome {
    if s.priv.User? && NeedsKernel(d.opcode) then Fault(s)
    else
      match d.opcode
      case MOV => BinaryMove(c, s, d)
      case LOAD => BinaryLoad(c, s, d)
      case STORE => BinaryStore(c, s, d)
      case ADD | SUB | MUL | DIV | AND | OR | XOR => BinaryAlu(c, s, d)
      case NOT => BinaryNot(c, s, d)
      case CMP | TEST => BinaryCompare(c, s, d)
      case JMP | JE | JNE | JG | JL => BinaryBranch(c, base, size, s, d)
      case PUSH => BinaryPush(c, s, d)
      case POP => BinaryPop(s, d)
      case CALL => BinaryCall(c, base, size, s, d)
      case RET => BinaryRet(c, s, d)
      case IRET => if NoField(d) then RestoreFrame(c, s, false) else Fault(s)
      case INT => BinaryInt(c, base, size, s, d)
      case NOP | HALT | EI | DI | Invalid => BinarySystem(c, s, d)
  }

  // ----- Operand readers -----

  lemma OperandReaders(c: Setup, labels: Labels, s: State, o: Operand)
    ensures var a := ArgOfOperand(labels, o);
            && OperandAddress(s, o) == AddressOf(s, a) && OperandValue(c, s, o) == ValueOf(c, s, a)
            && LabelTarget(labels, o) == Target(a)
            && (o.Absent? <==> a.NoArg?) && (o.Absent? ==> a == NoArg(true))
            && (o.Register? <==> a.RegArg?) && (o.Register? ==> a.r == o.reg)
  {
    hide ReadData;
  }

  lemma FieldReaders(c: Setup, base: nat, size: nat, s: State, f: Field)
    requires !ArgOfField(base, size, f).BadArg?
    ensures var a := ArgOfField(base, size, f);
            && FieldAddress(s, f) == AddressOf(s, a) && FieldValue(c, s, f) == ValueOf(c, s, a)
            && FieldTarget(base, size, f) == Target(a)
            && (f.kind.TNone? <==> a.NoArg?) && (f.kind.TNone? ==> a == NoArg(f.payload == 0))
            && (IsRegisterField(f) <==> a.RegArg?) && (IsRegisterField(f) ==> a.r == f.payload)
  {
    hide ReadData, InCode;
  }

  /** What the readers say about a pair of operands. */
  lemma OperandCounts(c: Setup, labels: Labels, s: State, i: Instruction)
    ensures var dst, src := ArgOfOperand(labels, i.dst), ArgOfOperand(labels, i.src);
            && NoOperand(i) == NoOperands(dst, src) && SingleOperand(i) == OneOperand(dst, src)
            && BothOperands(i) == TwoOperands(dst, src)
  {
    OperandReaders(c, labels, s, i.dst);
    OperandReaders(c, labels, s, i.src);
    hide OperandAddress, OperandValue, LabelTarget, ArgOfOperand;
  }

  lemma FieldCounts(c: Setup, base: nat, size: nat, s: State, d: Decoded)
    requires !ArgOfField(base, size, d.dst).BadArg? && !ArgOfField(base, size, d.src).BadArg?
    ensures var dst, src := ArgOfField(base, size, d.dst), ArgOfField(base, size, d.src);
            && NoField(d) == NoOperands(dst, src) && SingleField(d) == OneOperand(dst, src)
            && BothFields(d) == TwoOperands(dst, src)
  {
    FieldReaders(c, base, size, s, d.dst);
    FieldReaders(c, base, size, s, d.src);
    hide FieldAddress, FieldValue, FieldTarget, ArgOfField;
  }

  // ----- Both interpreters are Machine.Exec -----

  /** LOAD is MOV from an address. */
  lemma LoadIsMove(c: Setup, s: State, dst: Arg, src: Arg)
    ensures AddressOf(s, src).Ok? ==> ValueOf(c, s, src) == ReadData(c, s, AddressOf(s, src).value)
  {
    hide ReadData;
  }

  lemma OperandsDenote(c: Setup, labels: Labels, s: State, i: Instruction)
    ensures var dst, src := ArgOfOperand(labels, i.dst), ArgOfOperand(labels, i.src);
            && NoOperand(i) == NoOperands(dst, src) && SingleOperand(i) == OneOperand(dst, src)
            && BothOperands(i) == TwoOperands(dst, src)
            && OperandAddress(s, i.dst) == AddressOf(s, dst) && OperandAddress(s, i.src) == AddressOf(s, src)
            && OperandValue(c, s, i.dst) == ValueOf(c, s, dst) && OperandValue(c, s, i.src) == ValueOf(c, s, src)
            && (var after := s.(dev := ValueOf(c, s, dst).dev); OperandValue(c, after, i.src) == ValueOf(c, after, src))
            && (AddressOf(s, src).Ok? ==> ValueOf(c, s, src) == ReadData(c, s, AddressOf(s, src).value))
            && LabelTarget(labels, i.dst) == Target(dst)
            && (i.dst.Register? <==> dst.RegArg?) && (i.dst.Register? ==> dst.r == i.dst.reg)
  {
    hide OperandAddress, OperandValue, LabelTarget, ArgOfOperand;
    var dst, src := ArgOfOperand(labels, i.dst), ArgOfOperand(labels, i.src);
    OperandReaders(c, labels, s, i.dst);
    OperandReaders(c, labels, s, i.src);
    OperandReaders(c, labels, s.(dev := ValueOf(c, s, dst).dev), i.src);
    OperandCounts(c, labels, s, i);
    LoadIsMove(c, s, dst, src);
  }

  /** The instructions that move and compute data. */
  lemma VectorDataIsExec(c: Setup, labels: Labels, s: State, i: Instruction)
    requires Width(c.image) == 1
    ensures var dst, src := ArgOfOperand(labels, i.dst), ArgOfOperand(labels, i.src);
            && VectorMove(c, s, i) == ExecMove(c, s, dst, src)
            && VectorLoad(c, s, i) == ExecLoad(c, s, dst, src)
            && VectorStore(c, s, i) == ExecStore(c, s, dst, src)
            && (IsBinaryOp(i.opcode) ==> VectorAlu(c, s, i) == ExecBinaryOp(c, s, i.opcode, dst, src))
            && VectorNot(c, s, i) == ExecNot(c, s, dst, src)
            && VectorCompare(c, s, i) == ExecCompare(c, s, i.opcode, dst, src)
  {
    hide OperandAddress, OperandValue, ArgOfOperand, AddressOf, ValueOf, SingleOperand, BothOperands, OneOperand,
      TwoOperands, ReadData, WriteData, Compute, WithResult, WithZeroSign;
    OperandsDenote(c, labels, s, i);
  }

  /** The instructions that use the stack or move the pc. */
  lemma VectorControlIsExec(c: Setup, program: seq<Instruction>, labels: Labels, s: State, i: Instruction)
    requires c.image == Vector(program, labels)
    ensures var dst, src := ArgOfOperand(labels, i.dst), ArgOfOperand(labels, i.src);
            && VectorBranch(c, labels, s, i) == ExecBranch(c, s, i.opcode, dst, src)
            && VectorPush(c, s, i) == ExecPush(c, s, dst, src)
            && VectorPop(s, i) == ExecPop(c, s, dst, src)
            && VectorCall(c, labels, s, i) == ExecCall(c, s, dst, src)
            && VectorRet(c, s, i) == ExecRet(c, s, dst, src)
            && VectorInt(c, |program|, s, i) == ExecInt(c, s, dst, src)
  {
    hide OperandAddress, OperandValue, LabelTarget, ArgOfOperand, ValueOf, Target, NoOperand, SingleOperand, NoOperands,
      OneOperand, PushValue, CanPop, Top, MoveSp, WithZeroSign, MayExecute, Taken, HostService, PushFrame, CanPushFrame;
    OperandsDenote(c, labels, s, i);
  }

  lemma VectorSystemIsExec(c: Setup, labels: Labels, s: State, i: Instruction)
    requires Width(c.image) == 1
    ensures VectorSystem(c, s, i)
         == ExecSystem(c, s, i.opcode, ArgOfOperand(labels, i.dst), ArgOfOperand(labels, i.src))
  {
    OperandCounts(c, labels, s, i);
    hide ArgOfOperand, NoOperand, SingleOperand, BothOperands, NoOperands, OneOperand, TwoOperands, SetEnabled;
  }

  /** `execute` on a decoded instruction is Exec on the arguments its operands denote. */
  lemma VectorIsExec(c: Setup, program: seq<Instruction>, labels: Labels, s: State, i: Instruction)
    requires c.image == Vector(program, labels)
    ensures ExecuteVector(c, program, labels, s, i)
         == Exec(c, s, i.opcode, ArgOfOperand(labels, i.dst), ArgOfOperand(labels, i.src))
  {
    hide VectorSystem, VectorMove, VectorLoad, VectorStore, VectorAlu, VectorNot, VectorCompare, VectorBranch,
      VectorPush, VectorPop, VectorCall, VectorRet, VectorInt, ExecSystem, ExecMove, ExecLoad, ExecStore, ExecBinaryOp,
      ExecNot, ExecCompare, ExecBranch, ExecPush, ExecPop, ExecCall, ExecRet, ExecInt, RestoreFrame, ArgOfOperand,
      NoOperand, NoOperands;
    if IsData(i.opcode) || IsBinaryOp(i.opcode) {
      VectorDataIsExec(c, labels, s, i);
    } else if IsBranch(i.opcode) || IsStack(i.opcode) || i.opcode == INT {
      VectorControlIsExec(c, program, labels, s, i);
    } else {
      OperandCounts(c, labels, s, i);
      VectorSystemIsExec(c, labels, s, i);
    }
  }

  lemma FieldsDenote(c: Setup, base: nat, size: nat, s: State, d: Decoded)
    requires !ArgOfField(base, size, d.dst).BadArg? && !ArgOfField(base, size, d.src).BadArg?
    ensures var dst, src := ArgOfField(base, size, d.dst), ArgOfField(base, size, d.src);
            && NoField(d) == NoOperands(dst, src) && SingleField(d) == OneOperand(dst, src)
            && BothFields(d) == TwoOperands(dst, src)
            && FieldAddress(s, d.dst) == AddressOf(s, dst) && FieldAddress(s, d.src) == AddressOf(s, src)
            && FieldValue(c, s, d.dst) == ValueOf(c, s, dst) && FieldValue(c, s, d.src) == ValueOf(c, s, src)
            && (var after := s.(dev := ValueOf(c, s, dst).dev); FieldValue(c, after, d.src) == ValueOf(c, after, src))
            && (AddressOf(s, src).Ok? ==> ValueOf(c, s, src) == ReadData(c, s, AddressOf(s, src).value))
            && FieldTarget(base, size, d.dst) == Target(dst)
            && (IsRegisterField(d.dst) <==> dst.RegArg?) && (IsRegisterField(d.dst) ==> dst.r == d.dst.payload)
  {
    hide FieldAddress, FieldValue, FieldTarget, ArgOfField;
    var dst, src := ArgOfField(base, size, d.dst), ArgOfField(base, size, d.src);
    FieldReaders(c, base, size, s, d.dst);
    FieldReaders(c, base, size, s, d.src);
    FieldReaders(c, base, size, s.(dev := ValueOf(c, s, dst).dev), d.src);
    FieldCounts(c, base, size, s, d);
    LoadIsMove(c, s, dst, src);
  }

  lemma BinaryDataIsExec(c: Setup, base: nat, size: nat, s: State, d: Decoded)
    requires Width(c.image) == INSTRUCTION_SIZE
    requires !ArgOfField(base, size, d.dst).BadArg? && !ArgOfField(base, size, d.src).BadArg?
    ensures var dst, src := ArgOfField(base, size, d.dst), ArgOfField(base, size, d.src);
            && BinaryMove(c, s, d) == ExecMove(c, s, dst, src)
            && BinaryLoad(c, s, d) == ExecLoad(c, s, dst, src)
            && BinaryStore(c, s, d) == ExecStore(c, s, dst, src)
            && (IsBinaryOp(d.opcode) ==> BinaryAlu(c, s, d) == ExecBinaryOp(c, s, d.opcode, dst, src))
            && BinaryNot(c, s, d) == ExecNot(c, s, dst, src)
            && BinaryCompare(c, s, d) == ExecCompare(c, s, d.opcode, dst, src)
  {
    hide FieldAddress, FieldValue, ArgOfField, AddressOf, ValueOf, SingleField, BothFields, OneOperand, TwoOperands,
      ReadData, WriteData, Compute, WithResult, WithZeroSign;
    FieldsDenote(c, base, size, s, d);
  }

  lemma BinaryControlIsExec(c: Setup, base: nat, size: nat, s: State, d: Decoded)
    requires c.image == Binary(base, size)
    requires !ArgOfField(base, size, d.dst).BadArg? && !ArgOfField(base, size, d.src).BadArg?
    ensures var dst, src := ArgOfField(base, size, d.dst), ArgOfField(base, size, d.src);
            && BinaryBranch(c, base, size, s, d) == ExecBranch(c, s, d.opcode, dst, src)
            && BinaryPush(c, s, d) == ExecPush(c, s, dst, src)
            && BinaryPop(s, d) == ExecPop(c, s, dst, src)
            && BinaryCall(c, base, size, s, d) == ExecCall(c, s, dst, src)
            && BinaryRet(c, s, d) == ExecRet(c, s, dst, src)
            && BinaryInt(c, base, size, s, d) == ExecInt(c, s, dst, src)
  {
    hide FieldAddress, FieldValue, FieldTarget, ArgOfField, ValueOf, Target, NoField, SingleField, NoOperands,
      OneOperand, PushValue, CanPop, Top, MoveSp, WithZeroSign, MayExecute, Taken, HostService, PushFrame, CanPushFrame,
      InCode;
    FieldsDenote(c, base, size, s, d);
  }

  lemma BinarySystemIsExec(c: Setup, base: nat, size: nat, s: State, d: Decoded)
    requires Width(c.image) == INSTRUCTION_SIZE
    requires !ArgOfField(base, size, d.dst).BadArg? && !ArgOfField(base, size, d.src).BadArg?
    ensures BinarySystem(c, s, d)
         == ExecSystem(c, s, d.opcode, ArgOfField(base, size, d.dst), ArgOfField(base, size, d.src))
  {
    FieldCounts(c, base, size, s, d);
    hide ArgOfField, NoField, SingleField, BothFields, NoOperands, OneOperand, TwoOperands, SetEnabled;
  }

  /** `executeBinaryInstruction` on decoded bytes is Exec on the arguments its fields denote. */
  lemma BinaryIsExec(c: Setup, base: nat, size: nat, s: State, d: Decoded)
    requires c.image == Binary(base, size)
    requires !ArgOfField(base, size, d.dst).BadArg? && !ArgOfField(base, size, d.src).BadArg?
    ensures ExecuteBinary(c, base, size, s, d)
         == Exec(c, s, d.opcode, ArgOfField(base, size, d.dst), ArgOfField(base, size, d.src))
  {
    hide BinarySystem, BinaryMove, BinaryLoad, BinaryStore, BinaryAlu, BinaryNot, BinaryCompare, BinaryBranch,
      BinaryPush, BinaryPop, BinaryCall, BinaryRet, BinaryInt, ExecSystem, ExecMove, ExecLoad, ExecStore, ExecBinaryOp,
      ExecNot, ExecCompare, ExecBranch, ExecPush, ExecPop, ExecCall, ExecRet, ExecInt, RestoreFrame, ArgOfField,
      NoField, NoOperands;
    if IsData(d.opcode) || IsBinaryOp(d.opcode) {
      BinaryDataIsExec(c, base, size, s, d);
    } else if IsBranch(d.opcode) || IsStack(d.opcode) || d.opcode == INT {
      BinaryControlIsExec(c, base, size, s, d);
    } else {
      FieldCounts(c, base, size, s, d);
      BinarySystemIsExec(c, base, size, s, d);
    }
  }

  /** What step() executes from a decoded program: the instruction the pc names. */
  lemma VectorStepBody(c: Setup, program: seq<Instruction>, labels: Labels, s: State)
    requires c.image == Vector(program, labels)
    ensures ExecCurrent(c, s)
         == if MayExecute(c, s, s.pc, s.priv) && s.pc < |program|
            then ExecuteVector(c, program, labels, s, program[s.pc]) else Fault(s)
  {
    hide MayExecute, ExecuteVector, Exec, ArgOfOperand;
    if s.pc < |program| {
      VectorIsExec(c, program, labels, s, program[s.pc]);
    }
  }

  /** A field the trace rendering rejects before the instruction runs. */
  predicate Unusable(f: Field) {
    || ((f.kind.TRegister? || f.kind.TIndirect?) && !(0 <= f.payload < 8))
    || ((f.kind.TMemory? || f.kind.TCode?) && f.payload < 0)
  }

  /** What step() executes from loaded code: the 24 bytes at the pc, decoded, unless a field cannot even be shown. */
  lemma BinaryStepBody(c: Setup, base: nat, size: nat, s: State)
    requires c.image == Binary(base, size)
    ensures ExecCurrent(c, s)
         == if !MayExecute(c, s, s.pc, s.priv) || !InCode(base, size, s.pc) || s.pc + INSTRUCTION_SIZE > MEMORY_SIZE
            then Fault(s)
            else
              match DecodeInstruction(s.mem[s.pc..s.pc + INSTRUCTION_SIZE])
              case Err => Fault(s)
              case Ok(d) => if Unusable(d.dst) || Unusable(d.src) then Fault(s) else ExecuteBinary(c, base, size, s, d)
  {
    hide MayExecute, ExecuteBinary, Exec, InCode, DecodeInstruction;
    if s.pc + INSTRUCTION_SIZE <= MEMORY_SIZE {
      match DecodeInstruction(s.mem[s.pc..s.pc + INSTRUCTION_SIZE])
      case Err =>
      case Ok(d) =>
        if !Unusable(d.dst) && !Unusable(d.src) {
          BinaryIsExec(c, base, size, s, d);
        }
    }
  }
}

// The instruction set: decoded instructions (src/isa/Instruction.cpp), their
// 24-byte encoding (src/isa/InstructionEncoder.cpp) and its decoder
// (src/isa/InstructionDecoder.cpp).
module Isa {
  import opened Words

  const INSTRUCTION_SIZE: nat := 24

  datatype Opcode =
    | MOV | LOAD | STORE
    | ADD | SUB | MUL | DIV | AND | OR | XOR | NOT
    | CMP | TEST
    | JMP | JE | JNE | JG | JL
    | PUSH | POP | CALL | RET | IRET | EI | DI | INT
    | NOP | HALT
    | Invalid

  type Reg = r: int | 0 <= r < 8

  datatype Operand =
    | Absent
    | Register(reg: Reg)
    | Immediate(value: i64)
    | MemoryAddress(address: u64)
    | RegisterIndirect(base: Reg)
    | Label(name: string)

  datatype Instruction = Instruction(opcode: Opcode, dst: Operand, src: Operand)

  type Labels = map<string, u64>

  datatype EncodedType = TNone | TRegister | TImmediate | TMemory | TCode | TIndirect

  datatype Field = Field(kind: EncodedType, payload: i64)

  datatype Decoded = Decoded(opcode: Opcode, dst: Field, src: Field)

  function OpcodeByte(op: Opcode): Result<byte> {
    match op
    case NOP => Ok(0x00)
    case HALT => Ok(0x01)
    case MOV => Ok(0x10)
    case LOAD => Ok(0x11)
    case STORE => Ok(0x12)
    case ADD => Ok(0x20)
    case SUB => Ok(0x21)
    case MUL => Ok(0x22)
    case DIV => Ok(0x23)
    case CMP => Ok(0x30)
    case TEST => Ok(0x31)
    case JMP => Ok(0x40)
    case JE => Ok(0x41)
    case JNE => Ok(0x42)
    case JG => Ok(0x43)
    case JL => Ok(0x44)
    case PUSH => Ok(0x50)
    case POP => Ok(0x51)
    case CALL => Ok(0x52)
    case RET => Ok(0x53)
    case IRET => Ok(0x54)
    case AND => Ok(0x60)
    case OR => Ok(0x61)
    case XOR => Ok(0x62)
    case NOT => Ok(0x63)
    case EI => Ok(0x70)
    case DI => Ok(0x71)
    case INT => Ok(0x72)
    case Invalid => Err
  }

  function OpcodeOf(b: byte): Opcode {
    match b
    case 0x00 => NOP
    case 0x01 => HALT
    case 0x10 => MOV
    case 0x11 => LOAD
    case 0x12 => STORE
    case 0x20 => ADD
    case 0x21 => SUB
    case 0x22 => MUL
    case 0x23 => DIV
    case 0x30 => CMP
    case 0x31 => TEST
    case 0x40 => JMP
    case 0x41 => JE
    case 0x42 => JNE
    case 0x43 => JG
    case 0x44 => JL
    case 0x50 => PUSH
    case 0x51 => POP
    case 0x52 => CALL
    case 0x53 => RET
    case 0x54 => IRET
    case 0x60 => AND
    case 0x61 => OR
    case 0x62 => XOR
    case 0x63 => NOT
    case 0x70 => EI
    case 0x71 => DI
    case 0x72 => INT
    case _ => Invalid
  }

  function TypeByte(t: EncodedType): byte {
    match t
    case TNone => 0
    case TRegister => 1
    case TImmediate => 2
    case TMemory => 3
    case TCode => 4
    case TIndirect => 5
  }

  function TypeOf(b: byte): Result<EncodedType> {
    match b
    case 0 => Ok(TNone)
    case 1 => Ok(TRegister)
    case 2 => Ok(TImmediate)
    case 3 => Ok(TMemory)
    case 4 => Ok(TCode)
    case 5 => Ok(TIndirect)
    case _ => Err
  }

  /** A label becomes the byte offset of its instruction; a large address or offset wraps like the C++ casts. */
  function EncodeOperand(o: Operand, labels: Labels): Result<Field> {
    match o
    case Absent => Ok(Field(TNone, 0))
    case Register(r) => Ok(Field(TRegister, r))
    case Immediate(v) => Ok(Field(TImmediate, v))
    case MemoryAddress(a) => Ok(Field(TMemory, ToI64(a)))
    case RegisterIndirect(r) => Ok(Field(TIndirect, r))
    case Label(name) =>
      if name in labels then Ok(Field(TCode, Signed(labels[name] * INSTRUCTION_SIZE))) else Err
  }

  function EncodeFields(op: byte, dst: Field, src: Field): (b: seq<byte>)
    ensures |b| == INSTRUCTION_SIZE
  {
    [op, TypeByte(dst.kind), TypeByte(src.kind), 0]
      + LittleEndian(ToU64(dst.payload), 8) + LittleEndian(ToU64(src.payload), 8) + [0, 0, 0, 0]
  }

  function EncodeInstruction(i: Instruction, labels: Labels): (r: Result<seq<byte>>)
    ensures r.Ok? ==> |r.value| == INSTRUCTION_SIZE
  {
    var dst, src, op := EncodeOperand(i.dst, labels), EncodeOperand(i.src, labels), OpcodeByte(i.opcode);
    if dst.Ok? && src.Ok? && op.Ok? then Ok(EncodeFields(op.value, dst.value, src.value)) else Err
  }

  function ReadI64(b: seq<byte>, offset: nat): i64
    requires offset + 8 <= |b|
  {
    FromLittleEndianWriteBack(b[offset..offset + 8]);
    Pow256Values();
    ToI64(FromLittleEndian(b[offset..offset + 8]))
  }

  function DecodeInstruction(b: seq<byte>): Result<Decoded> {
    if |b| != INSTRUCTION_SIZE then Err
    else if b[3] != 0 then Err
    else if b[20] != 0 || b[21] != 0 || b[22] != 0 || b[23] != 0 then Err
    else if OpcodeOf(b[0]) == Invalid then Err
    else
      var dst, src := TypeOf(b[1]), TypeOf(b[2]);
      if dst.Ok? && src.Ok? then
        Ok(Decoded(OpcodeOf(b[0]), Field(dst.value, ReadI64(b, 4)), Field(src.value, ReadI64(b, 12))))
      else Err
  }

  lemma PayloadRoundTrip(v: i64)
    ensures FromLittleEndian(LittleEndian(ToU64(v), 8)) == ToU64(v)
  {
    LittleEndianReadBack(ToU64(v), 8);
    Pow256Values();
  }

  lemma CodesRoundTrip(op: Opcode, t: EncodedType)
    ensures OpcodeByte(op).Ok? <==> op != Invalid
    ensures OpcodeByte(op).Ok? ==> OpcodeOf(OpcodeByte(op).value) == op
    ensures TypeOf(TypeByte(t)) == Ok(t)
  {
  }

  lemma DecodeFields(op: byte, dst: Field, src: Field)
    requires OpcodeOf(op) != Invalid
    ensures DecodeInstruction(EncodeFields(op, dst, src)) == Ok(Decoded(OpcodeOf(op), dst, src))
  {
    var b := EncodeFields(op, dst, src);
    assert b[4..12] == LittleEndian(ToU64(dst.payload), 8);
    assert b[12..20] == LittleEndian(ToU64(src.payload), 8);
    PayloadRoundTrip(dst.payload);
    PayloadRoundTrip(src.payload);
    CodesRoundTrip(Invalid, dst.kind);
    CodesRoundTrip(Invalid, src.kind);
  }

  /** The decoder undoes the encoder on every instruction the encoder accepts. */
  lemma DecodeUndoesEncode(i: Instruction, labels: Labels)
    ensures EncodeInstruction(i, labels).Ok? <==>
              i.opcode != Invalid && EncodeOperand(i.dst, labels).Ok? && EncodeOperand(i.src, labels).Ok?
    ensures EncodeInstruction(i, labels).Ok? ==>
              DecodeInstruction(EncodeInstruction(i, labels).value)
                == Ok(Decoded(i.opcode, EncodeOperand(i.dst, labels).value, EncodeOperand(i.src, labels).value))
  {
    CodesRoundTrip(i.opcode, TNone);
    if EncodeInstruction(i, labels).Ok? {
      DecodeFields(OpcodeByte(i.opcode).value, EncodeOperand(i.dst, labels).value, EncodeOperand(i.src, labels).value);
    }
  }

  /** Two accepted byte strings with the same decoding are the same bytes: the encoding is canonical. */
  lemma DecodeIsInjective(a: seq<byte>, b: seq<byte>)
    requires DecodeInstruction(a).Ok? && DecodeInstruction(a) == DecodeInstruction(b)
    ensures a == b
  {
    var d := DecodeInstruction(a).value;
    EncodeUndoesDecode(a, d);
    EncodeUndoesDecode(b, d);
  }

  lemma ByteCodesRoundTrip(b: byte)
    ensures OpcodeOf(b) != Invalid ==> OpcodeByte(OpcodeOf(b)) == Ok(b)
    ensures TypeOf(b).Ok? ==> TypeByte(TypeOf(b).value) == b
  {
  }

  lemma ReadI64Bytes(b: seq<byte>, offset: nat)
    requires offset + 8 <= |b|
    ensures LittleEndian(ToU64(ReadI64(b, offset)), 8) == b[offset..offset + 8]
  {
    FromLittleEndianWriteBack(b[offset..offset + 8]);
    Pow256Values();
  }

  lemma EncodeUndoesDecode(b: seq<byte>, d: Decoded)
    requires DecodeInstruction(b) == Ok(d)
    ensures d.opcode != Invalid && EncodeFields(OpcodeByte(d.opcode).value, d.dst, d.src) == b
  {
    hide ReadI64, OpcodeOf, OpcodeByte, TypeOf, TypeByte, LittleEndian;
    ReadI64Bytes(b, 4);
    ReadI64Bytes(b, 12);
    ByteCodesRoundTrip(b[0]);
    ByteCodesRoundTrip(b[1]);
    ByteCodesRoundTrip(b[2]);
    assert b == [b[0], b[1], b[2], b[3]] + b[4..12] + b[12..20] + [b[20], b[21], b[22], b[23]];
  }

  /** The bytes of a whole program (encodeProgram): instruction k occupies [24k, 24k+24). */
  function EncodeProgram(program: seq<Instruction>, labels: Labels): (r: Result<seq<byte>>)
    ensures r.Ok? ==> |r.value| == INSTRUCTION_SIZE * |program|
  {
    if |program| == 0 then Ok([])
    else
      var init := EncodeProgram(program[..|program| - 1], labels);
      var last := EncodeInstruction(program[|program| - 1], labels);
      if init.Ok? && last.Ok? then Ok(init.value + last.value) else Err
  }

  lemma {:induction false} EncodeProgramSlot(program: seq<Instruction>, labels: Labels, k: nat)
    requires EncodeProgram(program, labels).Ok? && k < |program|
    ensures EncodeInstruction(program[k], labels)
         == Ok(EncodeProgram(program, labels).value[INSTRUCTION_SIZE * k..INSTRUCTION_SIZE * (k + 1)])
  {
    hide EncodeInstruction;
    var n := |program| - 1;
    var init, last := EncodeProgram(program[..n], labels), EncodeInstruction(program[n], labels);
    var all := EncodeProgram(program, labels).value;
    assert all == init.value + last.value;
    if k < n {
      EncodeProgramSlot(program[..n], labels, k);
      assert all[INSTRUCTION_SIZE * k..INSTRUCTION_SIZE * (k + 1)]
          == init.value[INSTRUCTION_SIZE * k..INSTRUCTION_SIZE * (k + 1)];
    } else {
      assert all[INSTRUCTION_SIZE * k..INSTRUCTION_SIZE * (k + 1)] == last.value;
    }
  }
}

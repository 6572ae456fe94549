// The 24 bytes of an instruction in their own terms (docs/instruction-encoding.md):
// what the encoder writes and what the binary interpreter makes of the bytes it
// finds at the pc.
module EncodingLaws {
  import opened Words
  import opened Isa
  import opened Machine
  import opened InstructionLaws
  import opened ControlLaws

  /** The opcodes of group g, in the order of their codes. */
  function Group(g: nat): seq<Opcode> {
    match g
    case 0 => [NOP, HALT]
    case 1 => [MOV, LOAD, STORE]
    case 2 => [ADD, SUB, MUL, DIV]
    case 3 => [CMP, TEST]
    case 4 => [JMP, JE, JNE, JG, JL]
    case 5 => [PUSH, POP, CALL, RET, IRET]
    case 6 => [AND, OR, XOR, NOT]
    case 7 => [EI, DI, INT]
    case _ => []
  }

  /** The code of an opcode: its group in the high half byte, its place in the group in the low one. */
  predicate Coded(code: byte, op: Opcode) {
    var g, k := code / 16, code % 16;
    k < |Group(g)| && Group(g)[k] == op
  }

  lemma GroupCodes(g: nat, k: nat)
    requires g < 16 && k < 16
    ensures var op := OpcodeOf(16 * g + k);
            if k < |Group(g)| then op == Group(g)[k] && op != Invalid else op == Invalid
  {
    var s := Group(g);
    assert |s| <= 5;
    if k >= |s| {
      UnusedCode(g, k);
    } else if g < 4 {
      LowGroupCode(g, k);
    } else {
      HighGroupCode(g, k);
    }
  }

  lemma UnusedCode(g: nat, k: nat)
    requires g < 16 && |Group(g)| <= k < 16
    ensures OpcodeOf(16 * g + k) == Invalid
  {
    assert |Group(g)| == match g
                         case 0 => 2
                         case 1 => 3
                         case 2 => 4
                         case 3 => 2
                         case 4 => 5
                         case 5 => 5
                         case 6 => 4
                         case 7 => 3
                         case _ => 0;
  }

  lemma LowGroupCode(g: nat, k: nat)
    requires g < 4 && k < |Group(g)|
    ensures OpcodeOf(16 * g + k) == Group(g)[k] != Invalid
  {
    match g
    case 0 => assert k < 2;
    case 1 => assert k < 3;
    case 2 => assert k < 4;
    case _ => assert k < 2;
  }

  lemma HighGroupCode(g: nat, k: nat)
    requires 4 <= g && k < |Group(g)|
    ensures g < 8 && OpcodeOf(16 * g + k) == Group(g)[k] != Invalid
  {
    match g
    case 4 => assert k < 5;
    case 5 => assert k < 5;
    case 6 => assert k < 4;
    case _ => assert k < 3;
  }

  lemma CodedIsOpcodeOf(code: byte, op: Opcode)
    ensures Coded(code, op) <==> op != Invalid && OpcodeOf(code) == op
  {
    hide OpcodeOf, Group;
    assert code == 16 * (code / 16) + code % 16;
    GroupCodes(code / 16, code % 16);
  }

  /** An instruction's bytes: code, operand types, two words, and zeros elsewhere. */
  predicate Laid(b: seq<byte>, op: Opcode) {
    |b| == 24 && Coded(b[0], op) && b[3] == 0 && b[20] == 0 && b[21] == 0 && b[22] == 0 && b[23] == 0
  }

  /** Operand `n` (0 or 1) is of the type numbered `kind` and its word is v. */
  predicate Held(b: seq<byte>, n: nat, kind: int, v: int)
    requires |b| == 24 && n < 2
  {
    b[1 + n] == kind && (Eight(b, 4 + 8 * n) - v) % 0x1_0000_0000_0000_0000 == 0
  }

  // ----- Encoding -----

  /** How an operand is written; a label as the byte offset of its instruction. */
  predicate Written(b: seq<byte>, n: nat, o: Operand, labels: Labels)
    requires |b| == 24 && n < 2
  {
    match o
    case Absent => Held(b, n, 0, 0)
    case Register(r) => Held(b, n, 1, r)
    case Immediate(v) => Held(b, n, 2, v)
    case MemoryAddress(a) => Held(b, n, 3, a)
    case Label(name) => name in labels && Held(b, n, 4, 24 * (labels[name] as int))
    case RegisterIndirect(r) => Held(b, n, 5, r)
  }

  lemma WordOfField(b: seq<byte>, offset: nat)
    requires |b| == 24 && offset + 8 <= 24
    ensures ReadI64(b, offset) == if Eight(b, offset) < TWO_63 then Eight(b, offset) else Eight(b, offset) - TWO_64
    ensures 0 <= Eight(b, offset) < TWO_64
  {
    var w := b[offset..offset + 8];
    EightBytes(w);
    assert Eight(w, 0) == Eight(b, offset);
    FromLittleEndianWriteBack(w);
    Pow256Values();
  }

  lemma HeldIsField(b: seq<byte>, n: nat, f: Field)
    requires |b| == 24 && n < 2
    ensures Held(b, n, TypeByte(f.kind), f.payload)
       <==> TypeOf(b[1 + n]) == Ok(f.kind) && ReadI64(b, 4 + 8 * n) == f.payload
  {
    WordOfField(b, 4 + 8 * n);
    CodesRoundTrip(Invalid, f.kind);
    ByteCodesRoundTrip(b[1 + n]);
    hide Eight, ReadI64, TypeOf, TypeByte;
    var x := Eight(b, 4 + 8 * n);
    if Held(b, n, TypeByte(f.kind), f.payload) {
      Congruent(x, f.payload);
    }
  }

  lemma SameWord(x: int, v: int, w: int)
    requires (v - w) % TWO_64 == 0
    ensures (x - v) % TWO_64 == 0 <==> (x - w) % TWO_64 == 0
  {
    var k := (v - w) / TWO_64;
    assert x - w == (x - v) + k * TWO_64;
  }

  lemma WrittenIsEncoded(b: seq<byte>, n: nat, o: Operand, labels: Labels)
    requires |b| == 24 && n < 2
    ensures Written(b, n, o, labels)
       <==> EncodeOperand(o, labels).Ok?
            && Held(b, n, TypeByte(EncodeOperand(o, labels).value.kind), EncodeOperand(o, labels).value.payload)
  {
    hide Eight;
    match o
    case MemoryAddress(a) => SameWord(Eight(b, 4 + 8 * n), a, ToI64(a));
    case Label(name) =>
      if name in labels {
        SameWord(Eight(b, 4 + 8 * n), 24 * (labels[name] as int), Signed(labels[name] * INSTRUCTION_SIZE));
      }
    case _ =>
  }

  lemma BytesOfFields(b: seq<byte>, op: Opcode, dst: Field, src: Field)
    requires OpcodeByte(op).Ok?
    ensures b == EncodeFields(OpcodeByte(op).value, dst, src)
       <==> Laid(b, op) && Held(b, 0, TypeByte(dst.kind), dst.payload) && Held(b, 1, TypeByte(src.kind), src.payload)
  {
    CodesRoundTrip(op, dst.kind);
    DecodeFields(OpcodeByte(op).value, dst, src);
    hide OpcodeOf, OpcodeByte, TypeOf, TypeByte, ReadI64, EncodeFields, Coded, Held;
    if |b| == 24 {
      CodedIsOpcodeOf(b[0], op);
      HeldIsField(b, 0, dst);
      HeldIsField(b, 1, src);
      if DecodeInstruction(b) == Ok(Decoded(op, dst, src)) {
        EncodeUndoesDecode(b, Decoded(op, dst, src));
      }
    }
  }

  /** The encoder's bytes, exactly: it fails on the invalid opcode and on labels that are not in the table. */
  lemma EncodingLaw(i: Instruction, labels: Labels, b: seq<byte>)
    ensures EncodeInstruction(i, labels) == Ok(b)
       <==> Laid(b, i.opcode) && Written(b, 0, i.dst, labels) && Written(b, 1, i.src, labels)
  {
    hide OpcodeOf, OpcodeByte, EncodeFields, EncodeOperand, TypeByte, Held, Coded, Written;
    CodesRoundTrip(i.opcode, TNone);
    if |b| == 24 {
      CodedIsOpcodeOf(b[0], i.opcode);
      WrittenIsEncoded(b, 0, i.dst, labels);
      WrittenIsEncoded(b, 1, i.src, labels);
    }
    var dst, src := EncodeOperand(i.dst, labels), EncodeOperand(i.src, labels);
    if i.opcode != Invalid && dst.Ok? && src.Ok? {
      BytesOfFields(b, i.opcode, dst.value, src.value);
    }
  }

  // ----- Fetching from memory -----

  /** What operand n means in the image at `base`; a code offset has to lead to an instruction. */
  predicate Means(b: seq<byte>, n: nat, base: nat, size: nat, a: Arg)
    requires |b| == 24 && n < 2
  {
    var x := Eight(b, 4 + 8 * n);
    match a
    case NoArg(clean) => b[1 + n] == 0 && clean == (x == 0)
    case RegArg(r) => b[1 + n] == 1 && x == r
    case ImmArg(v) => b[1 + n] == 2 && (x - v) % 0x1_0000_0000_0000_0000 == 0
    case MemArg(address) => b[1 + n] == 3 && x == address && x < 0x8000_0000_0000_0000
    case CodeArg(Some(t)) =>
      b[1 + n] == 4 && base + x == t && x < 0x8000_0000_0000_0000 && x + 24 <= size && x % 24 == 0
    case CodeArg(None) =>
      && b[1 + n] == 4 && x < 0x8000_0000_0000_0000
      && (x + 24 > size || x % 24 != 0 || base + x >= 0x1_0000_0000_0000_0000)
    case IndArg(r) => b[1 + n] == 5 && x == r
    case BadArg => false
  }

  lemma MeansIsField(b: seq<byte>, n: nat, base: nat, size: nat, a: Arg)
    requires |b| == 24 && n < 2
    ensures Means(b, n, base, size, a)
       <==> !a.BadArg? && TypeOf(b[1 + n]).Ok?
            && ArgOfField(base, size, Field(TypeOf(b[1 + n]).value, ReadI64(b, 4 + 8 * n))) == a
  {
    WordOfField(b, 4 + 8 * n);
    hide Eight, ReadI64;
    var x := Eight(b, 4 + 8 * n);
    if a.ImmArg? && Means(b, n, base, size, a) {
      Congruent(x, a.v);
    }
  }

  lemma FetchFromBytes(c: Setup, s: State, f: Fetched)
    requires c.image.Binary?
    ensures Fetch(c, s) == Ok(f)
       <==> && MayExecute(c, s, s.pc, s.priv) && InCode(c.image.base, c.image.size, s.pc) && s.pc + 24 <= 0x1000
            && var d := DecodeInstruction(s.mem[s.pc..s.pc + 24]);
               && d.Ok? && d.value.opcode == f.op
               && !f.dst.BadArg? && ArgOfField(c.image.base, c.image.size, d.value.dst) == f.dst
               && !f.src.BadArg? && ArgOfField(c.image.base, c.image.size, d.value.src) == f.src
  {
    hide MayExecute, DecodeInstruction, ArgOfField;
  }

  /** The binary interpreter fetches exactly when the pc is on 24 good bytes it may execute. */
  lemma BinaryFetchLaw(c: Setup, s: State, f: Fetched)
    requires c.image.Binary?
    ensures Fetch(c, s) == Ok(f)
       <==> && MayGo(c, s, s.pc, s.priv) && InProgram(c.image, s.pc) && s.pc + 24 <= 0x1000
            && var b := s.mem[s.pc..s.pc + 24];
               Laid(b, f.op) && Means(b, 0, c.image.base, c.image.size, f.dst)
               && Means(b, 1, c.image.base, c.image.size, f.src)
  {
    hide MayExecute, MayGo, ArgOfField, Means, Coded, OpcodeOf, TypeOf, ReadI64, Fetch;
    MayGoIsMayExecute(c, s, s.pc, s.priv);
    FetchFromBytes(c, s, f);
    if s.pc + 24 <= 0x1000 {
      var b := s.mem[s.pc..s.pc + 24];
      CodedIsOpcodeOf(b[0], f.op);
      MeansIsField(b, 0, c.image.base, c.image.size, f.dst);
      MeansIsField(b, 1, c.image.base, c.image.size, f.src);
    }
  }
}

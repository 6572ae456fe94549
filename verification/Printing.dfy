// The printed form of an instruction (src/isa/Opcode.cpp, Operand.cpp and
// Instruction.cpp) and the proof that the assembler reads it back.
module Printing {
  import opened Words
  import opened Text
  import opened Assembler
  import opened EndToEnd
  import Isa

  /** opcodeToString */
  function OpcodeName(op: Isa.Opcode): string {
    match op
    case MOV => "MOV"
    case LOAD => "LOAD"
    case STORE => "STORE"
    case ADD => "ADD"
    case SUB => "SUB"
    case MUL => "MUL"
    case DIV => "DIV"
    case AND => "AND"
    case OR => "OR"
    case XOR => "XOR"
    case NOT => "NOT"
    case CMP => "CMP"
    case TEST => "TEST"
    case JMP => "JMP"
    case JE => "JE"
    case JNE => "JNE"
    case JG => "JG"
    case JL => "JL"
    case PUSH => "PUSH"
    case POP => "POP"
    case CALL => "CALL"
    case RET => "RET"
    case IRET => "IRET"
    case EI => "EI"
    case DI => "DI"
    case INT => "INT"
    case NOP => "NOP"
    case HALT => "HALT"
    case Invalid => "INVALID"
  }

  function RegisterName(r: Isa.Reg): string {
    ['R', DigitChar(r)]
  }

  function Bracketed(inner: string): string {
    ['['] + inner + [']']
  }

  /** Operand::toString */
  function OperandText(o: Isa.Operand): string {
    match o
    case Absent => "<none>"
    case Register(r) => RegisterName(r)
    case Immediate(v) => DecimalOf(v)
    case MemoryAddress(a) => Bracketed(Decimal(a))
    case RegisterIndirect(r) => Bracketed(RegisterName(r))
    case Label(name) => name
  }

  /** An instruction line with the mnemonic `word`. */
  function Spelled(word: string, dst: Isa.Operand, src: Isa.Operand): string {
    word + (if dst.Absent? then [] else [' '] + OperandText(dst))
      + (if src.Absent? then [] else [','] + ([' '] + OperandText(src)))
  }

  /** Instruction::toString */
  function InstructionText(i: Isa.Instruction): string {
    Spelled(OpcodeName(i.opcode), i.dst, i.src)
  }

  // ----- Operands -----

  /** An operand whose text means what it says: a signed address, or a label that is free to be a code label. */
  predicate Readable(o: Isa.Operand, dataLabels: Labels) {
    match o
    case Absent => false
    case MemoryAddress(a) => a < 0x8000_0000_0000_0000
    case Label(name) => AllowedLabel(name) && name !in dataLabels
    case _ => true
  }

  lemma RegisterReadsBack(r: Isa.Reg, dataLabels: Labels)
    ensures ParseOperand(RegisterName(r), dataLabels) == Ok(Isa.Register(r))
    ensures ParseOperand(Bracketed(RegisterName(r)), dataLabels) == Ok(Isa.RegisterIndirect(r))
  {
    var x, b := RegisterName(r), Bracketed(RegisterName(r));
    assert Trimmed(x) && Trimmed(b) && b[1..|b| - 1] == x;
    hide Trim, ParseInteger, AllowedLabel;
    TrimmedIsFixed(x);
    TrimmedIsFixed(b);
  }

  lemma DecimalIsTrimmed(n: nat)
    ensures Trimmed(Decimal(n)) && forall i :: 0 <= i < |Decimal(n)| ==> IsDigit(Decimal(n)[i])
  {
    hide Decimal;
    DecimalChars(n);
  }

  lemma NumberIsNoRegister(d: string)
    requires NumberText(d)
    ensures Trimmed(d) && !IsRegisterToken(d) && d[0] != '['
  {
    assert NumberChar(d[0]) && NumberChar(d[|d| - 1]);
  }

  lemma ImmediateReadsBack(v: i64, dataLabels: Labels)
    ensures ParseOperand(DecimalOf(v), dataLabels) == Ok(Isa.Immediate(v))
  {
    DecimalIsNumberText(v);
    NumberIsNoRegister(DecimalOf(v));
    hide Trim, ParseInteger, AllowedLabel, DecimalOf, NumberText, IsRegisterToken;
    TrimmedIsFixed(DecimalOf(v));
    IntegerRoundTrip(v);
  }

  lemma AddressText(a: u64)
    ensures var b := Bracketed(Decimal(a));
            Trim(b) == b && !IsRegisterToken(b) && b[1..|b| - 1] == Decimal(a) && Trim(Decimal(a)) == Decimal(a)
            && !IsRegisterToken(Decimal(a)) && |b| >= 3
            && ParseInteger(Decimal(a)) == if a < 0x8000_0000_0000_0000 then Some(a) else None
  {
    DecimalIsTrimmed(a);
    MagnitudeOfDecimal(a);
    hide Decimal, Magnitude;
    var b := Bracketed(Decimal(a));
    assert Trimmed(b) && b[0] == '[';
    TrimmedIsFixed(b);
    TrimmedIsFixed(Decimal(a));
    assert IsDigit(Decimal(a)[0]);
    assert TrimLeft(Decimal(a)) == Decimal(a);
  }

  lemma DigitsAreNoLabel(a: u64)
    ensures !AllowedLabel(Decimal(a))
  {
    DecimalIsTrimmed(a);
    hide Decimal;
    assert IsDigit(Decimal(a)[0]);
  }

  lemma AddressReadsBack(a: u64, dataLabels: Labels)
    ensures ParseOperand(Bracketed(Decimal(a)), dataLabels)
         == if a < 0x8000_0000_0000_0000 then Ok(Isa.MemoryAddress(a)) else Err
  {
    AddressText(a);
    DigitsAreNoLabel(a);
    hide Trim, ParseInteger, AllowedLabel, Decimal, IsRegisterToken;
  }

  lemma LabelReadsBack(name: string, dataLabels: Labels)
    ensures ParseOperand(name, dataLabels) == Ok(Isa.Label(name)) <==> AllowedLabel(name) && name !in dataLabels
  {
    if AllowedLabel(name) {
      NameChars(name);
      NameIsNoInteger(name);
      assert Trimmed(name);
      NameHasNoBracket(name);
      hide Trim, ParseInteger, AllowedLabel, IsRegisterToken;
      TrimmedIsFixed(name);
      AllowedIsNoRegister(name);
    } else {
      hide Trim, ParseInteger, AllowedLabel, IsRegisterToken;
    }
  }

  lemma AllowedIsNoRegister(name: string)
    requires AllowedLabel(name)
    ensures !IsRegisterToken(name)
  {
  }

  lemma AbsentDoesNotRead(dataLabels: Labels)
    ensures ParseOperand("<none>", dataLabels).Err?
  {
    var t := "<none>";
    assert Trimmed(t);
    TrimmedIsFixed(t);
    assert TrimLeft(t) == t;
    DigitsAreDigits(t);
    assert !IsDigit(t[0]);
  }

  /** An operand's text reads back as the operand exactly when it is readable. */
  lemma OperandReadsBack(o: Isa.Operand, dataLabels: Labels)
    ensures ParseOperand(OperandText(o), dataLabels) == Ok(o) <==> Readable(o, dataLabels)
  {
    hide ParseOperand, Decimal, DecimalOf, AllowedLabel;
    match o
    case Absent => AbsentDoesNotRead(dataLabels);
    case Register(r) => RegisterReadsBack(r, dataLabels);
    case Immediate(v) => ImmediateReadsBack(v, dataLabels);
    case MemoryAddress(a) => AddressReadsBack(a, dataLabels);
    case RegisterIndirect(r) => RegisterReadsBack(r, dataLabels);
    case Label(name) => LabelReadsBack(name, dataLabels);
  }

  // ----- The shape of operand texts -----

  /** Characters that mean nothing to the line's splitters. */
  predicate Inert(c: char) {
    IsAlpha(c) || IsDigit(c) || c == '_' || c == '-'
  }

  predicate AllInert(s: string) {
    s != [] && forall i :: 0 <= i < |s| ==> Inert(s[i])
  }

  /** Inert characters, perhaps in brackets. */
  ghost predicate OperandShape(s: string) {
    AllInert(s) || exists inner: string :: AllInert(inner) && s == Bracketed(inner)
  }

  lemma ReadableShape(o: Isa.Operand, dataLabels: Labels)
    requires Readable(o, dataLabels)
    ensures OperandShape(OperandText(o))
  {
    match o
    case Register(r) => assert AllInert(RegisterName(r));
    case Immediate(v) => DecimalIsNumberText(v); NumberIsInert(DecimalOf(v));
    case MemoryAddress(a) => DecimalChars(a); assert AllInert(Decimal(a));
    case RegisterIndirect(r) => assert AllInert(RegisterName(r));
    case Label(name) => assert AllInert(name);
  }

  lemma NumberIsInert(d: string)
    requires NumberText(d)
    ensures AllInert(d)
  {
    forall i | 0 <= i < |d|
      ensures Inert(d[i])
    {
      assert NumberChar(d[i]);
    }
  }

  lemma ShapeChars(s: string)
    requires OperandShape(s)
    ensures s != [] && Trimmed(s)
    ensures forall i :: 0 <= i < |s| ==> s[i] !in {' ', ',', '\n', ':', '"', ';'}
  {
    if !AllInert(s) {
      var inner: string :| AllInert(inner) && s == Bracketed(inner);
    } else {
      assert Inert(s[0]) && Inert(s[|s| - 1]);
    }
  }

  /** Splitting runs over an operand without cutting it. */
  lemma SplitOver(s: string, rest: string, current: string)
    requires OperandShape(s)
    ensures Split(s + rest, current, false) == Split(rest, current + s, false)
  {
    if AllInert(s) {
      hide Split;
      SplitRun(s, rest, current);
    } else {
      var inner: string :| AllInert(inner) && s == Bracketed(inner);
      var text := s + rest;
      assert text[1..] == inner + ([']'] + rest) && ([']'] + rest)[1..] == rest;
      assert Split(text, current, false) == Split(inner + ([']'] + rest), current + ['['], true);
      SplitInside(inner, [']'] + rest, current + ['[']);
      assert Split([']'] + rest, current + ['['] + inner, true)
          == Split(rest, current + ['['] + inner + [']'], false);
      assert current + ['['] + inner + [']'] == current + s;
    }
  }

  lemma SplitDone(s: string)
    requires OperandShape(s)
    ensures Split([], s, false) == Ok([s]) && Split([], [' '] + s, false) == Ok([s])
  {
    hide OperandShape, Trim, Trimmed;
    ShapeChars(s);
    SpaceIsTrimmed(s);
  }

  lemma SplitOne(s: string)
    requires OperandShape(s)
    ensures Split(s, [], false) == Ok([s]) && Split([' '] + s, [], false) == Ok([s])
  {
    hide OperandShape;
    var none: string := [];
    assert s + [] == s && none + s == s && ([' '] + s)[1..] == s && none + [' '] == [' '];
    assert Split([' '] + s, none, false) == Split(s, [' '], false);
    hide Split;
    SplitOver(s, [], []);
    SplitOver(s, [], [' ']);
    SplitDone(s);
  }

  lemma SplitTwo(x: string, y: string)
    requires OperandShape(x) && OperandShape(y)
    ensures Split(x + ([','] + ([' '] + y)), [], false) == Ok([x, y])
  {
    hide OperandShape, Trim, Trimmed;
    var rest := [' '] + y;
    ShapeChars(x);
    SpaceIsTrimmed(x);
    assert ([','] + rest)[1..] == rest;
    assert Split([','] + rest, x, false) == Prepend([x], Split(rest, [], false));
    hide Split;
    SplitOver(x, [','] + rest, []);
    assert [] + x == x;
    SplitOne(y);
    assert [x] + [y] == [x, y];
  }

  // ----- Instructions -----

  /** The word is the opcode's name, in any mix of upper and lower case. */
  predicate Names(word: string, op: Isa.Opcode) {
    op != Isa.Invalid && Upper(word) == OpcodeName(op)
  }

  lemma MoveNames(op: Isa.Opcode)
    requires op == Isa.MOV || op == Isa.LOAD || op == Isa.STORE
    ensures OpcodeName(op) in OPCODES && OPCODES[OpcodeName(op)] == op
  {
  }

  lemma ArithmeticNames(op: Isa.Opcode)
    requires op == Isa.ADD || op == Isa.SUB || op == Isa.MUL || op == Isa.DIV
    ensures OpcodeName(op) in OPCODES && OPCODES[OpcodeName(op)] == op
  {
  }

  lemma LogicNames(op: Isa.Opcode)
    requires op == Isa.AND || op == Isa.OR || op == Isa.XOR || op == Isa.NOT
    ensures OpcodeName(op) in OPCODES && OPCODES[OpcodeName(op)] == op
  {
  }

  lemma CompareNames(op: Isa.Opcode)
    requires op == Isa.CMP || op == Isa.TEST
    ensures OpcodeName(op) in OPCODES && OPCODES[OpcodeName(op)] == op
  {
  }

  lemma JumpNames(op: Isa.Opcode)
    requires op == Isa.JMP || op == Isa.JE || op == Isa.JNE || op == Isa.JG || op == Isa.JL
    ensures OpcodeName(op) in OPCODES && OPCODES[OpcodeName(op)] == op
  {
  }

  lemma StackNames(op: Isa.Opcode)
    requires op == Isa.PUSH || op == Isa.POP || op == Isa.CALL || op == Isa.RET || op == Isa.IRET
    ensures OpcodeName(op) in OPCODES && OPCODES[OpcodeName(op)] == op
  {
  }

  lemma SystemNames(op: Isa.Opcode)
    requires op == Isa.EI || op == Isa.DI || op == Isa.INT || op == Isa.NOP || op == Isa.HALT
    ensures OpcodeName(op) in OPCODES && OPCODES[OpcodeName(op)] == op
  {
  }

  lemma NameIsInTable(op: Isa.Opcode)
    requires op != Isa.Invalid
    ensures OpcodeName(op) in OPCODES && OPCODES[OpcodeName(op)] == op
  {
    hide OpcodeName;
    match op
    case MOV | LOAD | STORE => MoveNames(op);
    case ADD | SUB | MUL | DIV => ArithmeticNames(op);
    case AND | OR | XOR | NOT => LogicNames(op);
    case CMP | TEST => CompareNames(op);
    case JMP | JE | JNE | JG | JL => JumpNames(op);
    case PUSH | POP | CALL | RET | IRET => StackNames(op);
    case EI | DI | INT | NOP | HALT => SystemNames(op);
  }

  lemma NameLetters(op: Isa.Opcode)
    ensures OpcodeName(op) != [] && forall i :: 0 <= i < |OpcodeName(op)| ==> 'A' <= OpcodeName(op)[i] <= 'Z'
  {
  }

  lemma WordLetters(word: string, op: Isa.Opcode)
    requires Names(word, op)
    ensures word != [] && forall i :: 0 <= i < |word| ==> IsAlpha(word[i])
  {
    NameLetters(op);
    assert |word| == |Upper(word)|;
    forall i | 0 <= i < |word|
      ensures IsAlpha(word[i])
    {
      assert Upper(word)[i] == UpperChar(word[i]) == OpcodeName(op)[i];
    }
  }

  lemma WordIsOpcode(word: string, op: Isa.Opcode)
    requires Names(word, op)
    ensures OpcodeFromString(word) == op != Isa.Invalid && word != []
  {
    WordLetters(word, op);
    hide OpcodeName;
    NameIsInTable(op);
  }

  /** The operands come in order and each is readable. */
  predicate Spellable(dst: Isa.Operand, src: Isa.Operand, dataLabels: Labels) {
    && (dst.Absent? ==> src.Absent?)
    && (!dst.Absent? ==> Readable(dst, dataLabels))
    && (!src.Absent? ==> Readable(src, dataLabels))
  }

  function OperandsText(dst: Isa.Operand, src: Isa.Operand): string
    requires !dst.Absent?
  {
    OperandText(dst) + (if src.Absent? then [] else [','] + ([' '] + OperandText(src)))
  }

  lemma OperandsSplit(dst: Isa.Operand, src: Isa.Operand, dataLabels: Labels)
    requires Spellable(dst, src, dataLabels) && !dst.Absent?
    ensures var text := OperandsText(dst, src);
            && text != [] && Trimmed(text) && forall i :: 0 <= i < |text| ==> text[i] !in {'\n', ':', '"', ';'}
    ensures Split(OperandsText(dst, src), [], false)
         == Ok(if src.Absent? then [OperandText(dst)] else [OperandText(dst), OperandText(src)])
  {
    hide OperandText, OperandShape, Split, Readable;
    var x := OperandText(dst);
    ReadableShape(dst, dataLabels);
    ShapeChars(x);
    assert x + [] == x;
    if src.Absent? {
      SplitOne(x);
    } else {
      ReadableShape(src, dataLabels);
      ShapeChars(OperandText(src));
      SplitTwo(x, OperandText(src));
    }
  }

  lemma WordAlone(word: string)
    requires word != [] && forall i :: 0 <= i < |word| ==> IsAlpha(word[i])
    ensures Word(word).0 == word && WordAndRest(word) == (word, [])
  {
    assert TrimLeft(word) == word;
    WordEndAt(word, |word|);
    assert word[..|word|] == word && word[|word|..] == [];
  }

  lemma SpelledWords(word: string, op: Isa.Opcode, dst: Isa.Operand, src: Isa.Operand, dataLabels: Labels)
    requires Names(word, op) && Spellable(dst, src, dataLabels)
    ensures var text := Spelled(word, dst, src);
            && text != [] && text[0] == word[0] && Trimmed(text) && Word(text).0 == word
            && (forall i :: 0 <= i < |text| ==> text[i] !in {'\n', ':', '"', ';'})
            && WordAndRest(text) == (word, if dst.Absent? then [] else OperandsText(dst, src))
  {
    hide OperandText, Readable, Word, WordAndRest, Names;
    var text := Spelled(word, dst, src);
    WordLetters(word, op);
    if dst.Absent? {
      assert text == word;
      WordAlone(word);
    } else {
      OperandsSplit(dst, src, dataLabels);
      assert text == word + [' '] + OperandsText(dst, src);
      WordAndRestAt(word, OperandsText(dst, src));
    }
  }

  /** An instruction line, its mnemonic in any letter case, is the instruction it spells. */
  lemma SpelledParses(word: string, op: Isa.Opcode, dst: Isa.Operand, src: Isa.Operand, dataLabels: Labels)
    requires Names(word, op) && Spellable(dst, src, dataLabels)
    ensures ParseInstruction(Spelled(word, dst, src), dataLabels) == Ok(Isa.Instruction(op, dst, src))
  {
    hide OperandText, Readable, WordAndRest, Names, Split, ParseOperand, OpcodeFromString, OperandsText, Spelled;
    SpelledWords(word, op, dst, src, dataLabels);
    WordIsOpcode(word, op);
    if !dst.Absent? {
      OperandsSplit(dst, src, dataLabels);
      OperandReadsBack(dst, dataLabels);
      if !src.Absent? {
        OperandReadsBack(src, dataLabels);
      }
    }
  }

  lemma ParsedIsReadable(text: string, dataLabels: Labels)
    requires forall n :: n in dataLabels ==> dataLabels[n] < 0x8000_0000_0000_0000
    ensures ParseOperand(text, dataLabels).Ok? ==> Readable(ParseOperand(text, dataLabels).value, dataLabels)
  {
    hide ParseInteger, Trim, AllowedLabel;
  }

  lemma ParsedIsSpellable(line: string, dataLabels: Labels)
    requires forall n :: n in dataLabels ==> dataLabels[n] < 0x8000_0000_0000_0000
    ensures ParseInstruction(line, dataLabels).Ok? ==>
              var i := ParseInstruction(line, dataLabels).value;
              i.opcode != Isa.Invalid && Spellable(i.dst, i.src, dataLabels)
  {
    hide ParseOperand, WordAndRest, Split, Readable, OpcodeFromString;
    var operands := Split(WordAndRest(line).1, [], false);
    if operands.Ok? && |operands.value| >= 1 {
      ParsedIsReadable(operands.value[0], dataLabels);
      if |operands.value| >= 2 {
        ParsedIsReadable(operands.value[1], dataLabels);
      }
    }
    AbsentIsNotReadable(dataLabels);
  }

  lemma AbsentIsNotReadable(dataLabels: Labels)
    ensures !Readable(Isa.Absent, dataLabels)
  {
  }

  /** The assembler reads a printed instruction back exactly when it is one a source can spell. */
  lemma PrintedParses(i: Isa.Instruction, dataLabels: Labels)
    requires forall n :: n in dataLabels ==> dataLabels[n] < 0x8000_0000_0000_0000
    ensures ParseInstruction(InstructionText(i), dataLabels) == Ok(i)
       <==> i.opcode != Isa.Invalid && Spellable(i.dst, i.src, dataLabels)
  {
    hide ParseInstruction, OpcodeName, Spelled, Spellable;
    UpperName(i.opcode);
    ParsedIsSpellable(InstructionText(i), dataLabels);
    if i.opcode != Isa.Invalid && Spellable(i.dst, i.src, dataLabels) {
      SpelledParses(OpcodeName(i.opcode), i.opcode, i.dst, i.src, dataLabels);
    }
  }

  lemma UpperName(op: Isa.Opcode)
    ensures Upper(OpcodeName(op)) == OpcodeName(op)
  {
    NameLetters(op);
    hide OpcodeName;
  }

  /** As a line of a source: no label before it, no comment after it, and not a directive. */
  lemma SpelledLine(word: string, op: Isa.Opcode, dst: Isa.Operand, src: Isa.Operand, dataLabels: Labels)
    requires Names(word, op) && Spellable(dst, src, dataLabels)
    ensures var text := Spelled(word, dst, src);
            && LineLabels(text) == [] && LineRest(text) == text && text != []
            && !IsSectionDirective(text) && !IsEntryDirective(text)
  {
    hide OperandText, Readable, WordAndRest, Word, Names, Spelled, Spellable, LabelsAndRest, Cut, Trim, Trimmed;
    var text := Spelled(word, dst, src);
    SpelledWords(word, op, dst, src, dataLabels);
    WordLetters(word, op);
    CutPlain(text);
    TrimmedIsFixed(text);
    NoLabel(text);
    assert Lower(text)[0] == LowerChar(word[0]) != '.' && Lower(word)[0] == LowerChar(word[0]);
  }
}

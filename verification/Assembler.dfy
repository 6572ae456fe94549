// The two-pass assembler (src/assembler/Assembler.cpp:574-1380): symbol
// collection, emission, and the proof that the two passes agree line by line.
module Assembler {
  import opened Words
  import opened Text
  import opened MemoryMap
  import Isa

  type Offset = n: nat | n <= USER_DATA_SIZE

  type Labels = Isa.Labels

  datatype Section = TextSection | DataSection

  // ----- One line -----

  const OPCODES: map<string, Isa.Opcode> := map[
    "MOV" := Isa.MOV, "LOAD" := Isa.LOAD, "STORE" := Isa.STORE,
    "ADD" := Isa.ADD, "SUB" := Isa.SUB, "MUL" := Isa.MUL, "DIV" := Isa.DIV,
    "AND" := Isa.AND, "OR" := Isa.OR, "XOR" := Isa.XOR, "NOT" := Isa.NOT,
    "CMP" := Isa.CMP, "TEST" := Isa.TEST,
    "JMP" := Isa.JMP, "JE" := Isa.JE, "JNE" := Isa.JNE, "JG" := Isa.JG, "JL" := Isa.JL,
    "PUSH" := Isa.PUSH, "POP" := Isa.POP,
    "CALL" := Isa.CALL, "RET" := Isa.RET, "IRET" := Isa.IRET,
    "EI" := Isa.EI, "DI" := Isa.DI, "INT" := Isa.INT,
    "NOP" := Isa.NOP, "HALT" := Isa.HALT]

  function OpcodeFromString(s: string): Isa.Opcode {
    if Upper(s) in OPCODES then OPCODES[Upper(s)] else Isa.Invalid
  }

  /** requireValidLabelName */
  predicate AllowedLabel(s: string) {
    ValidLabelName(s) && !IsRegisterToken(s) && OpcodeFromString(s) == Isa.Invalid && !IsReservedDirective(s)
  }

  /** tryConsumeLabel: the label and the trimmed rest of the line. */
  function TryLabel(line: string): (r: Option<(string, string)>)
    ensures r.Some? ==> |r.value.1| < |line|
  {
    var t := Trim(line);
    var colon := IndexOf(t, ':');
    if colon == |t| || !ValidLabelName(Trim(t[..colon])) then None
    else Some((Trim(t[..colon]), Trim(t[colon + 1..])))
  }

  /** All the labels a line starts with, and what follows them. */
  function LabelsAndRest(line: string): (seq<string>, string)
    decreases |line|
  {
    var next := TryLabel(line);
    if next.None? then ([], Trim(line))
    else
      var (labels, rest) := LabelsAndRest(next.value.1);
      ([next.value.0] + labels, rest)
  }

  function Clean(raw: string): string {
    Trim(Cut(raw, false, false))
  }

  function LineLabels(raw: string): seq<string> {
    LabelsAndRest(Clean(raw)).0
  }

  function LineRest(raw: string): string {
    LabelsAndRest(Clean(raw)).1
  }

  predicate IsSectionDirective(line: string) {
    Lower(Trim(line)) == ".text" || Lower(Trim(line)) == ".data"
  }

  function SectionOf(line: string): Section {
    if Lower(Trim(line)) == ".data" then DataSection else TextSection
  }

  predicate IsEntryDirective(line: string) {
    Lower(Word(Trim(line)).0) == ".entry"
  }

  /** parseEntryDirective: exactly one word after .entry, and a usable label. */
  function ParseEntry(line: string): Result<string> {
    var (directive, afterDirective) := Word(Trim(line));
    var (name, afterLabel) := Word(afterDirective);
    var (extra, _) := Word(afterLabel);
    if Lower(directive) != ".entry" || name == [] || extra != [] || !AllowedLabel(name) then Err else Ok(name)
  }

  /** parseDataDirective */
  function DataBytes(line: string): Result<seq<byte>> {
    var (directive, arguments) := WordAndRest(line);
    if Lower(directive) == ".byte" then NumericBytes(arguments, 1, -128, 255)
    else if Lower(directive) == ".word" then NumericBytes(arguments, 2, -32768, 65535)
    else if Lower(directive) == ".qword" then
      NumericBytes(arguments, 8, -0x8000_0000_0000_0000, 0xFFFF_FFFF_FFFF_FFFF)
    else if Lower(directive) == ".string" then StringBytes(arguments)
    else Err
  }

  method ParseDataDirective(line: string) returns (r: Result<seq<byte>>)
    ensures r == DataBytes(line)
  {
    hide NumericBytes, StringBytes, WordAndRest, Lower;
    var (directive, arguments) := WordAndRest(line);
    if Lower(directive) == ".byte" {
      r := ParseNumericDirective(arguments, 1, -128, 255);
    } else if Lower(directive) == ".word" {
      r := ParseNumericDirective(arguments, 2, -32768, 65535);
    } else if Lower(directive) == ".qword" {
      r := ParseNumericDirective(arguments, 8, -0x8000_0000_0000_0000, 0xFFFF_FFFF_FFFF_FFFF);
    } else if Lower(directive) == ".string" {
      r := ParseStringLiteral(arguments);
    } else {
      r := Err;
    }
  }

  function RegisterOf(s: string): Isa.Reg
    requires IsRegisterToken(s)
  {
    s[1] as int - 48
  }

  /** The inside of [ ... ]. */
  function ParseAddress(inner: string, dataLabels: Labels): Result<Isa.Operand> {
    if inner == [] then Err
    else if IsRegisterToken(inner) then Ok(Isa.RegisterIndirect(RegisterOf(inner)))
    else
      match ParseInteger(inner)
      case Some(address) => if address < 0 then Err else Ok(Isa.MemoryAddress(address))
      case None =>
        if !AllowedLabel(inner) || inner !in dataLabels then Err else Ok(Isa.MemoryAddress(dataLabels[inner]))
  }

  function ParseOperand(text: string, dataLabels: Labels): Result<Isa.Operand> {
    var operand := Trim(text);
    if operand == [] then Err
    else if IsRegisterToken(operand) then Ok(Isa.Register(RegisterOf(operand)))
    else if |operand| >= 3 && operand[0] == '[' && operand[|operand| - 1] == ']' then
      ParseAddress(Trim(operand[1..|operand| - 1]), dataLabels)
    else
      match ParseInteger(operand)
      case Some(value) => Ok(Isa.Immediate(value))
      case None => if !AllowedLabel(operand) || operand in dataLabels then Err else Ok(Isa.Label(operand))
  }

  /** parseInstructionLine */
  function ParseInstruction(line: string, dataLabels: Labels): Result<Isa.Instruction> {
    var (opcodeText, operandText) := WordAndRest(line);
    var opcode := OpcodeFromString(opcodeText);
    if opcodeText == [] || opcode == Isa.Invalid then Err
    else if operandText == [] then Ok(Isa.Instruction(opcode, Isa.Absent, Isa.Absent))
    else
      var operands := Split(operandText, [], false);
      if operands.Err? then Err
      else if |operands.value| == 1 then
        var dst := ParseOperand(operands.value[0], dataLabels);
        if dst.Err? then Err else Ok(Isa.Instruction(opcode, dst.value, Isa.Absent))
      else if |operands.value| == 2 then
        var dst, src := ParseOperand(operands.value[0], dataLabels), ParseOperand(operands.value[1], dataLabels);
        if dst.Err? || src.Err? then Err else Ok(Isa.Instruction(opcode, dst.value, src.value))
      else Err
  }

  // ----- Pass 1 -----

  datatype Symbols = Symbols(
    section: Section,
    code: Labels,
    data: Labels,
    instructions: nat,
    dataSize: Offset,
    entry: Option<string>)

  const NO_SYMBOLS: Symbols := Symbols(TextSection, map[], map[], 0, 0, None)

  function AddLabel(s: Symbols, name: string): Result<Symbols>
    requires s.instructions < 0x1_0000_0000_0000_0000
  {
    if !AllowedLabel(name) || name in s.code || name in s.data then Err
    else if s.section.TextSection? then Ok(s.(code := s.code[name := s.instructions]))
    else Ok(s.(data := s.data[name := USER_DATA_BASE + s.dataSize]))
  }

  function AddLabels(s: Symbols, labels: seq<string>): (r: Result<Symbols>)
    requires s.instructions < 0x1_0000_0000_0000_0000
    ensures r.Ok? ==> r.value.instructions == s.instructions
    decreases |labels|
  {
    if labels == [] then Ok(s)
    else
      var first := AddLabel(s, labels[0]);
      if first.Err? then Err else AddLabels(first.value, labels[1..])
  }

  /** What the rest of a line does in pass 1. */
  function CollectRest(s: Symbols, hadLabel: bool, rest: string): (r: Result<Symbols>)
    ensures r.Ok? ==> s.instructions <= r.value.instructions <= s.instructions + 1
  {
    if rest == [] then Ok(s)
    else if IsSectionDirective(rest) then
      if hadLabel then Err else Ok(s.(section := SectionOf(rest)))
    else if IsEntryDirective(rest) then
      if hadLabel || s.entry.Some? || ParseEntry(rest).Err? then Err
      else Ok(s.(entry := Some(ParseEntry(rest).value)))
    else if s.section.DataSection? then
      if rest[0] != '.' then Err
      else
        var bytes := DataBytes(rest);
        if bytes.Err? || |bytes.value| > USER_DATA_SIZE - s.dataSize then Err
        else Ok(s.(dataSize := s.dataSize + |bytes.value|))
    else if rest[0] == '.' then Err
    else Ok(s.(instructions := s.instructions + 1))
  }

  function CollectLine(s: Symbols, raw: string): (r: Result<Symbols>)
    requires s.instructions < 0x1_0000_0000_0000_0000
    ensures r.Ok? ==> r.value.instructions <= s.instructions + 1
  {
    var labelled := AddLabels(s, LineLabels(raw));
    if labelled.Err? then Err else CollectRest(labelled.value, LineLabels(raw) != [], LineRest(raw))
  }

  // The lines of a source are a vector, so their number is a size_t.
  type Source = ls: seq<string> | |ls| < 0x1_0000_0000_0000_0000

  /** Pass 1 after the first k lines. */
  function CollectTo(lines: Source, k: nat): (r: Result<Symbols>)
    requires k <= |lines|
    ensures r.Ok? ==> r.value.instructions <= k
  {
    if k == 0 then Ok(NO_SYMBOLS)
    else
      var before := CollectTo(lines, k - 1);
      if before.Err? then Err else CollectLine(before.value, lines[k - 1])
  }

  /** The instruction the program starts at: that of its .entry label, or the first. */
  function EntryOf(s: Symbols): Result<u64> {
    match s.entry
    case None => Ok(0)
    case Some(name) => if name in s.data || name !in s.code then Err else Ok(s.code[name])
  }

  // ----- Pass 2 -----

  datatype Emitted = Emitted(section: Section, instructions: seq<Isa.Instruction>, sourceLines: seq<nat>,
                             data: seq<byte>)

  const NOTHING_EMITTED: Emitted := Emitted(TextSection, [], [], [])

  function EmitRest(e: Emitted, rest: string, lineNumber: nat, dataLabels: Labels): Result<Emitted> {
    if rest == [] then Ok(e)
    else if IsSectionDirective(rest) then Ok(e.(section := SectionOf(rest)))
    else if IsEntryDirective(rest) then Ok(e)
    else if e.section.DataSection? then
      var bytes := DataBytes(rest);
      if bytes.Err? then Err else Ok(e.(data := e.data + bytes.value))
    else
      var instruction := ParseInstruction(rest, dataLabels);
      if instruction.Err? then Err
      else Ok(e.(instructions := e.instructions + [instruction.value], sourceLines := e.sourceLines + [lineNumber]))
  }

  /** Pass 2 after the first k lines. */
  function EmitTo(lines: Source, dataLabels: Labels, k: nat): Result<Emitted>
    requires k <= |lines|
  {
    if k == 0 then Ok(NOTHING_EMITTED)
    else
      var before := EmitTo(lines, dataLabels, k - 1);
      if before.Err? then Err else EmitRest(before.value, LineRest(lines[k - 1]), k, dataLabels)
  }

  datatype Assembled = Assembled(
    instructions: seq<Isa.Instruction>,
    sourceLines: seq<nat>,
    labels: Labels,
    dataLabels: Labels,
    dataBase: nat,
    data: seq<byte>,
    entryLabel: Option<string>,
    entry: u64)

  function Package(s: Symbols, entry: u64, e: Emitted): Assembled {
    Assembled(e.instructions, e.sourceLines, s.code, s.data, USER_DATA_BASE, e.data, s.entry, entry)
  }

  /** assembleString, from the lines of the source. */
  function Assemble(lines: Source): Result<Assembled> {
    var s := CollectTo(lines, |lines|);
    if s.Err? || EntryOf(s.value).Err? then Err
    else
      var e := EmitTo(lines, s.value.data, |lines|);
      if e.Err? then Err else Ok(Package(s.value, EntryOf(s.value).value, e.value))
  }

  // ----- The passes as they run -----

  method CollectLabels(symbols: Symbols, text: string) returns (r: Result<Symbols>, hadLabel: bool, rest: string)
    requires symbols.instructions < 0x1_0000_0000_0000_0000
    ensures r == AddLabels(symbols, LabelsAndRest(text).0)
    ensures r.Ok? ==> rest == LabelsAndRest(text).1 && hadLabel == (LabelsAndRest(text).0 != [])
  {
    hide AllowedLabel, TryLabel, Trim;
    var s, line := symbols, text;
    hadLabel := false;
    while true
      invariant s.instructions == symbols.instructions
      invariant AddLabels(symbols, LabelsAndRest(text).0) == AddLabels(s, LabelsAndRest(line).0)
      invariant LabelsAndRest(text).1 == LabelsAndRest(line).1
      invariant (LabelsAndRest(text).0 != []) == (hadLabel || LabelsAndRest(line).0 != [])
      decreases |line|
    {
      var next := TryLabel(line);
      if next.None? {
        return Ok(s), hadLabel, Trim(line);
      }
      hadLabel := true;
      var name := next.value.0;
      assert LabelsAndRest(line).0[1..] == LabelsAndRest(next.value.1).0;
      if !AllowedLabel(name) || name in s.code || name in s.data {
        return Err, true, line;
      }
      if s.section.TextSection? {
        s := s.(code := s.code[name := s.instructions]);
      } else {
        s := s.(data := s.data[name := USER_DATA_BASE + s.dataSize]);
      }
      line := next.value.1;
    }
  }

  method CollectSymbols(lines: Source) returns (r: Result<(Symbols, u64)>)
    ensures var s := CollectTo(lines, |lines|);
            r == if s.Err? || EntryOf(s.value).Err? then Err else Ok((s.value, EntryOf(s.value).value))
  {
    hide AddLabels, LabelsAndRest, IsSectionDirective, IsEntryDirective, ParseEntry, DataBytes, SectionOf, Trim, Cut;
    var symbols := NO_SYMBOLS;
    for index := 0 to |lines|
      invariant CollectTo(lines, index) == Ok(symbols)
    {
      ghost var s0 := symbols;
      CollectFails(lines, index + 1);
      var cut := RemoveComment(lines[index]);
      var labelled, hadLabel, line := CollectLabels(symbols, Trim(cut));
      if labelled.Err? {
        return Err;
      }
      symbols := labelled.value;
      if line == [] {
        continue;
      }
      if IsSectionDirective(line) {
        if hadLabel {
          return Err;
        }
        symbols := symbols.(section := SectionOf(line));
        continue;
      }
      if IsEntryDirective(line) {
        if hadLabel || symbols.entry.Some? {
          return Err;
        }
        var entry := ParseEntry(line);
        if entry.Err? {
          return Err;
        }
        symbols := symbols.(entry := Some(entry.value));
        continue;
      }
      if symbols.section.DataSection? {
        if line[0] != '.' {
          return Err;
        }
        var bytes := ParseDataDirective(line);
        if bytes.Err? || |bytes.value| > USER_DATA_SIZE - symbols.dataSize {
          return Err;
        }
        symbols := symbols.(dataSize := symbols.dataSize + |bytes.value|);
        continue;
      }
      if line[0] == '.' {
        return Err;
      }
      symbols := symbols.(instructions := symbols.instructions + 1);
    }
    if symbols.entry.None? {
      return Ok((symbols, 0));
    }
    var name := symbols.entry.value;
    if name in symbols.data || name !in symbols.code {
      return Err;
    }
    return Ok((symbols, symbols.code[name]));
  }

  lemma {:induction false} CollectFails(lines: Source, k: nat)
    requires k <= |lines|
    ensures CollectTo(lines, k).Err? ==> CollectTo(lines, |lines|).Err?
    decreases |lines| - k
  {
    hide CollectLine;
    if k < |lines| {
      CollectFails(lines, k + 1);
    }
  }

  lemma EmitOnce(lines: Source, dataLabels: Labels, k: nat)
    requires k < |lines|
    ensures EmitTo(lines, dataLabels, k + 1)
         == var before := EmitTo(lines, dataLabels, k);
            if before.Err? then Err else EmitRest(before.value, LineRest(lines[k]), k + 1, dataLabels)
  {
    hide EmitRest, LineRest;
  }

  lemma {:induction false} EmitFails(lines: Source, dataLabels: Labels, k: nat)
    requires k <= |lines|
    ensures EmitTo(lines, dataLabels, k).Err? ==> EmitTo(lines, dataLabels, |lines|).Err?
    decreases |lines| - k
  {
    hide EmitTo, EmitRest, LineRest;
    if k < |lines| {
      EmitOnce(lines, dataLabels, k);
      EmitFails(lines, dataLabels, k + 1);
    }
  }

  method SkipLabels(text: string) returns (rest: string)
    ensures rest == LabelsAndRest(text).1
  {
    hide TryLabel, Trim;
    var line := text;
    while true
      invariant LabelsAndRest(text).1 == LabelsAndRest(line).1
      decreases |line|
    {
      var next := TryLabel(line);
      if next.None? {
        return Trim(line);
      }
      line := next.value.1;
    }
  }

  method EmitProgram(lines: Source, symbols: Symbols, entry: u64) returns (r: Result<Assembled>)
    ensures var e := EmitTo(lines, symbols.data, |lines|);
            r == if e.Err? then Err else Ok(Package(symbols, entry, e.value))
  {
    hide LabelsAndRest, IsSectionDirective, IsEntryDirective, DataBytes, ParseInstruction, SectionOf, Trim, Cut;
    var e := NOTHING_EMITTED;
    for index := 0 to |lines|
      invariant EmitTo(lines, symbols.data, index) == Ok(e)
    {
      EmitFails(lines, symbols.data, index + 1);
      var cut := RemoveComment(lines[index]);
      var line := SkipLabels(Trim(cut));
      if line == [] {
        continue;
      }
      if IsSectionDirective(line) {
        e := e.(section := SectionOf(line));
        continue;
      }
      if IsEntryDirective(line) {
        continue;
      }
      if e.section.DataSection? {
        var bytes := ParseDataDirective(line);
        if bytes.Err? {
          return Err;
        }
        e := e.(data := e.data + bytes.value);
        continue;
      }
      var instruction := ParseInstruction(line, symbols.data);
      if instruction.Err? {
        return Err;
      }
      e := e.(instructions := e.instructions + [instruction.value], sourceLines := e.sourceLines + [index + 1]);
    }
    return Ok(Package(symbols, entry, e));
  }

  method AssembleString(source: string) returns (r: Result<Assembled>)
    requires |source| < 0x1_0000_0000_0000_0000
    ensures r == Assemble(SplitLines(source))
  {
    hide CollectTo, EmitTo, SplitLines, EntryOf;
    var lines: Source := SplitLines(source);
    var symbols := CollectSymbols(lines);
    if symbols.Err? {
      return Err;
    }
    r := EmitProgram(lines, symbols.value.0, symbols.value.1);
  }
}

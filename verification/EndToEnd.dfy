// From source text to loaded memory: toBinaryProgram, the file and the loader,
// and what a LOAD then reads.
module EndToEnd {
  import opened Words
  import opened Text
  import opened MemoryMap
  import opened Assembler
  import opened TwoPass
  import Isa
  import BinaryFormat
  import Loader
  import M = Memory

  /** AssembledProgram::toBinaryProgram */
  function ToBinary(p: Assembled, entry: u64): Result<BinaryFormat.Program> {
    if p.instructions == [] || entry >= |p.instructions| then Err
    else
      var code := Isa.EncodeProgram(p.instructions, p.labels);
      if code.Err? || |code.value| > 0xFFFF_FFFF || |p.data| > 0xFFFF_FFFF || p.dataBase > 0xFFFF_FFFF then Err
      else
        var h := BinaryFormat.Header(0, 3, M.Little, Isa.INSTRUCTION_SIZE * entry, |code.value|, p.dataBase, |p.data|);
        Ok(BinaryFormat.Program(h, code.value, p.data))
  }

  /** An assembled executable is always a well-formed program: the file keeps it and the loader accepts it. */
  lemma BinaryIsValid(p: Assembled, entry: u64)
    requires ToBinary(p, entry).Ok?
    ensures BinaryFormat.Exact(ToBinary(p, entry).value) && Loader.ValidProgram(ToBinary(p, entry).value)
  {
    hide Isa.EncodeProgram;
    assert Isa.INSTRUCTION_SIZE * |p.instructions| % Isa.INSTRUCTION_SIZE == 0;
  }

  /** The program as a loader gets it: written to a file and read back. */
  function Delivered(p: Assembled): Result<BinaryFormat.Program> {
    var binary := ToBinary(p, p.entry);
    if binary.Err? then Err
    else
      var file := BinaryFormat.Write(binary.value);
      if file.Err? then Err else BinaryFormat.Read(file.value)
  }

  /** Assemble, write the file, read it back, load it: the memory afterwards. */
  function Pipeline(p: Assembled, m: seq<byte>, codeBase: nat): Result<seq<byte>> {
    var program := Delivered(p);
    if program.Err? || !Loader.Loadable(program.value, |m|, codeBase) then Err
    else Ok(Loader.Loaded(m, program.value, codeBase))
  }

  /** What the loader answers for that file: where the sections are and where to start. */
  function Boot(p: Assembled, memorySize: nat, codeBase: nat): Result<Loader.Image> {
    var program := Delivered(p);
    if program.Err? || !Loader.Loadable(program.value, memorySize, codeBase) then Err
    else Ok(Loader.ImageOf(program.value, codeBase))
  }

  lemma DeliveredUnchanged(p: Assembled)
    ensures Delivered(p) == ToBinary(p, p.entry)
  {
    hide ToBinary, BinaryFormat.Exact, BinaryFormat.Write, BinaryFormat.Read, Loader.ValidProgram;
    if ToBinary(p, p.entry).Ok? {
      BinaryIsValid(p, p.entry);
      BinaryFormat.ReadUndoesWriteIff(ToBinary(p, p.entry).value);
    }
  }

  /** The file changes nothing: what is loaded is the assembler's own output. */
  lemma PipelineLoadsBinary(p: Assembled, m: seq<byte>, codeBase: nat)
    requires ToBinary(p, p.entry).Ok?
    ensures var b := ToBinary(p, p.entry).value;
            Pipeline(p, m, codeBase)
            == if Loader.ValidPlacement(b, |m|, codeBase) then Ok(Loader.Loaded(m, b, codeBase)) else Err
  {
    hide ToBinary, Delivered, BinaryFormat.Exact, Loader.Loaded, Loader.ValidPlacement, Loader.ValidProgram;
    BinaryIsValid(p, p.entry);
    DeliveredUnchanged(p);
  }

  /** What an executable needs beyond assembling: instructions, an entry among them, and encodable operands. */
  predicate Executable(p: Assembled) {
    && p.instructions != [] && p.entry < |p.instructions|
    && Isa.EncodeProgram(p.instructions, p.labels).Ok?
    && Isa.INSTRUCTION_SIZE * |p.instructions| <= 0xFFFF_FFFF
  }

  /**
   * With the code base above the data region, code and data never overlap, and
   * the pipeline succeeds exactly when the program is executable and its code
   * fits above the base.
   */
  lemma PipelineSucceedsIff(lines: Source, m: seq<byte>, codeBase: nat)
    requires Assemble(lines).Ok? && codeBase >= DEFAULT_CODE_BASE
    ensures var p := Assemble(lines).value;
            Pipeline(p, m, codeBase).Ok? <==>
              Executable(p) && codeBase + Isa.INSTRUCTION_SIZE * |p.instructions| <= |m|
  {
    hide Assemble, Isa.EncodeProgram, Loader.Loaded, Delivered, CollectTo;
    var p := Assemble(lines).value;
    DataFits(lines);
    AssembledBase(lines);
    assert Executable(p) <==> ToBinary(p, p.entry).Ok?;
    DeliveredUnchanged(p);
    if Executable(p) {
      PipelineLoadsBinary(p, m, codeBase);
    }
  }

  lemma AssembledBase(lines: Source)
    requires Assemble(lines).Ok?
    ensures Assemble(lines).value.dataBase == 0
  {
    hide CollectTo, EmitTo, EntryOf;
  }

  /** The sections of the loaded program lie in memory as assembled. */
  lemma PipelineSections(p: Assembled, m: seq<byte>, codeBase: nat)
    requires Pipeline(p, m, codeBase).Ok?
    ensures ToBinary(p, p.entry).Ok? && Isa.EncodeProgram(p.instructions, p.labels).Ok?
    ensures var r, code := Pipeline(p, m, codeBase).value, Isa.EncodeProgram(p.instructions, p.labels).value;
            && |r| == |m|
            && codeBase + |code| <= |r| && r[codeBase..codeBase + |code|] == code
            && p.dataBase + |p.data| <= |r| && r[p.dataBase..p.dataBase + |p.data|] == p.data
  {
    hide Isa.EncodeProgram, Loader.Loaded;
    DeliveredUnchanged(p);
    hide Delivered;
    PipelineLoadsBinary(p, m, codeBase);
    Loader.LoadedSections(m, ToBinary(p, p.entry).value, codeBase);
  }

  /** Every data line's bytes are in memory at the address of the line's labels. */
  lemma DataReachesMemory(lines: Source, m: seq<byte>, codeBase: nat, i: nat, name: string)
    requires Assemble(lines).Ok? && Pipeline(Assemble(lines).value, m, codeBase).Ok?
    requires i < |lines| && DataLine(lines, Assemble(lines).value.dataLabels, i) && name in LineLabels(lines[i])
    ensures var p, r := Assemble(lines).value, Pipeline(Assemble(lines).value, m, codeBase).value;
            && DataBytes(LineRest(lines[i])).Ok? && name in p.dataLabels
            && var at, bytes := p.dataLabels[name], DataBytes(LineRest(lines[i])).value;
               at + |bytes| <= |r| && r[at..at + |bytes|] == bytes
  {
    hide Assemble, EmitTo, DataBytes, LineRest, LineLabels, Pipeline, Isa.EncodeProgram, ToBinary, DataLine;
    var p := Assemble(lines).value;
    PipelineSections(p, m, codeBase);
    DataLinePlaced(lines, i);
    var r, at, bytes := Pipeline(p, m, codeBase).value, p.dataLabels[name], DataBytes(LineRest(lines[i])).value;
    SliceOfSlice(r, p.dataBase, |p.data|, at - p.dataBase, |bytes|);
  }

  /** Every instruction is in memory where the binary interpreter fetches it, its labels turned into code offsets. */
  lemma InstructionReachesMemory(lines: Source, m: seq<byte>, codeBase: nat, j: nat)
    requires Assemble(lines).Ok? && Pipeline(Assemble(lines).value, m, codeBase).Ok?
    requires j < |Assemble(lines).value.instructions|
    ensures var p, r := Assemble(lines).value, Pipeline(Assemble(lines).value, m, codeBase).value;
            var at, i := codeBase + Isa.INSTRUCTION_SIZE * j, p.instructions[j];
            && at + Isa.INSTRUCTION_SIZE <= |r|
            && Isa.EncodeOperand(i.dst, p.labels).Ok? && Isa.EncodeOperand(i.src, p.labels).Ok?
            && Isa.DecodeInstruction(r[at..at + Isa.INSTRUCTION_SIZE])
               == Ok(Isa.Decoded(i.opcode, Isa.EncodeOperand(i.dst, p.labels).value,
                                 Isa.EncodeOperand(i.src, p.labels).value))
  {
    hide Assemble, Pipeline, ToBinary, Isa.EncodeProgram, Isa.EncodeInstruction, Isa.EncodeOperand,
      Isa.DecodeInstruction;
    var p := Assemble(lines).value;
    var r, at := Pipeline(p, m, codeBase).value, Isa.INSTRUCTION_SIZE * j;
    PipelineSections(p, m, codeBase);
    var code := Isa.EncodeProgram(p.instructions, p.labels).value;
    Isa.EncodeProgramSlot(p.instructions, p.labels, j);
    Isa.DecodeUndoesEncode(p.instructions[j], p.labels);
    SliceOfSlice(r, codeBase, |code|, at, Isa.INSTRUCTION_SIZE);
  }

  // ----- .qword -----

  /** An eight-byte read of a little-endian slot gives the value back. */
  lemma ReadSlot(m: seq<byte>, address: nat, v: i64)
    requires M.InRange(m, address, 8) && m[address..address + 8] == LittleEndian(ToU64(v), 8)
    ensures M.Read64(m, address) == v
  {
    LittleEndianReadBack(ToU64(v), 8);
    Pow256Values();
  }

  /** A .qword directive with these operand values. */
  predicate QwordLine(line: string, vs: seq<i64>) {
    var (directive, arguments) := WordAndRest(line);
    && Lower(directive) == ".qword"
    && Split(arguments, [], false).Ok?
    && Split(arguments, [], false).value != []
    && ParseValues(Split(arguments, [], false).value, -0x8000_0000_0000_0000, 0xFFFF_FFFF_FFFF_FFFF) == Ok(vs)
  }

  lemma QwordBytes(line: string, vs: seq<i64>)
    requires QwordLine(line, vs)
    ensures DataBytes(line) == Ok(EncodeValues(vs, 8))
  {
    hide WordAndRest, Split, ParseValues, EncodeValues;
    assert ".byte" != ".qword" && ".word" != ".qword";
  }

  /** Value k of a .qword at label L is what an eight-byte read at L + 8k returns. */
  lemma QwordIsRead(lines: Source, m: seq<byte>, codeBase: nat, i: nat, name: string, vs: seq<i64>, k: nat)
    requires Assemble(lines).Ok? && Pipeline(Assemble(lines).value, m, codeBase).Ok?
    requires i < |lines| && DataLine(lines, Assemble(lines).value.dataLabels, i) && name in LineLabels(lines[i])
    requires QwordLine(LineRest(lines[i]), vs) && k < |vs|
    ensures var p, r := Assemble(lines).value, Pipeline(Assemble(lines).value, m, codeBase).value;
            && name in p.dataLabels && M.InRange(r, p.dataLabels[name] + 8 * k, 8)
            && M.Read64(r, p.dataLabels[name] + 8 * k) == vs[k]
  {
    hide Assemble, EmitTo, DataBytes, LineRest, LineLabels, Pipeline, DataLine, QwordLine, EncodeValues, M.Read64;
    DataReachesMemory(lines, m, codeBase, i, name);
    QwordBytes(LineRest(lines[i]), vs);
    ValueSlot(vs, 8, k);
    var p, r := Assemble(lines).value, Pipeline(Assemble(lines).value, m, codeBase).value;
    SliceOfSlice(r, p.dataLabels[name], |vs| * 8, k * 8, 8);
    ReadSlot(r, p.dataLabels[name] + 8 * k, vs[k]);
  }

  // ----- The same, from the characters of the line -----

  lemma {:induction false} CutPlain(s: string)
    requires forall i :: 0 <= i < |s| ==> s[i] != '"' && s[i] != ';'
    ensures Cut(s, false, false) == s
  {
    if s != [] {
      CutPlain(s[1..]);
      assert [s[0]] + s[1..] == s;
    }
  }

  lemma {:induction false} IndexOfAt(s: string, c: char, k: nat)
    requires k <= |s| && (k < |s| ==> s[k] == c) && forall i :: 0 <= i < k ==> s[i] != c
    ensures IndexOf(s, c) == k
  {
    if k > 0 {
      IndexOfAt(s[1..], c, k - 1);
    }
  }

  lemma {:induction false} WordEndAt(s: string, k: nat)
    requires k <= |s| && (k < |s| ==> IsSpace(s[k])) && forall i :: 0 <= i < k ==> !IsSpace(s[i])
    ensures WordEnd(s) == k
  {
    if k > 0 {
      WordEndAt(s[1..], k - 1);
    }
  }

  lemma {:induction false} DecimalChars(n: nat)
    ensures forall i :: 0 <= i < |Decimal(n)| ==> IsDigit(Decimal(n)[i])
  {
    if n >= 10 {
      DecimalChars(n / 10);
    }
  }

  predicate NumberChar(c: char) {
    IsDigit(c) || c == '-'
  }

  predicate NumberText(d: string) {
    d != [] && forall i :: 0 <= i < |d| ==> NumberChar(d[i])
  }

  lemma DecimalIsNumberText(v: i64)
    ensures NumberText(DecimalOf(v))
  {
    DecimalChars(Abs(v));
  }

  lemma SpaceIsTrimmed(s: string)
    requires Trimmed(s)
    ensures Trim([' '] + s) == s && Trim(s) == s && TrimLeft(s) == s
  {
    assert ([' '] + s)[1..] == s;
    TrimmedIsFixed(s);
  }

  lemma WordAndRestAt(word: string, rest: string)
    requires word != [] && forall i :: 0 <= i < |word| ==> !IsSpace(word[i])
    requires Trimmed(rest) && forall i :: 0 <= i < |rest| ==> rest[i] != '\n'
    ensures Word(word + [' '] + rest) == (word, [' '] + rest)
    ensures WordAndRest(word + [' '] + rest) == (word, rest)
  {
    var line, tail := word + [' '] + rest, [' '] + rest;
    hide Trim;
    assert TrimLeft(line) == line;
    WordEndAt(line, |word|);
    assert line[..|word|] == word && line[|word|..] == tail;
    IndexOfAt(tail, '\n', |tail|);
    assert tail[..|tail|] == tail;
    SpaceIsTrimmed(rest);
  }

  const QWORD: string := ".qword"

  function QwordText(d: string): string {
    QWORD + [' '] + d
  }

  lemma QwordTextWords(d: string)
    requires NumberText(d)
    ensures var rest := QwordText(d);
            Trimmed(rest) && Word(rest).0 == QWORD && WordAndRest(rest) == (QWORD, d)
  {
    WordAndRestAt(QWORD, d);
  }

  lemma LowerQword(rest: string)
    ensures Lower(QWORD) == ".qword"
    ensures rest != [] && rest[0] == '.' && |rest| > 1 && rest[1] == 'q' ==>
              Lower(rest) != ".text" && Lower(rest) != ".data"
    ensures Lower(QWORD) != ".entry"
  {
    assert |rest| > 1 ==> |Lower(rest)| > 1 && Lower(rest)[1] == LowerChar(rest[1]);
    assert Lower(QWORD)[1] == 'q';
  }

  lemma QwordTextIsDataLine(d: string)
    requires NumberText(d)
    ensures var rest := QwordText(d); rest != [] && !IsSectionDirective(rest) && !IsEntryDirective(rest)
  {
    hide Lower, Word, WordAndRest, NumberText;
    var rest := QwordText(d);
    QwordTextWords(d);
    TrimmedIsFixed(rest);
    LowerQword(rest);
    assert rest[0] == '.' && rest[1] == 'q';
  }

  lemma OneValue(d: string, v: i64)
    requires NumberText(d) && ParseInteger(d) == Some(v)
    ensures Split(d, [], false) == Ok([d])
    ensures ParseValues([d], -0x8000_0000_0000_0000, 0xFFFF_FFFF_FFFF_FFFF) == Ok([v])
  {
    hide ParseInteger, Split;
    assert Join([d]) == d && PlainValue(d);
    SplitUndoesJoin([d]);
    var none: seq<i64> := [];
    assert [d][..0] == [] && [d][0] == d && none + [v] == [v];
    assert ParseValues([d][..0], -0x8000_0000_0000_0000, 0xFFFF_FFFF_FFFF_FFFF) == Ok(none);
  }

  lemma QwordTextParses(v: i64)
    ensures QwordLine(QwordText(DecimalOf(v)), [v])
  {
    hide DecimalOf, NumberText, ParseInteger, Split, ParseValues, WordAndRest, Word, Lower, QwordText, Trimmed;
    var d := DecimalOf(v);
    DecimalIsNumberText(v);
    QwordTextWords(d);
    LowerQword([]);
    IntegerRoundTrip(v);
    OneValue(d, v);
  }

  lemma LabelledIsTrimmed(name: string, rest: string)
    requires ValidLabelName(name) && rest != [] && Trimmed(rest)
    ensures Trimmed(name) && Trimmed(name + [':', ' '] + rest)
  {
    var raw := name + [':', ' '] + rest;
    NameChars(name);
    assert raw[|raw| - 1] == rest[|rest| - 1] && raw[0] == name[0];
  }

  lemma LabelThenRest(name: string, rest: string)
    requires ValidLabelName(name) && rest != [] && Trimmed(rest)
    ensures Trimmed(name + [':', ' '] + rest)
    ensures TryLabel(name + [':', ' '] + rest) == Some((name, rest))
  {
    hide Trim, ValidLabelName, Trimmed;
    var raw := name + [':', ' '] + rest;
    NameChars(name);
    LabelledIsTrimmed(name, rest);
    TrimmedIsFixed(raw);
    TrimmedIsFixed(name);
    SpaceIsTrimmed(rest);
    IndexOfAt(raw, ':', |name|);
    assert raw[..|name|] == name && raw[|name| + 1..] == [' '] + rest;
  }

  lemma NoLabel(rest: string)
    requires Trimmed(rest) && forall i :: 0 <= i < |rest| ==> rest[i] != ':'
    ensures TryLabel(rest) == None && LabelsAndRest(rest) == ([], rest)
  {
    TrimmedIsFixed(rest);
    IndexOfAt(rest, ':', |rest|);
  }

  // Consuming `name: rest`.
  lemma LabelledLine(name: string, rest: string)
    requires ValidLabelName(name) && rest != [] && Trimmed(rest) && forall i :: 0 <= i < |rest| ==> rest[i] != ':'
    ensures LabelsAndRest(name + [':', ' '] + rest) == ([name], rest) && Trimmed(name + [':', ' '] + rest)
  {
    hide TryLabel, Trim, Trimmed, ValidLabelName;
    LabelThenRest(name, rest);
    NoLabel(rest);
    var none: seq<string> := [];
    assert [name] + none == [name];
  }

  lemma NameChars(name: string)
    requires ValidLabelName(name)
    ensures name != [] && forall i :: 0 <= i < |name| ==> name[i] !in {':', '"', ';'} && !IsSpace(name[i])
  {
  }

  /** The line `name: .qword v` has the label `name` and the one value v, for every valid name and every v. */
  lemma QwordLineText(name: string, v: i64)
    requires ValidLabelName(name)
    ensures var raw := name + [':', ' '] + QwordText(DecimalOf(v));
            LineLabels(raw) == [name] && LineRest(raw) == QwordText(DecimalOf(v)) && QwordLine(LineRest(raw), [v])
  {
    hide DecimalOf, QwordLine, LabelsAndRest, Trim, Cut, ValidLabelName;
    var d := DecimalOf(v);
    var rest := QwordText(d);
    var raw := name + [':', ' '] + rest;
    DecimalIsNumberText(v);
    QwordTextParses(v);
    NameChars(name);
    CutPlain(raw);
    LabelledLine(name, rest);
    TrimmedIsFixed(raw);
  }

  /**
   * End to end: wherever a source has the line `name: .qword v` in its data
   * section, an eight-byte read at the label's address returns v after
   * assembling, writing, reading back and loading.
   */
  lemma SourceQwordIsRead(lines: Source, m: seq<byte>, codeBase: nat, i: nat, name: string, v: i64)
    requires Assemble(lines).Ok? && Pipeline(Assemble(lines).value, m, codeBase).Ok?
    requires i < |lines| && ValidLabelName(name) && lines[i] == name + [':', ' '] + QwordText(DecimalOf(v))
    requires EmitTo(lines, Assemble(lines).value.dataLabels, i).Ok?
    requires EmitTo(lines, Assemble(lines).value.dataLabels, i).value.section.DataSection?
    ensures var p, r := Assemble(lines).value, Pipeline(Assemble(lines).value, m, codeBase).value;
            && name in p.dataLabels && M.InRange(r, p.dataLabels[name], 8) && M.Read64(r, p.dataLabels[name]) == v
  {
    hide Assemble, EmitTo, LineRest, LineLabels, Pipeline, QwordLine, DecimalOf, M.Read64, NumberText, ValidLabelName,
      IsSectionDirective, IsEntryDirective, QwordText;
    QwordLineText(name, v);
    DecimalIsNumberText(v);
    QwordTextIsDataLine(DecimalOf(v));
    QwordIsRead(lines, m, codeBase, i, name, [v], 0);
  }

  // ----- The characters of a LOAD -----

  function LoadOperands(reg: Isa.Reg, name: string): string {
    ['R', DigitChar(reg)] + [',', ' ', '['] + name + [']']
  }

  const LOAD: string := "LOAD"

  function LoadText(reg: Isa.Reg, name: string): string {
    LOAD + [' '] + LoadOperands(reg, name)
  }

  lemma {:induction false} SplitInside(v: string, rest: string, current: string)
    requires forall i :: 0 <= i < |v| ==> v[i] !in {'[', ']'}
    ensures Split(v + rest, current, true) == Split(rest, current + v, true)
  {
    if v == [] {
      assert v + rest == rest && current + v == current;
    } else {
      assert (v + rest)[1..] == v[1..] + rest && current + [v[0]] + v[1..] == current + v;
      SplitInside(v[1..], rest, current + [v[0]]);
    }
  }

  /** A bracketed operand after a comma and a space. */
  lemma SplitBracketed(name: string)
    requires ValidLabelName(name)
    ensures Split([' ', '['] + name + [']'], [], false) == Ok([['['] + name + [']']])
  {
    var operand, text := ['['] + name + [']'], [' ', '['] + name + [']'];
    assert Trimmed(operand);
    hide Split, ValidLabelName, Trimmed;
    assert text[1..] == operand && operand[1..] == name + [']'];
    SplitOpens(name + [']']);
    NameHasNoBracket(name);
    SplitInside(name, [']'], [' ', '[']);
    SpaceIsTrimmed(operand);
    assert text == [' '] + operand;
    SplitCloses([' ', '['] + name);
  }

  lemma SplitOpens(rest: string)
    ensures Split([' ', '['] + rest, [], false) == Split(rest, [' ', '['], true)
  {
    var text := [' ', '['] + rest;
    assert text[1..] == ['['] + rest && (['['] + rest)[1..] == rest;
    var none: string := [];
    assert none + [' '] == [' '] && [' '] + ['['] == [' ', '['];
    assert Split(text, none, false) == Split(['['] + rest, [' '], false);
  }

  lemma SplitCloses(current: string)
    requires Trim(current + [']']) != []
    ensures Split([']'], current, true) == Ok([Trim(current + [']'])])
  {
    hide Trim;
    assert [']'][1..] == [];
  }

  lemma NameHasNoBracket(name: string)
    requires ValidLabelName(name)
    ensures forall i :: 0 <= i < |name| ==> name[i] !in {'[', ']', ',', '\n'}
  {
  }

  lemma LoadOperandsSplit(reg: Isa.Reg, name: string)
    requires ValidLabelName(name)
    ensures Split(LoadOperands(reg, name), [], false) == Ok([['R', DigitChar(reg)], ['['] + name + [']']])
  {
    var first, second := ['R', DigitChar(reg)], ['['] + name + [']'];
    assert PlainValue(first);
    hide Split, PlainValue, ValidLabelName;
    SplitBracketed(name);
    SplitFirst(first, [' ', '['] + name + [']']);
    assert LoadOperands(reg, name) == first + ([','] + ([' ', '['] + name + [']']));
    assert [first] + [second] == [first, second];
  }

  lemma {:induction false} DigitsAreDigits(s: string)
    ensures Digits(s, 10).Some? ==> forall i :: 0 <= i < |s| ==> IsDigit(s[i])
  {
    if s != [] {
      DigitsAreDigits(s[..|s| - 1]);
    }
  }

  /** A label name is no integer. */
  lemma NameIsNoInteger(name: string)
    requires ValidLabelName(name)
    ensures ParseInteger(name) == None
  {
    DigitsAreDigits(name);
    assert TrimLeft(name) == name && !IsDigit(name[0]);
  }

  lemma LoadOperandsParse(reg: Isa.Reg, name: string, dataLabels: Labels)
    requires AllowedLabel(name) && name in dataLabels
    ensures ParseOperand(['R', DigitChar(reg)], dataLabels) == Ok(Isa.Register(reg))
    ensures ParseOperand(['['] + name + [']'], dataLabels) == Ok(Isa.MemoryAddress(dataLabels[name]))
  {
    var r, a := ['R', DigitChar(reg)], ['['] + name + [']'];
    assert Trimmed(r) && Trimmed(a) && Trimmed(name);
    NameIsNoInteger(name);
    hide Trimmed, Trim, ParseInteger, AllowedLabel;
    TrimmedIsFixed(r);
    TrimmedIsFixed(a);
    TrimmedIsFixed(name);
    assert a[1..|a| - 1] == name && |name| > 0;
  }

  lemma UpperLoad()
    ensures OpcodeFromString(LOAD) == Isa.LOAD
  {
    assert Upper(LOAD) == "LOAD";
  }

  lemma LoadTextWords(reg: Isa.Reg, name: string)
    requires ValidLabelName(name)
    ensures var text := LoadText(reg, name);
            Trimmed(text) && Word(text).0 == LOAD && WordAndRest(text) == (LOAD, LoadOperands(reg, name))
  {
    NameHasNoBracket(name);
    WordAndRestAt(LOAD, LoadOperands(reg, name));
  }

  /** `LOAD Rk, [name]` is the instruction it reads as, for every allowed name in the data table. */
  lemma LoadLineText(reg: Isa.Reg, name: string, dataLabels: Labels)
    requires AllowedLabel(name) && name in dataLabels
    ensures var text := LoadText(reg, name);
            && LineLabels(text) == [] && LineRest(text) == text
            && ParseInstruction(text, dataLabels)
               == Ok(Isa.Instruction(Isa.LOAD, Isa.Register(reg), Isa.MemoryAddress(dataLabels[name])))
  {
    var text := LoadText(reg, name);
    LoadTextPlain(reg, name);
    hide AllowedLabel, WordAndRest, Word, Split, ParseOperand, Trimmed, LabelsAndRest, Cut, Trim, OpcodeFromString,
      LoadText, LoadOperands, ValidLabelName;
    LoadTextWords(reg, name);
    UpperLoad();
    LoadOperandsSplit(reg, name);
    LoadOperandsParse(reg, name, dataLabels);
    CutPlain(text);
    TrimmedIsFixed(text);
    NoLabel(text);
  }

  lemma LoadTextPlain(reg: Isa.Reg, name: string)
    requires AllowedLabel(name)
    ensures ValidLabelName(name)
    ensures var text := LoadText(reg, name); forall i :: 0 <= i < |text| ==> text[i] !in {'"', ';', ':'}
  {
    NameChars(name);
  }

  lemma LoadTextIsCodeLine(reg: Isa.Reg, name: string)
    requires ValidLabelName(name)
    ensures var text := LoadText(reg, name); text != [] && !IsSectionDirective(text) && !IsEntryDirective(text)
  {
    var text := LoadText(reg, name);
    LoadTextWords(reg, name);
    TrimmedIsFixed(text);
    assert Lower(text)[0] == 'l' && Lower(LOAD)[0] == 'l';
  }
}

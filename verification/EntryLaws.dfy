// Where an assembled program starts (src/assembler/Assembler.cpp,
// src/binary/BinaryLoader.cpp): from the `.entry` line of the source to the
// entry the loader reports and the bytes that lie there.
module EntryLaws {
  import opened Words
  import opened Text
  import opened Assembler
  import opened TwoPass
  import opened EndToEnd
  import opened EncodingLaws
  import Isa
  import Loader

  // ----- The .entry line -----

  const ENTRY: string := ".entry"

  function EntryText(name: string): string {
    ENTRY + [' '] + name
  }

  lemma LowerEntry()
    ensures Lower(ENTRY) == ".entry"
  {
  }

  lemma WordOfName(name: string)
    requires ValidLabelName(name)
    ensures Word([' '] + name) == (name, []) && Word([]) == ([], [])
  {
    NameChars(name);
    assert ([' '] + name)[1..] == name && TrimLeft(name) == name;
    hide ValidLabelName;
    assert TrimLeft([' '] + name) == name;
    WordEndAt(name, |name|);
    assert name[..|name|] == name && name[|name|..] == [];
  }

  lemma EntryTextWords(name: string)
    requires ValidLabelName(name)
    ensures var text := EntryText(name);
            && Trimmed(text) && Word(text) == (ENTRY, [' '] + name)
            && forall i :: 0 <= i < |text| ==> text[i] !in {'"', ';', ':'}
  {
    NameChars(name);
    WordAndRestAt(ENTRY, name);
  }

  /** The line `.entry name` is an entry directive for the name, if the name can be a label. */
  lemma EntryLineText(name: string)
    requires ValidLabelName(name)
    ensures var text := EntryText(name);
            && LineLabels(text) == [] && LineRest(text) == text && IsEntryDirective(text)
            && ParseEntry(text) == if AllowedLabel(name) then Ok(name) else Err
  {
    hide ValidLabelName, AllowedLabel, Word, Lower, Trim, Trimmed, LabelsAndRest, Cut;
    var text := EntryText(name);
    EntryTextWords(name);
    NameChars(name);
    TrimmedIsFixed(text);
    CutPlain(text);
    NoLabel(text);
    LowerEntry();
    WordOfName(name);
  }

  lemma SpaceFirst(t: string)
    requires t != [] && !IsSpace(t[0])
    ensures Word([' '] + t) == Word(t)
  {
    assert ([' '] + t)[1..] == t;
  }

  lemma NamesApart(name: string, extra: string)
    requires ValidLabelName(name) && ValidLabelName(extra)
    ensures var rest := name + [' '] + extra;
            && Trimmed(rest) && Trimmed(extra) && !IsSpace(rest[0]) && rest[0] == name[0]
            && (forall i :: 0 <= i < |rest| ==> rest[i] != '\n')
  {
    NameChars(name);
    NameChars(extra);
  }

  lemma SecondWord(name: string, extra: string)
    requires ValidLabelName(name) && ValidLabelName(extra)
    ensures Word([' '] + (name + [' '] + extra)) == (name, [' '] + extra)
  {
    NamesApart(name, extra);
    NameChars(name);
    hide *;
    WordAndRestAt(name, extra);
    SpaceFirst(name + [' '] + extra);
  }

  lemma FirstWord(rest: string)
    requires Trimmed(rest) && rest != [] && forall i :: 0 <= i < |rest| ==> rest[i] != '\n'
    ensures Trimmed(ENTRY + [' '] + rest) && Word(ENTRY + [' '] + rest) == (ENTRY, [' '] + rest)
  {
    hide Word, WordAndRest;
    WordAndRestAt(ENTRY, rest);
    var text := ENTRY + [' '] + rest;
    assert text[|text| - 1] == rest[|rest| - 1];
  }

  /** `.entry name extra`: a second word makes the directive wrong. */
  lemma OneNameLaw(name: string, extra: string)
    requires ValidLabelName(name) && ValidLabelName(extra)
    ensures ParseEntry(ENTRY + [' '] + (name + [' '] + extra)) == Err
  {
    NamesApart(name, extra);
    NameChars(extra);
    FirstWord(name + [' '] + extra);
    SecondWord(name, extra);
    WordOfName(extra);
    hide ValidLabelName, AllowedLabel, Word, Lower, Trim, Trimmed;
    TrimmedIsFixed(ENTRY + [' '] + (name + [' '] + extra));
  }

  // ----- What pass 1 remembers of it -----

  lemma EntryIsNoSection(rest: string)
    requires IsEntryDirective(rest)
    ensures rest != [] && !IsSectionDirective(rest)
  {
    var t := Trim(rest);
    hide Trim, WordEnd, TrimLeft;
    assert Word(t).0 == TrimLeft(t)[..WordEnd(TrimLeft(t))];
    assert Lower(Word(t).0)[1] == 'e';
    EntryWord(t);
    assert |Lower(t)| == |t| && |Lower(Word(t).0)| == |Word(t).0|;
  }

  lemma EntryWord(t: string)
    requires Lower(Word(t).0) == ".entry"
    ensures |t| >= 6
    ensures Lower(t) != ".text" && Lower(t) != ".data" && t != []
  {
    assert |Lower(Word(t).0)| == |Word(t).0| == 6;
    assert |Lower(t)| == |t|;
  }

  lemma EntryRest(s: Symbols, hadLabel: bool, rest: string)
    requires CollectRest(s, hadLabel, rest).Ok?
    ensures var t := CollectRest(s, hadLabel, rest).value;
            if IsEntryDirective(rest)
            then s.entry.None? && ParseEntry(rest).Ok? && t.entry == Some(ParseEntry(rest).value)
            else t.entry == s.entry
  {
    if IsEntryDirective(rest) {
      EntryIsNoSection(rest);
    }
    hide IsSectionDirective, IsEntryDirective, ParseEntry, DataBytes, SectionOf;
  }

  lemma EntryOfLine(lines: Source, k: nat)
    requires k < |lines| && CollectTo(lines, k + 1).Ok?
    ensures CollectTo(lines, k).Ok?
    ensures var s, t, rest := CollectTo(lines, k).value, CollectTo(lines, k + 1).value, LineRest(lines[k]);
            if IsEntryDirective(rest)
            then s.entry.None? && ParseEntry(rest).Ok? && t.entry == Some(ParseEntry(rest).value)
            else t.entry == s.entry
  {
    CollectOnce(lines, k);
    hide CollectTo, AddLabels, CollectRest, IsEntryDirective, ParseEntry, LineRest, LineLabels;
    var s, names := CollectTo(lines, k).value, LineLabels(lines[k]);
    AddLabelsKeepsCounts(s, names);
    EntryRest(AddLabels(s, names).value, names != [], LineRest(lines[k]));
  }

  /** The entry pass 1 has seen in the first k lines: that of their one `.entry` line. */
  lemma {:induction false} EntryComesFromLine(lines: Source, k: nat, i: nat)
    requires i < k <= |lines| && CollectTo(lines, k).Ok? && IsEntryDirective(LineRest(lines[i]))
    ensures ParseEntry(LineRest(lines[i])).Ok?
    ensures CollectTo(lines, k).value.entry == Some(ParseEntry(LineRest(lines[i])).value)
  {
    hide CollectTo, IsEntryDirective, ParseEntry, LineRest;
    EntryOfLine(lines, k - 1);
    if i < k - 1 {
      EntryComesFromLine(lines, k - 1, i);
    }
  }

  lemma {:induction false} NoEntryLine(lines: Source, k: nat)
    requires k <= |lines| && CollectTo(lines, k).Ok?
    requires forall i :: 0 <= i < k ==> !IsEntryDirective(LineRest(lines[i]))
    ensures CollectTo(lines, k).value.entry == None
  {
    hide CollectTo, IsEntryDirective, ParseEntry, LineRest;
    NothingYet(lines, map[]);
    if k > 0 {
      EntryOfLine(lines, k - 1);
      NoEntryLine(lines, k - 1);
    }
  }

  // ----- The loader's answer -----

  lemma BootSections(p: Assembled, m: seq<byte>, codeBase: nat)
    requires Boot(p, |m|, codeBase).Ok?
    ensures Pipeline(p, m, codeBase).Ok? && p.entry < |p.instructions|
    ensures Boot(p, |m|, codeBase).value
         == Loader.Image(codeBase, codeBase + 24 * p.entry, 24 * |p.instructions|, p.dataBase, |p.data|)
  {
    hide Isa.EncodeProgram, Loader.Loaded, Delivered;
    DeliveredUnchanged(p);
  }

  /** Without an `.entry` line the program starts at its first instruction. */
  lemma DefaultEntryLaw(lines: Source, m: seq<byte>, codeBase: nat)
    requires Assemble(lines).Ok? && Boot(Assemble(lines).value, |m|, codeBase).Ok?
    requires forall i :: 0 <= i < |lines| ==> !IsEntryDirective(LineRest(lines[i]))
    ensures Boot(Assemble(lines).value, |m|, codeBase).value.entry == codeBase
  {
    AssembledPasses(lines);
    hide Assemble, CollectTo, EmitTo, Boot, IsEntryDirective, LineRest;
    NoEntryLine(lines, |lines|);
    BootSections(Assemble(lines).value, m, codeBase);
  }

  /**
   * A program with the line `.entry name` starts at the instruction after the
   * label: past the instructions emitted before the line that declares it.
   */
  lemma EntryLaw(lines: Source, m: seq<byte>, codeBase: nat, i: nat, name: string, d: nat)
    requires Assemble(lines).Ok? && Boot(Assemble(lines).value, |m|, codeBase).Ok?
    requires i < |lines| && ValidLabelName(name) && lines[i] == EntryText(name)
    requires d < |lines| && name in LineLabels(lines[d])
    ensures var before := EmitTo(lines, Assemble(lines).value.dataLabels, d);
            && before.Ok?
            && Boot(Assemble(lines).value, |m|, codeBase).value.entry == codeBase + 24 * |before.value.instructions|
  {
    AssembledPasses(lines);
    hide Assemble, CollectTo, EmitTo, Boot, IsEntryDirective, ParseEntry, LineRest, LineLabels, ValidLabelName,
      AllowedLabel, EntryText;
    EntryLineText(name);
    EntryComesFromLine(lines, |lines|, i);
    BootSections(Assemble(lines).value, m, codeBase);
    LabelsArePositions(lines, d, name);
    EntryIsLabelled(lines);
  }

  // ----- The instruction there -----

  /** Line n is the first from line d on that holds an instruction. */
  ghost predicate FirstCodeLine(lines: Source, dataLabels: Labels, d: nat, n: nat) {
    && d <= n < |lines| && CodeLine(lines, dataLabels, n)
    && forall j: nat :: d <= j < n ==> !CodeLine(lines, dataLabels, j)
  }

  /** The next instruction line after line d, when pass 2 has not emitted its last instruction yet. */
  lemma {:induction false} NextCodeLine(lines: Source, dataLabels: Labels, d: nat, f: Emitted) returns (n: nat)
    requires d <= |lines| && EmitTo(lines, dataLabels, |lines|) == Ok(f)
    requires EmitTo(lines, dataLabels, d).Ok? && |EmitTo(lines, dataLabels, d).value.instructions| < |f.instructions|
    ensures FirstCodeLine(lines, dataLabels, d, n)
    ensures ParseInstruction(LineRest(lines[n]), dataLabels)
         == Ok(f.instructions[|EmitTo(lines, dataLabels, d).value.instructions|])
    decreases |lines| - d
  {
    hide EmitTo, LineRest, CodeLine, ParseInstruction;
    if d == |lines| {
      assert false;
    } else {
      EmitPrefixOk(lines, dataLabels, d + 1, |lines|);
      var e, g := EmitTo(lines, dataLabels, d).value, EmitTo(lines, dataLabels, d + 1).value;
      CodeLineEmits(lines, dataLabels, d, g);
      if CodeLine(lines, dataLabels, d) {
        n := d;
        EmitGrows(lines, dataLabels, d + 1, |lines|, f);
        assert g.instructions[|e.instructions|] == f.instructions[|e.instructions|];
      } else {
        n := NextCodeLine(lines, dataLabels, d + 1, f);
      }
    }
  }

  /** The 24 bytes at `at` are the instruction's. */
  predicate Lies(r: seq<byte>, at: nat, i: Isa.Instruction, labels: Labels) {
    && at + 24 <= |r|
    && Laid(r[at..at + 24], i.opcode) && Written(r[at..at + 24], 0, i.dst, labels)
    && Written(r[at..at + 24], 1, i.src, labels)
  }

  /** Every instruction's bytes, where it is loaded. */
  lemma InstructionBytes(lines: Source, m: seq<byte>, codeBase: nat, j: nat)
    requires Assemble(lines).Ok? && Pipeline(Assemble(lines).value, m, codeBase).Ok?
    requires j < |Assemble(lines).value.instructions|
    ensures var p, r := Assemble(lines).value, Pipeline(Assemble(lines).value, m, codeBase).value;
            Lies(r, codeBase + 24 * j, p.instructions[j], p.labels)
  {
    hide Assemble, Pipeline, ToBinary, Isa.EncodeProgram, Isa.EncodeInstruction, Laid, Written;
    var p := Assemble(lines).value;
    var r := Pipeline(p, m, codeBase).value;
    PipelineSections(p, m, codeBase);
    var code := Isa.EncodeProgram(p.instructions, p.labels).value;
    Isa.EncodeProgramSlot(p.instructions, p.labels, j);
    SliceOfSlice(r, codeBase, |code|, 24 * j, 24);
    EncodingLaw(p.instructions[j], p.labels, r[codeBase + 24 * j..codeBase + 24 * j + 24]);
  }

  lemma NextInstruction(lines: Source, d: nat) returns (n: nat)
    requires Assemble(lines).Ok? && d <= |lines| && EmitTo(lines, Assemble(lines).value.dataLabels, d).Ok?
    requires var p := Assemble(lines).value;
             |EmitTo(lines, p.dataLabels, d).value.instructions| < |p.instructions|
    ensures var p := Assemble(lines).value;
            && FirstCodeLine(lines, p.dataLabels, d, n)
            && ParseInstruction(LineRest(lines[n]), p.dataLabels)
               == Ok(p.instructions[|EmitTo(lines, p.dataLabels, d).value.instructions|])
  {
    AssembledPasses(lines);
    hide *;
    n := NextCodeLine(lines, Assemble(lines).value.dataLabels, d,
                      EmitTo(lines, Assemble(lines).value.dataLabels, |lines|).value);
  }

  /**
   * The 24 bytes at the entry are those of the first instruction line after
   * the label that `.entry` names.
   */
  lemma EntryInstructionLaw(lines: Source, m: seq<byte>, codeBase: nat, i: nat, name: string, d: nat) returns (n: nat)
    requires Assemble(lines).Ok? && Boot(Assemble(lines).value, |m|, codeBase).Ok?
    requires i < |lines| && ValidLabelName(name) && lines[i] == EntryText(name)
    requires d < |lines| && name in LineLabels(lines[d])
    ensures FirstCodeLine(lines, Assemble(lines).value.dataLabels, d, n)
    ensures var p := Assemble(lines).value;
            var x := ParseInstruction(LineRest(lines[n]), p.dataLabels);
            && x.Ok? && Pipeline(p, m, codeBase).Ok?
            && Lies(Pipeline(p, m, codeBase).value, Boot(p, |m|, codeBase).value.entry, x.value, p.labels)
  {
    hide *;
    EntryLaw(lines, m, codeBase, i, name, d);
    var p := Assemble(lines).value;
    BootSections(p, m, codeBase);
    n := NextInstruction(lines, d);
    InstructionBytes(lines, m, codeBase, |EmitTo(lines, p.dataLabels, d).value.instructions|);
  }
}

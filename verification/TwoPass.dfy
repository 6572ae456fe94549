// The assembler's two passes agree: every label is the position pass 2 has
// reached when it comes to the label's line.
module TwoPass {
  import opened Words
  import opened MemoryMap
  import opened Assembler
  import Isa

  lemma NothingYet(lines: Source, dataLabels: Labels)
    ensures CollectTo(lines, 0) == Ok(NO_SYMBOLS) && EmitTo(lines, dataLabels, 0) == Ok(NOTHING_EMITTED)
    ensures SameCounts(NO_SYMBOLS, NOTHING_EMITTED) && OnePerInstruction(NOTHING_EMITTED, 0)
    ensures AllParse(lines, dataLabels, 0)
  {
    hide CollectLine, EmitRest, LineRest;
  }

  lemma CollectOnce(lines: Source, k: nat)
    requires k < |lines|
    ensures CollectTo(lines, k + 1)
         == var before := CollectTo(lines, k);
            if before.Err? then Err else CollectLine(before.value, lines[k])
  {
    hide CollectLine;
  }

  /** Pass 1 succeeded on a prefix if it succeeded on more. */
  lemma {:induction false} CollectPrefixOk(lines: Source, j: nat, k: nat)
    requires j <= k <= |lines| && CollectTo(lines, k).Ok?
    ensures CollectTo(lines, j).Ok?
    decreases k - j
  {
    hide CollectTo, CollectLine;
    if j < k {
      CollectOnce(lines, k - 1);
      CollectPrefixOk(lines, j, k - 1);
    }
  }

  lemma {:induction false} EmitPrefixOk(lines: Source, dataLabels: Labels, j: nat, k: nat)
    requires j <= k <= |lines| && EmitTo(lines, dataLabels, k).Ok?
    ensures EmitTo(lines, dataLabels, j).Ok?
    decreases k - j
  {
    hide EmitTo, EmitRest, LineRest;
    if j < k {
      EmitOnce(lines, dataLabels, k - 1);
      EmitPrefixOk(lines, dataLabels, j, k - 1);
    }
  }

  // ----- Counting -----

  predicate SameCounts(s: Symbols, e: Emitted) {
    && s.section == e.section
    && s.instructions == |e.instructions| == |e.sourceLines|
    && s.dataSize == |e.data|
  }

  lemma RestAgrees(s: Symbols, hadLabel: bool, e: Emitted, rest: string, lineNumber: nat, dataLabels: Labels)
    requires SameCounts(s, e)
    requires CollectRest(s, hadLabel, rest).Ok? && EmitRest(e, rest, lineNumber, dataLabels).Ok?
    ensures SameCounts(CollectRest(s, hadLabel, rest).value, EmitRest(e, rest, lineNumber, dataLabels).value)
  {
    hide IsSectionDirective, IsEntryDirective, ParseEntry, DataBytes, ParseInstruction, SectionOf;
  }

  lemma {:induction false} AddLabelsKeepsCounts(s: Symbols, names: seq<string>)
    requires s.instructions < 0x1_0000_0000_0000_0000 && AddLabels(s, names).Ok?
    ensures var t := AddLabels(s, names).value;
            t.section == s.section && t.dataSize == s.dataSize && t.entry == s.entry && t.instructions == s.instructions
    decreases |names|
  {
    hide AllowedLabel;
    if names != [] {
      AddLabelsKeepsCounts(AddLabel(s, names[0]).value, names[1..]);
    }
  }

  /** Line by line, both passes are in the same section and have counted the same instructions and bytes. */
  lemma {:induction false} PassesAgree(lines: Source, dataLabels: Labels, k: nat)
    requires k <= |lines| && CollectTo(lines, k).Ok? && EmitTo(lines, dataLabels, k).Ok?
    ensures SameCounts(CollectTo(lines, k).value, EmitTo(lines, dataLabels, k).value)
  {
    hide CollectTo, EmitTo, CollectRest, EmitRest, SameCounts, AddLabels, LineRest, LineLabels;
    NothingYet(lines, dataLabels);
    if k == 0 {
    } else {
      CollectOnce(lines, k - 1);
      EmitOnce(lines, dataLabels, k - 1);
      PassesAgree(lines, dataLabels, k - 1);
      var s, e := CollectTo(lines, k - 1).value, EmitTo(lines, dataLabels, k - 1).value;
      var t := AddLabels(s, LineLabels(lines[k - 1])).value;
      AddLabelsKeepsCounts(s, LineLabels(lines[k - 1]));
      SameCountsDependsOnCounts(s, t, e);
      RestAgrees(t, LineLabels(lines[k - 1]) != [], e, LineRest(lines[k - 1]), k, dataLabels);
    }
  }

  lemma SameCountsDependsOnCounts(s: Symbols, t: Symbols, e: Emitted)
    requires SameCounts(s, e)
    requires t.section == s.section && t.dataSize == s.dataSize && t.instructions == s.instructions
    ensures SameCounts(t, e)
  {
  }

  // ----- Labels -----

  // What the labels of one line add to the tables.
  ghost predicate LabelsAdded(s: Symbols, names: seq<string>, t: Symbols) {
    && (forall n :: n in s.code ==> n in t.code && t.code[n] == s.code[n])
    && (forall n :: n in s.data ==> n in t.data && t.data[n] == s.data[n])
    && (forall n :: n in names ==> n !in s.code && n !in s.data && AllowedLabel(n))
    && (s.section.TextSection? ==>
          (forall n :: n in t.code ==> n in s.code || n in names) && t.data == s.data
          && forall n :: n in names ==> n in t.code && t.code[n] == s.instructions)
    && (s.section.DataSection? ==>
          (forall n :: n in t.data ==> n in s.data || n in names) && t.code == s.code
          && forall n :: n in names ==> n in t.data && t.data[n] == USER_DATA_BASE + s.dataSize)
  }

  lemma OneLabelAdded(s: Symbols, name: string)
    requires s.instructions < 0x1_0000_0000_0000_0000 && AddLabel(s, name).Ok?
    ensures LabelsAdded(s, [name], AddLabel(s, name).value)
  {
    hide AllowedLabel;
  }

  lemma LabelsAddedChain(s: Symbols, name: string, t: Symbols, names: seq<string>, u: Symbols)
    requires LabelsAdded(s, [name], t) && LabelsAdded(t, names, u)
    requires t.section == s.section && t.dataSize == s.dataSize && t.instructions == s.instructions
    ensures LabelsAdded(s, [name] + names, u)
  {
    assert name in [name];
  }

  lemma AddLabelsOnce(s: Symbols, names: seq<string>)
    requires s.instructions < 0x1_0000_0000_0000_0000 && names != [] && AddLabels(s, names).Ok?
    ensures AddLabel(s, names[0]).Ok?
    ensures var t := AddLabel(s, names[0]).value;
            t.section == s.section && t.dataSize == s.dataSize && t.instructions == s.instructions
            && AddLabels(t, names[1..]) == AddLabels(s, names)
  {
    hide AllowedLabel;
  }

  lemma {:induction false} AddLabelsAdds(s: Symbols, names: seq<string>)
    requires s.instructions < 0x1_0000_0000_0000_0000 && AddLabels(s, names).Ok?
    ensures LabelsAdded(s, names, AddLabels(s, names).value)
    decreases |names|
  {
    if names == [] {
    } else {
      hide LabelsAdded, AllowedLabel, AddLabels, AddLabel;
      AddLabelsOnce(s, names);
      OneLabelAdded(s, names[0]);
      var t := AddLabel(s, names[0]).value;
      AddLabelsAdds(t, names[1..]);
      LabelsAddedChain(s, names[0], t, names[1..], AddLabels(t, names[1..]).value);
      assert [names[0]] + names[1..] == names;
    }
  }

  lemma RestKeepsLabels(s: Symbols, hadLabel: bool, rest: string)
    requires CollectRest(s, hadLabel, rest).Ok?
    ensures CollectRest(s, hadLabel, rest).value.code == s.code && CollectRest(s, hadLabel, rest).value.data == s.data
  {
    hide IsSectionDirective, IsEntryDirective, ParseEntry, DataBytes, SectionOf;
  }

  /** What line k adds to the label tables. */
  lemma LineAddsLabels(lines: Source, k: nat)
    requires k < |lines| && CollectTo(lines, k + 1).Ok?
    ensures CollectTo(lines, k).Ok?
    ensures LabelsAdded(CollectTo(lines, k).value, LineLabels(lines[k]), CollectTo(lines, k + 1).value)
  {
    CollectOnce(lines, k);
    hide CollectTo, LabelsAdded, AddLabels, CollectRest, LineLabels, LineRest;
    var s, names := CollectTo(lines, k).value, LineLabels(lines[k]);
    var t := AddLabels(s, names).value;
    AddLabelsAdds(s, names);
    RestKeepsLabels(t, names != [], LineRest(lines[k]));
    LabelsAddedDependsOnTables(s, names, t, CollectTo(lines, k + 1).value);
  }

  lemma LabelsAddedDependsOnTables(s: Symbols, names: seq<string>, t: Symbols, u: Symbols)
    requires LabelsAdded(s, names, t) && u.code == t.code && u.data == t.data
    ensures LabelsAdded(s, names, u)
  {
  }

  ghost predicate LabelIs(s: Symbols, name: string, at: Symbols) {
    if at.section.TextSection? then name in s.code && s.code[name] == at.instructions
    else name in s.data && s.data[name] == USER_DATA_BASE + at.dataSize
  }

  /** A label is the instruction count or the data offset at the start of its line. */
  lemma {:induction false} LabelMeaning(lines: Source, k: nat, i: nat, name: string)
    requires i < k <= |lines| && CollectTo(lines, k).Ok? && name in LineLabels(lines[i])
    ensures CollectTo(lines, i).Ok? && LabelIs(CollectTo(lines, k).value, name, CollectTo(lines, i).value)
    decreases k
  {
    hide CollectTo, LineLabels;
    CollectPrefixOk(lines, i, k);
    LineAddsLabels(lines, k - 1);
    if i < k - 1 {
      LabelMeaning(lines, k - 1, i, name);
    }
  }

  // The line a label is declared on.
  ghost predicate DeclaredAt(lines: Source, i: nat, name: string, section: Section)
    requires i < |lines|
  {
    name in LineLabels(lines[i]) && CollectTo(lines, i).Ok? && CollectTo(lines, i).value.section == section
  }

  /** Every label in the tables is declared on some line, in the section its table is for. */
  lemma {:induction false} LabelHasLine(lines: Source, k: nat, name: string) returns (i: nat)
    requires k <= |lines| && CollectTo(lines, k).Ok?
    requires name in CollectTo(lines, k).value.code || name in CollectTo(lines, k).value.data
    ensures i < k
    ensures DeclaredAt(lines, i, name, if name in CollectTo(lines, k).value.code then TextSection else DataSection)
  {
    hide CollectTo, LineLabels;
    NothingYet(lines, map[]);
    if k == 0 {
      assert false;
    } else {
      LineAddsLabels(lines, k - 1);
      if name in LineLabels(lines[k - 1]) {
        i := k - 1;
        LabelSection(CollectTo(lines, k - 1).value, LineLabels(lines[k - 1]), CollectTo(lines, k).value, name);
      } else {
        i := LabelHasLine(lines, k - 1, name);
        LabelKept(CollectTo(lines, k - 1).value, LineLabels(lines[k - 1]), CollectTo(lines, k).value, name);
      }
    }
  }

  lemma LabelSection(s: Symbols, names: seq<string>, t: Symbols, name: string)
    requires LabelsAdded(s, names, t) && name in names
    ensures name in t.code <==> s.section.TextSection?
  {
  }

  lemma LabelKept(s: Symbols, names: seq<string>, t: Symbols, name: string)
    requires LabelsAdded(s, names, t) && name !in names
    ensures name in t.code <==> name in s.code
    ensures name in t.data <==> name in s.data
  {
  }

  lemma LabelsAddedKeepsDisjoint(s: Symbols, names: seq<string>, t: Symbols)
    requires LabelsAdded(s, names, t) && s.code.Keys !! s.data.Keys
    ensures t.code.Keys !! t.data.Keys
  {
  }

  /** No name is both a code label and a data label. */
  lemma {:induction false} LabelSetsAreDisjoint(lines: Source, k: nat)
    requires k <= |lines| && CollectTo(lines, k).Ok?
    ensures CollectTo(lines, k).value.code.Keys !! CollectTo(lines, k).value.data.Keys
  {
    hide CollectTo, LineLabels, LabelsAdded;
    NothingYet(lines, map[]);
    if k == 0 {
    } else {
      LineAddsLabels(lines, k - 1);
      LabelSetsAreDisjoint(lines, k - 1);
      LabelsAddedKeepsDisjoint(CollectTo(lines, k - 1).value, LineLabels(lines[k - 1]), CollectTo(lines, k).value);
    }
  }

  /** Every label in the tables has an allowed name. */
  lemma LabelIsAllowed(lines: Source, k: nat, name: string)
    requires k <= |lines| && CollectTo(lines, k).Ok?
    requires name in CollectTo(lines, k).value.code || name in CollectTo(lines, k).value.data
    ensures AllowedLabel(name)
  {
    hide CollectTo, LineLabels, AllowedLabel;
    var i := LabelHasLine(lines, k, name);
    CollectPrefixOk(lines, i + 1, k);
    LineAddsLabels(lines, i);
  }

  /** A label is declared once. */
  lemma {:induction false} LabelIsUnique(lines: Source, i: nat, j: nat, name: string)
    requires i < j < |lines| && CollectTo(lines, j + 1).Ok?
    requires name in LineLabels(lines[i])
    ensures name !in LineLabels(lines[j])
  {
    hide CollectTo, LineLabels;
    LineAddsLabels(lines, j);
    LabelMeaning(lines, j, i, name);
  }

  // ----- The whole source -----

  lemma AssembledPasses(lines: Source)
    requires Assemble(lines).Ok?
    ensures var p := Assemble(lines).value;
            var s, e := CollectTo(lines, |lines|), EmitTo(lines, p.dataLabels, |lines|);
            && s.Ok? && e.Ok? && p.labels == s.value.code && p.dataLabels == s.value.data
            && p.instructions == e.value.instructions && p.sourceLines == e.value.sourceLines && p.data == e.value.data
            && p.dataBase == USER_DATA_BASE && p.entryLabel == s.value.entry && EntryOf(s.value) == Ok(p.entry)
  {
    hide CollectTo, EmitTo, EntryOf;
  }

  /**
   * Two-pass agreement: on every source that assembles, a code label is the
   * number of instructions pass 2 has emitted when it reaches the label's
   * line, and a data label is the data base plus the bytes emitted so far.
   */
  lemma LabelsArePositions(lines: Source, i: nat, name: string)
    requires Assemble(lines).Ok? && i < |lines| && name in LineLabels(lines[i])
    ensures var p := Assemble(lines).value;
            var e := EmitTo(lines, p.dataLabels, i);
            && e.Ok?
            && if e.value.section.TextSection?
               then name in p.labels && name !in p.dataLabels && p.labels[name] == |e.value.instructions|
               else name in p.dataLabels && name !in p.labels && p.dataLabels[name] == p.dataBase + |e.value.data|
  {
    AssembledPasses(lines);
    hide CollectTo, EmitTo, Assemble, LineLabels, EntryOf;
    var p := Assemble(lines).value;
    LabelMeaning(lines, |lines|, i, name);
    EmitPrefixOk(lines, p.dataLabels, i, |lines|);
    PassesAgree(lines, p.dataLabels, i);
    LabelSetsAreDisjoint(lines, |lines|);
  }

  /** Every label of the program comes from a line of its section, so the tables hold nothing else. */
  lemma LabelsComeFromLines(lines: Source, name: string) returns (i: nat)
    requires Assemble(lines).Ok? && (name in Assemble(lines).value.labels || name in Assemble(lines).value.dataLabels)
    ensures i < |lines|
    ensures DeclaredAt(lines, i, name, if name in Assemble(lines).value.labels then TextSection else DataSection)
  {
    AssembledPasses(lines);
    hide CollectTo, EmitTo, Assemble, DeclaredAt, EntryOf;
    i := LabelHasLine(lines, |lines|, name);
  }

  /** The data emitted is what pass 1 sized, and it fits the user data region. */
  lemma DataFits(lines: Source)
    requires Assemble(lines).Ok?
    ensures var p := Assemble(lines).value;
            |p.data| == CollectTo(lines, |lines|).value.dataSize <= USER_DATA_SIZE
    ensures |Assemble(lines).value.instructions| <= |lines|
  {
    AssembledPasses(lines);
    hide CollectTo, EmitTo, Assemble, EntryOf;
    PassesAgree(lines, Assemble(lines).value.dataLabels, |lines|);
  }

  /** The entry is an instruction index the program's own label table gives, or the first instruction. */
  lemma EntryIsLabelled(lines: Source)
    requires Assemble(lines).Ok?
    ensures var p := Assemble(lines).value;
            if p.entryLabel.None? then p.entry == 0
            else p.entryLabel.value in p.labels && p.entryLabel.value !in p.dataLabels
                 && p.entry == p.labels[p.entryLabel.value]
  {
    AssembledPasses(lines);
    hide CollectTo, EmitTo, Assemble;
  }

  // ----- Source lines -----

  ghost predicate Increasing(ns: seq<nat>, bound: nat) {
    && (forall i :: 0 <= i < |ns| ==> 1 <= ns[i] <= bound)
    && (forall i, j :: 0 <= i < j < |ns| ==> ns[i] < ns[j])
  }

  ghost predicate OnePerInstruction(e: Emitted, bound: nat) {
    Increasing(e.sourceLines, bound) && |e.sourceLines| == |e.instructions|
  }

  ghost predicate Extends(e: Emitted, f: Emitted) {
    e.instructions <= f.instructions && e.sourceLines <= f.sourceLines && e.data <= f.data
  }

  lemma RestKeepsIncreasing(e: Emitted, rest: string, k: nat, dataLabels: Labels)
    requires EmitRest(e, rest, k + 1, dataLabels).Ok?
    ensures OnePerInstruction(e, k) ==> OnePerInstruction(EmitRest(e, rest, k + 1, dataLabels).value, k + 1)
    ensures Extends(e, EmitRest(e, rest, k + 1, dataLabels).value)
  {
    hide IsSectionDirective, IsEntryDirective, DataBytes, ParseInstruction, SectionOf;
  }

  /** Source lines are 1-based, strictly increasing, and one per instruction. */
  lemma {:induction false} SourceLinesIncrease(lines: Source, dataLabels: Labels, k: nat, e: Emitted)
    requires k <= |lines| && EmitTo(lines, dataLabels, k) == Ok(e)
    ensures OnePerInstruction(e, k)
  {
    hide EmitTo, EmitRest, LineRest, OnePerInstruction, Extends;
    NothingYet(lines, dataLabels);
    if k == 0 {
    } else {
      EmitOnce(lines, dataLabels, k - 1);
      var d := EmitTo(lines, dataLabels, k - 1).value;
      SourceLinesIncrease(lines, dataLabels, k - 1, d);
      RestKeepsIncreasing(d, LineRest(lines[k - 1]), k - 1, dataLabels);
    }
  }

  /** What pass 2 has emitted it never changes. */
  lemma {:induction false} EmitGrows(lines: Source, dataLabels: Labels, j: nat, k: nat, f: Emitted)
    requires j <= k <= |lines| && EmitTo(lines, dataLabels, k) == Ok(f)
    ensures EmitTo(lines, dataLabels, j).Ok? && Extends(EmitTo(lines, dataLabels, j).value, f)
    decreases k - j
  {
    hide EmitTo, EmitRest, LineRest, OnePerInstruction;
    if j < k {
      hide Extends;
      EmitOnce(lines, dataLabels, k - 1);
      var d := EmitTo(lines, dataLabels, k - 1).value;
      EmitGrows(lines, dataLabels, j, k - 1, d);
      RestKeepsIncreasing(d, LineRest(lines[k - 1]), k - 1, dataLabels);
      ExtendsChain(EmitTo(lines, dataLabels, j).value, d, f);
    }
  }

  lemma ExtendsChain(e: Emitted, d: Emitted, f: Emitted)
    requires Extends(e, d) && Extends(d, f)
    ensures Extends(e, f)
  {
  }

  /** Line i holds an instruction. */
  ghost predicate CodeLine(lines: Source, dataLabels: Labels, i: nat)
    requires i < |lines|
  {
    var rest := LineRest(lines[i]);
    && EmitTo(lines, dataLabels, i).Ok? && EmitTo(lines, dataLabels, i).value.section.TextSection?
    && rest != [] && !IsSectionDirective(rest) && !IsEntryDirective(rest)
  }

  lemma CodeLineEmits(lines: Source, dataLabels: Labels, i: nat, f: Emitted)
    requires i < |lines| && EmitTo(lines, dataLabels, i + 1) == Ok(f)
    ensures EmitTo(lines, dataLabels, i).Ok?
    ensures var e := EmitTo(lines, dataLabels, i).value;
            if CodeLine(lines, dataLabels, i)
            then ParseInstruction(LineRest(lines[i]), dataLabels).Ok?
                 && f.instructions == e.instructions + [ParseInstruction(LineRest(lines[i]), dataLabels).value]
                 && f.sourceLines == e.sourceLines + [i + 1]
            else f.instructions == e.instructions && f.sourceLines == e.sourceLines
  {
    EmitOnce(lines, dataLabels, i);
    hide EmitTo, LineRest, IsSectionDirective, IsEntryDirective, DataBytes, ParseInstruction, SectionOf;
  }

  // Line n - 1 is where instruction j of the program comes from.
  ghost predicate Origin(lines: Source, dataLabels: Labels, n: nat, j: nat, instruction: Isa.Instruction)
    requires 1 <= n <= |lines|
  {
    && CodeLine(lines, dataLabels, n - 1)
    && ParseInstruction(LineRest(lines[n - 1]), dataLabels) == Ok(instruction)
    && |EmitTo(lines, dataLabels, n - 1).value.instructions| == j
  }

  /** Instruction j comes from the text of the line its source line names. */
  lemma {:induction false} SourceLineIsOrigin(lines: Source, dataLabels: Labels, k: nat, e: Emitted, j: nat)
    requires k <= |lines| && EmitTo(lines, dataLabels, k) == Ok(e) && j < |e.instructions| == |e.sourceLines|
    ensures 1 <= e.sourceLines[j] <= k && Origin(lines, dataLabels, e.sourceLines[j], j, e.instructions[j])
  {
    hide EmitTo, LineRest, CodeLine, ParseInstruction, Increasing;
    NothingYet(lines, dataLabels);
    if k == 0 {
      assert false;
    } else {
      CodeLineEmits(lines, dataLabels, k - 1, e);
      var d := EmitTo(lines, dataLabels, k - 1).value;
      SourceLinesIncrease(lines, dataLabels, k - 1, d);
      if j < |d.instructions| {
        SourceLineIsOrigin(lines, dataLabels, k - 1, d, j);
        hide Origin;
        assert e.sourceLines[j] == d.sourceLines[j] && e.instructions[j] == d.instructions[j];
      }
    }
  }

  // ----- When pass 2 fails -----

  lemma EmitRestOkIff(e: Emitted, s: Symbols, hadLabel: bool, rest: string, lineNumber: nat, dataLabels: Labels)
    requires e.section == s.section && CollectRest(s, hadLabel, rest).Ok?
    ensures EmitRest(e, rest, lineNumber, dataLabels).Ok?
       <==> (e.section.TextSection? && rest != [] && !IsSectionDirective(rest) && !IsEntryDirective(rest)
             ==> ParseInstruction(rest, dataLabels).Ok?)
  {
    hide IsSectionDirective, IsEntryDirective, ParseEntry, DataBytes, ParseInstruction, SectionOf;
  }

  ghost predicate AllParse(lines: Source, dataLabels: Labels, k: nat)
    requires k <= |lines|
  {
    forall i: nat :: i < k && CodeLine(lines, dataLabels, i) ==> ParseInstruction(LineRest(lines[i]), dataLabels).Ok?
  }

  lemma AllParseLast(lines: Source, dataLabels: Labels, k: nat)
    requires k < |lines|
    ensures AllParse(lines, dataLabels, k + 1)
       <==> AllParse(lines, dataLabels, k)
            && (CodeLine(lines, dataLabels, k) ==> ParseInstruction(LineRest(lines[k]), dataLabels).Ok?)
  {
    hide CodeLine, ParseInstruction, LineRest;
  }

  lemma LineEmitsIff(lines: Source, dataLabels: Labels, k: nat)
    requires k < |lines| && CollectTo(lines, k + 1).Ok? && EmitTo(lines, dataLabels, k).Ok?
    ensures EmitTo(lines, dataLabels, k + 1).Ok?
       <==> (CodeLine(lines, dataLabels, k) ==> ParseInstruction(LineRest(lines[k]), dataLabels).Ok?)
  {
    CollectOnce(lines, k);
    EmitOnce(lines, dataLabels, k);
    hide CollectTo, EmitTo, EmitRest, CollectRest, AddLabels, LineRest, LineLabels, ParseInstruction,
      IsSectionDirective, IsEntryDirective, SameCounts;
    var e, s, names := EmitTo(lines, dataLabels, k).value, CollectTo(lines, k).value, LineLabels(lines[k]);
    AddLabelsKeepsCounts(s, names);
    PassesAgree(lines, dataLabels, k);
    SameSection(s, e);
    EmitRestOkIff(e, AddLabels(s, names).value, names != [], LineRest(lines[k]), k + 1, dataLabels);
  }

  /**
   * Pass 2 re-does pass 1's work without its checks, and needs none of them:
   * once pass 1 has accepted the source, only an unparsable instruction can
   * make pass 2 fail.
   */
  lemma {:induction false} SecondPassFailsOnlyOnInstructions(lines: Source, dataLabels: Labels, k: nat)
    requires k <= |lines| && CollectTo(lines, k).Ok?
    ensures EmitTo(lines, dataLabels, k).Ok? <==> AllParse(lines, dataLabels, k)
  {
    hide CollectTo, EmitTo, LineRest, ParseInstruction, CodeLine, AllParse;
    NothingYet(lines, dataLabels);
    if k == 0 {
    } else {
      CollectPrefixOk(lines, k - 1, k);
      SecondPassFailsOnlyOnInstructions(lines, dataLabels, k - 1);
      AllParseLast(lines, dataLabels, k - 1);
      if EmitTo(lines, dataLabels, k - 1).Ok? {
        LineEmitsIff(lines, dataLabels, k - 1);
      } else {
        EmitFailsNext(lines, dataLabels, k - 1);
      }
    }
  }

  lemma EmitFailsNext(lines: Source, dataLabels: Labels, k: nat)
    requires k < |lines| && EmitTo(lines, dataLabels, k).Err?
    ensures EmitTo(lines, dataLabels, k + 1).Err?
  {
    hide EmitRest, LineRest;
  }

  lemma SameSection(s: Symbols, e: Emitted)
    requires SameCounts(s, e)
    ensures s.section == e.section
  {
  }

  // ----- Data bytes -----

  /** Line i holds a data directive. */
  ghost predicate DataLine(lines: Source, dataLabels: Labels, i: nat)
    requires i < |lines|
  {
    var rest := LineRest(lines[i]);
    && EmitTo(lines, dataLabels, i).Ok? && EmitTo(lines, dataLabels, i).value.section.DataSection?
    && rest != [] && !IsSectionDirective(rest) && !IsEntryDirective(rest)
  }

  lemma DataLineEmits(lines: Source, dataLabels: Labels, i: nat)
    requires i < |lines| && EmitTo(lines, dataLabels, i + 1).Ok? && DataLine(lines, dataLabels, i)
    ensures DataBytes(LineRest(lines[i])).Ok?
    ensures EmitTo(lines, dataLabels, i).Ok? && EmitTo(lines, dataLabels, i).value.section.DataSection?
    ensures EmitTo(lines, dataLabels, i + 1).value.data
         == EmitTo(lines, dataLabels, i).value.data + DataBytes(LineRest(lines[i])).value
  {
    EmitOnce(lines, dataLabels, i);
    hide EmitTo, LineRest, IsSectionDirective, IsEntryDirective, DataBytes, ParseInstruction, SectionOf;
  }

  lemma DataStart(lines: Source, dataLabels: Labels, i: nat, f: Emitted) returns (at: nat)
    requires i < |lines| && EmitTo(lines, dataLabels, |lines|) == Ok(f) && DataLine(lines, dataLabels, i)
    ensures EmitTo(lines, dataLabels, i).Ok? && EmitTo(lines, dataLabels, i).value.section.DataSection?
    ensures at == |EmitTo(lines, dataLabels, i).value.data|
    ensures DataBytes(LineRest(lines[i])).Ok?
    ensures var bytes := DataBytes(LineRest(lines[i])).value;
            at + |bytes| <= |f.data| && f.data[at..at + |bytes|] == bytes
  {
    hide EmitTo, LineRest, DataBytes, DataLine;
    EmitGrows(lines, dataLabels, i + 1, |lines|, f);
    DataLineEmits(lines, dataLabels, i);
    at := |EmitTo(lines, dataLabels, i).value.data|;
    var g := EmitTo(lines, dataLabels, i + 1).value.data;
    assert f.data[at..|g|] == g[at..|g|];
  }

  /** The bytes of a data line stand in the data image at the offset its labels name. */
  lemma DataLinePlaced(lines: Source, i: nat)
    requires Assemble(lines).Ok? && i < |lines| && DataLine(lines, Assemble(lines).value.dataLabels, i)
    ensures var p := Assemble(lines).value;
            var at, bytes := |EmitTo(lines, p.dataLabels, i).value.data|, DataBytes(LineRest(lines[i]));
            && bytes.Ok? && at + |bytes.value| <= |p.data| && p.data[at..at + |bytes.value|] == bytes.value
            && forall name :: name in LineLabels(lines[i]) ==>
                 name in p.dataLabels && p.dataLabels[name] == p.dataBase + at
  {
    AssembledPasses(lines);
    hide CollectTo, EmitTo, Assemble, LineRest, LineLabels, EntryOf, DataBytes, DataLine;
    var p := Assemble(lines).value;
    var at := DataStart(lines, p.dataLabels, i, EmitTo(lines, p.dataLabels, |lines|).value);
    forall name | name in LineLabels(lines[i])
      ensures name in p.dataLabels && p.dataLabels[name] == p.dataBase + at
    {
      LabelsArePositions(lines, i, name);
    }
  }
}

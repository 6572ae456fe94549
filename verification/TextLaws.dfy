// Lines of text and what the processor does with them: an instruction line,
// assembled, written to a file, loaded and stepped, computes what its mnemonic
// says (docs/isa.md).
module TextLaws {
  import opened Words
  import opened Text
  import opened Assembler
  import opened TwoPass
  import opened EndToEnd
  import opened Execution
  import I = InstructionLaws
  import opened InterruptLaws
  import ControlLaws
  import Printing
  import Isa
  import Machine

  // ----- Mnemonics -----

  lemma UpperNames()
    ensures forall op :: Upper(Printing.OpcodeName(op)) == Printing.OpcodeName(op)
  {
    hide Printing.OpcodeName;
    forall op
      ensures Upper(Printing.OpcodeName(op)) == Printing.OpcodeName(op)
    {
      Printing.UpperName(op);
    }
  }

  lemma ArithmeticWords()
    ensures Printing.Names("MOV", Isa.MOV) && Printing.Names("LOAD", Isa.LOAD)
    ensures Printing.Names("STORE", Isa.STORE) && Printing.Names("ADD", Isa.ADD)
    ensures Printing.Names("SUB", Isa.SUB) && Printing.Names("MUL", Isa.MUL)
    ensures Printing.Names("DIV", Isa.DIV)
  {
    UpperNames();
    hide Upper;
  }

  lemma LogicWords()
    ensures Printing.Names("AND", Isa.AND) && Printing.Names("OR", Isa.OR)
    ensures Printing.Names("XOR", Isa.XOR) && Printing.Names("NOT", Isa.NOT)
    ensures Printing.Names("CMP", Isa.CMP) && Printing.Names("TEST", Isa.TEST)
  {
    UpperNames();
    hide Upper;
  }

  lemma JumpWords()
    ensures Printing.Names("JMP", Isa.JMP) && Printing.Names("JE", Isa.JE)
    ensures Printing.Names("JNE", Isa.JNE) && Printing.Names("JG", Isa.JG)
    ensures Printing.Names("JL", Isa.JL)
  {
    UpperNames();
    hide Upper;
  }

  lemma StackWords()
    ensures Printing.Names("PUSH", Isa.PUSH) && Printing.Names("POP", Isa.POP)
    ensures Printing.Names("CALL", Isa.CALL) && Printing.Names("RET", Isa.RET)
    ensures Printing.Names("IRET", Isa.IRET)
  {
    UpperNames();
    hide Upper;
  }

  lemma SystemWords()
    ensures Printing.Names("EI", Isa.EI) && Printing.Names("DI", Isa.DI)
    ensures Printing.Names("INT", Isa.INT) && Printing.Names("NOP", Isa.NOP)
    ensures Printing.Names("HALT", Isa.HALT)
  {
    UpperNames();
    hide Upper;
  }

  /** Every mnemonic, and the instruction it stands for. */
  lemma WordsName()
    ensures Printing.Names("MOV", Isa.MOV) && Printing.Names("LOAD", Isa.LOAD)
    ensures Printing.Names("STORE", Isa.STORE) && Printing.Names("ADD", Isa.ADD)
    ensures Printing.Names("SUB", Isa.SUB) && Printing.Names("MUL", Isa.MUL)
    ensures Printing.Names("DIV", Isa.DIV) && Printing.Names("AND", Isa.AND)
    ensures Printing.Names("OR", Isa.OR) && Printing.Names("XOR", Isa.XOR)
    ensures Printing.Names("NOT", Isa.NOT) && Printing.Names("CMP", Isa.CMP)
    ensures Printing.Names("TEST", Isa.TEST) && Printing.Names("JMP", Isa.JMP)
    ensures Printing.Names("JE", Isa.JE) && Printing.Names("JNE", Isa.JNE)
    ensures Printing.Names("JG", Isa.JG) && Printing.Names("JL", Isa.JL)
    ensures Printing.Names("PUSH", Isa.PUSH) && Printing.Names("POP", Isa.POP)
    ensures Printing.Names("CALL", Isa.CALL) && Printing.Names("RET", Isa.RET)
    ensures Printing.Names("IRET", Isa.IRET) && Printing.Names("EI", Isa.EI)
    ensures Printing.Names("DI", Isa.DI) && Printing.Names("INT", Isa.INT)
    ensures Printing.Names("NOP", Isa.NOP) && Printing.Names("HALT", Isa.HALT)
  {
    hide *;
    ArithmeticWords();
    LogicWords();
    JumpWords();
    StackWords();
    SystemWords();
  }

  // ----- From the line to the instruction -----

  /** Line k is the instruction line with this mnemonic and these operands, in the text section. */
  predicate CodeText(lines: Source, k: nat, word: string, dst: Isa.Operand, src: Isa.Operand) {
    && Assemble(lines).Ok? && k < |lines| && lines[k] == Printing.Spelled(word, dst, src)
    && EmitTo(lines, Assemble(lines).value.dataLabels, k).Ok?
    && EmitTo(lines, Assemble(lines).value.dataLabels, k).value.section.TextSection?
  }

  /** The number of instructions before line k. */
  function Position(lines: Source, k: nat): nat {
    var p := Assemble(lines);
    if p.Err? || k > |lines| then 0
    else
      var e := EmitTo(lines, p.value.dataLabels, k);
      if e.Err? then 0 else |e.value.instructions|
  }

  lemma LineIsInstruction(lines: Source, k: nat, word: string, op: Isa.Opcode, dst: Isa.Operand, src: Isa.Operand)
    requires CodeText(lines, k, word, dst, src) && Printing.Names(word, op)
    requires Printing.Spellable(dst, src, Assemble(lines).value.dataLabels)
    ensures var p := Assemble(lines).value;
            var j := Position(lines, k);
            && j < |p.instructions| && p.instructions[j] == Isa.Instruction(op, dst, src)
            && EmitTo(lines, p.dataLabels, k + 1).Ok? && Position(lines, k + 1) == j + 1
            && EmitTo(lines, p.dataLabels, k + 1).value.section.TextSection?
  {
    hide *;
    LineEmits(lines, k, word, op, dst, src);
    PositionIs(lines, k);
    PositionIs(lines, k + 1);
    EmittedStays(lines, k + 1, Position(lines, k));
  }

  lemma PositionIs(lines: Source, k: nat)
    requires Assemble(lines).Ok? && k <= |lines| && EmitTo(lines, Assemble(lines).value.dataLabels, k).Ok?
    ensures Position(lines, k) == |EmitTo(lines, Assemble(lines).value.dataLabels, k).value.instructions|
  {
    hide Assemble, EmitTo;
  }

  lemma EmittedStays(lines: Source, k: nat, j: nat)
    requires Assemble(lines).Ok? && k <= |lines| && EmitTo(lines, Assemble(lines).value.dataLabels, k).Ok?
    requires j < |EmitTo(lines, Assemble(lines).value.dataLabels, k).value.instructions|
    ensures var p := Assemble(lines).value;
            && j < |p.instructions|
            && p.instructions[j] == EmitTo(lines, p.dataLabels, k).value.instructions[j]
  {
    AssembledPasses(lines);
    hide Assemble, EmitTo, CollectTo, EntryOf;
    var p := Assemble(lines).value;
    EmitGrows(lines, p.dataLabels, k, |lines|, EmitTo(lines, p.dataLabels, |lines|).value);
  }

  lemma LineEmits(lines: Source, k: nat, word: string, op: Isa.Opcode, dst: Isa.Operand, src: Isa.Operand)
    requires CodeText(lines, k, word, dst, src) && Printing.Names(word, op)
    requires Printing.Spellable(dst, src, Assemble(lines).value.dataLabels)
    ensures Assemble(lines).Ok? && k < |lines| && EmitTo(lines, Assemble(lines).value.dataLabels, k).Ok?
    ensures var dl := Assemble(lines).value.dataLabels;
            var e, f := EmitTo(lines, dl, k).value, EmitTo(lines, dl, k + 1);
            && f.Ok? && f.value.section.TextSection?
            && f.value.instructions == e.instructions + [Isa.Instruction(op, dst, src)]
  {
    AssembledPasses(lines);
    var dl := Assemble(lines).value.dataLabels;
    hide Assemble, EmitTo, LineRest, LineLabels, ParseInstruction, IsSectionDirective, IsEntryDirective, DataBytes,
      Printing.Names, Printing.Spellable, Printing.Spelled, SectionOf, CollectTo, EntryOf;
    Printing.SpelledLine(word, op, dst, src, dl);
    Printing.SpelledParses(word, op, dst, src, dl);
    EmitPrefixOk(lines, dl, k + 1, |lines|);
    EmitOnce(lines, dl, k);
  }

  // ----- From the instruction to what is fetched -----

  /** What an operand of the source means to the processor running the loaded program. */
  function Placed(p: Assembled, codeBase: nat, o: Isa.Operand): Machine.Arg {
    match o
    case Absent => Machine.NoArg(true)
    case Register(r) => Machine.RegArg(r)
    case Immediate(v) => Machine.ImmArg(v)
    case MemoryAddress(a) => Machine.MemArg(a)
    case RegisterIndirect(r) => Machine.IndArg(r)
    case Label(name) =>
      var l: nat := if name in p.labels then p.labels[name] else |p.instructions|;
      Machine.CodeArg(if l < |p.instructions| && codeBase + 24 * l < 0x1_0000_0000_0000_0000
                      then Some(codeBase + 24 * l) else None)
  }

  lemma PlacedIsField(p: Assembled, codeBase: nat, o: Isa.Operand)
    requires Isa.EncodeOperand(o, p.labels).Ok? && |p.instructions| <= 0x1_0000_0000
    requires o.MemoryAddress? ==> o.address < 0x8000_0000_0000_0000
    requires forall l :: l in p.labels ==> p.labels[l] <= |p.instructions|
    ensures Machine.ArgOfField(codeBase, 24 * |p.instructions|, Isa.EncodeOperand(o, p.labels).value)
         == Placed(p, codeBase, o)
  {
    if o.Label? {
      var l, n := p.labels[o.name], |p.instructions|;
      assert Signed(l * 24) == l * 24;
      assert (codeBase + 24 * l - codeBase) % 24 == 0;
      assert 24 * n - 24 * l >= 24 <==> l < n;
    }
  }

  /** A machine about to step over instruction j of the loaded program, with no interrupt to take. */
  ghost predicate AboutToRun(lines: Source, m: seq<byte>, codeBase: nat, j: nat, c: Machine.Setup, s: Machine.State) {
    && Assemble(lines).Ok? && Pipeline(Assemble(lines).value, m, codeBase).Ok?
    && AtInstruction(Assemble(lines).value, Pipeline(Assemble(lines).value, m, codeBase).value, codeBase, c, s, j)
    && !s.halted && !s.error && Quiet(c, s)
  }

  lemma InstructionIsFetched(lines: Source, m: seq<byte>, codeBase: nat, j: nat, c: Machine.Setup, s: Machine.State)
    requires AboutToRun(lines, m, codeBase, j, c, s)
    ensures var p := Assemble(lines).value;
            var i := p.instructions[j];
            Machine.Fetch(c, s)
            == Ok(Machine.Fetched(i.opcode, Placed(p, codeBase, i.dst), Placed(p, codeBase, i.src)))
  {
    hide Assemble, Pipeline, Isa.DecodeInstruction, Machine.MayExecute, Placed, Quiet, Machine.ArgOfField,
      Isa.EncodeOperand, ToBinary, Isa.EncodeProgram;
    var p := Assemble(lines).value;
    InstructionReachesMemory(lines, m, codeBase, j);
    PipelineSections(p, m, codeBase);
    AssembledOperands(lines, j);
    forall l | l in p.labels
      ensures p.labels[l] <= |p.instructions|
    {
      LabelsInProgram(lines, l);
    }
    PlacedIsField(p, codeBase, p.instructions[j].dst);
    PlacedIsField(p, codeBase, p.instructions[j].src);
    PlacedIsGood(p, codeBase, p.instructions[j].dst);
    PlacedIsGood(p, codeBase, p.instructions[j].src);
    var count := |p.instructions|;
    assert 24 * count - 24 * j >= 24;
    assert (s.pc - codeBase) % 24 == 0;
  }

  lemma PlacedIsGood(p: Assembled, codeBase: nat, o: Isa.Operand)
    ensures !Placed(p, codeBase, o).BadArg?
  {
  }

  lemma FetchedSteps(c: Machine.Setup, s: Machine.State, f: Machine.Fetched)
    requires !s.halted && !s.error && Quiet(c, s) && Machine.Fetch(c, s) == Ok(f) && !Machine.Step(c, s).error
    ensures var o, t := Machine.Exec(c, s, f.op, f.dst, f.src), Machine.Step(c, s);
            o.Next? && t == o.s.(dev := t.dev)
  {
    hide Quiet, Machine.Exec, Machine.Fetch, Machine.InterruptDue;
    QuietIsNotDue(c, s);
  }

  /** What one step makes of line k, when it does not fail: the instruction's outcome, and then the devices' ticks. */
  lemma LineSteps(lines: Source, m: seq<byte>, codeBase: nat, k: nat, word: string, op: Isa.Opcode,
                  dst: Isa.Operand, src: Isa.Operand, c: Machine.Setup, s: Machine.State)
    requires CodeText(lines, k, word, dst, src) && Printing.Names(word, op)
    requires Printing.Spellable(dst, src, Assemble(lines).value.dataLabels)
    requires AboutToRun(lines, m, codeBase, Position(lines, k), c, s) && !Machine.Step(c, s).error
    ensures var p, t := Assemble(lines).value, Machine.Step(c, s);
            var o := Machine.Exec(c, s, op, Placed(p, codeBase, dst), Placed(p, codeBase, src));
            o.Next? && t == o.s.(dev := t.dev)
  {
    var p := Assemble(lines).value;
    LineIsInstruction(lines, k, word, op, dst, src);
    InstructionIsFetched(lines, m, codeBase, Position(lines, k), c, s);
    var i := p.instructions[Position(lines, k)];
    assert !s.halted && !s.error && Quiet(c, s);
    hide *;
    FetchedSteps(c, s, Machine.Fetched(i.opcode, Placed(p, codeBase, i.dst), Placed(p, codeBase, i.src)));
  }

  // ----- Lines of two registers -----

  function Digit(r: Isa.Reg): string {
    ["01234567"[r]]
  }

  /** `WORD Rx, Ry` */
  function TwoRegisters(word: string, x: Isa.Reg, y: Isa.Reg): string {
    word + " R" + Digit(x) + ", R" + Digit(y)
  }

  /** The machine is about to step over line k, which is this text, and the step does not fail. */
  ghost predicate Runs(lines: Source, m: seq<byte>, codeBase: nat, k: nat, text: string,
                       c: Machine.Setup, s: Machine.State)
  {
    && Assemble(lines).Ok? && k < |lines| && lines[k] == text
    && EmitTo(lines, Assemble(lines).value.dataLabels, k).Ok?
    && EmitTo(lines, Assemble(lines).value.dataLabels, k).value.section.TextSection?
    && AboutToRun(lines, m, codeBase, Position(lines, k), c, s) && !Machine.Step(c, s).error
  }

  lemma TwoRegistersSpelled(word: string, x: Isa.Reg, y: Isa.Reg)
    ensures TwoRegisters(word, x, y) == Printing.Spelled(word, Isa.Register(x), Isa.Register(y))
  {
    assert Digit(x) == [DigitChar(x)] && Digit(y) == [DigitChar(y)];
    assert " R" + Digit(x) == [' '] + Printing.RegisterName(x);
    assert ", R" + Digit(y) == [','] + ([' '] + Printing.RegisterName(y));
  }

  lemma TwoRegistersStep(lines: Source, m: seq<byte>, codeBase: nat, k: nat, word: string, op: Isa.Opcode,
                         x: Isa.Reg, y: Isa.Reg, c: Machine.Setup, s: Machine.State)
    requires Runs(lines, m, codeBase, k, TwoRegisters(word, x, y), c, s) && Printing.Names(word, op)
    ensures var t := Machine.Step(c, s);
            var o := Machine.Exec(c, s, op, Machine.RegArg(x), Machine.RegArg(y));
            o.Next? && t == o.s.(dev := t.dev)
    ensures c.image.Binary? && I.Source(c, s, Machine.RegArg(y), s.regs[y], s.dev)
  {
    RegisterSource(c, s, y);
    RegistersSpellable(x, y, Assemble(lines).value, codeBase);
    hide *;
    TwoRegistersSpelled(word, x, y);
    RunsIsCode(lines, m, codeBase, k, TwoRegisters(word, x, y), word, Isa.Register(x), Isa.Register(y), c, s);
    LineSteps(lines, m, codeBase, k, word, op, Isa.Register(x), Isa.Register(y), c, s);
    RunsBinary(lines, m, codeBase, k, TwoRegisters(word, x, y), c, s);
  }

  lemma RegistersSpellable(x: Isa.Reg, y: Isa.Reg, p: Assembled, codeBase: nat)
    ensures Printing.Spellable(Isa.Register(x), Isa.Register(y), p.dataLabels)
    ensures Placed(p, codeBase, Isa.Register(x)) == Machine.RegArg(x)
    ensures Placed(p, codeBase, Isa.Register(y)) == Machine.RegArg(y)
  {
  }

  lemma RunsBinary(lines: Source, m: seq<byte>, codeBase: nat, k: nat, text: string,
                   c: Machine.Setup, s: Machine.State)
    requires Runs(lines, m, codeBase, k, text, c, s)
    ensures c.image.Binary? && !s.halted && s.pc == codeBase + 24 * Position(lines, k) && s.pc + 24 <= 0x1000
  {
    hide Assemble, EmitTo, ToBinary, Isa.EncodeProgram, Machine.Step, Quiet;
    PipelineSections(Assemble(lines).value, m, codeBase);
    hide Pipeline;
  }

  /** The step leaves v in register r, its zero and sign flags, the carry and overflow given, and goes on. */
  predicate Leaves(s: Machine.State, t: Machine.State, r: Isa.Reg, v: i64, carry: bool, overflow: bool) {
    t == s.(regs := s.regs[r := v], pc := t.pc, dev := t.dev,
            flags := Machine.Flags(v == 0, v < 0, carry, overflow, s.flags.spare))
    && t.pc == s.pc + 24
  }

  lemma ComputedLeaves(c: Machine.Setup, s: Machine.State, t: Machine.State, r: Isa.Reg)
    requires c.image.Binary? && !s.halted && s.pc + 24 <= 0x1000
    ensures forall v: i64, carry: bool, overflow: bool ::
              t == I.Computed(c, s, s.dev, r, v, carry, overflow).(dev := t.dev) ==>
                Leaves(s, t, r, v, carry, overflow)
    ensures forall v: i64, carry: bool, overflow: bool ::
              I.Computed(c, s, s.dev, r, v, carry, overflow).regs[r] == v
  {
  }

  /** `ADD Rx, Ry`, from its text to the registers. */
  lemma AddText(lines: Source, m: seq<byte>, codeBase: nat, k: nat, x: Isa.Reg, y: Isa.Reg,
                c: Machine.Setup, s: Machine.State)
    requires Runs(lines, m, codeBase, k, TwoRegisters("ADD", x, y), c, s)
    ensures var t := Machine.Step(c, s);
            var a, b, v := s.regs[x], s.regs[y], t.regs[x];
            && (v - (a + b)) % TWO_64 == 0
            && Leaves(s, t, x, v, a % TWO_64 + b % TWO_64 >= TWO_64, !(-TWO_63 <= a + b < TWO_63))
  {
    hide *;
    WordsName();
    RunsBinary(lines, m, codeBase, k, TwoRegisters("ADD", x, y), c, s);
    TwoRegistersStep(lines, m, codeBase, k, "ADD", Isa.ADD, x, y, c, s);
    I.AddLaw(c, s, x, Machine.RegArg(y), s.regs[y], s.dev);
    ComputedLeaves(c, s, Machine.Step(c, s), x);
  }

  /** `SUB Rx, Ry` */
  lemma SubText(lines: Source, m: seq<byte>, codeBase: nat, k: nat, x: Isa.Reg, y: Isa.Reg,
                c: Machine.Setup, s: Machine.State)
    requires Runs(lines, m, codeBase, k, TwoRegisters("SUB", x, y), c, s)
    ensures var t := Machine.Step(c, s);
            var a, b, v := s.regs[x], s.regs[y], t.regs[x];
            && (v - (a - b)) % TWO_64 == 0
            && Leaves(s, t, x, v, a % TWO_64 < b % TWO_64, !(-TWO_63 <= a - b < TWO_63))
  {
    hide *;
    WordsName();
    RunsBinary(lines, m, codeBase, k, TwoRegisters("SUB", x, y), c, s);
    TwoRegistersStep(lines, m, codeBase, k, "SUB", Isa.SUB, x, y, c, s);
    I.SubLaw(c, s, x, Machine.RegArg(y), s.regs[y], s.dev);
    ComputedLeaves(c, s, Machine.Step(c, s), x);
  }

  /** `MUL Rx, Ry` */
  lemma MulText(lines: Source, m: seq<byte>, codeBase: nat, k: nat, x: Isa.Reg, y: Isa.Reg,
                c: Machine.Setup, s: Machine.State)
    requires Runs(lines, m, codeBase, k, TwoRegisters("MUL", x, y), c, s)
    ensures var t := Machine.Step(c, s);
            var a, b, v := s.regs[x], s.regs[y], t.regs[x];
            var lost := !(-TWO_63 <= a * b < TWO_63);
            (v - a * b) % TWO_64 == 0 && Leaves(s, t, x, v, lost, lost)
  {
    hide *;
    WordsName();
    RunsBinary(lines, m, codeBase, k, TwoRegisters("MUL", x, y), c, s);
    TwoRegistersStep(lines, m, codeBase, k, "MUL", Isa.MUL, x, y, c, s);
    I.MulLaw(c, s, x, Machine.RegArg(y), s.regs[y], s.dev);
    ComputedLeaves(c, s, Machine.Step(c, s), x);
  }

  // ----- CMP and a branch -----

  /** `WORD name` */
  function OneName(word: string, name: string): string {
    word + " " + name
  }

  lemma OneNameSpelled(word: string, name: string)
    ensures OneName(word, name) == Printing.Spelled(word, Isa.Label(name), Isa.Absent)
  {
    assert " " + name == [' '] + Printing.OperandText(Isa.Label(name));
  }

  /** The flags of a - b. */
  function Difference(a: i64, b: i64, spare: nat): Machine.Flags {
    Machine.Flags(a == b, (a - b) % TWO_64 >= TWO_63, a % TWO_64 < b % TWO_64, !(-TWO_63 <= a - b < TWO_63), spare)
  }

  /** `CMP Rx, Ry`: the flags of the difference, and nothing else. */
  lemma CompareText(lines: Source, m: seq<byte>, codeBase: nat, k: nat, x: Isa.Reg, y: Isa.Reg,
                    c: Machine.Setup, s: Machine.State)
    requires Runs(lines, m, codeBase, k, TwoRegisters("CMP", x, y), c, s)
    ensures var t := Machine.Step(c, s);
            && t == s.(pc := t.pc, dev := t.dev, flags := Difference(s.regs[x], s.regs[y], s.flags.spare))
            && t.pc == s.pc + 24
  {
    hide *;
    WordsName();
    RegisterSource(c, s, x);
    RunsBinary(lines, m, codeBase, k, TwoRegisters("CMP", x, y), c, s);
    TwoRegistersStep(lines, m, codeBase, k, "CMP", Isa.CMP, x, y, c, s);
    CompareOfRegisters(c, s, x, y);
  }

  lemma CompareOfRegisters(c: Machine.Setup, s: Machine.State, x: Isa.Reg, y: Isa.Reg)
    requires c.image.Binary? && !s.halted && s.pc + 24 <= 0x1000
    ensures Machine.Exec(c, s, Isa.CMP, Machine.RegArg(x), Machine.RegArg(y))
         == Machine.Next(s.(pc := s.pc + 24, flags := Difference(s.regs[x], s.regs[y], s.flags.spare)))
  {
    hide Machine.Exec, I.Source;
    RegisterSource(c, s, x);
    RegisterSource(c, s, y);
    I.CompareLaw(c, s, Machine.RegArg(x), s.regs[x], s.dev, Machine.RegArg(y), s.regs[y], s.dev);
  }

  lemma RegisterSource(c: Machine.Setup, s: Machine.State, x: Isa.Reg)
    ensures I.Source(c, s, Machine.RegArg(x), s.regs[x], s.dev) && s.(dev := s.dev) == s
  {
  }

  /** Where line d stands in the loaded program, for the processor. */
  function Address(lines: Source, codeBase: nat, d: nat): nat {
    codeBase + 24 * Position(lines, d)
  }

  /** Line d, in the text section, declares the label. */
  predicate Declares(lines: Source, d: nat, name: string) {
    && Assemble(lines).Ok? && d < |lines| && name in LineLabels(lines[d])
    && EmitTo(lines, Assemble(lines).value.dataLabels, d).Ok?
    && EmitTo(lines, Assemble(lines).value.dataLabels, d).value.section.TextSection?
  }

  lemma DeclaredLabel(lines: Source, d: nat, name: string)
    requires Declares(lines, d, name)
    ensures Assemble(lines).Ok?
    ensures var p := Assemble(lines).value;
            && Printing.Readable(Isa.Label(name), p.dataLabels)
            && name in p.labels && p.labels[name] == Position(lines, d)
  {
    AssembledPasses(lines);
    hide Assemble, EmitTo, CollectTo, LineLabels, AllowedLabel, EntryOf;
    LabelsArePositions(lines, d, name);
    LabelIsAllowed(lines, |lines|, name);
  }

  /** The branch's condition, on the flags. */
  predicate Taken(word: string, f: Machine.Flags) {
    || (word == "JMP")
    || (word == "JE" && f.zero)
    || (word == "JNE" && !f.zero)
    || (word == "JG" && !f.zero && f.sign == f.overflow)
    || (word == "JL" && f.sign != f.overflow)
  }

  function Branch(word: string): Isa.Opcode {
    if word == "JMP" then Isa.JMP else if word == "JE" then Isa.JE else if word == "JNE" then Isa.JNE
    else if word == "JG" then Isa.JG else if word == "JL" then Isa.JL else Isa.Invalid
  }

  lemma TakenIsHeld(word: string, f: Machine.Flags)
    requires Branch(word) != Isa.Invalid
    ensures ControlLaws.Holds(Branch(word), f) <==> Taken(word, f)
  {
    assert "JMP" != "JE" && "JMP" != "JNE" && "JMP" != "JG" && "JMP" != "JL" && "JE" != "JNE";
    assert "JE"[1] != "JG"[1] && "JE"[1] != "JL"[1] && "JG"[1] != "JL"[1];
    assert |"JNE"| == 3 && |"JG"| == |"JL"| == 2;
  }

  lemma BranchWord(word: string)
    requires word == "JMP" || word == "JE" || word == "JNE" || word == "JG" || word == "JL"
    ensures Branch(word) != Isa.Invalid && Printing.Names(word, Branch(word))
    ensures Machine.IsBranch(Branch(word))
  {
    WordsName();
    hide Printing.Names;
  }

  lemma LabelSpellable(name: string, dataLabels: Labels)
    requires Printing.Readable(Isa.Label(name), dataLabels)
    ensures Printing.Spellable(Isa.Label(name), Isa.Absent, dataLabels)
  {
  }

  lemma RunsIsCode(lines: Source, m: seq<byte>, codeBase: nat, k: nat, text: string, word: string,
                   dst: Isa.Operand, src: Isa.Operand, c: Machine.Setup, s: Machine.State)
    requires Runs(lines, m, codeBase, k, text, c, s) && text == Printing.Spelled(word, dst, src)
    ensures CodeText(lines, k, word, dst, src)
    ensures AboutToRun(lines, m, codeBase, Position(lines, k), c, s) && !Machine.Step(c, s).error
  {
    hide Assemble, EmitTo, AboutToRun, Position, Machine.Step, Printing.Spelled;
  }

  /** A label that is loaded below the end of memory, as an operand. */
  lemma PlacedLabel(lines: Source, codeBase: nat, d: nat, name: string)
    requires Declares(lines, d, name)
    ensures var a := Placed(Assemble(lines).value, codeBase, Isa.Label(name));
            a.CodeArg? && (a.target.Some? ==> a.target.value == Address(lines, codeBase, d))
    ensures Placed(Assemble(lines).value, codeBase, Isa.Absent) == Machine.NoArg(true)
  {
    DeclaredLabel(lines, d, name);
    hide Assemble, Position, Declares, Printing.Readable;
  }

  lemma BranchStep(lines: Source, m: seq<byte>, codeBase: nat, k: nat, word: string, name: string, d: nat,
                   c: Machine.Setup, s: Machine.State) returns (target: Option<u64>)
    requires word == "JMP" || word == "JE" || word == "JNE" || word == "JG" || word == "JL"
    requires Runs(lines, m, codeBase, k, OneName(word, name), c, s) && Declares(lines, d, name)
    ensures var o := Machine.Exec(c, s, Branch(word), Machine.CodeArg(target), Machine.NoArg(true));
            o.Next? && Machine.Step(c, s) == o.s.(dev := Machine.Step(c, s).dev)
    ensures target.Some? ==> target.value == Address(lines, codeBase, d)
  {
    hide *;
    BranchWord(word);
    OneNameSpelled(word, name);
    DeclaredLabel(lines, d, name);
    LabelSpellable(name, Assemble(lines).value.dataLabels);
    RunsIsCode(lines, m, codeBase, k, OneName(word, name), word, Isa.Label(name), Isa.Absent, c, s);
    LineSteps(lines, m, codeBase, k, word, Branch(word), Isa.Label(name), Isa.Absent, c, s);
    PlacedLabel(lines, codeBase, d, name);
    target := Placed(Assemble(lines).value, codeBase, Isa.Label(name)).target;
  }

  lemma BranchOutcome(c: Machine.Setup, s: Machine.State, op: Isa.Opcode, target: Option<u64>)
    requires Machine.IsBranch(op) && c.image.Binary? && !s.halted && s.pc + 24 <= 0x1000
    ensures var o := Machine.Exec(c, s, op, Machine.CodeArg(target), Machine.NoArg(true));
            o.Next? ==>
              if ControlLaws.Holds(op, s.flags) then target.Some? && o.s == s.(pc := target.value)
              else o.s == s.(pc := s.pc + 24)
  {
    hide Machine.Exec, ControlLaws.Holds, ControlLaws.MayGo;
    ControlLaws.BranchLaw(c, s, op, target);
  }

  /** `JL name`, and the other branches: to the label's line when the flags say so, and on to the next line when not. */
  lemma BranchText(lines: Source, m: seq<byte>, codeBase: nat, k: nat, word: string, name: string, d: nat,
                   c: Machine.Setup, s: Machine.State)
    requires word == "JMP" || word == "JE" || word == "JNE" || word == "JG" || word == "JL"
    requires Runs(lines, m, codeBase, k, OneName(word, name), c, s) && Declares(lines, d, name)
    ensures var t := Machine.Step(c, s);
            && t == s.(dev := t.dev, pc := t.pc)
            && t.pc == if Taken(word, s.flags) then Address(lines, codeBase, d) else s.pc + 24
  {
    hide *;
    BranchWord(word);
    TakenIsHeld(word, s.flags);
    var target := BranchStep(lines, m, codeBase, k, word, name, d, c, s);
    RunsBinary(lines, m, codeBase, k, OneName(word, name), c, s);
    BranchOutcome(c, s, Branch(word), target);
  }

  // ----- The two lines together -----

  /** What the branch after `CMP Rx, Ry` decides: the signed order of the two registers. */
  predicate Ordered(word: string, a: i64, b: i64) {
    || (word == "JE" && a == b)
    || (word == "JNE" && a != b)
    || (word == "JG" && a > b)
    || (word == "JL" && a < b)
  }

  lemma DifferenceDecides(word: string, a: i64, b: i64, spare: nat)
    requires word == "JE" || word == "JNE" || word == "JG" || word == "JL"
    ensures Taken(word, Difference(a, b, spare)) <==> Ordered(word, a, b)
  {
    assert |"JMP"| == |"JNE"| == 3 && "JMP"[1] != "JNE"[1];
    assert "JE"[1] != "JG"[1] && "JE"[1] != "JL"[1] && "JG"[1] != "JL"[1] && |"JE"| == 2;
  }

  lemma FetchesOrFails(c: Machine.Setup, t: Machine.State)
    requires !t.halted && !t.error && Quiet(c, t) && !Machine.Step(c, t).error
    ensures Machine.MayExecute(c, t, t.pc, t.priv)
  {
    hide Machine.Step, Quiet, Machine.MayExecute;
    if Machine.Fetch(c, t).Err? {
      NoInstructionLaw(c, t);
      assert false;
    }
  }

  lemma AtNext(p: Assembled, loaded: seq<byte>, codeBase: nat, c: Machine.Setup, s: Machine.State, j: nat,
               t: Machine.State)
    requires AtInstruction(p, loaded, codeBase, c, s, j) && j + 1 < |p.instructions|
    requires t.mem == s.mem && t.pc == s.pc + 24 && Machine.MayExecute(c, t, t.pc, t.priv)
    ensures AtInstruction(p, loaded, codeBase, c, t, j + 1)
  {
    hide Machine.MayExecute;
  }

  lemma RunsUnfolded(lines: Source, m: seq<byte>, codeBase: nat, k: nat, text: string,
                     c: Machine.Setup, s: Machine.State)
    ensures Runs(lines, m, codeBase, k, text, c, s)
       <==> && Assemble(lines).Ok? && Pipeline(Assemble(lines).value, m, codeBase).Ok?
            && k < |lines| && lines[k] == text
            && EmitTo(lines, Assemble(lines).value.dataLabels, k).Ok?
            && EmitTo(lines, Assemble(lines).value.dataLabels, k).value.section.TextSection?
            && AtInstruction(Assemble(lines).value, Pipeline(Assemble(lines).value, m, codeBase).value, codeBase, c, s,
                             Position(lines, k))
            && !s.halted && !s.error && Quiet(c, s) && !Machine.Step(c, s).error
  {
    hide Assemble, Pipeline, EmitTo, AtInstruction, Position, Machine.Step, Quiet;
  }

  lemma NextLineRuns(lines: Source, m: seq<byte>, codeBase: nat, k: nat, x: Isa.Reg, y: Isa.Reg,
                     word: string, name: string, d: nat, c: Machine.Setup, s: Machine.State, t: Machine.State)
    requires word == "JMP" || word == "JE" || word == "JNE" || word == "JG" || word == "JL"
    requires Runs(lines, m, codeBase, k, TwoRegisters("CMP", x, y), c, s) && Declares(lines, d, name)
    requires k + 1 < |lines| && lines[k + 1] == OneName(word, name)
    requires t.mem == s.mem && t.pc == s.pc + 24 && !t.halted && !t.error && Quiet(c, t) && !Machine.Step(c, t).error
    ensures Runs(lines, m, codeBase, k + 1, OneName(word, name), c, t)
  {
    hide *;
    RunsUnfolded(lines, m, codeBase, k, TwoRegisters("CMP", x, y), c, s);
    RunsUnfolded(lines, m, codeBase, k + 1, OneName(word, name), c, t);
    var p := Assemble(lines).value;
    WordsName();
    RegistersSpellable(x, y, p, codeBase);
    TwoRegistersSpelled("CMP", x, y);
    RunsIsCode(lines, m, codeBase, k, TwoRegisters("CMP", x, y), "CMP", Isa.Register(x), Isa.Register(y), c, s);
    LineIsInstruction(lines, k, "CMP", Isa.CMP, Isa.Register(x), Isa.Register(y));
    BranchWord(word);
    OneNameSpelled(word, name);
    DeclaredLabel(lines, d, name);
    LabelSpellable(name, p.dataLabels);
    IsCodeText(lines, k + 1, word, Isa.Label(name), Isa.Absent);
    LineIsInstruction(lines, k + 1, word, Branch(word), Isa.Label(name), Isa.Absent);
    FetchesOrFails(c, t);
    AtNext(p, Pipeline(p, m, codeBase).value, codeBase, c, s, Position(lines, k), t);
  }

  lemma IsCodeText(lines: Source, k: nat, word: string, dst: Isa.Operand, src: Isa.Operand)
    requires Assemble(lines).Ok? && k < |lines| && lines[k] == Printing.Spelled(word, dst, src)
    requires EmitTo(lines, Assemble(lines).value.dataLabels, k).Ok?
    requires EmitTo(lines, Assemble(lines).value.dataLabels, k).value.section.TextSection?
    ensures CodeText(lines, k, word, dst, src)
  {
    hide Assemble, EmitTo, Printing.Spelled;
  }

  /**
   * `CMP Rx, Ry` and on the next line `JL name` (or JG, JE, JNE), assembled,
   * loaded and stepped over: the pc is at the label's line exactly when the
   * signed order of the two registers says so, else past both lines.
   */
  lemma CompareThenBranchText(lines: Source, m: seq<byte>, codeBase: nat, k: nat, x: Isa.Reg, y: Isa.Reg,
                              word: string, name: string, d: nat, c: Machine.Setup, s: Machine.State)
    requires word == "JE" || word == "JNE" || word == "JG" || word == "JL"
    requires Runs(lines, m, codeBase, k, TwoRegisters("CMP", x, y), c, s) && Declares(lines, d, name)
    requires k + 1 < |lines| && lines[k + 1] == OneName(word, name)
    requires Quiet(c, Machine.Step(c, s)) && !Machine.Step(c, Machine.Step(c, s)).error
    ensures var u := Machine.Step(c, Machine.Step(c, s));
            && u.regs == s.regs && u.mem == s.mem
            && u.pc == if Ordered(word, s.regs[x], s.regs[y]) then Address(lines, codeBase, d) else s.pc + 48
  {
    hide *;
    var t := Machine.Step(c, s);
    CompareText(lines, m, codeBase, k, x, y, c, s);
    RunsUnfolded(lines, m, codeBase, k, TwoRegisters("CMP", x, y), c, s);
    NextLineRuns(lines, m, codeBase, k, x, y, word, name, d, c, s, t);
    BranchText(lines, m, codeBase, k + 1, word, name, d, c, t);
    DifferenceDecides(word, s.regs[x], s.regs[y], s.flags.spare);
  }
}

// The toolchain and the CPU together: a LOAD of a data label, executed from
// the loaded bytes, puts the value written in the source into its register.
module Execution {
  import opened Words
  import opened Text
  import opened MemoryMap
  import opened Assembler
  import opened TwoPass
  import opened EndToEnd
  import Isa
  import Machine
  import Lockstep
  import LockstepUser
  import Reachable
  import M = Memory

  /** A CPU about to run instruction j of a program loaded at codeBase. */
  ghost predicate AtInstruction(p: Assembled, loaded: seq<byte>, codeBase: nat, c: Machine.Setup, s: Machine.State,
                                j: nat)
  {
    && c.image == Machine.Binary(codeBase, Isa.INSTRUCTION_SIZE * |p.instructions|)
    && s.mem == loaded
    && j < |p.instructions| && s.pc == codeBase + Isa.INSTRUCTION_SIZE * j
    && Machine.MayExecute(c, s, s.pc, s.priv)
  }

  /** What the CPU fetches for `LOAD reg, [address]`. */
  lemma FetchLoad(lines: Source, m: seq<byte>, codeBase: nat, c: Machine.Setup, s: Machine.State, j: nat,
                  reg: Isa.Reg, address: u64)
    requires Assemble(lines).Ok? && Pipeline(Assemble(lines).value, m, codeBase).Ok?
    requires AtInstruction(Assemble(lines).value, Pipeline(Assemble(lines).value, m, codeBase).value, codeBase, c, s, j)
    requires Assemble(lines).value.instructions[j]
          == Isa.Instruction(Isa.LOAD, Isa.Register(reg), Isa.MemoryAddress(address))
    requires address < 0x8000_0000_0000_0000
    ensures Machine.Fetch(c, s) == Ok(Machine.Fetched(Isa.LOAD, Machine.RegArg(reg), Machine.MemArg(address)))
  {
    hide Assemble, Pipeline, Isa.DecodeInstruction, Machine.MayExecute;
    InstructionReachesMemory(lines, m, codeBase, j);
    var count := |Assemble(lines).value.instructions|;
    assert Isa.INSTRUCTION_SIZE * count - Isa.INSTRUCTION_SIZE * j >= Isa.INSTRUCTION_SIZE;
    assert (s.pc - codeBase) % Isa.INSTRUCTION_SIZE == 0;
  }

  lemma ExecuteLoad(c: Machine.Setup, s: Machine.State, reg: Isa.Reg, address: u64)
    requires !c.bus.mapped(address) && Machine.MayAccess(s, address) && M.InRange(s.mem, address, 8)
    ensures Machine.Exec(c, s, Isa.LOAD, Machine.RegArg(reg), Machine.MemArg(address))
         == Machine.Next(Machine.SetRegister(c, s, reg, M.Read64(s.mem, address)))
  {
    hide M.Read64, Machine.SetRegister, Machine.ExecBinaryOp, Machine.ExecBranch, Machine.ExecStack, Machine.ExecInt,
      Machine.ExecReturn, Machine.ExecSystem, Machine.ExecStore, Machine.ExecNot, Machine.ExecCompare;
  }

  lemma StepOfNext(c: Machine.Setup, s: Machine.State, t: Machine.State)
    requires !Machine.Stopped(s) && !Machine.InterruptDue(c, s) && Machine.ExecCurrent(c, s) == Machine.Next(t)
    ensures Machine.Step(c, s).regs == t.regs && Machine.Step(c, s).mem == t.mem && Machine.Step(c, s).pc == t.pc
  {
    hide Machine.ExecCurrent, Machine.ServiceInterrupt, Machine.InterruptDue;
  }

  lemma DecodedLoadReachesRegister(lines: Source, m: seq<byte>, codeBase: nat, i: nat, name: string, v: i64,
                                   c: Machine.Setup, s: Machine.State, j: nat, reg: Isa.Reg)
    requires Assemble(lines).Ok? && Pipeline(Assemble(lines).value, m, codeBase).Ok?
    requires i < |lines| && ValidLabelName(name) && lines[i] == name + [':', ' '] + QwordText(DecimalOf(v))
    requires EmitTo(lines, Assemble(lines).value.dataLabels, i).Ok?
    requires EmitTo(lines, Assemble(lines).value.dataLabels, i).value.section.DataSection?
    requires AtInstruction(Assemble(lines).value, Pipeline(Assemble(lines).value, m, codeBase).value, codeBase, c, s, j)
    requires name in Assemble(lines).value.dataLabels
    requires Assemble(lines).value.instructions[j]
          == Isa.Instruction(Isa.LOAD, Isa.Register(reg), Isa.MemoryAddress(Assemble(lines).value.dataLabels[name]))
    requires !c.bus.mapped(Assemble(lines).value.dataLabels[name])
    requires !Machine.Stopped(s) && !Machine.InterruptDue(c, s)
    ensures Machine.Step(c, s).regs == s.regs[reg := v] && Machine.Step(c, s).mem == s.mem
  {
    hide Assemble, EmitTo, Pipeline, DecimalOf, QwordText, ValidLabelName, Machine.Exec, Machine.Fetch, Machine.Step,
      M.Read64, Machine.InterruptDue, Machine.MayExecute;
    var address := Assemble(lines).value.dataLabels[name];
    SourceQwordIsRead(lines, m, codeBase, i, name, v);
    QwordInsideData(lines, m, codeBase, i, name, v);
    FetchLoad(lines, m, codeBase, c, s, j, reg, address);
    ExecuteLoad(c, s, reg, address);
    StepOfNext(c, s, Machine.SetRegister(c, s, reg, v));
  }

  /** The instruction of a `LOAD Rk, [name]` line, and its place in the program. */
  lemma LoadLineIsInstruction(lines: Source, k: nat, reg: Isa.Reg, name: string)
    requires Assemble(lines).Ok? && k < |lines| && lines[k] == LoadText(reg, name)
    requires name in Assemble(lines).value.dataLabels
    requires EmitTo(lines, Assemble(lines).value.dataLabels, k).Ok?
    requires EmitTo(lines, Assemble(lines).value.dataLabels, k).value.section.TextSection?
    ensures var p := Assemble(lines).value;
            var j := |EmitTo(lines, p.dataLabels, k).value.instructions|;
            && j < |p.instructions|
            && p.instructions[j]
               == Isa.Instruction(Isa.LOAD, Isa.Register(reg), Isa.MemoryAddress(p.dataLabels[name]))
  {
    hide Assemble, EmitTo, CollectTo, EntryOf, LineRest, LineLabels, ParseInstruction, AllowedLabel, ValidLabelName,
      LoadText, IsSectionDirective, IsEntryDirective;
    AssembledPasses(lines);
    var p := Assemble(lines).value;
    LabelIsAllowed(lines, |lines|, name);
    LoadLineText(reg, name, p.dataLabels);
    LoadTextPlain(reg, name);
    LoadTextIsCodeLine(reg, name);
    EmitPrefixOk(lines, p.dataLabels, k + 1, |lines|);
    CodeLineEmits(lines, p.dataLabels, k, EmitTo(lines, p.dataLabels, k + 1).value);
    EmitGrows(lines, p.dataLabels, k + 1, |lines|, EmitTo(lines, p.dataLabels, |lines|).value);
  }

  /**
   * From source text to a register: where the data section has the line
   * `name: .qword v` and the text section the line `LOAD Rk, [name]`, the step
   * that executes the latter from the loaded file leaves v in Rk, in either
   * privilege.
   */
  lemma LoadedQwordReachesRegister(lines: Source, m: seq<byte>, codeBase: nat, i: nat, name: string, v: i64,
                                   k: nat, reg: Isa.Reg, c: Machine.Setup, s: Machine.State)
    requires Assemble(lines).Ok? && Pipeline(Assemble(lines).value, m, codeBase).Ok?
    requires i < |lines| && ValidLabelName(name) && lines[i] == name + [':', ' '] + QwordText(DecimalOf(v))
    requires k < |lines| && lines[k] == LoadText(reg, name)
    requires EmitTo(lines, Assemble(lines).value.dataLabels, i).Ok?
    requires EmitTo(lines, Assemble(lines).value.dataLabels, i).value.section.DataSection?
    requires EmitTo(lines, Assemble(lines).value.dataLabels, k).Ok?
    requires EmitTo(lines, Assemble(lines).value.dataLabels, k).value.section.TextSection?
    requires AtInstruction(Assemble(lines).value, Pipeline(Assemble(lines).value, m, codeBase).value, codeBase, c, s,
                           |EmitTo(lines, Assemble(lines).value.dataLabels, k).value.instructions|)
    requires name in Assemble(lines).value.dataLabels ==> !c.bus.mapped(Assemble(lines).value.dataLabels[name])
    requires !Machine.Stopped(s) && !Machine.InterruptDue(c, s)
    ensures Machine.Step(c, s).regs == s.regs[reg := v] && Machine.Step(c, s).mem == s.mem
  {
    hide Assemble, EmitTo, Pipeline, DecimalOf, QwordText, LoadText, ValidLabelName, Machine.Step, AtInstruction,
      M.Read64, Machine.InterruptDue, Machine.Stopped;
    QwordInsideData(lines, m, codeBase, i, name, v);
    LoadLineIsInstruction(lines, k, reg, name);
    var j := |EmitTo(lines, Assemble(lines).value.dataLabels, k).value.instructions|;
    DecodedLoadReachesRegister(lines, m, codeBase, i, name, v, c, s, j, reg);
  }

  /** The eight bytes of a .qword lie inside the user data region. */
  lemma QwordInsideData(lines: Source, m: seq<byte>, codeBase: nat, i: nat, name: string, v: i64)
    requires Assemble(lines).Ok?
    requires i < |lines| && ValidLabelName(name) && lines[i] == name + [':', ' '] + QwordText(DecimalOf(v))
    requires EmitTo(lines, Assemble(lines).value.dataLabels, i).Ok?
    requires EmitTo(lines, Assemble(lines).value.dataLabels, i).value.section.DataSection?
    ensures name in Assemble(lines).value.dataLabels && Assemble(lines).value.dataLabels[name] + 8 <= USER_DATA_SIZE
  {
    hide Assemble, EmitTo, DecimalOf, QwordText, ValidLabelName, LineRest, LineLabels, QwordLine, NumberText, DataBytes,
      IsSectionDirective, IsEntryDirective, CollectTo;
    QwordLineText(name, v);
    DecimalIsNumberText(v);
    QwordTextIsDataLine(DecimalOf(v));
    QwordBytes(LineRest(lines[i]), [v]);
    assert |EncodeValues([v], 8)| == 8;
    DataLinePlaced(lines, i);
    DataFits(lines);
    AssembledBase(lines);
  }

  // ----- An assembled program runs the same from its instructions and from its file -----

  lemma DataLabelsAreSmall(lines: Source, name: string)
    requires Assemble(lines).Ok? && name in Assemble(lines).value.dataLabels
    ensures Assemble(lines).value.dataLabels[name] <= USER_DATA_SIZE
  {
    hide Assemble, EmitTo, CollectTo, LineLabels, EntryOf;
    AssembledPasses(lines);
    LabelSetsAreDisjoint(lines, |lines|);
    var i := LabelHasLine(lines, |lines|, name);
    LabelMeaning(lines, |lines|, i, name);
    assert name !in CollectTo(lines, |lines|).value.code.Keys;
  }

  lemma ParsedAddress(text: string, dataLabels: Labels)
    requires forall n :: n in dataLabels ==> dataLabels[n] < 0x8000_0000_0000_0000
    ensures ParseOperand(text, dataLabels).Ok? ==> Lockstep.SourceOperand(ParseOperand(text, dataLabels).value)
  {
    hide ParseInteger, Trim, AllowedLabel;
  }

  lemma ParsedOperands(line: string, dataLabels: Labels)
    requires forall n :: n in dataLabels ==> dataLabels[n] < 0x8000_0000_0000_0000
    ensures ParseInstruction(line, dataLabels).Ok? ==>
              var i := ParseInstruction(line, dataLabels).value;
              Lockstep.SourceOperand(i.dst) && Lockstep.SourceOperand(i.src)
  {
    hide ParseOperand, WordAndRest, Split, Lockstep.SourceOperand;
    AbsentIsSource();
    var operands := Split(WordAndRest(line).1, [], false);
    if operands.Ok? && |operands.value| >= 1 {
      ParsedAddress(operands.value[0], dataLabels);
      if |operands.value| >= 2 {
        ParsedAddress(operands.value[1], dataLabels);
      }
    }
  }

  lemma AbsentIsSource()
    ensures Lockstep.SourceOperand(Isa.Absent)
  {
  }

  /** The assembler writes only addresses that both interpreters read alike. */
  lemma AssembledOperands(lines: Source, j: nat)
    requires Assemble(lines).Ok? && j < |Assemble(lines).value.instructions|
    ensures var i := Assemble(lines).value.instructions[j];
            Lockstep.SourceOperand(i.dst) && Lockstep.SourceOperand(i.src)
  {
    hide Assemble, EmitTo, CollectTo, LineRest, CodeLine, ParseInstruction, EntryOf, Lockstep.SourceOperand, Increasing;
    AssembledPasses(lines);
    var p := Assemble(lines).value;
    var e := EmitTo(lines, p.dataLabels, |lines|).value;
    SourceLinesIncrease(lines, p.dataLabels, |lines|, e);
    SourceLineIsOrigin(lines, p.dataLabels, |lines|, e, j);
    forall n | n in p.dataLabels
      ensures p.dataLabels[n] < 0x8000_0000_0000_0000
    {
      DataLabelsAreSmall(lines, n);
    }
    ParsedOperands(LineRest(lines[e.sourceLines[j] - 1]), p.dataLabels);
  }

  function Code(p: Assembled): seq<byte> {
    var code := Isa.EncodeProgram(p.instructions, p.labels);
    if code.Ok? then code.value else []
  }

  function TwinOf(p: Assembled, codeBase: nat): Lockstep.Twin {
    Lockstep.Twin(p.instructions, p.labels, codeBase, Code(p), {})
  }

  /** The CPU memory after the pipeline. */
  function RamAfter(p: Assembled, m: Machine.Ram, codeBase: nat): Machine.Ram {
    var r := Pipeline(p, m, codeBase);
    if r.Ok? && |r.value| == MEMORY_SIZE then r.value else m
  }

  /** Every code label is an instruction of the program or its end. */
  lemma LabelsInProgram(lines: Source, name: string)
    requires Assemble(lines).Ok? && name in Assemble(lines).value.labels
    ensures Assemble(lines).value.labels[name] <= |Assemble(lines).value.instructions|
  {
    hide Assemble, EmitTo, CollectTo, LineLabels, EntryOf, Extends;
    AssembledPasses(lines);
    var p := Assemble(lines).value;
    var i := LabelsComeFromLines(lines, name);
    LabelsArePositions(lines, i, name);
    EmitGrows(lines, p.dataLabels, i, |lines|, EmitTo(lines, p.dataLabels, |lines|).value);
    PrefixIsShorter(EmitTo(lines, p.dataLabels, i).value, EmitTo(lines, p.dataLabels, |lines|).value);
    LabelSetsAreDisjoint(lines, |lines|);
  }

  lemma PrefixIsShorter(e: Emitted, f: Emitted)
    requires Extends(e, f)
    ensures |e.instructions| <= |f.instructions|
  {
  }

  /** An assembled program is one both interpreters can run in lockstep. */
  lemma AssembledIsTwin(lines: Source, m: Machine.Ram, codeBase: nat)
    requires Assemble(lines).Ok? && Pipeline(Assemble(lines).value, m, codeBase).Ok?
    ensures var w, r := TwinOf(Assemble(lines).value, codeBase), RamAfter(Assemble(lines).value, m, codeBase);
            && Lockstep.GoodTwin(w) && Lockstep.SameData(w, r, r)
            && Pipeline(Assemble(lines).value, m, codeBase) == Ok(r)
  {
    hide Assemble, Pipeline, Isa.EncodeProgram, ToBinary, Lockstep.SourceOperand;
    var p := Assemble(lines).value;
    PipelineSections(p, m, codeBase);
    forall j | 0 <= j < |p.instructions|
      ensures Lockstep.SourceOperand(p.instructions[j].dst) && Lockstep.SourceOperand(p.instructions[j].src)
    {
      AssembledOperands(lines, j);
    }
    forall l | l in p.labels
      ensures p.labels[l] <= |p.instructions|
    {
      LabelsInProgram(lines, l);
    }
    var w, r := TwinOf(p, codeBase), RamAfter(p, m, codeBase);
    forall k | codeBase <= k < codeBase + |w.code|
      ensures r[k] == w.code[k - codeBase]
    {
      assert r[codeBase..codeBase + |w.code|][k - codeBase] == r[k];
    }
  }

  /** A user program the two interpreters can run side by side: no INT, and its code below the stack. */
  predicate Comparable(p: Assembled, codeBase: nat) {
    && (forall i :: 0 <= i < |p.instructions| ==> p.instructions[i].opcode != Isa.INT)
    && DEFAULT_CODE_BASE <= codeBase && codeBase + Isa.INSTRUCTION_SIZE * |p.instructions| <= USER_STACK_BASE
  }

  /** A user-mode CPU entering at `pc`, with its code range. */
  function UserCpu(mem: Machine.Ram, pc: u64, begin: u64, end: u64, dev: Machine.Devices): Machine.State {
    Reachable.FreshCpu(mem, pc, Some(Machine.Range(begin, end)), dev).(priv := Machine.User)
  }

  /** The same entry on the decoded instructions and on the loaded code. */
  function VectorCpu(p: Assembled, mem: Machine.Ram, entry: u64, dev: Machine.Devices): Machine.State
    requires entry < |p.instructions| <= MEMORY_SIZE
  {
    UserCpu(mem, entry, 0, |p.instructions|, dev)
  }

  function BinaryCpu(p: Assembled, mem: Machine.Ram, codeBase: nat, entry: u64, dev: Machine.Devices): Machine.State
    requires entry < |p.instructions| && codeBase + Isa.INSTRUCTION_SIZE * |p.instructions| <= MEMORY_SIZE
  {
    UserCpu(mem, codeBase + Isa.INSTRUCTION_SIZE * entry, codeBase,
            codeBase + Isa.INSTRUCTION_SIZE * |p.instructions|, dev)
  }

  /** The same devices; vector-table entries are indices in dv and code addresses in db. */
  ghost predicate SameDevices(p: Assembled, codeBase: nat, dv: Machine.Devices, db: Machine.Devices) {
    Lockstep.DevicesAlike(codeBase, |p.instructions|, dv, db)
  }

  lemma UserCpusRelated(p: Assembled, codeBase: nat, r: Machine.Ram, entry: u64,
                        dv: Machine.Devices, db: Machine.Devices)
    requires Lockstep.GoodTwin(TwinOf(p, codeBase)) && Lockstep.SameData(TwinOf(p, codeBase), r, r)
    requires entry < |p.instructions| && SameDevices(p, codeBase, dv, db)
    ensures codeBase + Isa.INSTRUCTION_SIZE * |p.instructions| <= MEMORY_SIZE
    ensures Lockstep.Related(TwinOf(p, codeBase), VectorCpu(p, r, entry, dv), BinaryCpu(p, r, codeBase, entry, db))
  {
    hide Lockstep.SameData;
    Lockstep.SizeOfCode(TwinOf(p, codeBase));
  }

  /** No interrupt is due in the first n steps of the decoded program. */
  predicate Uninterrupted(c: Machine.Setup, v: Machine.State, n: nat) {
    forall i: nat :: i < n ==> !Machine.InterruptDue(c, Machine.Steps(c, v, i))
  }

  lemma AssembledIsUserTwin(lines: Source, m: Machine.Ram, codeBase: nat, entry: u64,
                            dv: Machine.Devices, db: Machine.Devices)
    requires Assemble(lines).Ok? && Pipeline(Assemble(lines).value, m, codeBase).Ok?
    requires Comparable(Assemble(lines).value, codeBase) && entry < |Assemble(lines).value.instructions|
    requires SameDevices(Assemble(lines).value, codeBase, dv, db)
    ensures var p := Assemble(lines).value;
            var r := RamAfter(p, m, codeBase);
            && LockstepUser.UserTwin(TwinOf(p, codeBase))
            && Lockstep.Related(TwinOf(p, codeBase), VectorCpu(p, r, entry, dv), BinaryCpu(p, r, codeBase, entry, db))
  {
    hide Assemble, Pipeline, Isa.EncodeProgram, Lockstep.Related, Lockstep.SameData, Lockstep.GoodTwin, RamAfter;
    AssembledIsTwin(lines, m, codeBase);
    var p := Assemble(lines).value;
    UserCpusRelated(p, codeBase, RamAfter(p, m, codeBase), entry, dv, db);
    Lockstep.SizeOfCode(TwinOf(p, codeBase));
  }

  /**
   * From source text to both executions: a comparable program started in user
   * mode from its decoded instructions and from its loaded file stays related
   * through the first n uninterrupted steps if and only if those steps keep
   * calls and returns bracketed.
   */
  lemma AssembledLockstepIff(lines: Source, m: Machine.Ram, codeBase: nat, cv: Machine.Setup, cb: Machine.Setup,
                             entry: u64, dv: Machine.Devices, db: Machine.Devices, n: nat)
    requires Assemble(lines).Ok? && Pipeline(Assemble(lines).value, m, codeBase).Ok?
    requires Comparable(Assemble(lines).value, codeBase) && entry < |Assemble(lines).value.instructions|
    requires SameDevices(Assemble(lines).value, codeBase, dv, db)
    requires Lockstep.Paired(TwinOf(Assemble(lines).value, codeBase), cv, cb)
    requires var p := Assemble(lines).value;
             Uninterrupted(cv, VectorCpu(p, RamAfter(p, m, codeBase), entry, dv), n)
    ensures var p := Assemble(lines).value;
            var w, r := TwinOf(p, codeBase), RamAfter(p, m, codeBase);
            var v, b := VectorCpu(p, r, entry, dv), BinaryCpu(p, r, codeBase, entry, db);
            (forall i: nat :: i <= n ==> LockstepUser.RelatedAt(w, cv, cb, v, b, i))
            <==> (forall i: nat :: i < n ==> LockstepUser.BracketedAt(w, cv, v, i))
  {
    hide Assemble, Pipeline, Lockstep.Paired, Lockstep.Related, LockstepUser.UserTwin, LockstepUser.RelatedAt,
      LockstepUser.BracketedAt, Machine.Steps, Machine.InterruptDue, SameDevices, RamAfter, TwinOf;
    AssembledIsUserTwin(lines, m, codeBase, entry, dv, db);
    var p := Assemble(lines).value;
    var r := RamAfter(p, m, codeBase);
    LockstepUser.UserLockstepIff(TwinOf(p, codeBase), cv, cb, VectorCpu(p, r, entry, dv),
                                 BinaryCpu(p, r, codeBase, entry, db), n);
  }

  /** A comparable program without CALL and RET: every uninterrupted user run is shared. */
  lemma AssembledRunsInLockstep(lines: Source, m: Machine.Ram, codeBase: nat, cv: Machine.Setup, cb: Machine.Setup,
                                entry: u64, dv: Machine.Devices, db: Machine.Devices, n: nat)
    requires Assemble(lines).Ok? && Pipeline(Assemble(lines).value, m, codeBase).Ok?
    requires Comparable(Assemble(lines).value, codeBase) && entry < |Assemble(lines).value.instructions|
    requires SameDevices(Assemble(lines).value, codeBase, dv, db)
    requires LockstepUser.CallFree(TwinOf(Assemble(lines).value, codeBase))
    requires Lockstep.Paired(TwinOf(Assemble(lines).value, codeBase), cv, cb)
    requires var p := Assemble(lines).value;
             Uninterrupted(cv, VectorCpu(p, RamAfter(p, m, codeBase), entry, dv), n)
    ensures var p := Assemble(lines).value;
            var r := RamAfter(p, m, codeBase);
            Lockstep.Related(TwinOf(p, codeBase), Machine.Steps(cv, VectorCpu(p, r, entry, dv), n),
                             Machine.Steps(cb, BinaryCpu(p, r, codeBase, entry, db), n))
  {
    hide Assemble, Pipeline, Lockstep.Paired, Lockstep.Related, LockstepUser.UserTwin, LockstepUser.CallFree,
      Machine.Steps, Machine.InterruptDue, SameDevices, RamAfter, TwinOf;
    AssembledIsUserTwin(lines, m, codeBase, entry, dv, db);
    var p := Assemble(lines).value;
    var r := RamAfter(p, m, codeBase);
    LockstepUser.CallFreeLockstep(TwinOf(p, codeBase), cv, cb, VectorCpu(p, r, entry, dv),
                                  BinaryCpu(p, r, codeBase, entry, db), n);
  }
}

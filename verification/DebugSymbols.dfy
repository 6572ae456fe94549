// Debug symbols (src/debug/DebugSymbols.cpp): building them from an assembled
// program, and the source map as a pair of mutually inverse lookups.
module DebugSymbols {
  import opened Words
  import opened Text
  import opened Assembler
  import TwoPass
  import Isa

  datatype Kind = CodeSymbol | DataSymbol

  datatype Symbol = Symbol(kind: Kind, name: string, address: u64)

  datatype Location = Location(address: u64, line: nat)

  datatype Table = Table(entries: seq<Symbol>, locations: seq<Location>)

  const EMPTY_TABLE := Table([], [])

  // ----- Adding -----

  predicate HasName(entries: seq<Symbol>, name: string) {
    exists i :: 0 <= i < |entries| && entries[i].name == name
  }

  /** add: a valid name that is not in use. */
  function AddSymbol(t: Table, s: Symbol): Result<Table> {
    if !ValidLabelName(s.name) || HasName(t.entries, s.name) then Err else Ok(t.(entries := t.entries + [s]))
  }

  predicate Clashes(ls: seq<Location>, l: Location) {
    exists i :: 0 <= i < |ls| && (ls[i].address == l.address || ls[i].line == l.line)
  }

  /** addSourceLocation: a positive line; neither its address nor its line may be mapped already. */
  function AddLocation(t: Table, l: Location): Result<Table> {
    if l.line == 0 || Clashes(t.locations, l) then Err else Ok(t.(locations := t.locations + [l]))
  }

  // ----- Looking up -----

  /** resolveSourceLine: the first location on the line. */
  function AddressOfLine(ls: seq<Location>, line: nat): Option<u64> {
    if line == 0 || ls == [] then None
    else if ls[0].line == line then Some(ls[0].address)
    else AddressOfLine(ls[1..], line)
  }

  /** sourceLineForAddress */
  function LineOfAddress(ls: seq<Location>, address: u64): Option<nat> {
    if ls == [] then None
    else if ls[0].address == address then Some(ls[0].line)
    else LineOfAddress(ls[1..], address)
  }

  /** No two locations share an address or a line, and lines are positive. */
  predicate Injective(ls: seq<Location>) {
    && (forall i :: 0 <= i < |ls| ==> ls[i].line > 0)
    && (forall i, j :: 0 <= i < j < |ls| ==> ls[i].address != ls[j].address && ls[i].line != ls[j].line)
  }

  /** What every addSourceLocation keeps. */
  lemma AddLocationKeepsInjective(t: Table, l: Location)
    requires Injective(t.locations)
    ensures AddLocation(t, l).Ok? ==> Injective(AddLocation(t, l).value.locations)
    ensures AddLocation(t, l).Ok? <==> Injective(t.locations + [l])
  {
    var after := t.locations + [l];
    if Clashes(t.locations, l) {
      var i :| 0 <= i < |t.locations| && (t.locations[i].address == l.address || t.locations[i].line == l.line);
      assert after[i] == t.locations[i] && after[|t.locations|] == l;
    }
    assert after[|t.locations|] == l;
  }

  lemma {:induction false} LookupsFind(ls: seq<Location>, i: nat)
    requires Injective(ls) && i < |ls|
    ensures AddressOfLine(ls, ls[i].line) == Some(ls[i].address)
    ensures LineOfAddress(ls, ls[i].address) == Some(ls[i].line)
  {
    if i > 0 {
      assert ls[1..][i - 1] == ls[i];
      LookupsFind(ls[1..], i - 1);
    }
  }

  lemma {:induction false} AddressOfLineIsStored(ls: seq<Location>, line: nat)
    ensures AddressOfLine(ls, line).Some? ==>
              exists i :: 0 <= i < |ls| && ls[i] == Location(AddressOfLine(ls, line).value, line)
  {
    if ls == [] || line == 0 {
    } else if ls[0].line == line {
      assert ls[0] == Location(AddressOfLine(ls, line).value, line);
    } else {
      AddressOfLineIsStored(ls[1..], line);
      if AddressOfLine(ls, line).Some? {
        var i :| 0 <= i < |ls[1..]| && ls[1..][i] == Location(AddressOfLine(ls, line).value, line);
        assert ls[i + 1] == ls[1..][i];
      }
    }
  }

  lemma {:induction false} LineOfAddressIsStored(ls: seq<Location>, address: u64)
    ensures LineOfAddress(ls, address).Some? ==>
              exists i :: 0 <= i < |ls| && ls[i] == Location(address, LineOfAddress(ls, address).value)
  {
    if ls == [] {
    } else if ls[0].address == address {
      assert ls[0] == Location(address, LineOfAddress(ls, address).value);
    } else {
      LineOfAddressIsStored(ls[1..], address);
      if LineOfAddress(ls, address).Some? {
        var i :| 0 <= i < |ls[1..]| && ls[1..][i] == Location(address, LineOfAddress(ls, address).value);
        assert ls[i + 1] == ls[1..][i];
      }
    }
  }

  /** The two lookups are mutually inverse partial functions. */
  lemma LookupsAreInverse(ls: seq<Location>, line: nat, address: u64)
    requires Injective(ls)
    ensures AddressOfLine(ls, line) == Some(address) <==> LineOfAddress(ls, address) == Some(line)
  {
    hide AddressOfLine, LineOfAddress;
    AddressOfLineIsStored(ls, line);
    LineOfAddressIsStored(ls, address);
    if AddressOfLine(ls, line) == Some(address) {
      var i :| 0 <= i < |ls| && ls[i] == Location(address, line);
      LookupsFind(ls, i);
    }
    if LineOfAddress(ls, address) == Some(line) {
      var i :| 0 <= i < |ls| && ls[i] == Location(address, line);
      LookupsFind(ls, i);
    }
  }

  // ----- fromAssembledProgram -----

  // The labels of a map in some order; the source sorts them by name.
  ghost predicate Enumerates(order: seq<string>, m: Labels) {
    && (forall n :: n in order <==> n in m)
    && (forall i, j :: 0 <= i < j < |order| ==> order[i] != order[j])
  }

  predicate AllIn(order: seq<string>, m: Labels) {
    forall i :: 0 <= i < |order| ==> order[i] in m
  }

  /** The overflow guard on base + 24 * index. */
  predicate Fits(base: u64, index: nat) {
    index <= (0xFFFF_FFFF_FFFF_FFFF - base) / Isa.INSTRUCTION_SIZE
  }

  function AddressAt(base: u64, index: nat): u64
    requires Fits(base, index)
  {
    base + index * Isa.INSTRUCTION_SIZE
  }

  /** The code labels order[..k] added to an empty table. */
  function AddCode(labels: Labels, order: seq<string>, base: u64, k: nat): Result<Table>
    requires AllIn(order, labels) && k <= |order|
  {
    if k == 0 then Ok(EMPTY_TABLE)
    else
      var before := AddCode(labels, order, base, k - 1);
      var index := labels[order[k - 1]];
      if before.Err? || !Fits(base, index) then Err
      else AddSymbol(before.value, Symbol(CodeSymbol, order[k - 1], AddressAt(base, index)))
  }

  function AddData(t: Table, labels: Labels, order: seq<string>, k: nat): Result<Table>
    requires AllIn(order, labels) && k <= |order|
  {
    if k == 0 then Ok(t)
    else
      var before := AddData(t, labels, order, k - 1);
      if before.Err? then Err else AddSymbol(before.value, Symbol(DataSymbol, order[k - 1], labels[order[k - 1]]))
  }

  function AddLocations(t: Table, lines: seq<nat>, base: u64, k: nat): Result<Table>
    requires k <= |lines|
  {
    if k == 0 then Ok(t)
    else
      var before := AddLocations(t, lines, base, k - 1);
      if before.Err? || !Fits(base, k - 1) then Err
      else AddLocation(before.value, Location(AddressAt(base, k - 1), lines[k - 1]))
  }

  function Build(p: Assembled, base: u64, codeOrder: seq<string>, dataOrder: seq<string>): Result<Table>
    requires AllIn(codeOrder, p.labels) && AllIn(dataOrder, p.dataLabels)
  {
    if p.sourceLines != [] && |p.sourceLines| != |p.instructions| then Err
    else
      var code := AddCode(p.labels, codeOrder, base, |codeOrder|);
      if code.Err? then Err
      else
        var both := AddData(code.value, p.dataLabels, dataOrder, |dataOrder|);
        if both.Err? then Err else AddLocations(both.value, p.sourceLines, base, |p.sourceLines|)
  }

  // ----- What building gives -----

  predicate CodeFits(labels: Labels, order: seq<string>, base: u64, k: nat)
    requires AllIn(order, labels) && k <= |order|
  {
    forall i :: 0 <= i < k ==> Fits(base, labels[order[i]])
  }

  function CodeEntries(labels: Labels, order: seq<string>, base: u64, k: nat): (r: seq<Symbol>)
    requires AllIn(order, labels) && k <= |order| && CodeFits(labels, order, base, k)
    ensures |r| == k
  {
    seq(k, i requires 0 <= i < k => Symbol(CodeSymbol, order[i], AddressAt(base, labels[order[i]])))
  }

  function DataEntries(labels: Labels, order: seq<string>, k: nat): (r: seq<Symbol>)
    requires AllIn(order, labels) && k <= |order|
    ensures |r| == k
  {
    seq(k, i requires 0 <= i < k => Symbol(DataSymbol, order[i], labels[order[i]]))
  }

  function Locations(lines: seq<nat>, base: u64, k: nat): (r: seq<Location>)
    requires k <= |lines| && (k > 0 ==> Fits(base, k - 1))
    ensures |r| == k
  {
    seq(k, i requires 0 <= i < k => Location(AddressAt(base, i), lines[i]))
  }

  ghost predicate GoodNames(order: seq<string>) {
    && (forall i :: 0 <= i < |order| ==> ValidLabelName(order[i]))
    && (forall i, j :: 0 <= i < j < |order| ==> order[i] != order[j])
  }

  lemma {:induction false} AddCodeClosed(labels: Labels, order: seq<string>, base: u64, k: nat)
    requires AllIn(order, labels) && k <= |order| && GoodNames(order)
    ensures AddCode(labels, order, base, k)
         == if CodeFits(labels, order, base, k) then Ok(Table(CodeEntries(labels, order, base, k), [])) else Err
  {
    hide Fits, AddressAt, ValidLabelName;
    if k == 0 {
      assert CodeEntries(labels, order, base, k) == [];
    } else {
      AddCodeClosed(labels, order, base, k - 1);
      if CodeFits(labels, order, base, k - 1) && Fits(base, labels[order[k - 1]]) {
        var entries := CodeEntries(labels, order, base, k - 1);
        assert !HasName(entries, order[k - 1]);
        assert CodeEntries(labels, order, base, k)
            == entries + [Symbol(CodeSymbol, order[k - 1], AddressAt(base, labels[order[k - 1]]))];
      }
    }
  }

  lemma {:induction false} AddDataClosed(t: Table, labels: Labels, order: seq<string>, k: nat)
    requires AllIn(order, labels) && k <= |order| && GoodNames(order)
    requires forall i :: 0 <= i < |t.entries| ==> t.entries[i].name !in labels
    ensures AddData(t, labels, order, k) == Ok(t.(entries := t.entries + DataEntries(labels, order, k)))
  {
    hide ValidLabelName;
    if k == 0 {
      assert t.entries + DataEntries(labels, order, k) == t.entries;
    } else {
      AddDataClosed(t, labels, order, k - 1);
      var entries := DataEntries(labels, order, k - 1);
      assert order[k - 1] in labels;
      assert !HasName(t.entries + entries, order[k - 1]);
      assert t.entries + DataEntries(labels, order, k)
          == t.entries + entries + [Symbol(DataSymbol, order[k - 1], labels[order[k - 1]])];
    }
  }

  lemma LocationsInjective(lines: seq<nat>, base: u64, k: nat, bound: nat)
    requires k <= |lines| && (k > 0 ==> Fits(base, k - 1)) && TwoPass.Increasing(lines, bound)
    ensures Injective(Locations(lines, base, k))
  {
  }

  lemma {:induction false} AddLocationsClosed(t: Table, lines: seq<nat>, base: u64, k: nat, bound: nat)
    requires k <= |lines| && t.locations == [] && TwoPass.Increasing(lines, bound)
    ensures AddLocations(t, lines, base, k)
         == if k == 0 || Fits(base, k - 1) then Ok(t.(locations := Locations(lines, base, k))) else Err
  {
    hide AddLocation;
    if k == 0 {
      assert Locations(lines, base, k) == [];
    } else {
      AddLocationsClosed(t, lines, base, k - 1, bound);
      if Fits(base, k - 1) {
        assert k > 1 ==> Fits(base, k - 2);
        var before := t.(locations := Locations(lines, base, k - 1));
        var l := Location(AddressAt(base, k - 1), lines[k - 1]);
        LocationsInjective(lines, base, k - 1, bound);
        LocationsInjective(lines, base, k, bound);
        assert Locations(lines, base, k) == before.locations + [l];
        AddLocationKeepsInjective(before, l);
        AddLocationAppends(before, l);
      }
    }
  }

  lemma AddLocationAppends(t: Table, l: Location)
    ensures AddLocation(t, l).Ok? ==> AddLocation(t, l) == Ok(t.(locations := t.locations + [l]))
  {
  }

  /** The address of instruction `index` is below 2^64. */
  predicate Representable(base: u64, index: nat) {
    base + 24 * index < 0x1_0000_0000_0000_0000
  }

  lemma FitsIsRepresentable(base: u64, index: nat)
    ensures Fits(base, index) <==> Representable(base, index)
  {
  }

  /** Every address the symbols need is representable. */
  predicate AddressesFit(p: Assembled, base: u64) {
    && (forall name :: name in p.labels ==> Representable(base, p.labels[name]))
    && (p.sourceLines != [] ==> Representable(base, |p.sourceLines| - 1))
  }

  // What the assembler guarantees about the tables it hands over.
  ghost predicate GoodTables(p: Assembled, bound: nat) {
    && |p.sourceLines| == |p.instructions| && TwoPass.Increasing(p.sourceLines, bound)
    && p.labels.Keys !! p.dataLabels.Keys
    && (forall n :: n in p.labels || n in p.dataLabels ==> ValidLabelName(n))
  }

  lemma AssembledTablesAreGood(lines: Source)
    requires Assemble(lines).Ok?
    ensures GoodTables(Assemble(lines).value, |lines|)
  {
    TwoPass.AssembledPasses(lines);
    hide CollectTo, EmitTo, Assemble, EntryOf, ValidLabelName, TwoPass.Increasing;
    var p := Assemble(lines).value;
    TwoPass.SourceLinesIncrease(lines, p.dataLabels, |lines|, EmitTo(lines, p.dataLabels, |lines|).value);
    TwoPass.LabelSetsAreDisjoint(lines, |lines|);
    forall n | n in p.labels || n in p.dataLabels
      ensures ValidLabelName(n)
    {
      TwoPass.LabelIsAllowed(lines, |lines|, n);
      AllowedIsValid(n);
    }
  }

  lemma AllowedIsValid(name: string)
    ensures AllowedLabel(name) ==> ValidLabelName(name)
  {
    hide ValidLabelName, IsRegisterToken, IsReservedDirective, OpcodeFromString;
  }

  lemma OrderIsGood(order: seq<string>, m: Labels)
    requires Enumerates(order, m) && forall n :: n in m ==> ValidLabelName(n)
    ensures AllIn(order, m) && GoodNames(order)
  {
    hide ValidLabelName;
    forall i | 0 <= i < |order|
      ensures order[i] in m
    {
      assert order[i] in order;
    }
  }

  /** Building gives one entry per label and one location per instruction, and fails only on an address overflow. */
  lemma BuildClosed(p: Assembled, base: u64, codeOrder: seq<string>, dataOrder: seq<string>, bound: nat)
    requires GoodTables(p, bound) && Enumerates(codeOrder, p.labels) && Enumerates(dataOrder, p.dataLabels)
    ensures AllIn(codeOrder, p.labels) && AllIn(dataOrder, p.dataLabels)
    ensures Build(p, base, codeOrder, dataOrder).Ok? <==> AddressesFit(p, base)
    ensures AddressesFit(p, base) ==>
              && CodeFits(p.labels, codeOrder, base, |codeOrder|)
              && Build(p, base, codeOrder, dataOrder)
                 == Ok(Table(CodeEntries(p.labels, codeOrder, base, |codeOrder|)
                               + DataEntries(p.dataLabels, dataOrder, |dataOrder|),
                             Locations(p.sourceLines, base, |p.sourceLines|)))
  {
    hide ValidLabelName, Fits, TwoPass.Increasing, AddCode, AddData, AddLocations, GoodNames;
    var n := |codeOrder|;
    OrderIsGood(codeOrder, p.labels);
    OrderIsGood(dataOrder, p.dataLabels);
    AddCodeClosed(p.labels, codeOrder, base, n);
    CodeFitsIff(p.labels, codeOrder, base);
    AddressesFitIs(p, base);
    if CodeFits(p.labels, codeOrder, base, n) {
      var code := Table(CodeEntries(p.labels, codeOrder, base, n), []);
      EntriesHaveOtherNames(p.labels, codeOrder, base, p.dataLabels);
      AddDataClosed(code, p.dataLabels, dataOrder, |dataOrder|);
      var both := code.(entries := code.entries + DataEntries(p.dataLabels, dataOrder, |dataOrder|));
      AddLocationsClosed(both, p.sourceLines, base, |p.sourceLines|, bound);
    }
  }

  lemma AddressesFitIs(p: Assembled, base: u64)
    ensures AddressesFit(p, base)
       <==> && (forall name :: name in p.labels ==> Fits(base, p.labels[name]))
            && (p.sourceLines != [] ==> Fits(base, |p.sourceLines| - 1))
  {
    forall index: nat
      ensures Fits(base, index) <==> Representable(base, index)
    {
      FitsIsRepresentable(base, index);
    }
    hide Fits, Representable;
  }

  lemma CodeFitsIff(labels: Labels, order: seq<string>, base: u64)
    requires Enumerates(order, labels) && AllIn(order, labels)
    ensures CodeFits(labels, order, base, |order|) <==> forall name :: name in labels ==> Fits(base, labels[name])
  {
    hide Fits;
    if CodeFits(labels, order, base, |order|) {
      forall name | name in labels
        ensures Fits(base, labels[name])
      {
        assert name in order;
      }
    }
  }

  lemma EntriesHaveOtherNames(labels: Labels, order: seq<string>, base: u64, other: Labels)
    requires AllIn(order, labels) && CodeFits(labels, order, base, |order|) && labels.Keys !! other.Keys
    ensures var es := CodeEntries(labels, order, base, |order|); forall i :: 0 <= i < |es| ==> es[i].name !in other
  {
    hide Fits, AddressAt;
    forall i | 0 <= i < |order|
      ensures order[i] !in other
    {
      assert order[i] in labels.Keys;
    }
  }

  /**
   * For every assembled program, building its symbols fails only when an
   * address overflows, and then the address of instruction i maps to its
   * source line, that line maps back, and the lookups invert each other.
   */
  lemma SourceMapIsInvertible(lines: Source, base: u64, codeOrder: seq<string>, dataOrder: seq<string>, i: nat)
    requires Assemble(lines).Ok?
    requires Enumerates(codeOrder, Assemble(lines).value.labels)
    requires Enumerates(dataOrder, Assemble(lines).value.dataLabels)
    ensures AllIn(codeOrder, Assemble(lines).value.labels) && AllIn(dataOrder, Assemble(lines).value.dataLabels)
    ensures var p := Assemble(lines).value;
            var t := Build(p, base, codeOrder, dataOrder);
            && (t.Ok? <==> AddressesFit(p, base))
            && (t.Ok? && i < |p.instructions| ==>
                  && |p.sourceLines| == |p.instructions| && base + 24 * i < 0x1_0000_0000_0000_0000
                  && LineOfAddress(t.value.locations, base + 24 * i) == Some(p.sourceLines[i])
                  && AddressOfLine(t.value.locations, p.sourceLines[i]) == Some(base + 24 * i))
            && (t.Ok? ==> Injective(t.value.locations))
  {
    hide Assemble, Build, LineOfAddress, AddressOfLine, Injective, TwoPass.Increasing, CodeEntries, DataEntries;
    var p := Assemble(lines).value;
    AssembledTablesAreGood(lines);
    BuildClosed(p, base, codeOrder, dataOrder, |lines|);
    if AddressesFit(p, base) {
      LocationsInjective(p.sourceLines, base, |p.sourceLines|, |lines|);
      if i < |p.instructions| {
        LookupsFind(Locations(p.sourceLines, base, |p.sourceLines|), i);
      }
    }
  }

  lemma AddressIs(base: u64, index: nat)
    requires Fits(base, index)
    ensures AddressAt(base, index) == base + 24 * index
  {
  }

  /** Every label of the program resolves to the address the loader gives it: code by its index, data as it stands. */
  lemma LabelsResolve(p: Assembled, base: u64, codeOrder: seq<string>, dataOrder: seq<string>, bound: nat, name: string)
    requires GoodTables(p, bound) && Enumerates(codeOrder, p.labels) && Enumerates(dataOrder, p.dataLabels)
    requires AddressesFit(p, base)
    ensures AllIn(codeOrder, p.labels) && AllIn(dataOrder, p.dataLabels) && Build(p, base, codeOrder, dataOrder).Ok?
    ensures var es := Build(p, base, codeOrder, dataOrder).value.entries;
            && (name in p.labels ==>
                  exists a: u64 :: Symbol(CodeSymbol, name, a) in es && a == base + 24 * (p.labels[name] as int))
            && (name in p.dataLabels ==> Symbol(DataSymbol, name, p.dataLabels[name]) in es)
  {
    hide Build, GoodTables, Fits, AddressAt;
    BuildClosed(p, base, codeOrder, dataOrder, bound);
    var code := CodeEntries(p.labels, codeOrder, base, |codeOrder|);
    var data := DataEntries(p.dataLabels, dataOrder, |dataOrder|);
    if name in p.labels {
      assert name in codeOrder;
      var i :| 0 <= i < |codeOrder| && codeOrder[i] == name;
      assert code[i] in code + data;
      assert code[i] == Symbol(CodeSymbol, name, AddressAt(base, p.labels[name]));
      AddressIs(base, p.labels[name]);
    }
    if name in p.dataLabels {
      assert name in dataOrder;
      var i :| 0 <= i < |dataOrder| && dataOrder[i] == name;
      assert data[i] in code + data;
    }
  }

  // ----- The C++ object -----

  class Symbols {
    var entries: seq<Symbol>
    var indices: map<string, nat>
    var locations: seq<Location>

    ghost predicate Valid()
      reads this
    {
      && (forall n :: n in indices ==> indices[n] < |entries| && entries[indices[n]].name == n)
      && (forall i :: 0 <= i < |entries| ==> entries[i].name in indices && indices[entries[i].name] == i)
    }

    ghost function View(): Table
      reads this
    {
      Table(entries, locations)
    }

    constructor ()
      ensures Valid() && View() == EMPTY_TABLE
    {
      entries, indices, locations := [], map[], [];
    }

    method Add(s: Symbol) returns (ok: bool)
      requires Valid()
      modifies this
      ensures Valid()
      ensures var r := AddSymbol(old(View()), s);
              ok == r.Ok? && View() == if ok then r.value else old(View())
    {
      hide ValidLabelName;
      if !ValidLabelName(s.name) || s.name in indices {
        assert s.name in indices ==> entries[indices[s.name]].name == s.name;
        return false;
      }
      indices := indices[s.name := |entries|];
      entries := entries + [s];
      return true;
    }

    method AddSourceLocation(address: u64, line: nat) returns (ok: bool)
      requires Valid()
      modifies this`locations
      ensures var r := AddLocation(old(View()), Location(address, line));
              ok == r.Ok? && View() == if ok then r.value else old(View())
    {
      if line == 0 {
        return false;
      }
      for i := 0 to |locations|
        invariant forall j :: 0 <= j < i ==> locations[j].address != address && locations[j].line != line
      {
        if locations[i].address == address || locations[i].line == line {
          return false;
        }
      }
      locations := locations + [Location(address, line)];
      return true;
    }

    method ResolveSourceLine(line: nat) returns (r: Option<u64>)
      ensures r == AddressOfLine(locations, line)
    {
      if line == 0 {
        return None;
      }
      for i := 0 to |locations|
        invariant AddressOfLine(locations, line) == AddressOfLine(locations[i..], line)
      {
        assert locations[i..][1..] == locations[i + 1..];
        if locations[i].line == line {
          return Some(locations[i].address);
        }
      }
      return None;
    }

    method SourceLineForAddress(address: u64) returns (r: Option<nat>)
      ensures r == LineOfAddress(locations, address)
    {
      for i := 0 to |locations|
        invariant LineOfAddress(locations, address) == LineOfAddress(locations[i..], address)
      {
        assert locations[i..][1..] == locations[i + 1..];
        if locations[i].address == address {
          return Some(locations[i].line);
        }
      }
      return None;
    }

    /** resolveCode and resolveData: the address of a name of the wanted kind. */
    method Resolve(name: string, kind: Kind) returns (r: Option<u64>)
      requires Valid()
      ensures r.Some? ==> Symbol(kind, name, r.value) in entries
      ensures r.None? ==> forall a :: Symbol(kind, name, a) !in entries
    {
      if name !in indices {
        return None;
      }
      var s := entries[indices[name]];
      if s.kind != kind {
        return None;
      }
      assert s == Symbol(kind, name, s.address);
      return Some(s.address);
    }

    /** fromAssembledProgram, into an empty table; on an error what was added so far is discarded with the object. */
    method FromAssembled(p: Assembled, base: u64, codeOrder: seq<string>, dataOrder: seq<string>) returns (ok: bool)
      requires Valid() && View() == EMPTY_TABLE
      requires AllIn(codeOrder, p.labels) && AllIn(dataOrder, p.dataLabels)
      modifies this
      ensures Valid()
      ensures var r := Build(p, base, codeOrder, dataOrder);
              ok == r.Ok? && (ok ==> View() == r.value)
    {
      hide Fits, AddressAt, AddSymbol, AddLocation;
      if p.sourceLines != [] && |p.sourceLines| != |p.instructions| {
        return false;
      }
      for k := 0 to |codeOrder|
        invariant Valid() && AddCode(p.labels, codeOrder, base, k) == Ok(View())
      {
        AddCodeFails(p.labels, codeOrder, base, k + 1);
        if !Fits(base, p.labels[codeOrder[k]]) {
          return false;
        }
        var added := Add(Symbol(CodeSymbol, codeOrder[k], AddressAt(base, p.labels[codeOrder[k]])));
        if !added {
          return false;
        }
      }
      ghost var code := View();
      for k := 0 to |dataOrder|
        invariant Valid() && AddData(code, p.dataLabels, dataOrder, k) == Ok(View())
      {
        AddDataFails(code, p.dataLabels, dataOrder, k + 1);
        var added := Add(Symbol(DataSymbol, dataOrder[k], p.dataLabels[dataOrder[k]]));
        if !added {
          return false;
        }
      }
      ghost var both := View();
      for k := 0 to |p.sourceLines|
        invariant Valid() && AddLocations(both, p.sourceLines, base, k) == Ok(View())
      {
        AddLocationsFails(both, p.sourceLines, base, k + 1);
        if !Fits(base, k) {
          return false;
        }
        var added := AddSourceLocation(AddressAt(base, k), p.sourceLines[k]);
        if !added {
          return false;
        }
      }
      return true;
    }
  }

  lemma {:induction false} AddCodeFails(labels: Labels, order: seq<string>, base: u64, k: nat)
    requires AllIn(order, labels) && k <= |order|
    ensures AddCode(labels, order, base, k).Err? ==> AddCode(labels, order, base, |order|).Err?
    decreases |order| - k
  {
    hide Fits, AddressAt, AddSymbol;
    if k < |order| {
      AddCodeFails(labels, order, base, k + 1);
    }
  }

  lemma {:induction false} AddDataFails(t: Table, labels: Labels, order: seq<string>, k: nat)
    requires AllIn(order, labels) && k <= |order|
    ensures AddData(t, labels, order, k).Err? ==> AddData(t, labels, order, |order|).Err?
    decreases |order| - k
  {
    hide AddSymbol;
    if k < |order| {
      AddDataFails(t, labels, order, k + 1);
    }
  }

  lemma {:induction false} AddLocationsFails(t: Table, lines: seq<nat>, base: u64, k: nat)
    requires k <= |lines|
    ensures AddLocations(t, lines, base, k).Err? ==> AddLocations(t, lines, base, |lines|).Err?
    decreases |lines| - k
  {
    hide Fits, AddressAt, AddLocation;
    if k < |lines| {
      AddLocationsFails(t, lines, base, k + 1);
    }
  }
}

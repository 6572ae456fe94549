// Loading a program into memory (src/binary/BinaryLoader.cpp).
module Loader {
  import opened Words
  import opened BinaryFormat
  import Isa
  import M = Memory

  datatype Image = Image(codeBase: nat, entry: nat, codeSize: nat, dataBase: nat, dataSize: nat)

  predicate RangesOverlap(first: nat, firstSize: nat, second: nat, secondSize: nat) {
    firstSize != 0 && secondSize != 0 && first < second + secondSize && second < first + firstSize
  }

  predicate Within(k: nat, base: nat, size: nat) {
    base <= k < base + size
  }

  /** The test is exact: two ranges overlap when some byte lies in both. */
  lemma OverlapMeansSharedByte(first: nat, firstSize: nat, second: nat, secondSize: nat)
    ensures RangesOverlap(first, firstSize, second, secondSize)
       <==> exists k :: Within(k, first, firstSize) && Within(k, second, secondSize)
  {
    if RangesOverlap(first, firstSize, second, secondSize) {
      var k := if first < second then second else first;
      assert Within(k, first, firstSize) && Within(k, second, secondSize);
    }
  }

  /** validateProgram */
  predicate ValidProgram(p: Program) {
    && Supported(p.header.major, p.header.minor)
    && p.header.endian.Little?
    && p.code != []
    && p.header.codeSize == |p.code|
    && p.header.dataSize == |p.data|
    && |p.code| % Isa.INSTRUCTION_SIZE == 0
    && p.header.entry < p.header.codeSize
    && p.header.entry % Isa.INSTRUCTION_SIZE == 0
    && (IsLegacy(p.header.major, p.header.minor) ==>
          p.data == [] && p.header.dataBase == 0 && p.header.dataSize == 0)
  }

  /** validatePlacement */
  predicate ValidPlacement(p: Program, memorySize: nat, codeBase: nat) {
    && codeBase <= memorySize && |p.code| <= memorySize - codeBase
    && p.header.dataBase <= memorySize && |p.data| <= memorySize - p.header.dataBase
    && !RangesOverlap(codeBase, |p.code|, p.header.dataBase, |p.data|)
  }

  predicate Loadable(p: Program, memorySize: nat, codeBase: nat) {
    ValidProgram(p) && ValidPlacement(p, memorySize, codeBase)
  }

  function Loaded(m: seq<byte>, p: Program, codeBase: nat): (r: seq<byte>)
    requires ValidPlacement(p, |m|, codeBase)
    ensures |r| == |m|
  {
    M.Splice(M.Splice(m, p.header.dataBase, p.data), codeBase, p.code)
  }

  function ImageOf(p: Program, codeBase: nat): Image {
    Image(codeBase, codeBase + p.header.entry, |p.code|, p.header.dataBase, |p.data|)
  }

  /** After a load both sections lie at their bases, and no other byte of memory has changed. */
  lemma LoadedSections(m: seq<byte>, p: Program, codeBase: nat)
    requires ValidPlacement(p, |m|, codeBase)
    ensures var r := Loaded(m, p, codeBase);
            && r[codeBase..codeBase + |p.code|] == p.code
            && r[p.header.dataBase..p.header.dataBase + |p.data|] == p.data
            && (forall k ::
                  0 <= k < |m| && !Within(k, codeBase, |p.code|) && !Within(k, p.header.dataBase, |p.data|) ==>
                  r[k] == m[k])
  {
    var at, size := p.header.dataBase, |p.data|;
    var staged, r := M.Splice(m, at, p.data), Loaded(m, p, codeBase);
    OverlapMeansSharedByte(codeBase, |p.code|, at, size);
    forall k | at <= k < at + size
      ensures r[k] == staged[k]
    {
      assert Within(k, at, size) && !Within(k, codeBase, |p.code|);
    }
    assert r[at..at + size] == staged[at..at + size];
  }

  /** The loader accepts exactly the little-endian programs that a file can hold and give back unchanged. */
  lemma LoaderAcceptsIffFileRoundTrips(p: Program)
    ensures ValidProgram(p) <==> p.header.endian.Little? && Write(p).Ok? && Read(Write(p).value) == Ok(p)
  {
    hide Read, Write;
    ReadUndoesWriteIff(p);
  }

  /** A legacy header does not store the data base. */
  function WithoutStrayBase(h: Header): Header {
    if IsLegacy(h.major, h.minor) then h.(dataBase := 0) else h
  }

  /**
   * For a little-endian program with consistent sizes, reader and loader
   * agree; only a stray legacy data base tells them apart.
   */
  lemma ReaderAgreesWithLoader(p: Program)
    requires p.header.endian.Little? && p.header.codeSize == |p.code| && p.header.dataSize == |p.data|
    ensures (Write(p).Ok? && Read(Write(p).value).Ok?)
       <==> ValidProgram(p.(header := WithoutStrayBase(p.header)))
  {
    hide Read, HeaderBytes;
    if Writable(p) {
      ReadOfWrite(p);
    }
  }

  /**
   * loadIntoMemory: all checks come first and the sections are written to a
   * copy, so a refused program leaves the memory as it was and an accepted
   * one replaces it in one step.
   */
  method LoadIntoMemory(p: Program, memory: M.Memory, codeBase: nat) returns (r: Result<Image>)
    modifies memory
    ensures r == if Loadable(p, old(memory.bytes.Length), codeBase) then Ok(ImageOf(p, codeBase)) else Err
    ensures r.Err? ==> memory.bytes == old(memory.bytes)
    ensures r.Ok? ==> fresh(memory.bytes) && memory.bytes[..] == Loaded(old(memory.bytes[..]), p, codeBase)
    ensures old(memory.bytes)[..] == old(memory.bytes[..])
  {
    if !ValidProgram(p) || !ValidPlacement(p, memory.bytes.Length, codeBase) {
      return Err;
    }
    var staged := new M.Memory(memory.bytes.Length);
    var n := memory.bytes.Length;
    assert staged.bytes.Length == |staged.bytes[..]| == n;
    for i := 0 to n
      invariant fresh(staged) && fresh(staged.bytes) && staged.bytes.Length == n
      invariant memory.bytes == old(memory.bytes) && memory.bytes[..] == old(memory.bytes[..])
      invariant forall k :: 0 <= k < i ==> staged.bytes[k] == memory.bytes[k]
    {
      staged.bytes[i] := memory.bytes[i];
    }
    assert staged.bytes[..] == old(memory.bytes[..]);
    if p.data != [] {
      var ok := staged.WriteBytes(p.header.dataBase, p.data);
    }
    EmptySplice(old(memory.bytes[..]), p.header.dataBase);
    var ok := staged.WriteBytes(codeBase, p.code);
    memory.bytes := staged.bytes;
    return Ok(ImageOf(p, codeBase));
  }

  lemma EmptySplice(m: seq<byte>, at: nat)
    requires at <= |m|
    ensures M.Splice(m, at, []) == m
  {
  }
}

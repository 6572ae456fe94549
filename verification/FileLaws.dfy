// The program file byte by byte (docs/virtual-binary-format.md): what lies where in
// both byte orders, and which files and placements are accepted.
module FileLaws {
  import opened Words
  import opened BinaryFormat
  import Loader
  import M = Memory

  // ----- Numbers in files and memory -----

  /** Byte k of a number, counted from the least significant. */
  function ByteAt(v: nat, k: nat): nat {
    v / Pow256(k) % 256
  }

  /** Encoding puts byte k of the number at k, or at the other end in big-endian order. */
  lemma EncodingLaw(v: nat, width: nat, k: nat)
    requires k < width
    ensures M.Encode(v, width, M.Little)[k] == ByteAt(v, k)
    ensures M.Encode(v, width, M.Big)[k] == ByteAt(v, width - 1 - k)
  {
    LittleEndianByte(v, width, k);
    LittleEndianByte(v, width, width - 1 - k);
  }

  /** The four bytes at an offset, as a number. */
  function Number(b: seq<byte>, at: nat, big: bool): int
    requires at + 4 <= |b|
  {
    if big then 0x100_0000 * Octet(b, at) + 0x1_0000 * Octet(b, at + 1) + 0x100 * Octet(b, at + 2) + Octet(b, at + 3)
    else Octet(b, at) + 0x100 * Octet(b, at + 1) + 0x1_0000 * Octet(b, at + 2) + 0x100_0000 * Octet(b, at + 3)
  }

  function Octet(b: seq<byte>, at: nat): int
    requires at < |b|
  {
    b[at]
  }

  lemma FourLittle(b: seq<byte>)
    requires |b| == 4
    ensures FromLittleEndian(b)
         == Octet(b, 0) + 0x100 * Octet(b, 1) + 0x1_0000 * Octet(b, 2) + 0x100_0000 * Octet(b, 3)
  {
    assert b[1..][1..] == b[2..] && b[2..][1..] == b[3..] && b[3..][1..] == [];
    assert FromLittleEndian(b[3..]) == Octet(b, 3);
    assert FromLittleEndian(b[2..]) == Octet(b, 2) + 256 * Octet(b, 3);
    assert FromLittleEndian(b[1..]) == Octet(b, 1) + 256 * FromLittleEndian(b[2..]);
  }

  lemma NumberIsRead(b: seq<byte>, at: nat, e: M.Endianness)
    requires at + 4 <= |b|
    ensures U32At(b, at, e) == Number(b, at, e.Big?)
  {
    var w := b[at..at + 4];
    FourLittle(w);
    FourLittle(Reversed(w));
  }

  // ----- The layout -----

  /** The header in bytes: magic, version, byte order, a reserved zero, then the numbers. */
  predicate Laid(b: seq<byte>, h: Header) {
    && |b| >= 16
    && b[0] == 0x5A && b[1] == 0x43 && b[2] == 0x50 && b[3] == 0x55
    && b[4] == h.major == 0 && b[5] == h.minor && (h.minor == 2 || h.minor == 3)
    && b[6] == (if h.endian.Little? then 1 else 2) && b[7] == 0
    && Number(b, 8, h.endian.Big?) == h.entry && Number(b, 12, h.endian.Big?) == h.codeSize
    && if h.minor == 3 then
         |b| >= 24 && Number(b, 16, h.endian.Big?) == h.dataBase && Number(b, 20, h.endian.Big?) == h.dataSize
       else h.dataBase == 0 && h.dataSize == 0
  }

  /** The whole file: the header, the code and the data, with nothing after them. */
  predicate IsFile(b: seq<byte>, p: Program) {
    var start := if p.header.minor == 3 then 24 else 16;
    && Laid(b, p.header)
    && |b| == start + p.header.codeSize + p.header.dataSize
    && p.code == b[start..start + p.header.codeSize] && p.data == b[start + p.header.codeSize..]
  }

  /** A header that makes sense: whole instructions, and an entry that is one of them. */
  predicate Sensible(h: Header) {
    h.codeSize % 24 == 0 && h.entry % 24 == 0 && h.entry < h.codeSize
  }

  lemma MagicIs(b: seq<byte>)
    requires |b| >= 4
    ensures b[..4] == MAGIC <==> b[0] == 0x5A && b[1] == 0x43 && b[2] == 0x50 && b[3] == 0x55
  {
    if b[..4] == MAGIC {
      assert b[..4][0] == b[0] && b[..4][1] == b[1] && b[..4][2] == b[2] && b[..4][3] == b[3];
    }
  }

  lemma LaidIsRead(b: seq<byte>, h: Header)
    requires |b| >= 16
    ensures Laid(b, h) <==> b[..4] == MAGIC && ReadHeader(b) == Ok(h)
  {
    MagicIs(b);
    NumbersAreRead(b, M.Little);
    NumbersAreRead(b, M.Big);
    hide U32At, Number;
  }

  lemma NumbersAreRead(b: seq<byte>, e: M.Endianness)
    requires |b| >= 16
    ensures U32At(b, 8, e) == Number(b, 8, e.Big?) && U32At(b, 12, e) == Number(b, 12, e.Big?)
    ensures |b| >= 24 ==> U32At(b, 16, e) == Number(b, 16, e.Big?) && U32At(b, 20, e) == Number(b, 20, e.Big?)
  {
    hide U32At, Number;
    NumberIsRead(b, 8, e);
    NumberIsRead(b, 12, e);
    if |b| >= 24 {
      NumberIsRead(b, 16, e);
      NumberIsRead(b, 20, e);
    }
  }

  /** The reader accepts a program exactly from its file. */
  lemma ReadLaw(b: seq<byte>, p: Program)
    ensures Read(b) == Ok(p) <==> IsFile(b, p) && Sensible(p.header)
  {
    hide ReadHeader, Number;
    if |b| >= 16 {
      LaidIsRead(b, p.header);
    }
  }

  /** What the writer produces, and when it refuses: the sizes stored are those of the sections. */
  lemma WriteLaw(p: Program)
    ensures Write(p).Ok?
       <==> && p.header.major == 0 && (p.header.minor == 2 || p.header.minor == 3)
            && |p.code| <= 0xFFFF_FFFF && |p.data| <= 0xFFFF_FFFF && (p.header.minor == 2 ==> p.data == [])
    ensures Write(p).Ok? ==>
              IsFile(Write(p).value, p.(header := p.header.(codeSize := |p.code|, dataSize := |p.data|,
                                          dataBase := if p.header.minor == 2 then 0 else p.header.dataBase)))
  {
    if Writable(p) {
      var h, f := StoredHeader(p), Write(p).value;
      var rest := p.code + p.data;
      assert f == HeaderBytes(h) + rest;
      hide HeaderBytes, Number, ReadHeader;
      HeaderLayout(h, rest);
      ReadHeaderUndoesWrite(h, rest);
      LaidIsRead(f, h);
      var at := HeaderSizeFor(h.major, h.minor);
      assert f[at..at + |p.code|] == p.code && f[at + |p.code|..] == p.data;
    }
  }

  // ----- Placement -----

  /** Byte k belongs to the section at `base`. */
  predicate Belongs(k: nat, base: nat, size: nat) {
    base <= k < base + size
  }

  /** A program can be placed when both sections fit into memory and no byte would belong to both. */
  lemma PlacementLaw(p: Program, memorySize: nat, codeBase: nat)
    ensures Loader.ValidPlacement(p, memorySize, codeBase)
       <==> && codeBase + |p.code| <= memorySize && p.header.dataBase + |p.data| <= memorySize
            && !exists k: nat :: Belongs(k, codeBase, |p.code|) && Belongs(k, p.header.dataBase, |p.data|)
  {
    var k := if codeBase < p.header.dataBase then p.header.dataBase else codeBase;
    if Loader.RangesOverlap(codeBase, |p.code|, p.header.dataBase, |p.data|) {
      assert Belongs(k, codeBase, |p.code|) && Belongs(k, p.header.dataBase, |p.data|);
    }
  }

  /** What the loader takes: a little-endian program whose header makes sense and agrees with its sections. */
  lemma ValidLaw(p: Program)
    ensures Loader.ValidProgram(p)
       <==> && p.header.major == 0 && (p.header.minor == 2 || p.header.minor == 3)
            && (p.header.minor == 2 ==> p.data == [] && p.header.dataBase == 0)
            && p.header.endian.Little? && Sensible(p.header)
            && p.header.codeSize == |p.code| && p.header.dataSize == |p.data|
  {
  }
}

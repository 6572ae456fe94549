// The .zbin container: its header (BinaryFormat.hpp), the writer
// (src/binary/BinaryWriter.cpp) and the reader (src/binary/BinaryReader.cpp).
module BinaryFormat {
  import opened Words
  import Isa
  import M = Memory

  const MAGIC: seq<byte> := [0x5A, 0x43, 0x50, 0x55]
  const LEGACY_HEADER_SIZE: nat := 16
  const HEADER_SIZE: nat := 24

  datatype Header = Header(
    major: byte,
    minor: byte,
    endian: M.Endianness,
    entry: u32,
    codeSize: u32,
    dataBase: u32,
    dataSize: u32)

  datatype Program = Program(header: Header, code: seq<byte>, data: seq<byte>)

  predicate IsLegacy(major: byte, minor: byte) {
    major == 0 && minor == 2
  }

  predicate IsCurrent(major: byte, minor: byte) {
    major == 0 && minor == 3
  }

  predicate Supported(major: byte, minor: byte) {
    IsLegacy(major, minor) || IsCurrent(major, minor)
  }

  function HeaderSizeFor(major: byte, minor: byte): nat {
    if IsLegacy(major, minor) then LEGACY_HEADER_SIZE
    else if IsCurrent(major, minor) then HEADER_SIZE
    else 0
  }

  function EndianByte(e: M.Endianness): byte {
    if e.Little? then 1 else 2
  }

  function U32Bytes(v: u32, e: M.Endianness): (b: seq<byte>)
    ensures |b| == 4
  {
    M.Encode(v, 4, e)
  }

  function U32At(b: seq<byte>, offset: nat, e: M.Endianness): u32
    requires offset + 4 <= |b|
  {
    M.EncodeDecode(b[offset..offset + 4], e);
    Pow256Values();
    M.Decode(b[offset..offset + 4], e)
  }

  // ----- Writing -----

  /** The header the writer stores: section sizes come from the sections, and a legacy file has no data fields. */
  function StoredHeader(p: Program): Header
    requires |p.code| < 0x1_0000_0000 && |p.data| < 0x1_0000_0000
  {
    var h := p.header.(codeSize := |p.code|, dataSize := |p.data|);
    if IsLegacy(h.major, h.minor) then h.(dataBase := 0, dataSize := 0) else h
  }

  function HeaderBytes(h: Header): (b: seq<byte>)
    requires Supported(h.major, h.minor)
    ensures |b| == HeaderSizeFor(h.major, h.minor)
  {
    MAGIC + [h.major, h.minor, EndianByte(h.endian), 0] + U32Bytes(h.entry, h.endian) + U32Bytes(h.codeSize, h.endian)
      + if IsCurrent(h.major, h.minor) then U32Bytes(h.dataBase, h.endian) + U32Bytes(h.dataSize, h.endian) else []
  }

  predicate Writable(p: Program) {
    && Supported(p.header.major, p.header.minor)
    && |p.code| < 0x1_0000_0000 && |p.data| < 0x1_0000_0000
    && (IsLegacy(p.header.major, p.header.minor) ==> p.data == [])
  }

  function Write(p: Program): Result<seq<byte>> {
    if Writable(p) then Ok(HeaderBytes(StoredHeader(p)) + p.code + p.data) else Err
  }

  // ----- Reading -----

  function ReadHeader(b: seq<byte>): Result<Header>
    requires |b| >= LEGACY_HEADER_SIZE
  {
    var size := HeaderSizeFor(b[4], b[5]);
    if size == 0 || |b| < size then Err
    else if (b[6] != 1 && b[6] != 2) || b[7] != 0 then Err
    else
      var e := if b[6] == 1 then M.Little else M.Big;
      if IsCurrent(b[4], b[5]) then
        Ok(Header(b[4], b[5], e, U32At(b, 8, e), U32At(b, 12, e), U32At(b, 16, e), U32At(b, 20, e)))
      else
        Ok(Header(b[4], b[5], e, U32At(b, 8, e), U32At(b, 12, e), 0, 0))
  }

  /** validateHeader */
  predicate HeaderOk(h: Header) {
    && Supported(h.major, h.minor)
    && h.entry % Isa.INSTRUCTION_SIZE == 0
    && h.codeSize % Isa.INSTRUCTION_SIZE == 0
    && h.entry < h.codeSize
    && (IsLegacy(h.major, h.minor) ==> h.dataBase == 0 && h.dataSize == 0)
  }

  function Read(b: seq<byte>): Result<Program> {
    if |b| < LEGACY_HEADER_SIZE || b[..4] != MAGIC then Err
    else
      var h := ReadHeader(b);
      if h.Err? || !HeaderOk(h.value) then Err
      else
        var codeStart := HeaderSizeFor(h.value.major, h.value.minor);
        var codeEnd := codeStart + h.value.codeSize;
        if |b| != codeEnd + h.value.dataSize then Err
        else Ok(Program(h.value, b[codeStart..codeEnd], b[codeEnd..]))
  }

  // ----- The two undo each other -----

  lemma U32RoundTrip(v: u32, e: M.Endianness)
    ensures M.Decode(U32Bytes(v, e), e) == v
  {
    Pow256Values();
    M.DecodeEncode(v, 4, e);
  }

  lemma HeaderLayout(h: Header, rest: seq<byte>)
    requires Supported(h.major, h.minor)
    ensures var b := HeaderBytes(h) + rest;
            && b[..4] == MAGIC && b[4..8] == [h.major, h.minor, EndianByte(h.endian), 0]
            && b[8..12] == U32Bytes(h.entry, h.endian) && b[12..16] == U32Bytes(h.codeSize, h.endian)
            && (IsCurrent(h.major, h.minor) ==>
                  b[16..20] == U32Bytes(h.dataBase, h.endian) && b[20..24] == U32Bytes(h.dataSize, h.endian))
  {
    hide U32Bytes;
  }

  /** The reader recovers every header the writer stores. */
  lemma ReadHeaderUndoesWrite(h: Header, rest: seq<byte>)
    requires Supported(h.major, h.minor) && (IsLegacy(h.major, h.minor) ==> h.dataBase == 0 && h.dataSize == 0)
    ensures ReadHeader(HeaderBytes(h) + rest) == Ok(h)
  {
    hide U32Bytes, HeaderBytes, M.Decode;
    var b := HeaderBytes(h) + rest;
    HeaderLayout(h, rest);
    assert b[4] == b[4..8][0] && b[5] == b[4..8][1] && b[6] == b[4..8][2] && b[7] == b[4..8][3];
    U32RoundTrip(h.entry, h.endian);
    U32RoundTrip(h.codeSize, h.endian);
    U32RoundTrip(h.dataBase, h.endian);
    U32RoundTrip(h.dataSize, h.endian);
  }

  /** What reading back a written program gives: the same program with its stored header, if that header is valid. */
  lemma ReadOfWrite(p: Program)
    requires Writable(p)
    ensures Read(Write(p).value)
         == if HeaderOk(StoredHeader(p)) then Ok(p.(header := StoredHeader(p))) else Err
  {
    hide HeaderBytes, ReadHeader, HeaderOk;
    var h, b := StoredHeader(p), Write(p).value;
    assert b == HeaderBytes(h) + (p.code + p.data);
    ReadHeaderUndoesWrite(h, p.code + p.data);
    HeaderLayout(h, p.code + p.data);
    var at := HeaderSizeFor(h.major, h.minor);
    assert b[at..at + |p.code|] == p.code && b[at + |p.code|..] == p.data;
  }

  /** The programs a file can represent exactly. */
  predicate Exact(p: Program) {
    && HeaderOk(p.header)
    && p.header.codeSize == |p.code|
    && p.header.dataSize == |p.data|
  }

  /** read(write(p)) == p for exactly the programs whose header is valid and agrees with their sections. */
  lemma ReadUndoesWriteIff(p: Program)
    ensures Exact(p) <==> Write(p).Ok? && Read(Write(p).value) == Ok(p)
  {
    hide Read, HeaderBytes;
    if Writable(p) {
      ReadOfWrite(p);
    }
  }

  lemma ReadHeaderBytes(b: seq<byte>)
    requires |b| >= LEGACY_HEADER_SIZE && b[..4] == MAGIC && ReadHeader(b).Ok?
    ensures var h := ReadHeader(b).value;
            && Supported(h.major, h.minor) && HeaderSizeFor(h.major, h.minor) <= |b|
            && HeaderBytes(h) == b[..HeaderSizeFor(h.major, h.minor)]
  {
    hide M.Encode, M.Decode;
    var h := ReadHeader(b).value;
    U32BytesAt(b, 8, h.endian);
    U32BytesAt(b, 12, h.endian);
    var prefix := b[..4] + [b[4], b[5], b[6], b[7]] + b[8..12] + b[12..16];
    assert prefix == b[..16];
    if IsCurrent(h.major, h.minor) {
      U32BytesAt(b, 16, h.endian);
      U32BytesAt(b, 20, h.endian);
      assert b[..16] + (b[16..20] + b[20..24]) == b[..24];
    }
  }

  lemma U32BytesAt(b: seq<byte>, offset: nat, e: M.Endianness)
    requires offset + 4 <= |b|
    ensures U32Bytes(U32At(b, offset, e), e) == b[offset..offset + 4]
  {
    M.EncodeDecode(b[offset..offset + 4], e);
  }

  /** write(read(b)) == b for every byte string the reader accepts. */
  lemma WriteUndoesRead(b: seq<byte>)
    requires Read(b).Ok?
    ensures Exact(Read(b).value) && Write(Read(b).value) == Ok(b)
  {
    hide HeaderBytes, ReadHeader;
    ReadHeaderBytes(b);
    var p := Read(b).value;
    var at := HeaderSizeFor(p.header.major, p.header.minor);
    assert b == b[..at] + p.code + p.data;
  }

  /** No two accepted files mean the same program. */
  lemma ReadIsInjective(a: seq<byte>, b: seq<byte>)
    requires Read(a).Ok? && Read(a) == Read(b)
    ensures a == b
  {
    hide Read, Write;
    WriteUndoesRead(a);
    WriteUndoesRead(b);
  }

  // ----- The programs as they run -----

  method WriteU32(output: seq<byte>, value: u32, e: M.Endianness) returns (r: seq<byte>)
    ensures r == output + U32Bytes(value, e)
  {
    ghost var all := LittleEndian(value, 4);
    r := output;
    if e.Little? {
      var rest: nat := value;
      for i := 0 to 4
        invariant LittleEndian(rest, 4 - i) == all[i..]
        invariant r == output + all[..i]
      {
        assert all[i..][0] == all[i] && all[i..][1..] == all[i + 1..];
        r := r + [rest % 256];
        rest := rest / 256;
      }
      return;
    }
    // Shift 8 * (3 - i): the bytes come most significant first.
    for i := 0 to 4
      invariant r == output + Reversed(all)[..i]
    {
      LittleEndianByte(value, 4, 3 - i);
      r := r + [value / Pow256(3 - i) % 256];
    }
  }

  method ReadU32(b: seq<byte>, offset: nat, e: M.Endianness) returns (r: Result<u32>)
    ensures r == if offset + 4 <= |b| then Ok(U32At(b, offset, e)) else Err
  {
    if offset + 4 > |b| {
      return Err;
    }
    hide FromLittleEndian;
    M.FromNothing();
    assert b[offset..offset + 0] == [] && Reversed([]) == [];
    var value: nat := 0;
    if e.Little? {
      var unit: nat := 1;
      for i := 0 to 4
        invariant unit == Pow256(i) && value == FromLittleEndian(b[offset..offset + i])
      {
        M.FromLittleEndianSnoc(b[offset..offset + i], b[offset + i]);
        assert b[offset..offset + i] + [b[offset + i]] == b[offset..offset + i + 1];
        value := value + unit * b[offset + i];
        unit := unit * 256;
      }
    } else {
      for i := 0 to 4
        invariant value == FromLittleEndian(Reversed(b[offset..offset + i]))
      {
        M.FromBigEndianSnoc(b[offset..offset + i], b[offset + i]);
        assert b[offset..offset + i] + [b[offset + i]] == b[offset..offset + i + 1];
        value := value * 256 + b[offset + i];
      }
    }
    ghost var check := U32At(b, offset, e);
    return Ok(value);
  }

  method WriteHeader(output: seq<byte>, h: Header) returns (r: seq<byte>)
    requires Supported(h.major, h.minor)
    ensures r == output + HeaderBytes(h)
  {
    hide U32Bytes;
    r := output + MAGIC;
    r := r + [h.major];
    r := r + [h.minor];
    r := r + [EndianByte(h.endian)];
    r := r + [0];
    r := WriteU32(r, h.entry, h.endian);
    r := WriteU32(r, h.codeSize, h.endian);
    if IsCurrent(h.major, h.minor) {
      r := WriteU32(r, h.dataBase, h.endian);
      r := WriteU32(r, h.dataSize, h.endian);
    }
  }

  method WriteToBytes(p: Program) returns (r: Result<seq<byte>>)
    ensures r == Write(p)
  {
    hide HeaderBytes;
    if !Supported(p.header.major, p.header.minor) {
      return Err;
    }
    if |p.code| > 0xFFFF_FFFF || |p.data| > 0xFFFF_FFFF {
      return Err;
    }
    var h := p.header.(codeSize := |p.code|, dataSize := |p.data|);
    if IsLegacy(h.major, h.minor) {
      if |p.data| > 0 {
        return Err;
      }
      h := h.(dataBase := 0, dataSize := 0);
    }
    var output := WriteHeader([], h);
    assert output == HeaderBytes(h);
    output := output + p.code;
    output := output + p.data;
    return Ok(output);
  }

  method ParseHeader(b: seq<byte>) returns (r: Result<Header>)
    requires |b| >= LEGACY_HEADER_SIZE
    ensures r == ReadHeader(b)
  {
    hide U32At;
    var major, minor := b[4], b[5];
    var size := HeaderSizeFor(major, minor);
    if size == 0 {
      return Err;
    }
    if |b| < size {
      return Err;
    }
    var e;
    if b[6] == 1 {
      e := M.Little;
    } else if b[6] == 2 {
      e := M.Big;
    } else {
      return Err;
    }
    if b[7] != 0 {
      return Err;
    }
    var entry := ReadU32(b, 8, e);
    var codeSize := ReadU32(b, 12, e);
    var h := Header(major, minor, e, entry.value, codeSize.value, 0, 0);
    if IsCurrent(major, minor) {
      var dataBase := ReadU32(b, 16, e);
      var dataSize := ReadU32(b, 20, e);
      h := h.(dataBase := dataBase.value, dataSize := dataSize.value);
    }
    return Ok(h);
  }

  method ReadFromBytes(b: seq<byte>) returns (r: Result<Program>)
    ensures r == Read(b)
  {
    hide ReadHeader;
    if |b| < LEGACY_HEADER_SIZE {
      return Err;
    }
    for i := 0 to 4
      invariant b[..i] == MAGIC[..i]
    {
      assert b[..4][i] == b[i];
      if b[i] != MAGIC[i] {
        return Err;
      }
    }
    var h := ParseHeader(b);
    if h.Err? {
      return Err;
    }
    if !HeaderOk(h.value) {
      return Err;
    }
    var codeStart := HeaderSizeFor(h.value.major, h.value.minor);
    var codeEnd := codeStart + h.value.codeSize;
    if |b| != codeEnd + h.value.dataSize {
      return Err;
    }
    return Ok(Program(h.value, b[codeStart..codeEnd], b[codeEnd..]));
  }
}

// Byte-addressed memory (src/core/Memory.cpp).  Values of type seq<byte> are
// the memory contents; class Memory is the C++ object that holds them.
module Memory {
  import opened Words

  datatype Endianness = Little | Big

  predicate InRange(m: seq<byte>, address: nat, count: nat) {
    address <= |m| && count <= |m| - address
  }

  function Encode(value: nat, width: nat, endian: Endianness): (b: seq<byte>)
    ensures |b| == width
  {
    if endian.Little? then LittleEndian(value, width) else Reversed(LittleEndian(value, width))
  }

  function Decode(b: seq<byte>, endian: Endianness): nat {
    FromLittleEndian(if endian.Little? then b else Reversed(b))
  }

  lemma DecodeEncode(value: nat, width: nat, endian: Endianness)
    requires value < Pow256(width)
    ensures Decode(Encode(value, width, endian), endian) == value
  {
    var b := LittleEndian(value, width);
    LittleEndianReadBack(value, width);
    SmallMod(value, Pow256(width));
    assert Reversed(Reversed(b)) == b;
  }

  lemma EncodeDecode(b: seq<byte>, endian: Endianness)
    ensures Decode(b, endian) < Pow256(|b|)
    ensures Encode(Decode(b, endian), |b|, endian) == b
  {
    FromLittleEndianWriteBack(b);
    FromLittleEndianWriteBack(Reversed(b));
    assert Reversed(Reversed(b)) == b;
  }

  function Splice(m: seq<byte>, address: nat, b: seq<byte>): (r: seq<byte>)
    requires InRange(m, address, |b|)
    ensures |r| == |m|
    ensures r[address..address + |b|] == b
    ensures forall k :: 0 <= k < |m| && !(address <= k < address + |b|) ==> r[k] == m[k]
  {
    m[..address] + b + m[address + |b|..]
  }

  lemma SpliceAt(m: seq<byte>, address: nat, b: seq<byte>, r: seq<byte>)
    requires InRange(m, address, |b|) && |r| == |m|
    requires forall k :: 0 <= k < |b| ==> r[address + k] == b[k]
    requires forall k :: 0 <= k < |m| && !(address <= k < address + |b|) ==> r[k] == m[k]
    ensures r == Splice(m, address, b)
  {
    var target := Splice(m, address, b);
    forall k | 0 <= k < |m|
      ensures r[k] == target[k]
    {
      if address <= k < address + |b| {
        assert r[address + (k - address)] == b[k - address];
        assert target[address..address + |b|][k - address] == target[k];
      }
    }
  }

  // ----- The 8-byte little-endian accesses the CPU makes (Memory::read, Memory::write) -----

  function Read64(m: seq<byte>, address: nat): i64
    requires InRange(m, address, 8)
  {
    var b := m[address..address + 8];
    FromLittleEndianWriteBack(b);
    Pow256Values();
    ToI64(FromLittleEndian(b))
  }

  function Write64(m: seq<byte>, address: nat, value: i64): (r: seq<byte>)
    requires InRange(m, address, 8)
    ensures |r| == |m|
    ensures forall k :: 0 <= k < |m| && !(address <= k < address + 8) ==> r[k] == m[k]
  {
    Splice(m, address, LittleEndian(ToU64(value), 8))
  }

  lemma ReadAfterWrite(m: seq<byte>, address: nat, value: i64)
    requires InRange(m, address, 8)
    ensures Read64(Write64(m, address, value), address) == value
  {
    LittleEndianReadBack(ToU64(value), 8);
    Pow256Values();
  }

  /** A read depends on its eight bytes only. */
  lemma ReadDependsOnBytes(m: seq<byte>, m': seq<byte>, address: nat)
    requires InRange(m, address, 8) && InRange(m', address, 8)
    requires forall k :: address <= k < address + 8 ==> m[k] == m'[k]
    ensures Read64(m, address) == Read64(m', address)
  {
    assert m[address..address + 8] == m'[address..address + 8];
  }

  lemma ReadAfterDisjointWrite(m: seq<byte>, at: nat, value: i64, address: nat)
    requires InRange(m, at, 8) && InRange(m, address, 8)
    requires address + 8 <= at || at + 8 <= address
    ensures Read64(Write64(m, at, value), address) == Read64(m, address)
  {
    ReadDependsOnBytes(Write64(m, at, value), m, address);
  }

  // ----- The C++ object -----

  lemma {:induction false} FromLittleEndianSnoc(b: seq<byte>, x: byte)
    ensures FromLittleEndian(b + [x]) == FromLittleEndian(b) + Pow256(|b|) * x
  {
    if |b| == 0 {
    } else {
      assert (b + [x])[1..] == b[1..] + [x];
      FromLittleEndianSnoc(b[1..], x);
      assert 256 * (Pow256(|b| - 1) * x) == Pow256(|b|) * x;
    }
  }

  lemma FromNothing()
    ensures FromLittleEndian([]) == 0
  {
  }

  lemma FromBigEndianSnoc(b: seq<byte>, x: byte)
    ensures FromLittleEndian(Reversed(b + [x])) == FromLittleEndian(Reversed(b)) * 256 + x
  {
    assert Reversed(b + [x]) == [x] + Reversed(b);
  }

  class Memory {
    var bytes: array<byte>

    constructor (size: nat)
      ensures fresh(bytes) && bytes[..] == seq(size, _ => 0)
    {
      bytes := new byte[size](_ => 0);
    }

    method Reset()
      modifies bytes
      ensures bytes[..] == seq(bytes.Length, _ => 0)
    {
      for i := 0 to bytes.Length
        invariant forall k :: 0 <= k < i ==> bytes[k] == 0
      {
        bytes[i] := 0;
      }
    }

    // A failed range check is the C++ std::out_of_range exception.
    method CheckRange(address: nat, count: nat) returns (ok: bool)
      ensures ok <==> InRange(bytes[..], address, count)
    {
      if address > bytes.Length {
        return false;
      }
      return count <= bytes.Length - address;
    }

    method ReadUnsigned(address: nat, width: nat, endian: Endianness) returns (r: Result<nat>)
      ensures r == if InRange(bytes[..], address, width)
                   then Ok(Decode(bytes[address..address + width], endian)) else Err
    {
      var ok := CheckRange(address, width);
      if !ok {
        return Err;
      }
      hide FromLittleEndian;
      FromNothing();
      assert bytes[address..address + 0] == [] && Reversed([]) == [];
      var value: nat := 0;
      if endian.Little? {
        var unit: nat := 1;
        for i := 0 to width
          invariant unit == Pow256(i)
          invariant value == FromLittleEndian(bytes[address..address + i])
        {
          FromLittleEndianSnoc(bytes[address..address + i], bytes[address + i]);
          assert bytes[address..address + i] + [bytes[address + i]] == bytes[address..address + i + 1];
          value := value + unit * bytes[address + i];
          unit := unit * 256;
        }
      } else {
        for i := 0 to width
          invariant value == FromLittleEndian(Reversed(bytes[address..address + i]))
        {
          FromBigEndianSnoc(bytes[address..address + i], bytes[address + i]);
          assert bytes[address..address + i] + [bytes[address + i]] == bytes[address..address + i + 1];
          value := value * 256 + bytes[address + i];
        }
      }
      return Ok(value);
    }

    // The two store loops of writeU32 and writeU64, after their range check.
    method StoreLittle(address: nat, value: nat, width: nat)
      requires InRange(bytes[..], address, width)
      modifies bytes
      ensures bytes[..] == Splice(old(bytes[..]), address, LittleEndian(value, width))
    {
      ghost var before, encoded := bytes[..], LittleEndian(value, width);
      var rest := value;
      for i := 0 to width
        invariant LittleEndian(rest, width - i) == encoded[i..]
        invariant forall k :: address <= k < address + i ==> bytes[k] == encoded[k - address]
        invariant forall k :: 0 <= k < bytes.Length && !(address <= k < address + i) ==> bytes[k] == before[k]
      {
        assert encoded[i..][0] == encoded[i] && encoded[i..][1..] == encoded[i + 1..];
        bytes[address + i] := rest % 256;
        rest := rest / 256;
      }
      SpliceAt(before, address, encoded, bytes[..]);
    }

    method StoreBig(address: nat, value: nat, width: nat)
      requires InRange(bytes[..], address, width)
      modifies bytes
      ensures bytes[..] == Splice(old(bytes[..]), address, Reversed(LittleEndian(value, width)))
    {
      ghost var before, encoded := bytes[..], LittleEndian(value, width);
      ghost var target := Reversed(encoded);
      var rest := value;
      for i := 0 to width
        invariant LittleEndian(rest, width - i) == encoded[i..]
        invariant forall k :: address + width - i <= k < address + width ==> bytes[k] == target[k - address]
        invariant forall k :: 0 <= k < bytes.Length && !(address + width - i <= k < address + width) ==>
                    bytes[k] == before[k]
      {
        assert encoded[i..][0] == encoded[i] && encoded[i..][1..] == encoded[i + 1..];
        bytes[address + width - 1 - i] := rest % 256;
        rest := rest / 256;
      }
      SpliceAt(before, address, target, bytes[..]);
    }

    method WriteUnsigned(address: nat, value: nat, width: nat, endian: Endianness) returns (ok: bool)
      modifies bytes
      ensures ok <==> InRange(old(bytes[..]), address, width)
      ensures bytes[..] == if ok then Splice(old(bytes[..]), address, Encode(value, width, endian)) else old(bytes[..])
    {
      ok := CheckRange(address, width);
      if ok {
        if endian.Little? {
          StoreLittle(address, value, width);
        } else {
          StoreBig(address, value, width);
        }
      }
    }

    method Read(address: nat) returns (r: Result<i64>)
      ensures r == if InRange(bytes[..], address, 8) then Ok(Read64(bytes[..], address)) else Err
    {
      var raw := ReadUnsigned(address, 8, Little);
      if raw.Err? {
        return Err;
      }
      assert bytes[..][address..address + 8] == bytes[address..address + 8];
      FromLittleEndianWriteBack(bytes[address..address + 8]);
      Pow256Values();
      return Ok(ToI64(raw.value));
    }

    method Write(address: nat, value: i64) returns (ok: bool)
      modifies bytes
      ensures ok <==> InRange(old(bytes[..]), address, 8)
      ensures bytes[..] == if ok then Write64(old(bytes[..]), address, value) else old(bytes[..])
    {
      ok := WriteUnsigned(address, ToU64(value), 8, Little);
    }

    method ReadBytes(address: nat, count: nat) returns (r: Result<seq<byte>>)
      ensures r == if InRange(bytes[..], address, count) then Ok(bytes[address..address + count]) else Err
    {
      var ok := CheckRange(address, count);
      if !ok {
        return Err;
      }
      return Ok(bytes[address..address + count]);
    }

    method WriteBytes(address: nat, values: seq<byte>) returns (ok: bool)
      modifies bytes
      ensures ok <==> InRange(old(bytes[..]), address, |values|)
      ensures bytes[..] == if ok then Splice(old(bytes[..]), address, values) else old(bytes[..])
    {
      ok := CheckRange(address, |values|);
      if !ok {
        return;
      }
      ghost var before := bytes[..];
      for i := 0 to |values|
        invariant forall k :: address <= k < address + i ==> bytes[k] == values[k - address]
        invariant forall k :: 0 <= k < bytes.Length && !(address <= k < address + i) ==> bytes[k] == old(bytes[k])
      {
        bytes[address + i] := values[i];
      }
      SpliceAt(before, address, values, bytes[..]);
    }
  }
}

// Machine words: the fixed-width integers of the C++ sources as subset types
// of int, their two's-complement views, and little-endian byte strings.
module Words {
  const TWO_63: int := 0x8000_0000_0000_0000
  const TWO_64: int := 0x1_0000_0000_0000_0000

  type byte = x: int | 0 <= x < 0x100
  type u32 = x: int | 0 <= x < 0x1_0000_0000
  type u64 = x: int | 0 <= x < 0x1_0000_0000_0000_0000
  type i64 = x: int | -0x8000_0000_0000_0000 <= x < 0x8000_0000_0000_0000

  datatype Option<+T> = None | Some(value: T)

  datatype Result<+T> = Ok(value: T) | Err

  /** Reinterprets a signed word as unsigned (static_cast<std::uint64_t>). */
  function ToU64(v: i64): u64 {
    if v < 0 then v + 0x1_0000_0000_0000_0000 else v
  }

  /** Reinterprets an unsigned word as signed (memcpy or static_cast<std::int64_t>). */
  function ToI64(v: u64): i64 {
    if v < 0x8000_0000_0000_0000 then v else v - 0x1_0000_0000_0000_0000
  }

  /** The signed word congruent to x modulo 2^64. */
  function Signed(x: int): i64 {
    ToI64(x % 0x1_0000_0000_0000_0000)
  }

  /** size_t addition, which wraps. */
  function AddSize(a: u64, b: u64): u64 {
    (a + b) % 0x1_0000_0000_0000_0000
  }

  lemma SignedRoundTrip(v: i64, u: u64)
    ensures ToI64(ToU64(v)) == v && ToU64(ToI64(u)) == u
    ensures Signed(v) == v
  {
  }

  function Pow256(n: nat): (p: nat)
    ensures p >= 1
  {
    if n == 0 then 1 else 256 * Pow256(n - 1)
  }

  lemma Pow256Values()
    ensures Pow256(1) == 0x100 && Pow256(2) == 0x1_0000
    ensures Pow256(4) == 0x1_0000_0000 && Pow256(8) == 0x1_0000_0000_0000_0000
  {
    assert Pow256(2) == 256 * Pow256(1);
    assert Pow256(3) == 256 * Pow256(2);
    assert Pow256(4) == 256 * Pow256(3);
    assert Pow256(5) == 256 * Pow256(4);
    assert Pow256(6) == 256 * Pow256(5);
    assert Pow256(7) == 256 * Pow256(6);
    assert Pow256(8) == 256 * Pow256(7);
  }

  /** The low `width` bytes of v, least significant first. */
  function LittleEndian(v: nat, width: nat): (b: seq<byte>)
    ensures |b| == width
  {
    if width == 0 then [] else [v % 256] + LittleEndian(v / 256, width - 1)
  }

  function FromLittleEndian(b: seq<byte>): nat {
    if |b| == 0 then 0 else b[0] + 256 * FromLittleEndian(b[1..])
  }

  function Reversed(b: seq<byte>): (r: seq<byte>)
    ensures |r| == |b|
    ensures forall k :: 0 <= k < |b| ==> r[k] == b[|b| - 1 - k]
  {
    seq(|b|, k requires 0 <= k < |b| => b[|b| - 1 - k])
  }

  lemma {:induction false} LittleEndianReadBack(v: nat, width: nat)
    ensures FromLittleEndian(LittleEndian(v, width)) == v % Pow256(width)
  {
    if width == 0 {
    } else {
      LittleEndianReadBack(v / 256, width - 1);
      assert LittleEndian(v, width)[1..] == LittleEndian(v / 256, width - 1);
      ModSplit(v, Pow256(width - 1));
    }
  }

  lemma ModSplit(v: nat, m: nat)
    requires m > 0
    ensures v % (256 * m) == v % 256 + 256 * ((v / 256) % m)
  {
    var q, r := v / 256, v % 256;
    var a, b := q / m, q % m;
    assert v == 256 * (a * m + b) + r;
    assert v == a * (256 * m) + (256 * b + r) by {
      assert 256 * (a * m) == a * (256 * m);
    }
    assert 0 <= 256 * b + r < 256 * m;
    DivModUnique(v, 256 * m, a, 256 * b + r);
  }

  lemma MulMonotone(d: int, m: int)
    requires m > 0
    ensures d >= 1 ==> d * m >= m
    ensures d <= -1 ==> d * m <= -m
  {
  }

  lemma DivModUnique(x: int, m: int, q: int, r: int)
    requires m > 0 && 0 <= r < m && x == q * m + r
    ensures x / m == q && x % m == r
  {
    var q', r' := x / m, x % m;
    assert q' * m + r' == x == q * m + r;
    assert (q - q') * m == q * m - q' * m;
    MulMonotone(q - q', m);
  }

  lemma SliceOfSlice<T>(s: seq<T>, base: nat, size: nat, at: nat, width: nat)
    requires base + size <= |s| && at + width <= size
    ensures s[base..base + size][at..at + width] == s[base + at..base + at + width]
  {
    var inner, direct := s[base..base + size][at..at + width], s[base + at..base + at + width];
    forall k | 0 <= k < width
      ensures inner[k] == direct[k]
    {
    }
  }

  lemma SmallMod(x: nat, m: nat)
    requires x < m
    ensures x % m == x
  {
    DivModUnique(x, m, 0, x);
  }

  lemma {:induction false} FromLittleEndianWriteBack(b: seq<byte>)
    ensures FromLittleEndian(b) < Pow256(|b|)
    ensures LittleEndian(FromLittleEndian(b), |b|) == b
  {
    if |b| == 0 {
    } else {
      FromLittleEndianWriteBack(b[1..]);
      var rest := FromLittleEndian(b[1..]);
      assert FromLittleEndian(b) % 256 == b[0] && FromLittleEndian(b) / 256 == rest;
      assert b == [b[0]] + b[1..];
    }
  }

  lemma MulRegroup(x: nat, b: nat, c: nat, y: nat)
    ensures (x * c + y) * b == x * (b * c) + y * b
  {
    assert (x * c + y) * b == (x * c) * b + y * b;
    assert (x * c) * b == x * (c * b) == x * (b * c);
  }

  lemma MulBound(b: nat, c: nat, y: nat, r: nat)
    requires y < c && r < b
    ensures y * b + r < b * c
  {
    assert b * c == (c - 1 - y) * b + y * b + b;
  }

  lemma DivDiv(a: nat, b: nat, c: nat)
    requires b > 0 && c > 0
    ensures b * c > 0 && a / b / c == a / (b * c)
  {
    var q, r := a / b, a % b;
    var q', r' := q / c, q % c;
    MulRegroup(q', b, c, r');
    MulBound(b, c, r', r);
    DivModUnique(a, b * c, q', r' * b + r);
  }

  /** Byte i of a little-endian encoding is the value shifted down by i bytes. */
  lemma {:induction false} LittleEndianByte(v: nat, width: nat, i: nat)
    requires i < width
    ensures LittleEndian(v, width)[i] == v / Pow256(i) % 256
  {
    if i > 0 {
      LittleEndianByte(v / 256, width - 1, i - 1);
      DivDiv(v, 256, Pow256(i - 1));
    }
  }
}

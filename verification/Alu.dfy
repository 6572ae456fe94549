// The arithmetic-logic unit (src/core/ALU.cpp): results wrap modulo 2^64 and
// the flags are computed the way the C++ code computes them.
module Alu {
  import opened Words

  const MAX: i64 := 0x7FFF_FFFF_FFFF_FFFF
  const MIN: i64 := -0x8000_0000_0000_0000

  datatype AluResult = AluResult(value: i64, zero: bool, sign: bool, carry: bool, overflow: bool)

  function MakeResult(value: i64, carry: bool, overflow: bool): AluResult {
    AluResult(value, value == 0, value < 0, carry, overflow)
  }

  predicate AddSignedOverflow(lhs: i64, rhs: i64) {
    (rhs > 0 && lhs > MAX - rhs) || (rhs < 0 && lhs < MIN - rhs)
  }

  predicate SubSignedOverflow(lhs: i64, rhs: i64) {
    if rhs > 0 then lhs < MIN + rhs
    else if rhs < 0 then lhs > MAX + rhs
    else false
  }

  // The C++ code multiplies in long double; the product is taken as exact here.
  predicate MulSignedOverflow(lhs: i64, rhs: i64) {
    if lhs == 0 || rhs == 0 then false
    else if lhs == -1 && rhs == MIN then true
    else if rhs == -1 && lhs == MIN then true
    else lhs * rhs > MAX || lhs * rhs < MIN
  }

  function Add(lhs: i64, rhs: i64): AluResult {
    var wrapped := (ToU64(lhs) + ToU64(rhs)) % TWO_64;
    MakeResult(ToI64(wrapped), wrapped < ToU64(lhs), AddSignedOverflow(lhs, rhs))
  }

  function Sub(lhs: i64, rhs: i64): AluResult {
    var wrapped := (ToU64(lhs) - ToU64(rhs)) % TWO_64;
    MakeResult(ToI64(wrapped), ToU64(lhs) < ToU64(rhs), SubSignedOverflow(lhs, rhs))
  }

  function Mul(lhs: i64, rhs: i64): AluResult {
    var wrapped := (ToU64(lhs) * ToU64(rhs)) % TWO_64;
    var overflow := MulSignedOverflow(lhs, rhs);
    MakeResult(ToI64(wrapped), overflow, overflow)
  }

  function Magnitude(x: int): nat {
    if x < 0 then -x else x
  }

  /** C++ integer division truncates toward zero. */
  function Truncated(lhs: int, rhs: int): int
    requires rhs != 0
  {
    var q := Magnitude(lhs) / Magnitude(rhs);
    if (lhs < 0) == (rhs < 0) then q else -q
  }

  lemma DivBound(a: nat, d: nat)
    requires d > 0
    ensures 0 <= a / d <= a
    ensures d >= 2 ==> 2 * (a / d) <= a
    ensures a == (a / d) * d + a % d
  {
    var q := a / d;
    assert q * d <= a;
    if d >= 2 {
      assert q * d == 2 * q + q * (d - 2);
    }
  }

  lemma TruncatedBound(lhs: i64, rhs: i64)
    requires rhs != 0 && !(lhs == MIN && rhs == -1)
    ensures MIN <= Truncated(lhs, rhs) <= MAX
  {
    DivBound(Magnitude(lhs), Magnitude(rhs));
  }

  function Div(lhs: i64, rhs: i64): Result<AluResult> {
    if rhs == 0 then Err
    else if lhs == MIN && rhs == -1 then Err
    else
      TruncatedBound(lhs, rhs);
      Ok(MakeResult(Truncated(lhs, rhs), false, false))
  }

  datatype BitOp = AndOp | OrOp | XorOp

  function Bit(op: BitOp, a: nat, b: nat): nat
    requires a < 2 && b < 2
  {
    match op
    case AndOp => a * b
    case OrOp => if a + b == 0 then 0 else 1
    case XorOp => if a == b then 0 else 1
  }

  function Pow2(n: nat): (p: nat)
    ensures p >= 1
  {
    if n == 0 then 1 else 2 * Pow2(n - 1)
  }

  /** The bitwise combination of the low n bits of a and b. */
  function Bitwise(op: BitOp, a: nat, b: nat, n: nat): (r: nat)
    ensures r < Pow2(n)
  {
    if n == 0 then 0
    else Bit(op, a % 2, b % 2) + 2 * Bitwise(op, a / 2, b / 2, n - 1)
  }

  lemma Pow2Of64()
    ensures Pow2(64) == 0x1_0000_0000_0000_0000
  {
    assert Pow2(8) == 256;
    assert Pow2(16) == 65536;
    assert Pow2(24) == 0x100_0000;
    assert Pow2(32) == 0x1_0000_0000;
    assert Pow2(40) == 0x100_0000_0000;
    assert Pow2(48) == 0x1_0000_0000_0000;
    assert Pow2(56) == 0x100_0000_0000_0000;
  }

  function Logic(op: BitOp, lhs: i64, rhs: i64): AluResult {
    Pow2Of64();
    MakeResult(ToI64(Bitwise(op, ToU64(lhs), ToU64(rhs), 64)), false, false)
  }

  function BitNot(value: i64): AluResult {
    MakeResult(-1 - value, false, false)
  }

  function Compare(lhs: i64, rhs: i64): AluResult {
    Sub(lhs, rhs)
  }

  function Test(lhs: i64, rhs: i64): AluResult {
    Logic(AndOp, lhs, rhs)
  }

  // ----- What the results mean -----

  predicate Representable(x: int) {
    MIN <= x <= MAX
  }

  /** ADD: the sum modulo 2^64; OF exactly when unrepresentable, CF the unsigned carry. */
  lemma AddIsExact(lhs: i64, rhs: i64)
    ensures Add(lhs, rhs).value == Signed(lhs + rhs)
    ensures Add(lhs, rhs).overflow <==> !Representable(lhs + rhs)
    ensures !Add(lhs, rhs).overflow ==> Add(lhs, rhs).value == lhs + rhs
    ensures Add(lhs, rhs).carry <==> ToU64(lhs) + ToU64(rhs) >= TWO_64
  {
  }

  /** SUB: the difference modulo 2^64; OF exactly when unrepresentable, CF the unsigned borrow. */
  lemma SubIsExact(lhs: i64, rhs: i64)
    ensures Sub(lhs, rhs).value == Signed(lhs - rhs)
    ensures Sub(lhs, rhs).overflow <==> !Representable(lhs - rhs)
    ensures !Sub(lhs, rhs).overflow ==> Sub(lhs, rhs).value == lhs - rhs
    ensures Sub(lhs, rhs).carry <==> ToU64(lhs) < ToU64(rhs)
  {
  }

  lemma ModShift(x: int, k: int)
    ensures (x + k * TWO_64) % TWO_64 == x % TWO_64
  {
    DivModUnique(x + k * TWO_64, TWO_64, x / TWO_64 + k, x % TWO_64);
  }

  /** MUL: the product modulo 2^64; OF and CF exactly when unrepresentable. */
  lemma MulIsExact(lhs: i64, rhs: i64)
    ensures Mul(lhs, rhs).value == Signed(lhs * rhs)
    ensures Mul(lhs, rhs).overflow <==> !Representable(lhs * rhs)
    ensures !Mul(lhs, rhs).overflow ==> Mul(lhs, rhs).value == lhs * rhs
    ensures Mul(lhs, rhs).carry == Mul(lhs, rhs).overflow
  {
    var a, b := if lhs < 0 then 1 else 0, if rhs < 0 then 1 else 0;
    var k := lhs * b + rhs * a + a * b * TWO_64;
    assert ToU64(lhs) == lhs + a * TWO_64 && ToU64(rhs) == rhs + b * TWO_64;
    assert ToU64(lhs) * ToU64(rhs) == lhs * rhs + k * TWO_64 by {
      assert (lhs + a * TWO_64) * (rhs + b * TWO_64)
          == lhs * rhs + lhs * (b * TWO_64) + (a * TWO_64) * rhs + (a * TWO_64) * (b * TWO_64);
    }
    ModShift(lhs * rhs, k);
    if lhs == 0 || rhs == 0 {
      assert lhs * rhs == 0;
    }
    if Representable(lhs * rhs) {
      SignedRoundTrip(lhs * rhs, 0);
    }
  }

  /** DIV fails exactly on a zero divisor and on MIN / -1; otherwise the quotient truncates toward zero. */
  lemma DivIsTruncating(lhs: i64, rhs: i64)
    ensures Div(lhs, rhs).Err? <==> rhs == 0 || (lhs == MIN && rhs == -1)
    ensures Div(lhs, rhs).Ok? ==>
              var r := lhs - Div(lhs, rhs).value.value * rhs;
              (r == 0 || (r < 0) == (lhs < 0)) && Magnitude(r) < Magnitude(rhs)
  {
    if Div(lhs, rhs).Ok? {
      var a, d := Magnitude(lhs), Magnitude(rhs);
      DivBound(a, d);
      var q := a / d;
      var p: int := q * d;
      assert Truncated(lhs, rhs) * rhs == if lhs < 0 then -p else p;
    }
  }

  function BitAt(x: nat, k: nat): nat {
    if k == 0 then x % 2 else BitAt(x / 2, k - 1)
  }

  lemma BitAtBinary(x: nat, k: nat)
    ensures BitAt(x, k) < 2
  {
  }

  /** AND, OR and XOR act on each bit position independently. */
  lemma {:induction false} BitwiseIsPointwise(op: BitOp, a: nat, b: nat, n: nat, k: nat)
    requires k < n
    ensures BitAt(a, k) < 2 && BitAt(b, k) < 2
    ensures BitAt(Bitwise(op, a, b, n), k) == Bit(op, BitAt(a, k), BitAt(b, k))
  {
    BitAtBinary(a, k);
    BitAtBinary(b, k);
    var r := Bitwise(op, a, b, n);
    assert Bit(op, a % 2, b % 2) < 2;
    assert r % 2 == Bit(op, a % 2, b % 2) && r / 2 == Bitwise(op, a / 2, b / 2, n - 1);
    if k > 0 {
      BitwiseIsPointwise(op, a / 2, b / 2, n - 1, k - 1);
    }
  }

  lemma {:induction false} XorOnes(x: nat, n: nat)
    requires x < Pow2(n)
    ensures Bitwise(XorOp, x, Pow2(n) - 1, n) == Pow2(n) - 1 - x
  {
    if n > 0 {
      XorOnes(x / 2, n - 1);
      assert (Pow2(n) - 1) / 2 == Pow2(n - 1) - 1;
    }
  }

  /** NOT is XOR with all ones, so it complements every bit of the word. */
  lemma NotIsXorOnes(value: i64)
    ensures BitNot(value) == Logic(XorOp, value, -1)
  {
    Pow2Of64();
    XorOnes(ToU64(value), 64);
  }
}

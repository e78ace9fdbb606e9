/** 64-bit two's-complement arithmetic as the interpreters use it. An `i64` is its
    signed value; every operation that can leave the range wraps explicitly. */
module Words {

  const TWO63: int := 0x8000_0000_0000_0000
  const TWO64: int := 0x1_0000_0000_0000_0000

  type i64 = x: int | -TWO63 <= x < TWO63

  const MIN: i64 := -TWO63

  /** The i64 congruent to `x` modulo 2^64: what `wrapping_*` keeps of a result. */
  function Wrap(x: int): (r: i64)
    ensures (x - r) % TWO64 == 0
    ensures -TWO63 <= x < TWO63 ==> r == x
  {
    (x + TWO63) % TWO64 - TWO63
  }

  /** `Wrap` is the only i64 in its residue class. */
  lemma WrapUnique(x: int, r: i64)
    requires (x - r) % TWO64 == 0
    ensures Wrap(x) == r
  {
  }

  function Abs(x: int): nat {
    if x < 0 then -x else x
  }

  /** Division truncating toward zero, before any wrap-around. */
  function TruncDiv(a: int, b: int): int
    requires b != 0
  {
    if (a < 0) == (b < 0) then Abs(a) / Abs(b) else -(Abs(a) / Abs(b))
  }

  /** Truncated remainder: the sign of the dividend. */
  function TruncRem(a: int, b: int): int
    requires b != 0
  {
    if a < 0 then -(Abs(a) % Abs(b)) else Abs(a) % Abs(b)
  }

  lemma TruncDivRem(a: int, b: int)
    requires b != 0
    ensures a == b * TruncDiv(a, b) + TruncRem(a, b)
    ensures Abs(TruncRem(a, b)) < Abs(b)
    ensures Abs(TruncRem(a, b)) <= Abs(a)
  {
    EuclidNat(Abs(a), Abs(b));
    MulNeg(b, Abs(a) / Abs(b));
  }

  lemma EuclidNat(a: nat, b: nat)
    requires b != 0
    ensures a == b * (a / b) + a % b
    ensures 0 <= a / b <= a && 0 <= a % b <= a
  {
    MulLe(0, a / b, b);
    MulLe(1, b, a / b);
  }

  lemma MulNeg(b: int, q: int)
    ensures b * -q == -(b * q)
    ensures -b * q == -(b * q)
    ensures -b * -q == b * q
  {
  }

  lemma MulLe(x: int, y: int, p: int)
    requires x <= y && 0 <= p
    ensures p * x <= p * y
  {
    assert 0 <= p * (y - x);
  }

  function WrappingDiv(a: i64, b: i64): i64
    requires b != 0
  {
    Wrap(TruncDiv(a, b))
  }

  function WrappingRem(a: i64, b: i64): i64
    requires b != 0
  {
    TruncDivRem(a, b);
    TruncRem(a, b)
  }

  function Pow2(n: nat): (r: int)
    ensures r >= 1
  {
    if n == 0 then 1 else 2 * Pow2(n - 1)
  }

  lemma Pow2At63()
    ensures Pow2(63) == TWO63
  {
    assert Pow2(8) == 256;
    assert Pow2(16) == 65536 by { Pow2Add(8, 8); }
    assert Pow2(32) == 65536 * 65536 by { Pow2Add(16, 16); }
    assert Pow2(48) == 65536 * 65536 * 65536 by { Pow2Add(32, 16); }
    assert Pow2(56) == 65536 * 65536 * 65536 * 256 by { Pow2Add(48, 8); }
    assert Pow2(7) == 128;
    Pow2Add(56, 7);
  }

  lemma {:induction false} Pow2Add(a: nat, b: nat)
    ensures Pow2(a + b) == Pow2(a) * Pow2(b)
  {
    if a > 0 {
      Pow2Add(a - 1, b);
      assert Pow2(a + b) == 2 * (Pow2(a - 1) * Pow2(b));
    }
  }

  datatype BitOp = AndBits | OrBits | XorBits

  function Bit(op: BitOp, p: bool, q: bool): bool {
    match op
    case AndBits => p && q
    case OrBits => p || q
    case XorBits => p != q
  }

  /** Bitwise combination of two integers read as two's complement with `n` value bits and a sign. */
  function Bitwise(op: BitOp, a: int, b: int, n: nat): (r: int)
    requires -Pow2(n) <= a < Pow2(n) && -Pow2(n) <= b < Pow2(n)
    ensures -Pow2(n) <= r < Pow2(n)
    decreases n
  {
    if n == 0 then
      if Bit(op, a < 0, b < 0) then -1 else 0
    else
      (if Bit(op, a % 2 == 1, b % 2 == 1) then 1 else 0) + 2 * Bitwise(op, a / 2, b / 2, n - 1)
  }

  function Bits64(op: BitOp, a: i64, b: i64): i64 {
    Pow2At63();
    Bitwise(op, a, b, 63)
  }

  function BitNot(a: i64): i64 { -1 - a }

  /** Shift amounts are masked to their low six bits. */
  function ShiftLeft(a: i64, amount: i64): i64 {
    Wrap(a * Pow2(amount % 64))
  }

  function ShiftRight(a: i64, amount: i64): i64 {
    FloorDivRange(a, Pow2(amount % 64));
    a / Pow2(amount % 64)
  }

  lemma FloorDivRange(a: int, p: int)
    requires p >= 1
    ensures a >= 0 ==> 0 <= a / p <= a
    ensures a < 0 ==> a <= a / p < 0
  {
    var q := a / p;
    assert p * q <= a < p * q + p;
    if a >= 0 {
      if q < 0 { MulLe(q, -1, p); }
      if q > a { MulLe(1, p, q); }
    } else {
      if q >= 0 { MulLe(0, q, p); }
      if q < a { MulLe(q, a - 1, p); MulLe(1, p, -a); MulNeg(p, a); }
    }
  }

  /** Quotient and remainder are determined by their range. */
  lemma ModIs(x: int, m: int, q: int, r: int)
    requires 0 <= r < m && x == m * q + r
    ensures x % m == r && x / m == q
  {
    var q' := x / m;
    assert m * q' <= x < m * q' + m;
    if q' < q { MulLe(q' + 1, q, m); }
    if q < q' { MulLe(q + 1, q', m); }
  }
}

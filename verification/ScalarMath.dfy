/** The scalar math builtins, as the interpreters define them on `i64`. */
module ScalarMath {
  import opened Words
  import opened Ir

  /** Euclid's algorithm on unsigned numbers. */
  function Gcd(x: nat, y: nat): nat
    decreases y
  {
    if y == 0 then x else Gcd(y, x % y)
  }

  /** The magnitudes' divisor, `2^63` wrapping to `MIN`. */
  function GcdI64(a: i64, b: i64): i64 { Wrap(Gcd(Abs(a), Abs(b))) }

  /** `gcd_i64`'s loop. */
  method GcdLoop(a: i64, b: i64) returns (g: i64)
    ensures g == GcdI64(a, b)
  {
    var x, y := Abs(a), Abs(b);
    while y != 0
      invariant Gcd(x, y) == Gcd(Abs(a), Abs(b))
      decreases y
    {
      x, y := y, x % y;
    }
    return Wrap(x);
  }

  lemma MultipleIs(n: nat, d: nat, k: nat)
    requires d > 0 && n == d * k
    ensures n % d == 0
  {
    ModIs(n, d, k, 0);
  }

  lemma RemainderDivides(x: nat, y: nat, d: nat)
    requires d > 0 && y > 0 && y % d == 0
    ensures (x % y) % d == 0 <==> x % d == 0
  {
    var q, k := x / y, y / d;
    EuclidNat(x, y);
    assert y == d * k;
    assert y * q == d * (k * q) by { assert (d * k) * q == d * (k * q); }
    var r := x % y;
    var m := r / d;
    if r % d == 0 {
      assert r == d * m;
      assert d * (k * q) + d * m == d * (k * q + m);
      MultipleIs(x, d, k * q + m);
    }
    if x % d == 0 {
      var n := x / d;
      assert x == d * n;
      assert d * n - d * (k * q) == d * (n - k * q);
      if n < k * q { MulLe(n + 1, k * q, d); }
      MultipleIs(r, d, n - k * q);
    }
  }

  /** The result divides both numbers, and every common divisor divides it. */
  lemma {:induction false} GcdIsGreatest(x: nat, y: nat, d: nat)
    requires d > 0
    ensures Gcd(x, y) % d == 0 <==> x % d == 0 && y % d == 0
    decreases y
  {
    if y == 0 {
      ModIs(0, d, 0, 0);
    } else {
      GcdIsGreatest(y, x % y, d);
      if y % d == 0 { RemainderDivides(x, y, d); }
    }
  }

  lemma {:induction false} GcdBound(x: nat, y: nat)
    ensures Gcd(x, y) <= if x < y then y else x
    ensures Gcd(x, y) == 0 <==> x == 0 && y == 0
    decreases y
  {
    if y > 0 { GcdBound(y, x % y); }
  }

  /** The `i64` result is the non-negative greatest common divisor, except that a magnitude of
      `2^63`, possible only with `MIN` and no other magnitude, comes out as `MIN`. */
  lemma GcdI64Is(a: i64, b: i64)
    ensures Gcd(Abs(a), Abs(b)) < TWO63 ==> GcdI64(a, b) == Gcd(Abs(a), Abs(b))
    ensures Gcd(Abs(a), Abs(b)) >= TWO63 ==> GcdI64(a, b) == MIN && (a == 0 || a == MIN) && (b == 0 || b == MIN)
  {
    GcdBound(Abs(a), Abs(b));
    var g: nat := Gcd(Abs(a), Abs(b));
    if g >= TWO63 {
      assert g == TWO63;
      WrapUnique(TWO63, MIN);
      ModIs(TWO63, TWO63, 1, 0);
      GcdIsGreatest(Abs(a), Abs(b), TWO63);
      SmallMultiple(Abs(a));
      SmallMultiple(Abs(b));
    }
  }

  lemma SmallMultiple(n: nat)
    requires n <= TWO63 && n % TWO63 == 0
    ensures n == 0 || n == TWO63
  {
  }

  function Arity(name: string): Option<nat> {
    if name == "abs" || name == "sign" then Some(1)
    else if name == "min" || name == "max" || name == "gcd" then Some(2)
    else if name == "clamp" then Some(3)
    else None
  }

  function Sign(n: i64): i64 { if n > 0 then 1 else if n < 0 then -1 else 0 }

  function Min(a: i64, b: i64): i64 { if a < b then a else b }

  function Max(a: i64, b: i64): i64 { if a > b then a else b }

  /** The lower bound wins when the bounds cross. */
  function Clamp(x: i64, lo: i64, hi: i64): i64 { if x < lo then lo else if x > hi then hi else x }

  predicate AllInts(vs: seq<Value>) { forall i :: 0 <= i < |vs| ==> vs[i].I64? }

  /** A builtin's value on `i64` arguments of the right number. */
  function Scalar(name: string, vs: seq<Value>): i64
    requires Arity(name) == Some(|vs|) && AllInts(vs)
  {
    if name == "abs" then Wrap(Abs(vs[0].n))
    else if name == "sign" then Sign(vs[0].n)
    else if name == "min" then Min(vs[0].n, vs[1].n)
    else if name == "max" then Max(vs[0].n, vs[1].n)
    else if name == "gcd" then GcdI64(vs[0].n, vs[1].n)
    else Clamp(vs[0].n, vs[1].n, vs[2].n)
  }

  /** A builtin call: the argument count and types are checked first. */
  function Builtin(name: string, vs: seq<Value>): Res<Value>
    requires Arity(name).Some?
  {
    if |vs| != Arity(name).value then Fault("L0405", "wrong number of arguments")
    else if AllInts(vs) then Ok(I64(Scalar(name, vs)))
    else Fault("L0417", "expected i64 arguments")
  }
}

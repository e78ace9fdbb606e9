/** Unsigned numbers and the low bits of 32-bit words. */
module A64Bits {
  import opened Words

  function Low(b: bv32): nat { if b & 1 == 1 then 1 else 0 }

  function Half(b: bv32): bv32 { b >> 1 }

  /** A bit below a word shifted up by one. */
  function Append(t: bv32, odd: bool): bv32 { (t << 1) | (if odd then 1 else 0) }

  /** The bits of `a` under the mask `m`. */
  function And(a: bv32, m: bv32): bv32 { a & m }

  /** The word with the low `k` bits of `x`. */
  function ToBits(x: nat, k: nat): bv32
    requires k <= 32
  {
    if k == 0 then 0 else Append(ToBits(x / 2, k - 1), x % 2 == 1)
  }

  /** `x as u32`. */
  function U32(x: nat): bv32 { ToBits(x, 32) }

  /** The number in the low `k` bits of a word. */
  function Val(b: bv32, k: nat): (v: nat)
    requires k <= 32
    ensures v < Pow2(k)
  {
    if k == 0 then 0 else Low(b) + 2 * Val(Half(b), k - 1)
  }

  /** The low `k` bits set. */
  function Mask(k: nat): bv32
    requires k <= 32
  {
    match k
    case 0 => 0
    case 1 => 0x1
    case 2 => 0x3
    case 3 => 0x7
    case 4 => 0xF
    case 5 => 0x1F
    case 6 => 0x3F
    case 7 => 0x7F
    case 8 => 0xFF
    case 9 => 0x1FF
    case 10 => 0x3FF
    case 11 => 0x7FF
    case 12 => 0xFFF
    case 13 => 0x1FFF
    case 14 => 0x3FFF
    case 15 => 0x7FFF
    case 16 => 0xFFFF
    case 17 => 0x1FFFF
    case 18 => 0x3FFFF
    case 19 => 0x7FFFF
    case 20 => 0xFFFFF
    case 21 => 0x1FFFFF
    case 22 => 0x3FFFFF
    case 23 => 0x7FFFFF
    case 24 => 0xFFFFFF
    case 25 => 0x1FFFFFF
    case 26 => 0x3FFFFFF
    case 27 => 0x7FFFFFF
    case 28 => 0xFFFFFFF
    case 29 => 0x1FFFFFFF
    case 30 => 0x3FFFFFFF
    case 31 => 0x7FFFFFFF
    case 32 => 0xFFFFFFFF
    case _ => 0
  }

  lemma MaskStep(k: nat)
    requires 1 <= k <= 32
    ensures Mask(k) == Append(Mask(k - 1), true) && And(Mask(k - 1), 0x8000_0000) == 0
  {
  }

  lemma SplitLow(m: bv32, a: bv32, b: bv32)
    requires And(a, Append(m, true)) == And(b, Append(m, true)) && And(m, 0x8000_0000) == 0
    ensures Low(a) == Low(b) && And(Half(a), m) == And(Half(b), m)
  {
  }

  /** The low bits decide the number. */
  lemma {:induction false} ValMasked(a: bv32, b: bv32, k: nat)
    requires k <= 32 && And(a, Mask(k)) == And(b, Mask(k))
    ensures Val(a, k) == Val(b, k)
    decreases k
  {
    hide Mask, Low, Half, Append, And;
    if k > 0 {
      MaskStep(k);
      SplitLow(Mask(k - 1), a, b);
      ValMasked(Half(a), Half(b), k - 1);
    }
  }

  lemma ShiftBack(t: bv32, odd: bool)
    ensures Low(Append(t, odd)) == (if odd then 1 else 0)
    ensures And(Half(Append(t, odd)), 0x7FFF_FFFF) == And(t, 0x7FFF_FFFF)
  {
  }

  /** Reading back the bits written, as far as they were written. */
  lemma {:induction false} ValOfBits(x: nat, k: nat, j: nat)
    requires j <= k <= 32
    ensures Val(ToBits(x, k), j) == x % Pow2(j)
    decreases j
  {
    hide Low, Half, Append, And, Pow2, Val, ToBits;
    ValUnfold(x, k, j);
    if j > 0 {
      var t := ToBits(x / 2, k - 1);
      ShiftBack(t, x % 2 == 1);
      ValOfBits(x / 2, k - 1, j - 1);
      Below31(Half(Append(t, x % 2 == 1)), t, j - 1);
      HalfMod(x, j);
    }
  }

  lemma ValUnfold(x: nat, k: nat, j: nat)
    requires j <= k <= 32
    ensures j == 0 ==> Val(ToBits(x, k), j) == 0 && Pow2(j) == 1
    ensures j > 0 ==> ToBits(x, k) == Append(ToBits(x / 2, k - 1), x % 2 == 1)
    ensures j > 0 ==> Val(ToBits(x, k), j) == Low(ToBits(x, k)) + 2 * Val(Half(ToBits(x, k)), j - 1)
  {
    hide Low, Half, Append;
  }

  lemma Below31(a: bv32, b: bv32, k: nat)
    requires k <= 31 && And(a, 0x7FFF_FFFF) == And(b, 0x7FFF_FFFF)
    ensures Val(a, k) == Val(b, k)
  {
    hide Mask, And;
    SubMask(k);
    MaskedBoth(a, b, Mask(k));
    ValMasked(a, b, k);
  }

  lemma SubMask(k: nat)
    requires k <= 31
    ensures And(Mask(k), 0x7FFF_FFFF) == Mask(k)
  {
  }

  lemma MaskedBoth(a: bv32, b: bv32, m: bv32)
    requires And(a, 0x7FFF_FFFF) == And(b, 0x7FFF_FFFF) && And(m, 0x7FFF_FFFF) == m
    ensures And(a, m) == And(b, m)
  {
  }

  lemma HalfMod(x: nat, j: nat)
    requires j > 0
    ensures x % Pow2(j) == x % 2 + 2 * ((x / 2) % Pow2(j - 1))
  {
    var p := Pow2(j - 1);
    var q := (x / 2) / p;
    EuclidNat(x / 2, p);
    assert x == Pow2(j) * q + (x % 2 + 2 * ((x / 2) % p)) by {
      assert x / 2 == p * q + (x / 2) % p;
      assert Pow2(j) * q == 2 * (p * q);
    }
    ModIs(x, Pow2(j), q, x % 2 + 2 * ((x / 2) % p));
  }

  lemma AppendMask(b: bv32, m: bv32)
    ensures And(b, Append(m, true)) == Append(And(Half(b), m), Low(b) == 1)
  {
    MaskShifted(b, m);
    LastBit(b);
  }

  lemma MaskShifted(b: bv32, m: bv32)
    ensures b & ((m << 1) | 1) == (((b >> 1) & m) << 1) | (b & 1)
  {
  }

  lemma LastBit(b: bv32)
    ensures b & 1 == if Low(b) == 1 then 1 else 0
  {
  }

  lemma LowHalf(b: bv32, v: nat)
    ensures (Low(b) + 2 * v) / 2 == v && ((Low(b) + 2 * v) % 2 == 1 <==> Low(b) == 1)
  {
    assert Low(b) == 0 || Low(b) == 1;
    hide Low;
  }

  /** The number in the low bits of a word gives them back. */
  lemma {:induction false} BitsOfVal(b: bv32, k: nat)
    requires k <= 32
    ensures ToBits(Val(b, k), k) == And(b, Mask(k))
    decreases k
  {
    hide Low, Half, Append, And, Mask;
    if k == 0 {
      NoBits(b);
    } else {
      LowHalf(b, Val(Half(b), k - 1));
      BitsOfVal(Half(b), k - 1);
      MaskStep(k);
      AppendMask(b, Mask(k - 1));
    }
  }

  lemma NoBits(b: bv32)
    ensures And(b, Mask(0)) == 0
  {
  }

  lemma AllBits(w: bv32)
    ensures And(w, Mask(32)) == w
  {
  }

  lemma WordOfVal(w: bv32)
    ensures U32(Val(w, 32)) == w
  {
    BitsOfVal(w, 32);
    hide ToBits, Val;
    AllBits(w);
  }
}

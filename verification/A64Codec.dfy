/** Encoding and decoding are inverse on every instruction whose fields fit. */
module A64Codec {
  import opened Words
  import opened A64Bits
  import opened A64Isa

  // ---- Fields ----

  lemma FieldPowers()
    ensures Pow2(1) == 2 && Pow2(2) == 4 && Pow2(5) == 32 && Pow2(6) == 64 && Pow2(12) == 0x1000 && Pow2(16) == 0x1_0000
    ensures Pow2(18) == 0x4_0000 && Pow2(19) == 0x8_0000 && Pow2(25) == 0x200_0000 && Pow2(26) == 0x400_0000
    ensures Pow2(32) == 0x1_0000_0000
  {
    assert Pow2(8) == 256;
    assert Pow2(16) == 0x1_0000 by { Pow2Add(8, 8); }
    assert Pow2(12) == 0x1000 by { Pow2Add(8, 4); }
    assert Pow2(18) == 0x4_0000 by { Pow2Add(16, 2); }
    assert Pow2(25) == 0x200_0000 by { Pow2Add(16, 9); }
    assert Pow2(32) == 0x1_0000_0000 by { Pow2Add(16, 16); }
  }

  lemma AppendAnd(t: bv32, m: bv32, odd: bool)
    ensures And(Append(t, odd), Append(m, true)) == Append(And(t, m), odd)
  {
    hide And, Append;
    if odd { AppendAnd1(t, m); } else { AppendAnd0(t, m); }
  }

  lemma AppendAnd1(t: bv32, m: bv32)
    ensures And(Append(t, true), Append(m, true)) == Append(And(t, m), true)
  {
    ShiftedAnd(t, m);
  }

  lemma AppendAnd0(t: bv32, m: bv32)
    ensures And(Append(t, false), Append(m, true)) == Append(And(t, m), false)
  {
    ShiftedAnd(t, m);
  }

  lemma ShiftedAnd(t: bv32, m: bv32)
    ensures ((t << 1) | 1) & ((m << 1) | 1) == ((t & m) << 1) | 1
    ensures ((t << 1) | 0) & ((m << 1) | 1) == ((t & m) << 1) | 0
  {
  }

  lemma AndZero(m: bv32)
    ensures And(0, m) == 0
  {
  }

  lemma ToBitsZero(k: nat)
    requires k <= 32
    ensures ToBits(0, k) == 0
  {
    if k > 0 {
      ToBitsZero(k - 1);
      assert Append(0, false) == 0;
    }
  }

  /** A small number has no high bits. */
  lemma {:induction false} BitsSmall(x: nat, n: nat, k: nat)
    requires k <= n <= 32 && x < Pow2(k)
    ensures And(ToBits(x, n), Mask(k)) == ToBits(x, n)
    decreases k
  {
    hide And, Append, Mask;
    if k == 0 {
      ToBitsZero(n);
      AndZero(Mask(0));
    } else {
      MaskStep(k);
      BitsSmall(x / 2, n - 1, k - 1);
      AppendAnd(ToBits(x / 2, n - 1), Mask(k - 1), x % 2 == 1);
    }
  }

  /** A field that holds the bits of a small number reads back as the number. */
  lemma FieldIs(w: bv32, x: nat, k: nat)
    requires 0 < k <= 31 && x < Pow2(k) && And(w, Mask(k)) == U32(x)
    ensures Val(w, k) == x
  {
    hide And, Mask, Pow2, Val, ToBits;
    BitsSmall(x, 32, k);
    ValMasked(w, U32(x), k);
    ValOfBits(x, 32, k);
    ModIs(x, Pow2(k), 0, x);
  }

  /** A signed field that holds the low bits of an offset. */
  lemma SignedIs(w: bv32, off: int, k: nat)
    requires 1 < k <= 31 && -Pow2(k - 1) <= off < Pow2(k - 1) && And(w, Mask(k)) == And(S32(off), Mask(k))
    ensures Signed(Val(w, k), k) == off
  {
    hide And, Mask, Pow2, Val, ToBits;
    var x := off % 0x1_0000_0000;
    ValMasked(w, U32(x), k);
    ValOfBits(x, 32, k);
    FieldPowers();
    Pow2Add(k, 32 - k);
    Pow2Add(k - 1, 1);
    LowPart(off, Pow2(k), Pow2(32 - k));
  }

  /** Taking an offset modulo 2^32 first does not change it modulo a smaller power. */
  lemma LowPart(off: int, p: int, q: int)
    requires p > 0 && q > 0 && p * q == 0x1_0000_0000 && -p <= off < p
    ensures (off % 0x1_0000_0000) % p == if off >= 0 then off else off + p
  {
    if off >= 0 {
      MulLe(1, q, p);
      ModIs(off, p, 0, off);
    } else {
      MulLe(1, q, p);
      assert off % 0x1_0000_0000 == off + p * q;
      assert off + p * q == p * (q - 1) + (off + p);
      ModIs(off + p * q, p, q - 1, off + p);
    }
  }

  lemma RegFits(r: Reg)
    ensures And(U32(r), 0x1F) == U32(r)
  {
    hide And, At, With0, With10, With12, Inverted, Low4, Low6, ToBits;
    FieldPowers();
    BitsSmall(r, 32, 5);
  }

  lemma F5Is(w: bv32, at: bv32, r: Reg)
    requires at < 32 && And(At(w, at), 0x1F) == U32(r)
    ensures F5(w, at) == r
  {
    hide And, At, With0, With10, With12, Inverted, Low4, Low6, ToBits, Val, Pow2;
    FieldPowers();
    FieldIs(At(w, at), r, 5);
  }

  lemma ThreeFields(base: bv32, rd: bv32, rn: bv32, rm: bv32)
    requires And(rd, 0x1F) == rd && And(rn, 0x1F) == rn && And(rm, 0x1F) == rm && And(base, 0x1F_03FF) == 0
    ensures var w := Three(base, rd, rn, rm);
            && And(At(w, 0), 0x1F) == rd && And(At(w, 5), 0x1F) == rn && And(At(w, 16), 0x1F) == rm
            && And(w, 0xFFE0_FC00) == And(base, 0xFFE0_FC00)
  {
  }

  lemma ThreeRegs(base: bv32, rd: Reg, rn: Reg, rm: Reg)
    requires And(base, 0x1F_03FF) == 0
    ensures var w := Three(base, U32(rd), U32(rn), U32(rm));
            F5(w, 0) == rd && F5(w, 5) == rn && F5(w, 16) == rm && And(w, 0xFFE0_FC00) == And(base, 0xFFE0_FC00)
  {
    hide And, At, With0, With10, With12, Inverted, Low4, Low6, ToBits, Three, F5;
    RegFits(rd);
    RegFits(rn);
    RegFits(rm);
    ThreeFields(base, U32(rd), U32(rn), U32(rm));
    var w := Three(base, U32(rd), U32(rn), U32(rm));
    F5Is(w, 0, rd);
    F5Is(w, 5, rn);
    F5Is(w, 16, rm);
  }

  // ---- Data processing ----

  lemma AluKind(w: bv32, op: AluOp)
    requires And(w, 0xFFE0_FC00) == AluBase(op)
    ensures KindOf(w) == KAlu && AluOf(w) == op
  {
  }

  lemma AluBack(op: AluOp, rd: Reg, rn: Reg, rm: Reg)
    ensures Decode(Encode(Alu(op, rd, rn, rm))) == Alu(op, rd, rn, rm)
  {
    hide And, At, With0, With10, With12, Inverted, Low4, Low6, ToBits, Three, F5, KindOf, AluOf;
    AluBaseClear(op);
    ThreeRegs(AluBase(op), rd, rn, rm);
    AluKind(Encode(Alu(op, rd, rn, rm)), op);
  }

  lemma AluBaseClear(op: AluOp)
    ensures And(AluBase(op), 0x1F_03FF) == 0 && And(AluBase(op), 0xFFE0_FC00) == AluBase(op)
  {
  }

  lemma MSubWord(rd: bv32, rn: bv32, rm: bv32, ra: bv32)
    requires And(rd, 0x1F) == rd && And(rn, 0x1F) == rn && And(rm, 0x1F) == rm && And(ra, 0x1F) == ra
    ensures var w := With10(Three(0x9B00_8000, rd, rn, rm), ra);
            && And(At(w, 0), 0x1F) == rd && And(At(w, 5), 0x1F) == rn && And(At(w, 16), 0x1F) == rm && And(At(w, 10), 0x1F) == ra
            && KindOf(w) == KMSub
  {
  }

  lemma MSubBack(rd: Reg, rn: Reg, rm: Reg, ra: Reg)
    ensures Decode(Encode(MSub(rd, rn, rm, ra))) == MSub(rd, rn, rm, ra)
  {
    hide And, At, With0, With10, With12, Inverted, Low4, Low6, ToBits, Three, F5, KindOf;
    RegFits(rd);
    RegFits(rn);
    RegFits(rm);
    RegFits(ra);
    MSubWord(U32(rd), U32(rn), U32(rm), U32(ra));
    var w := Encode(MSub(rd, rn, rm, ra));
    F5Is(w, 0, rd);
    F5Is(w, 5, rn);
    F5Is(w, 16, rm);
    F5Is(w, 10, ra);
  }

  lemma MvnWord(rd: bv32, rm: bv32)
    requires And(rd, 0x1F) == rd && And(rm, 0x1F) == rm
    ensures var w := Three(0xAA20_0000, rd, 31, rm);
            And(At(w, 0), 0x1F) == rd && And(At(w, 16), 0x1F) == rm && KindOf(w) == KMvn
  {
  }

  lemma CmpWord(rn: bv32, rm: bv32)
    requires And(rn, 0x1F) == rn && And(rm, 0x1F) == rm
    ensures var w := Three(0xEB00_0000, 31, rn, rm);
            And(At(w, 5), 0x1F) == rn && And(At(w, 16), 0x1F) == rm && KindOf(w) == KCmp
    ensures var w := Three(0xF100_0000, 31, rn, 0); And(At(w, 5), 0x1F) == rn && KindOf(w) == KCmpZero
  {
  }

  lemma MvnBack(rd: Reg, rm: Reg)
    ensures Decode(Encode(Mvn(rd, rm))) == Mvn(rd, rm)
  {
    hide And, At, With0, With10, With12, Inverted, Low4, Low6, ToBits, Three, F5, KindOf;
    var w := Encode(Mvn(rd, rm));
    RegFits(rd);
    RegFits(rm);
    MvnWord(U32(rd), U32(rm));
    F5Is(w, 0, rd);
    F5Is(w, 16, rm);
  }

  lemma CmpBack(rn: Reg, rm: Reg)
    ensures Decode(Encode(Cmp(rn, rm))) == Cmp(rn, rm)
  {
    hide And, At, With0, With10, With12, Inverted, Low4, Low6, ToBits, Three, F5, KindOf;
    var w := Encode(Cmp(rn, rm));
    RegFits(rn);
    RegFits(rm);
    CmpWord(U32(rn), U32(rm));
    F5Is(w, 5, rn);
    F5Is(w, 16, rm);
  }

  lemma CmpZeroBack(rn: Reg)
    ensures Decode(Encode(CmpZero(rn))) == CmpZero(rn)
  {
    hide And, At, With0, With10, With12, Inverted, Low4, Low6, ToBits, Three, F5, KindOf;
    var w := Encode(CmpZero(rn));
    RegFits(rn);
    CmpWord(U32(rn), U32(rn));
    F5Is(w, 5, rn);
  }

  lemma CodeBack(c: Condition)
    ensures CondOf(Code(c)) == c && And(Code(c), 0xF) == Code(c)
  {
  }

  lemma CSetWord(rd: bv32, code: bv32)
    requires And(rd, 0x1F) == rd && And(code, 0xF) == code
    ensures var w := With12(Three(0x9A80_0400, rd, 31, 31), Inverted(code));
            And(At(w, 0), 0x1F) == rd && Inverted(Low4(At(w, 12))) == code && KindOf(w) == KCSet
  {
  }

  lemma CSelWord(rd: bv32, rn: bv32, rm: bv32, code: bv32)
    requires And(rd, 0x1F) == rd && And(rn, 0x1F) == rn && And(rm, 0x1F) == rm && And(code, 0xF) == code
    ensures var w := With12(Three(0x9A80_0000, rd, rn, rm), code);
            && And(At(w, 0), 0x1F) == rd && And(At(w, 5), 0x1F) == rn && And(At(w, 16), 0x1F) == rm
            && Low4(At(w, 12)) == code && KindOf(w) == KCSel
  {
  }

  lemma SelectBack(i: Instr)
    requires i.CSet? || i.CSel?
    ensures Decode(Encode(i)) == i
  {
    hide And, At, With0, With10, With12, Inverted, Low4, Low6, ToBits, Three, F5, KindOf, CondOf, Code;
    var w := Encode(i);
    match i
    case CSet(rd, cond) =>
      RegFits(rd);
      CodeBack(cond);
      CSetWord(U32(rd), Code(cond));
      F5Is(w, 0, rd);
    case CSel(rd, rn, rm, cond) =>
      RegFits(rd); RegFits(rn); RegFits(rm);
      CodeBack(cond);
      CSelWord(U32(rd), U32(rn), U32(rm), Code(cond));
      F5Is(w, 0, rd); F5Is(w, 5, rn); F5Is(w, 16, rm);
  }

  lemma AsrWord(rd: bv32, rn: bv32, shift: bv32)
    requires And(rd, 0x1F) == rd && And(rn, 0x1F) == rn && And(shift, 0x3F) == shift
    ensures var w := Three(0x9340_FC00, rd, rn, Low6(shift));
            And(At(w, 0), 0x1F) == rd && And(At(w, 5), 0x1F) == rn && And(At(w, 16), 0x3F) == shift && KindOf(w) == KAsr
  {
  }

  lemma AsrBack(rd: Reg, rn: Reg, shift: nat)
    requires shift < 64
    ensures Decode(Encode(AsrImm(rd, rn, shift))) == AsrImm(rd, rn, shift)
  {
    hide And, At, With0, With10, With12, Inverted, Low4, Low6, ToBits, Three, F5, KindOf, Val, Pow2;
    RegFits(rd);
    RegFits(rn);
    FieldPowers();
    BitsSmall(shift, 32, 6);
    AsrWord(U32(rd), U32(rn), U32(shift));
    var w := Encode(AsrImm(rd, rn, shift));
    F5Is(w, 0, rd);
    F5Is(w, 5, rn);
    FieldIs(At(w, 16), shift, 6);
  }

  lemma WideWord(base: bv32, rd: bv32, imm: bv32, hw: bv32)
    requires And(rd, 0x1F) == rd && And(imm, 0xFFFF) == imm && And(hw, 0x3) == hw && (base == 0xD280_0000 || base == 0xF280_0000)
    ensures var w := Wide(base, rd, imm, hw);
            && And(At(w, 0), 0x1F) == rd && And(At(w, 5), 0xFFFF) == imm && And(At(w, 21), 0x3) == hw
            && KindOf(w) == if base == 0xD280_0000 then KMovZ else KMovK
  {
  }

  lemma WideBack(i: Instr)
    requires (i.MovZ? || i.MovK?) && Encodable(i)
    ensures Decode(Encode(i)) == i
  {
    hide And, At, With0, With10, With12, Inverted, Low4, Low6, ToBits, Wide, F5, KindOf, Val, Pow2;
    RegFits(i.rd);
    FieldPowers();
    BitsSmall(i.imm, 32, 16);
    BitsSmall(i.hw, 32, 2);
    WideWord(if i.MovZ? then 0xD280_0000 else 0xF280_0000, U32(i.rd), U32(i.imm), U32(i.hw));
    var w := Encode(i);
    F5Is(w, 0, i.rd);
    FieldIs(At(w, 5), i.imm, 16);
    FieldIs(At(w, 21), i.hw, 2);
  }

  // ---- Loads, stores and the stack pointer ----

  lemma MemField0(base: bv32, rt: bv32, rn: bv32, slot: bv32)
    requires And(rt, 0x1F) == rt && And(rn, 0x1F) == rn && And(slot, 0xFFF) == slot && And(base, 0x3F_FFFF) == 0
    ensures And(At(Mem(base, rt, rn, slot), 0), 0x1F) == rt
  {
  }

  lemma MemField5(base: bv32, rt: bv32, rn: bv32, slot: bv32)
    requires And(rt, 0x1F) == rt && And(rn, 0x1F) == rn && And(slot, 0xFFF) == slot && And(base, 0x3F_FFFF) == 0
    ensures And(At(Mem(base, rt, rn, slot), 5), 0x1F) == rn
  {
  }

  lemma MemField10(base: bv32, rt: bv32, rn: bv32, slot: bv32)
    requires And(rt, 0x1F) == rt && And(rn, 0x1F) == rn && And(slot, 0xFFF) == slot && And(base, 0x3F_FFFF) == 0
    ensures And(At(Mem(base, rt, rn, slot), 10), 0xFFF) == slot
  {
  }

  lemma MemOpcode(base: bv32, rt: bv32, rn: bv32, slot: bv32)
    requires And(rt, 0x1F) == rt && And(rn, 0x1F) == rn && And(slot, 0xFFF) == slot && And(base, 0x3F_FFFF) == 0
    ensures And(Mem(base, rt, rn, slot), 0xFFC0_0000) == base
  {
  }

  lemma MemLow(base: bv32, slot: bv32)
    requires And(slot, 0xFFF) == slot && And(base, 0x3F_FFFF) == 0
    ensures And(Mem(base, 31, 31, slot), 0x3FF) == 0x3FF
  {
  }

  lemma MemFields(base: bv32, rt: bv32, rn: bv32, slot: bv32)
    requires And(rt, 0x1F) == rt && And(rn, 0x1F) == rn && And(slot, 0xFFF) == slot && And(base, 0x3F_FFFF) == 0
    ensures var w := Mem(base, rt, rn, slot);
            && And(At(w, 0), 0x1F) == rt && And(At(w, 5), 0x1F) == rn && And(At(w, 10), 0xFFF) == slot
            && And(w, 0xFFC0_0000) == base && (rt == 31 && rn == 31 ==> And(w, 0x3FF) == 0x3FF)
  {
    hide And, At, Mem;
    MemField0(base, rt, rn, slot);
    MemField5(base, rt, rn, slot);
    MemField10(base, rt, rn, slot);
    MemOpcode(base, rt, rn, slot);
    MemLow(base, slot);
  }

  lemma MemKind(w: bv32)
    ensures And(w, 0xFFC0_0000) == 0xF900_0000 ==> KindOf(w) == KStr
    ensures And(w, 0xFFC0_0000) == 0xF940_0000 ==> KindOf(w) == KLdr
  {
  }

  lemma StackKind(w: bv32)
    requires And(w, 0x3FF) == 0x3FF
    ensures And(w, 0xFFC0_0000) == 0xD100_0000 ==> KindOf(w) == KSubSp
    ensures And(w, 0xFFC0_0000) == 0x9100_0000 ==> KindOf(w) == KAddSp
  {
  }

  lemma AccessBack(i: Instr)
    requires (i.Str? || i.Ldr?) && Encodable(i)
    ensures Decode(Encode(i)) == i
  {
    hide And, At, With0, With10, With12, Inverted, Low4, Low6, ToBits, Mem, F5, KindOf, Val, Pow2;
    RegFits(i.rt);
    RegFits(i.rn);
    FieldPowers();
    BitsSmall(i.slot, 32, 12);
    var base := if i.Str? then 0xF900_0000 else 0xF940_0000;
    assert And(base, 0x3F_FFFF) == 0 by { BaseClear(); }
    MemFields(base, U32(i.rt), U32(i.rn), U32(i.slot));
    var w := Encode(i);
    MemKind(w);
    F5Is(w, 0, i.rt);
    F5Is(w, 5, i.rn);
    FieldIs(At(w, 10), i.slot, 12);
  }

  lemma BaseClear()
    ensures And(0xF900_0000, 0x3F_FFFF) == 0 && And(0xF940_0000, 0x3F_FFFF) == 0
    ensures And(0xD100_0000, 0x3F_FFFF) == 0 && And(0x9100_0000, 0x3F_FFFF) == 0 && And(31, 0x1F) == 31
  {
  }

  lemma SubSpBack(imm: nat)
    requires imm < 0x1000
    ensures Decode(Encode(SubSp(imm))) == SubSp(imm)
  {
    hide And, At, ToBits, Mem, KindOf, Val, Pow2;
    FieldPowers();
    BitsSmall(imm, 32, 12);
    BaseClear();
    MemFields(0xD100_0000, 31, 31, U32(imm));
    var w := Mem(0xD100_0000, 31, 31, U32(imm));
    StackKind(w);
    FieldIs(At(w, 10), imm, 12);
  }

  lemma AddSpBack(imm: nat)
    requires imm < 0x1000
    ensures Decode(Encode(AddSp(imm))) == AddSp(imm)
  {
    hide And, At, ToBits, Mem, KindOf, Val, Pow2;
    FieldPowers();
    BitsSmall(imm, 32, 12);
    BaseClear();
    MemFields(0x9100_0000, 31, 31, U32(imm));
    var w := Mem(0x9100_0000, 31, 31, U32(imm));
    StackKind(w);
    FieldIs(At(w, 10), imm, 12);
  }

  lemma PushWord(rt: bv32)
    requires And(rt, 0x1F) == rt
    ensures And(At(With0(0xF81F_0FE0, rt), 0), 0x1F) == rt && KindOf(With0(0xF81F_0FE0, rt)) == KPush
    ensures And(At(With0(0xF841_07E0, rt), 0), 0x1F) == rt && KindOf(With0(0xF841_07E0, rt)) == KPop
  {
  }

  lemma PushBack(i: Instr)
    requires i.Push? || i.Pop?
    ensures Decode(Encode(i)) == i
  {
    hide And, At, With0, With10, With12, Inverted, Low4, Low6, ToBits, F5, KindOf;
    RegFits(i.rt);
    PushWord(U32(i.rt));
    F5Is(Encode(i), 0, i.rt);
  }

  // ---- Branches ----

  lemma WordB(delta: bv32)
    ensures And(Put26(0x1400_0000, delta), 0x3FF_FFFF) == And(delta, 0x3FF_FFFF) && KindOf(Put26(0x1400_0000, delta)) == KB
  {
  }

  lemma WordBl(delta: bv32)
    ensures And(Put26(0x9400_0000, delta), 0x3FF_FFFF) == And(delta, 0x3FF_FFFF) && KindOf(Put26(0x9400_0000, delta)) == KBl
  {
  }

  lemma JumpBack(i: Instr)
    requires (i.B? || i.Bl?) && Encodable(i)
    ensures Decode(Encode(i)) == i
  {
    hide And, At, With0, With10, With12, Inverted, Low4, Low6, ToBits, Put26, KindOf, Val, Pow2, Signed;
    FieldPowers();
    WordB(S32(i.off));
    WordBl(S32(i.off));
    SignedIs(Encode(i), i.off, 26);
  }

  lemma BCondWord(code: bv32, delta: bv32)
    requires And(code, 0xF) == code
    ensures var w := Put19(With0(0x5400_0000, code), delta);
            And(At(w, 5), 0x7_FFFF) == And(delta, 0x7_FFFF) && Low4(w) == code && KindOf(w) == KBCond
  {
  }

  lemma CbzField(word: bv32, delta: bv32)
    requires And(word, 0xFF_FFE0) == 0
    ensures var w := Put19(word, delta); And(At(w, 5), 0x7_FFFF) == And(delta, 0x7_FFFF) && And(At(w, 0), 0x1F) == And(word, 0x1F)
  {
  }

  lemma CbzKind(rt: bv32, delta: bv32)
    requires And(rt, 0x1F) == rt
    ensures KindOf(Put19(With0(0xB400_0000, rt), delta)) == KCbz
  {
  }

  lemma CbnzKind(rt: bv32, delta: bv32)
    requires And(rt, 0x1F) == rt
    ensures KindOf(Put19(With0(0xB500_0000, rt), delta)) == KCbnz
  {
  }

  lemma CbzOpcode(rt: bv32)
    requires And(rt, 0x1F) == rt
    ensures And(With0(0xB400_0000, rt), 0xFF_FFE0) == 0 && And(With0(0xB400_0000, rt), 0x1F) == rt
    ensures And(With0(0xB500_0000, rt), 0xFF_FFE0) == 0 && And(With0(0xB500_0000, rt), 0x1F) == rt
  {
  }

  lemma CbzBack(rt: Reg, off: int)
    requires Encodable(Cbz(rt, off))
    ensures Decode(Encode(Cbz(rt, off))) == Cbz(rt, off)
  {
    hide And, At, With0, ToBits, Put19, KindOf, Val, Pow2, Signed, F5;
    FieldPowers();
    RegFits(rt);
    var r := U32(rt);
    CbzOpcode(r);
    CbzKind(r, S32(off));
    CbzField(With0(0xB400_0000, r), S32(off));
    var w := Put19(With0(0xB400_0000, r), S32(off));
    F5Is(w, 0, rt);
    SignedIs(At(w, 5), off, 19);
  }

  lemma CbnzBack(rt: Reg, off: int)
    requires Encodable(Cbnz(rt, off))
    ensures Decode(Encode(Cbnz(rt, off))) == Cbnz(rt, off)
  {
    hide And, At, With0, ToBits, Put19, KindOf, Val, Pow2, Signed, F5;
    FieldPowers();
    RegFits(rt);
    var r := U32(rt);
    CbzOpcode(r);
    CbnzKind(r, S32(off));
    CbzField(With0(0xB500_0000, r), S32(off));
    var w := Put19(With0(0xB500_0000, r), S32(off));
    F5Is(w, 0, rt);
    SignedIs(At(w, 5), off, 19);
  }

  lemma BCondBack(i: Instr)
    requires i.BCond? && Encodable(i)
    ensures Decode(Encode(i)) == i
  {
    hide And, At, With0, Low4, ToBits, Put19, KindOf, Val, Pow2, Signed, CondOf, Code;
    FieldPowers();
    CodeBack(i.cond);
    BCondWord(Code(i.cond), S32(i.off));
    SignedIs(At(Encode(i), 5), i.off, 19);
  }

  /** Every instruction whose fields fit is read back from its word. */
  lemma DecodeEncode(i: Instr)
    requires Encodable(i)
    ensures Decode(Encode(i)) == i
  {
    hide Decode, Encode;
    match i
    case MovZ(_, _, _) => WideBack(i);
    case MovK(_, _, _) => WideBack(i);
    case Alu(op, rd, rn, rm) => AluBack(op, rd, rn, rm);
    case MSub(rd, rn, rm, ra) => MSubBack(rd, rn, rm, ra);
    case Mvn(rd, rm) => MvnBack(rd, rm);
    case Cmp(rn, rm) => CmpBack(rn, rm);
    case CmpZero(rn) => CmpZeroBack(rn);
    case CSet(_, _) => SelectBack(i);
    case CSel(_, _, _, _) => SelectBack(i);
    case AsrImm(rd, rn, shift) => AsrBack(rd, rn, shift);
    case Str(_, _, _) => AccessBack(i);
    case Ldr(_, _, _) => AccessBack(i);
    case Push(_) => PushBack(i);
    case Pop(_) => PushBack(i);
    case SubSp(imm) => SubSpBack(imm);
    case AddSp(imm) => AddSpBack(imm);
    case B(_) => JumpBack(i);
    case Bl(_) => JumpBack(i);
    case BCond(_, _) => BCondBack(i);
    case Cbz(rt, off) => CbzBack(rt, off);
    case Cbnz(rt, off) => CbnzBack(rt, off);
    case _ => FixedBack(i);
  }

  lemma FixedBack(i: Instr)
    requires i.MovFpSp? || i.MovSpFp? || i.StpPre? || i.LdpPost? || i.Ret? || i.Nop? || i.Svc? || i.Brk?
    ensures Decode(Encode(i)) == i
  {
  }
}

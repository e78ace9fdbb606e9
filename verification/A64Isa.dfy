/** The A64 instructions the generator emits: their words, and what executing them does. */
module A64Isa {
  import opened Words
  import opened A64Bits

  type Reg = r: nat | r < 32

  const XZR: Reg := 31
  const FP: Reg := 29
  const LR: Reg := 30

  datatype AluOp = AAdd | ASub | AMul | ASDiv | AUDiv | AAnd | AOrr | AEor | ALslv | AAsrv

  datatype Condition = CEq | CNe | CGe | CLt | CGt | CLe

  /** Branch offsets count instructions. */
  datatype Instr =
    | MovZ(rd: Reg, imm: nat, hw: nat)
    | MovK(rd: Reg, imm: nat, hw: nat)
    | Alu(op: AluOp, rd: Reg, rn: Reg, rm: Reg)
    | MSub(rd: Reg, rn: Reg, rm: Reg, ra: Reg)
    | Mvn(rd: Reg, rm: Reg)
    | Cmp(rn: Reg, rm: Reg)
    | CmpZero(rn: Reg)
    | CSet(rd: Reg, cond: Condition)
    | CSel(rd: Reg, rn: Reg, rm: Reg, cond: Condition)
    | AsrImm(rd: Reg, rn: Reg, shift: nat)
    | Str(rt: Reg, rn: Reg, slot: nat)
    | Ldr(rt: Reg, rn: Reg, slot: nat)
    | Push(rt: Reg)
    | Pop(rt: Reg)
    | SubSp(imm: nat)
    | AddSp(imm: nat)
    | MovFpSp
    | MovSpFp
    | StpPre
    | LdpPost
    | Ret
    | B(off: int)
    | BCond(cond: Condition, off: int)
    | Cbz(rt: Reg, off: int)
    | Cbnz(rt: Reg, off: int)
    | Bl(off: int)
    | Nop
    | Svc
    | Brk

  function Mov(rd: Reg, rm: Reg): Instr { Alu(AOrr, rd, XZR, rm) }

  /** Every field fits the bits it is given. */
  predicate Encodable(i: Instr) {
    match i
    case MovZ(_, imm, hw) => imm < 0x1_0000 && hw < 4
    case MovK(_, imm, hw) => imm < 0x1_0000 && hw < 4
    case AsrImm(_, _, shift) => shift < 64
    case Str(_, _, slot) => slot < 0x1000
    case Ldr(_, _, slot) => slot < 0x1000
    case SubSp(imm) => imm < 0x1000
    case AddSp(imm) => imm < 0x1000
    case B(off) => -0x200_0000 <= off < 0x200_0000
    case Bl(off) => -0x200_0000 <= off < 0x200_0000
    case BCond(_, off) => -0x4_0000 <= off < 0x4_0000
    case Cbz(_, off) => -0x4_0000 <= off < 0x4_0000
    case Cbnz(_, off) => -0x4_0000 <= off < 0x4_0000
    case _ => true
  }

  // ---- Encoding ----

  function Code(c: Condition): bv32 {
    match c
    case CEq => 0x0
    case CNe => 0x1
    case CGe => 0xA
    case CLt => 0xB
    case CGt => 0xC
    case CLe => 0xD
  }

  function AluBase(op: AluOp): bv32 {
    match op
    case AAdd => 0x8B00_0000
    case ASub => 0xCB00_0000
    case AMul => 0x9B00_7C00
    case ASDiv => 0x9AC0_0C00
    case AUDiv => 0x9AC0_0800
    case AAnd => 0x8A00_0000
    case AOrr => 0xAA00_0000
    case AEor => 0xCA00_0000
    case ALslv => 0x9AC0_2000
    case AAsrv => 0x9AC0_2800
  }

  /** `delta as u32`. */
  function S32(delta: int): bv32 { U32(delta % 0x1_0000_0000) }

  function Three(base: bv32, rd: bv32, rn: bv32, rm: bv32): bv32 { base | (rm << 16) | (rn << 5) | rd }

  function Wide(base: bv32, rd: bv32, imm: bv32, hw: bv32): bv32 { base | (hw << 21) | ((imm & 0xFFFF) << 5) | rd }

  function Mem(base: bv32, rt: bv32, rn: bv32, slot: bv32): bv32 { base | ((slot & 0xFFF) << 10) | (rn << 5) | rt }

  /** A word shifted down to the field that starts at bit `at`. */
  function At(w: bv32, at: bv32): bv32
    requires at < 32
  {
    w >> at
  }

  /** A word with a register put in at bit 10, a condition at bit 12, or a register at bit 0. */
  function With10(w: bv32, r: bv32): bv32 { w | (r << 10) }

  function With12(w: bv32, c: bv32): bv32 { w | (c << 12) }

  function With0(w: bv32, r: bv32): bv32 { w | r }

  function Inverted(c: bv32): bv32 { c ^ 1 }

  function Low4(w: bv32): bv32 { w & 0xF }

  function Low6(w: bv32): bv32 { w & 0x3F }

  /** A 26-bit and a 19-bit branch immediate put into a word. */
  function Put26(word: bv32, delta: bv32): bv32 { (word & 0xFC00_0000) | (delta & 0x3FF_FFFF) }

  function Put19(word: bv32, delta: bv32): bv32 { (word & 0xFF00_001F) | ((delta & 0x7_FFFF) << 5) }

  function Encode(i: Instr): bv32 {
    match i
    case MovZ(rd, imm, hw) => Wide(0xD280_0000, U32(rd), U32(imm), U32(hw))
    case MovK(rd, imm, hw) => Wide(0xF280_0000, U32(rd), U32(imm), U32(hw))
    case Alu(op, rd, rn, rm) => Three(AluBase(op), U32(rd), U32(rn), U32(rm))
    case MSub(rd, rn, rm, ra) => With10(Three(0x9B00_8000, U32(rd), U32(rn), U32(rm)), U32(ra))
    case Mvn(rd, rm) => Three(0xAA20_0000, U32(rd), 31, U32(rm))
    case Cmp(rn, rm) => Three(0xEB00_0000, 31, U32(rn), U32(rm))
    case CmpZero(rn) => Three(0xF100_0000, 31, U32(rn), 0)
    case CSet(rd, cond) => With12(Three(0x9A80_0400, U32(rd), 31, 31), Inverted(Code(cond)))
    case CSel(rd, rn, rm, cond) => With12(Three(0x9A80_0000, U32(rd), U32(rn), U32(rm)), Code(cond))
    case AsrImm(rd, rn, shift) => Three(0x9340_FC00, U32(rd), U32(rn), Low6(U32(shift)))
    case Str(rt, rn, slot) => Mem(0xF900_0000, U32(rt), U32(rn), U32(slot))
    case Ldr(rt, rn, slot) => Mem(0xF940_0000, U32(rt), U32(rn), U32(slot))
    case Push(rt) => With0(0xF81F_0FE0, U32(rt))
    case Pop(rt) => With0(0xF841_07E0, U32(rt))
    case SubSp(imm) => Mem(0xD100_0000, 31, 31, U32(imm))
    case AddSp(imm) => Mem(0x9100_0000, 31, 31, U32(imm))
    case MovFpSp => 0x9100_03FD
    case MovSpFp => 0x9100_03BF
    case StpPre => 0xA9BF_7BFD
    case LdpPost => 0xA8C1_7BFD
    case Ret => 0xD65F_03C0
    case B(off) => Put26(0x1400_0000, S32(off))
    case BCond(cond, off) => Put19(With0(0x5400_0000, Code(cond)), S32(off))
    case Cbz(rt, off) => Put19(With0(0xB400_0000, U32(rt)), S32(off))
    case Cbnz(rt, off) => Put19(With0(0xB500_0000, U32(rt)), S32(off))
    case Bl(off) => Put26(0x9400_0000, S32(off))
    case Nop => 0xD503_201F
    case Svc => 0xD400_0001
    case Brk => 0xD420_0000
  }

  // ---- Decoding ----

  function F5(w: bv32, at: bv32): Reg
    requires at < 32
  {
    assert Pow2(5) == 32;
    Val(At(w, at), 5)
  }

  function CondOf(code: bv32): Condition {
    if code == 0x0 then CEq
    else if code == 0x1 then CNe
    else if code == 0xA then CGe
    else if code == 0xB then CLt
    else if code == 0xC then CGt
    else CLe
  }

  /** A signed field of `k` bits. */
  function Signed(v: nat, k: nat): int
    requires k > 0
  {
    if v >= Pow2(k - 1) then v - Pow2(k) else v
  }

  function AluOf(w: bv32): (op: AluOp) {
    var b := w & 0xFFE0_FC00;
    if b == 0x8B00_0000 then AAdd
    else if b == 0xCB00_0000 then ASub
    else if b == 0x9B00_7C00 then AMul
    else if b == 0x9AC0_0C00 then ASDiv
    else if b == 0x9AC0_0800 then AUDiv
    else if b == 0x8A00_0000 then AAnd
    else if b == 0xAA00_0000 then AOrr
    else if b == 0xCA00_0000 then AEor
    else if b == 0x9AC0_2000 then ALslv
    else AAsrv
  }

  /** Which instruction a word of the emitted subset is. */
  datatype Kind =
    | KMovFpSp | KMovSpFp | KStp | KLdp | KRet | KNop | KSvc | KBrk | KB | KBl | KBCond | KCbz | KCbnz
    | KMovZ | KMovK | KPush | KPop | KStr | KLdr | KSubSp | KAddSp | KCmpZero | KCmp | KMvn | KCSet | KCSel
    | KAsr | KMSub | KAlu

  function KindOf(w: bv32): Kind {
    if w == 0x9100_03FD then KMovFpSp
    else if w == 0x9100_03BF then KMovSpFp
    else if w == 0xA9BF_7BFD then KStp
    else if w == 0xA8C1_7BFD then KLdp
    else if w == 0xD65F_03C0 then KRet
    else if w == 0xD503_201F then KNop
    else if w == 0xD400_0001 then KSvc
    else if w == 0xD420_0000 then KBrk
    else if w & 0xFC00_0000 == 0x1400_0000 then KB
    else if w & 0xFC00_0000 == 0x9400_0000 then KBl
    else if w & 0xFF00_0010 == 0x5400_0000 then KBCond
    else if w & 0xFF00_0000 == 0xB400_0000 then KCbz
    else if w & 0xFF00_0000 == 0xB500_0000 then KCbnz
    else if w & 0xFF80_0000 == 0xD280_0000 then KMovZ
    else if w & 0xFF80_0000 == 0xF280_0000 then KMovK
    else if w & 0xFFFF_FFE0 == 0xF81F_0FE0 then KPush
    else if w & 0xFFFF_FFE0 == 0xF841_07E0 then KPop
    else if w & 0xFFC0_0000 == 0xF900_0000 then KStr
    else if w & 0xFFC0_0000 == 0xF940_0000 then KLdr
    else if w & 0xFFC0_03FF == 0xD100_03FF then KSubSp
    else if w & 0xFFC0_03FF == 0x9100_03FF then KAddSp
    else if w & 0xFFFF_FC1F == 0xF100_001F then KCmpZero
    else if w & 0xFFE0_FC1F == 0xEB00_001F then KCmp
    else if w & 0xFFE0_FFE0 == 0xAA20_03E0 then KMvn
    else if w & 0xFFFF_0FE0 == 0x9A9F_07E0 then KCSet
    else if w & 0xFFE0_0C00 == 0x9A80_0000 then KCSel
    else if w & 0xFFC0_FC00 == 0x9340_FC00 then KAsr
    else if w & 0xFFE0_8000 == 0x9B00_8000 then KMSub
    else KAlu
  }

  /** Reads a word of the emitted subset back. */
  function Decode(w: bv32): Instr {
    match KindOf(w)
    case KMovFpSp => MovFpSp
    case KMovSpFp => MovSpFp
    case KStp => StpPre
    case KLdp => LdpPost
    case KRet => Ret
    case KNop => Nop
    case KSvc => Svc
    case KBrk => Brk
    case KB => B(Signed(Val(w, 26), 26))
    case KBl => Bl(Signed(Val(w, 26), 26))
    case KBCond => BCond(CondOf(Low4(w)), Signed(Val(At(w, 5), 19), 19))
    case KCbz => Cbz(F5(w, 0), Signed(Val(At(w, 5), 19), 19))
    case KCbnz => Cbnz(F5(w, 0), Signed(Val(At(w, 5), 19), 19))
    case KMovZ => MovZ(F5(w, 0), Val(At(w, 5), 16), Val(At(w, 21), 2))
    case KMovK => MovK(F5(w, 0), Val(At(w, 5), 16), Val(At(w, 21), 2))
    case KPush => Push(F5(w, 0))
    case KPop => Pop(F5(w, 0))
    case KStr => Str(F5(w, 0), F5(w, 5), Val(At(w, 10), 12))
    case KLdr => Ldr(F5(w, 0), F5(w, 5), Val(At(w, 10), 12))
    case KSubSp => SubSp(Val(At(w, 10), 12))
    case KAddSp => AddSp(Val(At(w, 10), 12))
    case KCmpZero => CmpZero(F5(w, 5))
    case KCmp => Cmp(F5(w, 5), F5(w, 16))
    case KMvn => Mvn(F5(w, 0), F5(w, 16))
    case KCSet => CSet(F5(w, 0), CondOf(Inverted(Low4(At(w, 12)))))
    case KCSel => CSel(F5(w, 0), F5(w, 5), F5(w, 16), CondOf(Low4(At(w, 12))))
    case KAsr => AsrImm(F5(w, 0), F5(w, 5), Val(At(w, 16), 6))
    case KMSub => MSub(F5(w, 0), F5(w, 5), F5(w, 16), F5(w, 10))
    case KAlu => Alu(AluOf(w), F5(w, 0), F5(w, 5), F5(w, 16))
  }
}

/** Executing A64 instructions: registers, the stack pointer, the flags a comparison sets, and
    memory as 8-byte words. */
module A64Machine {
  import opened Words
  import opened A64Isa

  type Regs = s: seq<int> | |s| == 31 witness seq(31, _ => 0)

  /** Data registers hold signed 64-bit values. Addresses, which only `sp`, `x29` and `x30`
      hold, are unbounded, and `pc` and `x30` count instructions. */
  datatype Cpu = Cpu(x: Regs, sp: int, pc: int, n: bool, z: bool, v: bool, mem: map<int, int>)

  function X(c: Cpu, r: Reg): int
  {
    if r == XZR then 0 else c.x[r]
  }

  function SetX(c: Cpu, r: Reg, v: int): (d: Cpu)
  {
    if r == XZR then c else c.(x := c.x[r := v])
  }

  function Load(mem: map<int, int>, a: int): int { if a in mem then mem[a] else 0 }

  /** The unsigned reading of a 64-bit value. */
  function U64(n: i64): nat { if n < 0 then n + TWO64 else n }

  function Chunk(u: nat, hw: nat): nat { (u / Pow2(16 * hw)) % 0x1_0000 }

  /** `u` with its 16-bit chunk `hw` replaced. */
  function PutChunk(u: nat, hw: nat, imm: nat): int { u - Chunk(u, hw) * Pow2(16 * hw) + imm * Pow2(16 * hw) }

  function AluValue(op: AluOp, a: i64, b: i64): i64 {
    match op
    case AAdd => Wrap(a + b)
    case ASub => Wrap(a - b)
    case AMul => Wrap(a * b)
    case ASDiv => if b == 0 then 0 else WrappingDiv(a, b)
    case AUDiv => if b == 0 then 0 else Wrap(U64(a) / U64(b))
    case AAnd => Bits64(AndBits, a, b)
    case AOrr => Bits64(OrBits, a, b)
    case AEor => Bits64(XorBits, a, b)
    case ALslv => ShiftLeft(a, b)
    case AAsrv => ShiftRight(a, b)
  }

  /** `subs`: the flags of a signed comparison. */
  function Compare(c: Cpu, a: i64, b: i64): Cpu {
    var r := Wrap(a - b);
    c.(n := r < 0, z := r == 0, v := r != a - b)
  }

  predicate Holds(c: Cpu, cond: Condition) {
    match cond
    case CEq => c.z
    case CNe => !c.z
    case CGe => c.n == c.v
    case CLt => c.n != c.v
    case CGt => !c.z && c.n == c.v
    case CLe => c.z || c.n != c.v
  }

  function Advance(c: Cpu): Cpu { c.(pc := c.pc + 1) }

  function Jump(c: Cpu, taken: bool, off: int): Cpu { c.(pc := if taken then c.pc + off else c.pc + 1) }

  /** The base register of a load or store; 31 names the stack pointer there. */
  function Base(c: Cpu, r: Reg): int
  {
    if r == 31 then c.sp else c.x[r]
  }

  datatype Outcome = Ran(c: Cpu) | Fault

  /** One instruction. A stack access with `sp` not 16-byte aligned faults, as does any access
      off an 8-byte boundary. */
  function Do(i: Instr, c: Cpu): (o: Outcome)
  {
    match i
    case MovZ(rd, imm, hw) => Ran(Advance(SetX(c, rd, Wrap(imm * Pow2(16 * hw)))))
    case MovK(rd, imm, hw) => Ran(Advance(SetX(c, rd, Wrap(PutChunk(U64(Wrap(X(c, rd))), hw, imm)))))
    case Alu(op, rd, rn, rm) => Ran(Advance(SetX(c, rd, AluValue(op, Wrap(X(c, rn)), Wrap(X(c, rm))))))
    case MSub(rd, rn, rm, ra) => Ran(Advance(SetX(c, rd, Wrap(X(c, ra) - X(c, rn) * X(c, rm)))))
    case Mvn(rd, rm) => Ran(Advance(SetX(c, rd, BitNot(Wrap(X(c, rm))))))
    case Cmp(rn, rm) => Ran(Advance(Compare(c, Wrap(X(c, rn)), Wrap(X(c, rm)))))
    case CmpZero(rn) => Ran(Advance(Compare(c, Wrap(X(c, rn)), 0)))
    case CSet(rd, cond) => Ran(Advance(SetX(c, rd, if Holds(c, cond) then 1 else 0)))
    case CSel(rd, rn, rm, cond) => Ran(Advance(SetX(c, rd, if Holds(c, cond) then X(c, rn) else X(c, rm))))
    case AsrImm(rd, rn, shift) => Ran(Advance(SetX(c, rd, Wrap(X(c, rn)) / Pow2(shift))))
    case Str(rt, rn, slot) =>
      var a := Base(c, rn) + 8 * slot;
      if a % 8 != 0 || (rn == 31 && c.sp % 16 != 0) then Fault else Ran(Advance(c.(mem := c.mem[a := X(c, rt)])))
    case Ldr(rt, rn, slot) =>
      var a := Base(c, rn) + 8 * slot;
      if a % 8 != 0 || (rn == 31 && c.sp % 16 != 0) then Fault else Ran(Advance(SetX(c, rt, Load(c.mem, a))))
    case Push(rt) =>
      if c.sp % 16 != 0 then Fault else Ran(Advance(c.(mem := c.mem[c.sp - 16 := X(c, rt)], sp := c.sp - 16)))
    case Pop(rt) =>
      if c.sp % 16 != 0 then Fault else Ran(Advance(SetX(c, rt, Load(c.mem, c.sp)).(sp := c.sp + 16)))
    case SubSp(imm) => Ran(Advance(c.(sp := c.sp - imm)))
    case AddSp(imm) => Ran(Advance(c.(sp := c.sp + imm)))
    case MovFpSp => Ran(Advance(SetX(c, FP, c.sp)))
    case MovSpFp => Ran(Advance(c.(sp := c.x[FP])))
    case StpPre =>
      if c.sp % 16 != 0 then Fault
      else Ran(Advance(c.(mem := c.mem[c.sp - 16 := c.x[FP]][c.sp - 8 := c.x[LR]], sp := c.sp - 16)))
    case LdpPost =>
      if c.sp % 16 != 0 then Fault
      else Ran(Advance(SetX(SetX(c, FP, Load(c.mem, c.sp)), LR, Load(c.mem, c.sp + 8)).(sp := c.sp + 16)))
    case Ret => Ran(c.(pc := c.x[LR]))
    case B(off) => Ran(Jump(c, true, off))
    case BCond(cond, off) => Ran(Jump(c, Holds(c, cond), off))
    case Cbz(rt, off) => Ran(Jump(c, X(c, rt) == 0, off))
    case Cbnz(rt, off) => Ran(Jump(c, X(c, rt) != 0, off))
    case Bl(off) => Ran(Jump(SetX(c, LR, c.pc + 1), true, off))
    case Nop => Ran(Advance(c))
    case Svc => Fault
    case Brk => Fault
  }

  function Step(code: seq<Instr>, c: Cpu): Outcome
  {
    if 0 <= c.pc < |code| then Do(code[c.pc], c) else Fault
  }

  function Exec(code: seq<Instr>, c: Cpu, n: nat): (o: Outcome)
    decreases n
  {
    if n == 0 then Ran(c)
    else
      var o := Step(code, c);
      if o.Ran? then Exec(code, o.c, n - 1) else Fault
  }

  lemma {:induction false} ExecThen(code: seq<Instr>, c: Cpu, n: nat, d: Cpu, m: nat)
    requires Exec(code, c, n) == Ran(d)
    ensures Exec(code, c, n + m) == Exec(code, d, m)
    decreases n
  {
    hide Step;
    if n > 0 { ExecThen(code, Step(code, c).c, n - 1, d, m); }
  }

  // ---- Straight-line code ----

  predicate Straight(i: Instr) {
    !i.B? && !i.BCond? && !i.Cbz? && !i.Cbnz? && !i.Bl? && !i.Ret?
  }

  /** Instructions one after the other, wherever they are. */
  function RunSeq(code: seq<Instr>, c: Cpu): (o: Outcome)
  {
    if code == [] then Ran(c)
    else
      var o := Do(code[0], c);
      if o.Ran? then RunSeq(code[1..], o.c) else Fault
  }

  ghost predicate CodeAt(code: seq<Instr>, pc: int, part: seq<Instr>) {
    0 <= pc && pc + |part| <= |code| && forall i :: 0 <= i < |part| ==> code[pc + i] == part[i]
  }

  lemma CodeSplit(code: seq<Instr>, pc: int, a: seq<Instr>, b: seq<Instr>)
    requires CodeAt(code, pc, a + b)
    ensures CodeAt(code, pc, a) && CodeAt(code, pc + |a|, b)
  {
    forall i | 0 <= i < |a| ensures code[pc + i] == a[i] { assert (a + b)[i] == a[i]; }
    forall i | 0 <= i < |b| ensures code[pc + |a| + i] == b[i] { assert (a + b)[|a| + i] == b[i]; }
  }

  lemma CodeHead(code: seq<Instr>, pc: int, i: Instr)
    requires CodeAt(code, pc, [i])
    ensures 0 <= pc < |code| && code[pc] == i
  {
    assert code[pc + 0] == [i][0];
  }

  lemma DoAdvances(i: Instr, c: Cpu)
    requires Straight(i) && Do(i, c).Ran?
    ensures Do(i, c).c.pc == c.pc + 1
  {
  }

  /** Straight-line code runs where it is placed. */
  lemma {:induction false} SeqExec(code: seq<Instr>, c: Cpu, part: seq<Instr>)
    requires CodeAt(code, c.pc, part) && (forall i :: i in part ==> Straight(i)) && RunSeq(part, c).Ran?
    ensures Exec(code, c, |part|) == RunSeq(part, c) && RunSeq(part, c).c.pc == c.pc + |part|
    decreases part
  {
    hide Do, Straight;
    if part != [] {
      CodeSplit(code, c.pc, [part[0]], part[1..]) by { assert [part[0]] + part[1..] == part; }
      CodeHead(code, c.pc, part[0]);
      assert part[0] in part;
      var d := Do(part[0], c).c;
      assert d.pc == c.pc + 1 by { DoAdvances(part[0], c); }
      assert Exec(code, c, |part|) == Exec(code, d, |part| - 1);
      SeqExec(code, d, part[1..]);
    }
  }

  lemma {:induction false} RunSeqAppend(a: seq<Instr>, b: seq<Instr>, c: Cpu)
    ensures RunSeq(a + b, c) == if RunSeq(a, c).Ran? then RunSeq(b, RunSeq(a, c).c) else Fault
    decreases a
  {
    hide Do;
    if a == [] {
      assert a + b == b;
    } else {
      assert (a + b)[0] == a[0] && (a + b)[1..] == a[1..] + b;
      var o := Do(a[0], c);
      if o.Ran? { RunSeqAppend(a[1..], b, o.c); }
    }
  }

  /** What a signed comparison tells. */
  lemma ComparisonHolds(c: Cpu, a: i64, b: i64)
    ensures var d := Compare(c, a, b);
            && (Holds(d, CEq) <==> a == b) && (Holds(d, CNe) <==> a != b)
            && (Holds(d, CLt) <==> a < b) && (Holds(d, CLe) <==> a <= b)
            && (Holds(d, CGt) <==> a > b) && (Holds(d, CGe) <==> a >= b)
  {
    WrapCases(a - b);
  }

  lemma WrapCases(x: int)
    requires -TWO64 < x < TWO64
    ensures Wrap(x) == if x < -TWO63 then x + TWO64 else if x >= TWO63 then x - TWO64 else x
  {
  }
}

/** The instruction sequences for constants, operators and scalar builtins compute exactly
    what the interpreter computes, on every 64-bit input. */
module A64Idioms {
  import opened Words
  import opened Ir
  import opened A64Isa
  import opened A64Machine
  import opened ScalarMath

  /** The sequence ran to its end with `v` in `x0`, and left the stack and memory alone. */
  ghost predicate Yields(c: Cpu, o: Outcome, len: nat, v: int) {
    && o.Ran? && o.c.pc == c.pc + len && o.c.sp == c.sp && o.c.mem == c.mem && o.c.x[FP] == c.x[FP] && o.c.x[0] == v
  }

  // ---- Constants ----

  function Insert(u: nat, hw: nat): seq<Instr> {
    if Chunk(u, hw) != 0 then [MovK(0, Chunk(u, hw), hw)] else []
  }

  /** `movz` of the low chunk and a `movk` for every other chunk that is not zero. */
  function LoadImm(n: i64): seq<Instr> {
    var u := U64(n);
    [MovZ(0, Chunk(u, 0), 0)] + Insert(u, 1) + Insert(u, 2) + Insert(u, 3)
  }

  lemma NextPower(hw: nat)
    requires hw <= 3
    ensures Pow2(16 * (hw + 1)) == Pow2(16 * hw) * 0x1_0000
  {
    ChunkPowers();
    hide Pow2;
    assert 16 * (hw + 1) == 16 * hw + 16;
    Pow2Add(16 * hw, 16);
  }

  lemma ModSplit(u: nat, p: nat)
    requires p > 0
    ensures u % (p * 0x1_0000) == u % p + ((u / p) % 0x1_0000) * p
  {
    var q, r := u / p, u % p;
    var a, b := q / 0x1_0000, q % 0x1_0000;
    EuclidNat(u, p);
    assert p * q == (p * 0x1_0000) * a + p * b by {
      assert q == 0x1_0000 * a + b;
      assert p * (0x1_0000 * a + b) == p * (0x1_0000 * a) + p * b;
      assert p * (0x1_0000 * a) == (p * 0x1_0000) * a;
    }
    assert 0 <= p * b + r < p * 0x1_0000 by {
      MulLe(0, b, p);
      MulLe(b, 0xFFFF, p);
    }
    ModIs(u, p * 0x1_0000, a, p * b + r);
    assert b * p == p * b;
  }

  lemma ChunkPowers()
    ensures Pow2(0) == 1 && Pow2(16) == 0x1_0000 && Pow2(32) == 0x1_0000_0000
    ensures Pow2(48) == 0x1_0000_0000_0000 && Pow2(64) == TWO64
  {
    assert Pow2(8) == 256;
    assert Pow2(16) == 0x1_0000 by { Pow2Add(8, 8); }
    assert Pow2(32) == 0x1_0000_0000 by { Pow2Add(16, 16); }
    assert Pow2(48) == 0x1_0000_0000_0000 by { Pow2Add(32, 16); }
    Pow2Add(48, 16);
  }

  lemma U64Wrap(u: nat)
    requires u < TWO64
    ensures U64(Wrap(u)) == u
  {
    if u >= TWO63 {
      WrapUnique(u, u - TWO64);
    }
  }

  lemma WrapU64(n: i64)
    ensures Wrap(U64(n)) == n && U64(n) < TWO64
  {
    if n < 0 { WrapUnique(n + TWO64, n); }
  }

  /** One more chunk of the constant in place. */
  lemma InsertStep(c: Cpu, u: nat, hw: nat)
    requires 1 <= hw <= 3 && u < TWO64 && c.x[0] == Wrap(u % Pow2(16 * hw))
    ensures Yields(c, RunSeq(Insert(u, hw), c), |Insert(u, hw)|, Wrap(u % Pow2(16 * (hw + 1))))
  {
    ChunkPowers();
    var p := Pow2(16 * hw);
    var low := u % p;
    NextPower(hw);
    hide Pow2;
    ModSplit(u, p);
    assert low < p <= TWO64;
    assert low / p == 0 && Chunk(low, hw) == 0 by { ModIs(low, p, 0, low); }
    U64Wrap(low);
    if Chunk(u, hw) != 0 {
      var i := MovK(0, Chunk(u, hw), hw);
      assert PutChunk(low, hw, Chunk(u, hw)) == u % (p * 0x1_0000);
      RunOne(i, c);
    }
  }

  lemma RunOne(i: Instr, c: Cpu)
    ensures RunSeq([i], c) == Do(i, c)
  {
    hide Do;
    var o := Do(i, c);
    assert [i][1..] == [];
    if o.Ran? { assert RunSeq([], o.c) == o; }
  }

  lemma YieldsThen(a: seq<Instr>, b: seq<Instr>, c: Cpu, v: int, w: int)
    requires Yields(c, RunSeq(a, c), |a|, v) && Yields(RunSeq(a, c).c, RunSeq(b, RunSeq(a, c).c), |b|, w)
    ensures Yields(c, RunSeq(a + b, c), |a + b|, w)
  {
    hide RunSeq;
    RunSeqAppend(a, b, c);
  }

  lemma InsertAfter(a: seq<Instr>, u: nat, hw: nat, c: Cpu)
    requires 1 <= hw <= 3 && u < TWO64 && Yields(c, RunSeq(a, c), |a|, Wrap(u % Pow2(16 * hw)))
    ensures var b := a + Insert(u, hw); Yields(c, RunSeq(b, c), |b|, Wrap(u % Pow2(16 * (hw + 1))))
  {
    hide RunSeq, Insert, Pow2, Wrap;
    InsertStep(RunSeq(a, c).c, u, hw);
    YieldsThen(a, Insert(u, hw), c, Wrap(u % Pow2(16 * hw)), Wrap(u % Pow2(16 * (hw + 1))));
  }

  /** Any 64-bit constant is rebuilt exactly. */
  lemma LoadImmYields(n: i64, c: Cpu)
    ensures Yields(c, RunSeq(LoadImm(n), c), |LoadImm(n)|, n)
  {
    hide RunSeq, Insert, Yields, Pow2, Wrap;
    var u := U64(n);
    var a := [MovZ(0, Chunk(u, 0), 0)];
    WrapU64(n);
    LoadLow(u, c);
    InsertAfter(a, u, 1, c);
    InsertAfter(a + Insert(u, 1), u, 2, c);
    InsertAfter(a + Insert(u, 1) + Insert(u, 2), u, 3, c);
    assert u % Pow2(64) == u by { ChunkPowers(); ModIs(u, Pow2(64), 0, u); }
  }

  lemma LoadLow(u: nat, c: Cpu)
    ensures Yields(c, RunSeq([MovZ(0, Chunk(u, 0), 0)], c), 1, Wrap(u % Pow2(16)))
  {
    ChunkPowers();
    assert u / 1 == u;
    hide Pow2;
    RunOne(MovZ(0, Chunk(u, 0), 0), c);
  }

  // ---- Bitwise identities ----

  lemma {:induction false} XorZero(a: int, n: nat)
    requires -Pow2(n) <= a < Pow2(n)
    ensures Bitwise(XorBits, a, 0, n) == a
    decreases n
  {
    if n > 0 { XorZero(a / 2, n - 1); }
  }

  lemma {:induction false} XorOnes(a: int, n: nat)
    requires -Pow2(n) <= a < Pow2(n)
    ensures Bitwise(XorBits, a, -1, n) == -1 - a
    decreases n
  {
    if n > 0 {
      assert -1 / 2 == -1 && -1 % 2 == 1;
      XorOnes(a / 2, n - 1);
    }
  }

  lemma {:induction false} OrZero(a: int, n: nat)
    requires -Pow2(n) <= a < Pow2(n)
    ensures Bitwise(OrBits, 0, a, n) == a
    decreases n
  {
    if n > 0 { OrZero(a / 2, n - 1); }
  }

  /** `mov` is `orr` with the zero register. */
  lemma MovValue(a: i64)
    ensures AluValue(AOrr, 0, a) == a
  {
    hide Bitwise, Pow2;
    Pow2At63();
    OrZero(a, 63);
  }

  lemma SignMask(a: i64)
    ensures a / Pow2(63) == if a < 0 then -1 else 0
  {
    Pow2At63();
    if a < 0 { ModIs(a, TWO63, -1, a + TWO63); } else { ModIs(a, TWO63, 0, a); }
  }

  /** Sign mask, exclusive or, subtract: the magnitude, with `MIN` wrapping to itself. */
  lemma AbsValue(a: i64)
    ensures AluValue(ASub, AluValue(AEor, a, if a < 0 then -1 else 0), if a < 0 then -1 else 0) == Wrap(Abs(a))
  {
    hide Bitwise, Pow2;
    Pow2At63();
    XorZero(a, 63);
    XorOnes(a, 63);
  }

  lemma RunTwo(i: Instr, j: Instr, c: Cpu)
    requires Do(i, c).Ran?
    ensures RunSeq([i, j], c) == Do(j, Do(i, c).c)
  {
    hide Do;
    assert [i, j][1..] == [j];
    RunOne(j, Do(i, c).c);
  }

  lemma RunHead(i: Instr, rest: seq<Instr>, c: Cpu)
    requires Do(i, c).Ran?
    ensures RunSeq([i] + rest, c) == RunSeq(rest, Do(i, c).c)
  {
    hide Do;
    assert ([i] + rest)[1..] == rest;
  }

  // ---- Binary operators: left in x0, right in x1 ----

  /** The machine word of a scalar value. */
  function Word(v: Value): i64 {
    match v
    case I64(n) => n
    case Bool(b) => if b then 1 else 0
    case _ => 0
  }

  predicate IsArith(op: BinaryOp) {
    op.Add? || op.Subtract? || op.Multiply? || op.Divide? || op.BitAnd? || op.BitOr? || op.BitXor? || op.Shl? || op.Shr?
  }

  function ArithOp(op: BinaryOp): AluOp
    requires IsArith(op)
  {
    match op
    case Add => AAdd
    case Subtract => ASub
    case Multiply => AMul
    case Divide => ASDiv
    case BitAnd => AAnd
    case BitOr => AOrr
    case BitXor => AEor
    case Shl => ALslv
    case Shr => AAsrv
  }

  function CondOp(op: BinaryOp): Condition
    requires !IsArith(op) && op != Remainder && op != And && op != Or
  {
    match op
    case Equal => CEq
    case NotEqual => CNe
    case Less => CLt
    case LessEqual => CLe
    case Greater => CGt
    case GreaterEqual => CGe
  }

  function OpCode(op: BinaryOp): seq<Instr>
    requires op != And && op != Or
  {
    if IsArith(op) then [Alu(ArithOp(op), 0, 0, 1)]
    else if op == Remainder then [Alu(ASDiv, 2, 0, 1), MSub(0, 2, 1, 0)]
    else [Cmp(0, 1), CSet(0, CondOp(op))]
  }

  /** Equality compares values of one type. */
  predicate SameType(a: Value, b: Value) { (a.I64? && b.I64?) || (a.Bool? && b.Bool?) }

  lemma ArithValue(op: BinaryOp, a: i64, b: i64)
    requires IsArith(op) && EvalBinary(I64(a), op, I64(b)).Ok?
    ensures EvalBinary(I64(a), op, I64(b)) == Ok(I64(AluValue(ArithOp(op), a, b)))
  {
    hide Bits64, ShiftLeft, ShiftRight, WrappingDiv, Wrap;
  }

  lemma ArithYields(op: BinaryOp, a: i64, b: i64, c: Cpu)
    requires IsArith(op) && c.x[0] == a && c.x[1] == b && EvalBinary(I64(a), op, I64(b)).Ok?
    ensures Yields(c, RunSeq(OpCode(op), c), |OpCode(op)|, Word(EvalBinary(I64(a), op, I64(b)).value))
  {
    hide AluValue, EvalBinary;
    ArithValue(op, a, b);
    RunOne(Alu(ArithOp(op), 0, 0, 1), c);
  }

  /** The truncated remainder, `MIN` by `-1` included. */
  lemma RemainderValue(a: i64, b: i64)
    requires b != 0
    ensures Wrap(a - AluValue(ASDiv, a, b) * b) == WrappingRem(a, b)
  {
    QuotientIs(a, b);
    var q, r := TruncDiv(a, b), TruncRem(a, b);
    TruncDivRem(a, b);
    assert WrappingRem(a, b) == r;
    hide TruncDiv, TruncRem, WrappingRem, AluValue;
    TakenBack(a, b, q, r);
    WrapUnique(r, WrappingRem(a, b)) by { ModIs(0, TWO64, 0, 0); }
  }

  /** A quotient that wrapped gives the remainder's residue all the same. */
  lemma TakenBack(a: int, b: int, q: int, r: int)
    requires a == b * q + r
    ensures Wrap(a - Wrap(q) * b) == Wrap(r)
  {
    var w := Wrap(q);
    var k := (q - w) / TWO64;
    assert q - w == TWO64 * k;
    hide Wrap;
    assert a - w * b == r + TWO64 * (k * b) by {
      assert b * q - w * b == (q - w) * b;
      assert (TWO64 * k) * b == TWO64 * (k * b);
    }
    SameClass(a - w * b, r, k * b);
  }

  lemma QuotientIs(a: i64, b: i64)
    requires b != 0
    ensures AluValue(ASDiv, a, b) == Wrap(TruncDiv(a, b))
  {
  }

  /** What `msub` leaves. */
  function Msub(a: i64, q: i64, b: i64): i64 { Wrap(a - q * b) }

  lemma RemainderYields(a: i64, b: i64, c: Cpu)
    requires c.x[0] == a && c.x[1] == b && b != 0
    ensures Yields(c, RunSeq(OpCode(Remainder), c), |OpCode(Remainder)|, WrappingRem(a, b))
  {
    var q := AluValue(ASDiv, a, b);
    assert Msub(a, q, b) == WrappingRem(a, b) by { RemainderValue(a, b); }
    hide AluValue, WrappingRem, RunSeq, Msub, Wrap;
    DivideRuns(a, b, c);
    MultiplyBackRuns(a, b, q, Do(Alu(ASDiv, 2, 0, 1), c).c);
    hide Do;
    RunTwo(Alu(ASDiv, 2, 0, 1), MSub(0, 2, 1, 0), c);
  }

  lemma DivideRuns(a: i64, b: i64, c: Cpu)
    requires c.x[0] == a && c.x[1] == b
    ensures Do(Alu(ASDiv, 2, 0, 1), c) == Ran(Regs3(c, c.x[2 := AluValue(ASDiv, a, b)], 1))
  {
    hide AluValue;
  }

  lemma MultiplyBackRuns(a: i64, b: i64, q: i64, c: Cpu)
    requires c.x[0] == a && c.x[1] == b && c.x[2] == q
    ensures Do(MSub(0, 2, 1, 0), c) == Ran(Regs3(c, c.x[0 := Msub(a, q, b)], 1))
  {
    hide Wrap;
  }

  lemma RemainderIs(a: i64, b: i64)
    requires EvalBinary(I64(a), Remainder, I64(b)).Ok?
    ensures b != 0 && EvalBinary(I64(a), Remainder, I64(b)).value == I64(WrappingRem(a, b))
  {
    hide WrappingRem;
  }

  lemma CompareYields(op: BinaryOp, a: i64, b: i64, c: Cpu)
    requires !IsArith(op) && op != Remainder && op != And && op != Or && c.x[0] == a && c.x[1] == b
    ensures Yields(c, RunSeq(OpCode(op), c), |OpCode(op)|, if Holds(A64Machine.Compare(c, a, b), CondOp(op)) then 1 else 0)
  {
    RunTwo(Cmp(0, 1), CSet(0, CondOp(op)), c);
  }

  lemma ComparedWords(op: BinaryOp, l: Value, r: Value, c: Cpu)
    requires !IsArith(op) && op != Remainder && op != And && op != Or && SameType(l, r) && EvalBinary(l, op, r).Ok?
    ensures Word(EvalBinary(l, op, r).value) == if Holds(A64Machine.Compare(c, Word(l), Word(r)), CondOp(op)) then 1 else 0
  {
    ComparisonHolds(c, Word(l), Word(r));
    hide Holds, A64Machine.Compare;
  }

  /** Whenever the interpreter finds a value for a strict operator, its code leaves the same
      value in `x0`. */
  lemma OpYields(l: Value, op: BinaryOp, r: Value, c: Cpu)
    requires op != And && op != Or && SameType(l, r) && EvalBinary(l, op, r).Ok?
    requires c.x[0] == Word(l) && c.x[1] == Word(r)
    ensures Yields(c, RunSeq(OpCode(op), c), |OpCode(op)|, Word(EvalBinary(l, op, r).value))
  {
    hide RunSeq, OpCode, Yields, WrappingDiv, WrappingRem, Bits64, ShiftLeft, ShiftRight, Wrap, A64Machine.Compare, Holds;
    if IsArith(op) {
      ArithYields(op, l.n, r.n, c);
    } else if op == Remainder {
      assert EvalBinary(I64(l.n), Remainder, I64(r.n)).Ok?;
      RemainderIs(l.n, r.n);
      RemainderYields(l.n, r.n, c);
    } else {
      CompareYields(op, Word(l), Word(r), c);
      ComparedWords(op, l, r, c);
    }
  }

  // ---- Unary operators ----

  function UnaryCode(op: UnaryOp): seq<Instr> {
    match op
    case Not => [CmpZero(0), CSet(0, CEq)]
    case BitNot => [Mvn(0, 0)]
    case Negate => [Alu(ASub, 0, XZR, 0)]
  }

  lemma UnaryYields(op: UnaryOp, v: Value, c: Cpu)
    requires c.x[0] == Word(v) && EvalUnary(op, v).Ok?
    ensures Yields(c, RunSeq(UnaryCode(op), c), |UnaryCode(op)|, Word(EvalUnary(op, v).value))
  {
    hide Yields, RunSeq, Words.BitNot, Wrap, Holds, A64Machine.Compare;
    match op
    case Not => NotYields(v.b, c);
    case BitNot => InvertYields(v.n, c);
    case Negate => NegateYields(v.n, c);
  }

  lemma NotYields(b: bool, c: Cpu)
    requires c.x[0] == Word(Bool(b))
    ensures Yields(c, RunSeq(UnaryCode(Not), c), 2, Word(Bool(!b)))
  {
    RunTwo(CmpZero(0), CSet(0, CEq), c);
    hide RunSeq;
  }

  lemma InvertYields(n: i64, c: Cpu)
    requires c.x[0] == n
    ensures Yields(c, RunSeq(UnaryCode(BitNot), c), 1, Words.BitNot(n))
  {
    RunOne(Mvn(0, 0), c);
    hide RunSeq, Words.BitNot;
  }

  lemma NegateYields(n: i64, c: Cpu)
    requires c.x[0] == n
    ensures Yields(c, RunSeq(UnaryCode(Negate), c), 1, Wrap(0 - n))
  {
    RunOne(Alu(ASub, 0, XZR, 0), c);
    hide RunSeq, Wrap;
  }

  /** `cmp x0, #0; cset x0, ne`: the word of a boolean is kept. */
  function TruthCode(): seq<Instr> { [CmpZero(0), CSet(0, CNe)] }

  lemma TruthYields(b: bool, c: Cpu)
    requires c.x[0] == Word(Bool(b))
    ensures Yields(c, RunSeq(TruthCode(), c), 2, Word(Bool(b)))
  {
    RunTwo(CmpZero(0), CSet(0, CNe), c);
  }

  // ---- The scalar builtins ----

  /** Registers change, nothing else does. */
  function Regs3(c: Cpu, x: Regs, len: nat): Cpu { c.(x := x, pc := c.pc + len) }

  function AbsCode(reg: Reg, tmp: Reg): seq<Instr> {
    [AsrImm(tmp, reg, 63)] + [Alu(AEor, reg, reg, tmp), Alu(ASub, reg, reg, tmp)]
  }

  function SignOf(a: i64): i64 { if a < 0 then -1 else 0 }

  lemma AbsRuns(reg: Reg, tmp: Reg, a: i64, c: Cpu)
    requires reg < 29 && tmp < 29 && reg != tmp && c.x[reg] == a
    ensures RunSeq(AbsCode(reg, tmp), c) == Ran(Regs3(c, c.x[tmp := SignOf(a)][reg := Wrap(Abs(a))], 3))
  {
    hide RunSeq, AluValue, Wrap, Do;
    var i, j, k := AsrImm(tmp, reg, 63), Alu(AEor, reg, reg, tmp), Alu(ASub, reg, reg, tmp);
    ShiftRuns(reg, tmp, a, c);
    RunHead(i, [j, k], c);
    var d := Do(i, c).c;
    AbsTail(reg, tmp, a, d);
    assert d.x[reg := Wrap(Abs(a))] == c.x[tmp := SignOf(a)][reg := Wrap(Abs(a))];
  }

  lemma ShiftRuns(reg: Reg, tmp: Reg, a: i64, c: Cpu)
    requires reg < 29 && tmp < 29 && reg != tmp && c.x[reg] == a
    ensures Do(AsrImm(tmp, reg, 63), c) == Ran(Regs3(c, c.x[tmp := SignOf(a)], 1))
  {
    SignMask(a);
    hide Pow2;
  }

  lemma AbsTail(reg: Reg, tmp: Reg, a: i64, d: Cpu)
    requires reg < 29 && tmp < 29 && reg != tmp && d.x[reg] == a && d.x[tmp] == SignOf(a)
    ensures RunSeq([Alu(AEor, reg, reg, tmp), Alu(ASub, reg, reg, tmp)], d) == Ran(Regs3(d, d.x[reg := Wrap(Abs(a))], 2))
  {
    AbsValue(a);
    hide AluValue;
    RunTwo(Alu(AEor, reg, reg, tmp), Alu(ASub, reg, reg, tmp), d);
    assert d.x[reg := AluValue(AEor, a, SignOf(a))][reg := Wrap(Abs(a))] == d.x[reg := Wrap(Abs(a))];
  }

  function SignCode(): seq<Instr> { [CmpZero(0), CSet(1, CGt)] + [CSet(2, CLt), Alu(ASub, 0, 1, 2)] }

  lemma SignYields(a: i64, c: Cpu)
    requires c.x[0] == a
    ensures Yields(c, RunSeq(SignCode(), c), 4, Sign(a))
  {
    ComparisonHolds(c, a, 0);
    RunTwo(CmpZero(0), CSet(1, CGt), c);
    var d := RunSeq([CmpZero(0), CSet(1, CGt)], c).c;
    RunSeqAppend([CmpZero(0), CSet(1, CGt)], [CSet(2, CLt), Alu(ASub, 0, 1, 2)], c);
    RunTwo(CSet(2, CLt), Alu(ASub, 0, 1, 2), d);
  }

  /** Left in x1, right in x0. */
  function PickCode(cond: Condition): seq<Instr> { [Cmp(1, 0), CSel(0, 1, 0, cond)] }

  lemma PickYields(a: i64, b: i64, c: Cpu)
    requires c.x[1] == a && c.x[0] == b
    ensures Yields(c, RunSeq(PickCode(CLt), c), 2, Min(a, b)) && Yields(c, RunSeq(PickCode(CGt), c), 2, Max(a, b))
  {
    ComparisonHolds(c, a, b);
    RunTwo(Cmp(1, 0), CSel(0, 1, 0, CLt), c);
    RunTwo(Cmp(1, 0), CSel(0, 1, 0, CGt), c);
  }

  /** `x` in x2, `lo` in x1, `hi` in x0. */
  function ClampCode(): seq<Instr> {
    [Mov(3, 2)] + [Cmp(2, 0), CSel(3, 0, 3, CGt)] + [Cmp(2, 1), CSel(3, 1, 3, CLt)] + [Mov(0, 3)]
  }

  /** One guarded replacement of x3. */
  lemma GuardRuns(r: Reg, cond: Condition, c: Cpu, x: i64, y: i64)
    requires r < 2 && c.x[2] == x && c.x[r] == y
    ensures var o := RunSeq([Cmp(2, r), CSel(3, r, 3, cond)], c);
            && o.Ran? && o.c.x == c.x[3 := if Holds(A64Machine.Compare(c, x, y), cond) then y else c.x[3]]
            && o.c.pc == c.pc + 2 && o.c.sp == c.sp && o.c.mem == c.mem
  {
    RunTwo(Cmp(2, r), CSel(3, r, 3, cond), c);
  }

  lemma MovRuns(rd: Reg, rm: Reg, a: i64, c: Cpu)
    requires rd < 29 && rm < 29 && c.x[rm] == a
    ensures RunSeq([Mov(rd, rm)], c) == Ran(Regs3(c, c.x[rd := a], 1)) && Do(Mov(rd, rm), c) == Ran(Regs3(c, c.x[rd := a], 1))
  {
    MovValue(a);
    hide AluValue;
    RunOne(Mov(rd, rm), c);
  }

  lemma ClampYields(x: i64, lo: i64, hi: i64, c: Cpu)
    requires c.x[2] == x && c.x[1] == lo && c.x[0] == hi
    ensures Yields(c, RunSeq(ClampCode(), c), 6, Clamp(x, lo, hi))
  {
    hide RunSeq, Holds, A64Machine.Compare;
    var p, q, r, s := [Mov(3, 2)], [Cmp(2, 0), CSel(3, 0, 3, CGt)], [Cmp(2, 1), CSel(3, 1, 3, CLt)], [Mov(0, 3)];
    MovRuns(3, 2, x, c);
    var c1 := RunSeq(p, c).c;
    GuardRuns(0, CGt, c1, x, hi);
    ComparisonHolds(c1, x, hi);
    var c2 := RunSeq(q, c1).c;
    GuardRuns(1, CLt, c2, x, lo);
    ComparisonHolds(c2, x, lo);
    var c3 := RunSeq(r, c2).c;
    MovRuns(0, 3, Clamp(x, lo, hi), c3);
    RunSeqAppend(p, q, c);
    RunSeqAppend(p + q, r, c);
    RunSeqAppend(p + q + r, s, c);
  }

  // ---- The Euclid loop ----

  function EuclidLoop(): seq<Instr> {
    [Cbz(0, 6), Alu(AUDiv, 2, 1, 0), MSub(3, 2, 0, 1), Mov(1, 0), Mov(0, 3), B(-5), Mov(0, 1)]
  }

  lemma UnsignedRemainder(x: nat, y: nat)
    requires x < TWO64 && 0 < y < TWO64
    ensures AluValue(AUDiv, Wrap(x), Wrap(y)) == Wrap(x / y)
    ensures Wrap(Wrap(x) - Wrap(x / y) * Wrap(y)) == Wrap(x % y)
  {
    U64Wrap(x);
    U64Wrap(y);
    EuclidNat(x, y);
    var a, q, b := Wrap(x), Wrap(x / y), Wrap(y);
    var i, j, k := (x - a) / TWO64, (x / y - q) / TWO64, (y - b) / TWO64;
    assert x == a + TWO64 * i && x / y == q + TWO64 * j && y == b + TWO64 * k;
    assert Wrap(x % y) == Wrap(a - q * b) by {
      hide Wrap;
      CongruentProduct(q, b, j, k, x / y, y);
      var m := j * b + k * q + TWO64 * (j * k);
      assert x % y == a - q * b + TWO64 * (i - m);
      SameClass(x % y, a - q * b, i - m);
    }
  }

  lemma CongruentProduct(q: int, b: int, j: int, k: int, q': int, b': int)
    requires q' == q + TWO64 * j && b' == b + TWO64 * k
    ensures b' * q' == q * b + TWO64 * (j * b + k * q + TWO64 * (j * k))
  {
    assert b' * q' == b * q' + TWO64 * k * q';
    assert b * q' == b * q + b * (TWO64 * j);
    assert TWO64 * k * q' == TWO64 * k * q + TWO64 * k * (TWO64 * j);
    assert b * (TWO64 * j) == TWO64 * (j * b);
    assert TWO64 * k * q == TWO64 * (k * q);
    assert TWO64 * k * (TWO64 * j) == TWO64 * (TWO64 * (j * k));
  }

  lemma SameClass(x: int, y: int, n: int)
    requires x == y + TWO64 * n
    ensures Wrap(x) == Wrap(y)
  {
    var m := (y - Wrap(y)) / TWO64;
    assert y - Wrap(y) == TWO64 * m;
    ModIs(x - Wrap(y), TWO64, n + m, 0);
    WrapUnique(x, Wrap(y));
  }

  /** One turn of the loop body, after the test. */
  lemma GcdTurn(x: nat, y: nat, c: Cpu)
    requires x < TWO64 && 0 < y < TWO64 && c.x[1] == Wrap(x) && c.x[0] == Wrap(y)
    ensures var o := RunSeq(TurnCode(), c);
            && o.Ran? && o.c.x[1] == Wrap(y) && o.c.x[0] == Wrap(x % y) && o.c.x[FP] == c.x[FP]
            && o.c.pc == c.pc + 4 && o.c.sp == c.sp && o.c.mem == c.mem
  {
    UnsignedRemainder(x, y);
    EuclidNat(x, y);
    hide AluValue;
    RunTwo(Alu(AUDiv, 2, 1, 0), MSub(3, 2, 0, 1), c);
    var d := RunSeq([Alu(AUDiv, 2, 1, 0), MSub(3, 2, 0, 1)], c).c;
    assert d.x[1] == Wrap(x) && d.x[0] == Wrap(y) && d.x[3] == Wrap(x % y);
    RunSeqAppend([Alu(AUDiv, 2, 1, 0), MSub(3, 2, 0, 1)], [Mov(1, 0), Mov(0, 3)], c);
    hide Wrap;
    MovRuns(1, 0, Wrap(y), d);
    var e := Do(Mov(1, 0), d).c;
    MovRuns(0, 3, Wrap(x % y), e);
    RunTwo(Mov(1, 0), Mov(0, 3), d);
  }

  function TurnCode(): seq<Instr> { [Alu(AUDiv, 2, 1, 0), MSub(3, 2, 0, 1)] + [Mov(1, 0), Mov(0, 3)] }

  lemma EuclidParts(code: seq<Instr>, pc: int)
    requires CodeAt(code, pc, EuclidLoop())
    ensures 0 <= pc && pc + 7 <= |code| && code[pc] == Cbz(0, 6) && CodeAt(code, pc + 1, TurnCode())
    ensures code[pc + 5] == B(-5) && CodeAt(code, pc + 6, [Mov(0, 1)])
  {
    var p := [Cbz(0, 6)] + TurnCode() + [B(-5)];
    assert EuclidLoop() == p + [Mov(0, 1)];
    CodeSplit(code, pc, p, [Mov(0, 1)]);
    CodeSplit(code, pc, [Cbz(0, 6)] + TurnCode(), [B(-5)]);
    CodeSplit(code, pc, [Cbz(0, 6)], TurnCode());
    CodeHead(code, pc, Cbz(0, 6));
    CodeHead(code, pc + 5, B(-5));
  }

  /** Leaving the loop. */
  lemma EuclidDone(code: seq<Instr>, x: nat, c: Cpu)
    requires CodeAt(code, c.pc, EuclidLoop()) && c.x[1] == Wrap(x) && c.x[0] == 0
    ensures Yields(c, Exec(code, c, 2), 7, Wrap(x))
  {
    hide Wrap, RunSeq, AluValue;
    EuclidParts(code, c.pc);
    var d := c.(pc := c.pc + 6);
    assert Step(code, c) == Ran(d);
    MovRuns(0, 1, Wrap(x), d);
    SeqExec(code, d, [Mov(0, 1)]);
    ExecOne(code, c, d);
    ExecThen(code, c, 1, d, 1);
  }

  /** Once around. */
  lemma EuclidTurn(code: seq<Instr>, x: nat, y: nat, c: Cpu) returns (d: Cpu)
    requires CodeAt(code, c.pc, EuclidLoop()) && x < TWO64 && 0 < y < TWO64 && c.x[1] == Wrap(x) && c.x[0] == Wrap(y)
    ensures Exec(code, c, 6) == Ran(d) && d.x[1] == Wrap(y) && d.x[0] == Wrap(x % y)
    ensures d.x[FP] == c.x[FP] && d.pc == c.pc && d.sp == c.sp && d.mem == c.mem
  {
    hide RunSeq, AluValue, Exec;
    EuclidParts(code, c.pc);
    WordIsZero(y);
    hide Wrap;
    var t := c.(pc := c.pc + 1);
    assert Step(code, c) == Ran(t);
    ExecOne(code, c, t);
    GcdTurn(x, y, t);
    SeqExec(code, t, TurnCode());
    var e := RunSeq(TurnCode(), t).c;
    ExecThen(code, c, 1, t, 4);
    d := e.(pc := c.pc);
    assert Step(code, e) == Ran(d);
    ExecOne(code, e, d);
    ExecThen(code, c, 5, e, 1);
  }

  /** The unsigned loop ends, with the greatest common divisor of the two words it was given. */
  lemma {:induction false} EuclidRuns(code: seq<Instr>, x: nat, y: nat, c: Cpu) returns (n: nat)
    requires CodeAt(code, c.pc, EuclidLoop()) && x < TWO64 && y < TWO64 && c.x[1] == Wrap(x) && c.x[0] == Wrap(y)
    ensures Yields(c, Exec(code, c, n), 7, Wrap(Gcd(x, y)))
    decreases y
  {
    hide CodeAt, EuclidLoop, Exec;
    if y == 0 {
      EuclidDone(code, x, c);
      n := 2;
    } else {
      hide Wrap;
      var d := EuclidTurn(code, x, y, c);
      EuclidNat(x, y);
      var m := EuclidRuns(code, y, x % y, d);
      ExecThen(code, c, 6, d, m);
      n := 6 + m;
    }
  }

  lemma ExecOne(code: seq<Instr>, c: Cpu, d: Cpu)
    requires Step(code, c) == Ran(d)
    ensures Exec(code, c, 1) == Ran(d)
  {
    assert Exec(code, d, 0) == Ran(d);
  }

  lemma WordIsZero(y: nat)
    requires y < TWO64
    ensures Wrap(y) == 0 <==> y == 0
  {
    U64Wrap(y);
  }

  /** Both magnitudes, then the loop: x1 and x0 hold the arguments. */
  function GcdCode(): seq<Instr> { AbsCode(1, 2) + AbsCode(0, 2) + EuclidLoop() }

  lemma GcdRuns(code: seq<Instr>, a: i64, b: i64, c: Cpu) returns (n: nat)
    requires CodeAt(code, c.pc, GcdCode()) && c.x[1] == a && c.x[0] == b
    ensures Yields(c, Exec(code, c, n), |GcdCode()|, GcdI64(a, b))
  {
    hide RunSeq, Exec, Wrap;
    var p := AbsCode(1, 2) + AbsCode(0, 2);
    CodeSplit(code, c.pc, p, EuclidLoop());
    AbsRuns(1, 2, a, c);
    var d := RunSeq(AbsCode(1, 2), c).c;
    AbsRuns(0, 2, b, d);
    RunSeqAppend(AbsCode(1, 2), AbsCode(0, 2), c);
    var e := RunSeq(p, c).c;
    assert forall i :: i in p ==> Straight(i);
    SeqExec(code, c, p);
    var m := EuclidRuns(code, Abs(a), Abs(b), e);
    ExecThen(code, c, 6, e, m);
    n := 6 + m;
  }
}

/** Forward simulation of expressions: their code leaves the interpreter's value in `x0`. */
module A64Exprs {
  import opened Words
  import opened Ir
  import opened Eval
  import opened ScalarMath
  import opened A64Isa
  import opened A64Machine
  import opened A64Idioms
  import opened A64Gen
  import opened A64Typing

  /** A function's code, its first instruction at `base`, among everything it can call; it calls
      only `callable`. */
  datatype World = World(code: seq<Instr>, base: int, g: Gen, callable: set<string>, sigs: map<string, Sig>, cfg: Cfg)

  // ---- Memory ----

  /** Nothing at or above `a` changed. */
  ghost predicate Above(m: map<int, int>, m': map<int, int>, a: int) {
    forall b :: a <= b ==> Load(m', b) == Load(m, b)
  }

  lemma AboveTrans(m: map<int, int>, m1: map<int, int>, m2: map<int, int>, a: int, b: int)
    requires Above(m, m1, a) && Above(m1, m2, b) && b <= a
    ensures Above(m, m2, a)
  {
    forall x | a <= x ensures Load(m2, x) == Load(m, x) {
      assert Load(m1, x) == Load(m, x);
    }
  }

  /** Each binding is typed and its slot holds its word. */
  ghost predicate MatchScope(scope: map<string, Value>, ts: map<string, Ty>, slots: map<string, nat>, m: map<int, int>, fp: int) {
    && scope.Keys == ts.Keys
    && forall x :: x in scope ==> x in slots && HasType(scope[x], ts[x]) && Load(m, fp + 8 * slots[x]) == Word(scope[x])
  }

  ghost predicate Match(env: Env, ts: Types, slots: map<string, nat>, m: map<int, int>, fp: int) {
    |env| == |ts| && forall k :: 0 <= k < |env| ==> MatchScope(env[k], ts[k], slots, m, fp)
  }

  lemma MatchAbove(env: Env, ts: Types, slots: map<string, nat>, m: map<int, int>, m': map<int, int>, fp: int)
    requires Match(env, ts, slots, m, fp) && Above(m, m', fp)
    ensures Match(env, ts, slots, m', fp)
  {
    forall k | 0 <= k < |env| ensures MatchScope(env[k], ts[k], slots, m', fp) {
      assert MatchScope(env[k], ts[k], slots, m, fp);
    }
  }

  lemma MatchLookup(env: Env, ts: Types, slots: map<string, nat>, m: map<int, int>, fp: int, x: string)
    requires Match(env, ts, slots, m, fp)
    ensures Nearest(env, x) == Nearest(ts, x)
    ensures Nearest(env, x).Some? ==>
              && x in slots && HasType(Lookup(env, x).value, Lookup(ts, x).value)
              && Load(m, fp + 8 * slots[x]) == Word(Lookup(env, x).value)
  {
    match Nearest(env, x)
    case Some(k) =>
      assert MatchScope(env[k], ts[k], slots, m, fp);
      forall j | k < j < |ts| ensures x !in ts[j] { assert MatchScope(env[j], ts[j], slots, m, fp); }
      NearestIs(ts, x, k);
    case None =>
      forall j | 0 <= j < |ts| ensures x !in ts[j] { assert MatchScope(env[j], ts[j], slots, m, fp); }
  }

  // ---- Calls ----

  predicate ArgsIn(c: Cpu, vs: seq<Value>) {
    |vs| <= 8 && forall i :: 0 <= i < |vs| ==> c.x[i] == Word(vs[i])
  }

  /** What a caller sees of a call made with `c`. */
  ghost predicate Answered(c: Cpu, d: Cpu, v: Value) {
    d.pc == d.x[LR] == c.x[LR] && d.sp == c.sp && d.x[FP] == c.x[FP] && d.x[0] == Word(v) && Above(c.mem, d.mem, c.sp)
  }

  ghost predicate Returns(code: seq<Instr>, c: Cpu, v: Value) {
    exists n, d :: Exec(code, c, n) == Ran(d) && Answered(c, d, v)
  }

  /** A call of a generated function: whenever the interpreter gets a value, the code at its
      entry returns that value. */
  ghost predicate CallWorks(w: World, f: string, vs: seq<Value>) {
    f in w.callable && !Inlined(f, |vs|) && f in w.sigs && AllTyped(vs, w.sigs[f].params) && w.cfg.call(f, vs).Ok? ==>
      && f in w.g.entries && HasType(w.cfg.call(f, vs).value, w.sigs[f].result)
      && forall c: Cpu :: c.pc == w.base + w.g.entries[f] && c.sp % 16 == 0 && ArgsIn(c, vs) ==>
           Returns(w.code, c, w.cfg.call(f, vs).value)
  }

  ghost predicate CallsWork(w: World) { forall f, vs :: CallWorks(w, f, vs) }

  ghost predicate BuiltinsWork(c: Cfg) {
    forall f, vs :: Arity(f).Some? ==> c.call(f, vs) == Builtin(f, vs)
  }

  // ---- Runs ----

  /** The value is in `x0`; the stack pointer, the frame pointer and the stack's contents are
      what they were. */
  ghost predicate Computes(code: seq<Instr>, c: Cpu, len: nat, v: Value, n: nat, d: Cpu) {
    && Exec(code, c, n) == Ran(d) && d.pc == c.pc + len && d.sp == c.sp && d.x[FP] == c.x[FP]
    && d.x[0] == Word(v) && Above(c.mem, d.mem, c.sp)
  }

  ghost predicate Ready(w: World, env: Env, ts: Types, c: Cpu) {
    && CallsWork(w) && BuiltinsWork(w.cfg) && Match(env, ts, w.g.slots, c.mem, c.x[FP])
    && c.sp % 16 == 0 && c.x[FP] % 16 == 0 && c.sp <= c.x[FP]
  }

  lemma YieldsComputes(code: seq<Instr>, c: Cpu, part: seq<Instr>, v: Value)
    requires CodeAt(code, c.pc, part) && (forall i :: i in part ==> Straight(i)) && Yields(c, RunSeq(part, c), |part|, Word(v))
    ensures Computes(code, c, |part|, v, |part|, RunSeq(part, c).c)
  {
    hide RunSeq, CodeAt, Straight;
    SeqExec(code, c, part);
  }

  /** One computation after another that only moved the program counter on. */
  lemma ComputesAfter(code: seq<Instr>, c: Cpu, k: nat, c1: Cpu, len: nat, v: Value, n: nat, d: Cpu, total: nat)
    requires Exec(code, c, k) == Ran(c1) && c1.sp == c.sp && c1.x[FP] == c.x[FP] && Above(c.mem, c1.mem, c.sp)
    requires Computes(code, c1, len, v, n, d) && c1.pc + len == c.pc + total
    ensures Computes(code, c, total, v, k + n, d)
  {
    hide Above, Exec;
    ExecThen(code, c, k, c1, n);
    AboveTrans(c.mem, c1.mem, d.mem, c.sp, c.sp);
  }

  /** A branch or a single instruction. */
  lemma One(code: seq<Instr>, c: Cpu, i: Instr, d: Cpu)
    requires CodeAt(code, c.pc, [i]) && Do(i, c) == Ran(d)
    ensures Exec(code, c, 1) == Ran(d)
  {
    hide Do;
    CodeHead(code, c.pc, i);
    ExecOne(code, c, d);
  }

  // ---- Pushing and combining ----

  function Pushed(c: Cpu): Cpu { c.(mem := c.mem[c.sp - 16 := c.x[0]], sp := c.sp - 16, pc := c.pc + 1) }

  lemma PushRuns(code: seq<Instr>, c: Cpu)
    requires CodeAt(code, c.pc, [Push(0)]) && c.sp % 16 == 0
    ensures Exec(code, c, 1) == Ran(Pushed(c)) && Above(c.mem, Pushed(c).mem, c.sp)
    ensures Load(Pushed(c).mem, c.sp - 16) == c.x[0]
  {
    hide CodeAt;
    One(code, c, Push(0), Pushed(c));
  }

  lemma ReadyAfter(w: World, env: Env, ts: Types, c: Cpu, d: Cpu)
    requires Ready(w, env, ts, c) && Above(c.mem, d.mem, c.sp) && d.x[FP] == c.x[FP] && d.sp % 16 == 0 && d.sp <= c.sp
    ensures Ready(w, env, ts, d)
  {
    hide Match, CallsWork, BuiltinsWork;
    AboveLess(c.mem, d.mem, c.sp, c.x[FP]);
    MatchAbove(env, ts, w.g.slots, c.mem, d.mem, c.x[FP]);
  }

  lemma AboveLess(m: map<int, int>, m': map<int, int>, a: int, b: int)
    requires Above(m, m', a) && a <= b
    ensures Above(m, m', b)
  {
  }

  lemma StrictParts(code: seq<Instr>, pc: int, op: BinaryOp, lc: seq<Instr>, rc: seq<Instr>)
    requires op != And && op != Or && CodeAt(code, pc, StrictCode(op, lc, rc))
    ensures CodeAt(code, pc, lc) && CodeAt(code, pc + |lc|, [Push(0)]) && CodeAt(code, pc + |lc| + 1, rc)
    ensures CodeAt(code, pc + |lc| + 1 + |rc|, [Mov(1, 0), Pop(0)]) && CodeAt(code, pc + |lc| + 3 + |rc|, OpCode(op))
  {
    hide CodeAt, OpCode;
    var q, s := [Mov(1, 0), Pop(0)], OpCode(op);
    CodeSplit(code, pc, lc + [Push(0)] + rc + q, s);
    CodeSplit(code, pc, lc + [Push(0)] + rc, q);
    CodeSplit(code, pc, lc + [Push(0)], rc);
    CodeSplit(code, pc, lc, [Push(0)]);
  }

  /** The pushed left operand comes back into `x0`, the right one moves to `x1`. */
  lemma SwapRuns(code: seq<Instr>, l: Value, r: Value, c: Cpu) returns (d: Cpu)
    requires CodeAt(code, c.pc, [Mov(1, 0), Pop(0)]) && c.sp % 16 == 0
    requires Load(c.mem, c.sp) == Word(l) && c.x[0] == Word(r)
    ensures Exec(code, c, 2) == Ran(d) && d.x[0] == Word(l) && d.x[1] == Word(r) && d.pc == c.pc + 2
    ensures d.sp == c.sp + 16 && d.mem == c.mem && d.x[FP] == c.x[FP]
  {
    MovRuns(1, 0, Word(r), c);
    hide AluValue, Exec;
    var e := Do(Mov(1, 0), c).c;
    RunTwo(Mov(1, 0), Pop(0), c);
    d := Do(Pop(0), e).c;
    assert forall i :: i in [Mov(1, 0), Pop(0)] ==> Straight(i);
    SeqExec(code, c, [Mov(1, 0), Pop(0)]);
  }

  lemma OpStraight(op: BinaryOp)
    requires op != And && op != Or
    ensures forall i :: i in OpCode(op) ==> Straight(i)
  {
  }

  /** From the left operand pushed and the right one computed to the result. */
  lemma CombineRuns(code: seq<Instr>, op: BinaryOp, l: Value, r: Value, c: Cpu) returns (n: nat, d: Cpu)
    requires op != And && op != Or && SameType(l, r) && EvalBinary(l, op, r).Ok? && c.sp % 16 == 0
    requires CodeAt(code, c.pc, [Mov(1, 0), Pop(0)]) && CodeAt(code, c.pc + 2, OpCode(op))
    requires Load(c.mem, c.sp) == Word(l) && c.x[0] == Word(r)
    ensures Exec(code, c, n) == Ran(d) && d.pc == c.pc + 2 + |OpCode(op)| && d.sp == c.sp + 16 && d.x[FP] == c.x[FP]
    ensures d.x[0] == Word(EvalBinary(l, op, r).value) && d.mem == c.mem
  {
    hide EvalBinary, OpCode, RunSeq, Exec, CodeAt, Word;
    var e := SwapRuns(code, l, r, c);
    OpYields(l, op, r, e);
    OpStraight(op);
    SeqExec(code, e, OpCode(op));
    n := 2 + |OpCode(op)|;
    d := RunSeq(OpCode(op), e).c;
    ExecThen(code, c, 2, e, |OpCode(op)|);
  }

  /** What happens to a left operand's word once it has been computed in `c1`: pushed, kept
      while the right operand runs to `c3`, and combined. */
  lemma StrictRuns(code: seq<Instr>, op: BinaryOp, l: Value, r: Value, lc: seq<Instr>, rc: seq<Instr>,
                   c: Cpu, n1: nat, c1: Cpu, n2: nat, c3: Cpu) returns (n: nat, d: Cpu)
    requires op != And && op != Or && CodeAt(code, c.pc, StrictCode(op, lc, rc)) && c.sp % 16 == 0
    requires SameType(l, r) && EvalBinary(l, op, r).Ok?
    requires Computes(code, c, |lc|, l, n1, c1) && Computes(code, Pushed(c1), |rc|, r, n2, c3)
    ensures Computes(code, c, |lc| + |rc| + 3 + |OpCode(op)|, EvalBinary(l, op, r).value, n, d)
  {
    hide EvalBinary, OpCode, Exec, CodeAt, Word, Above, StrictCode;
    StrictParts(code, c.pc, op, lc, rc);
    PushRuns(code, c1);
    var c2 := Pushed(c1);
    assert Load(c3.mem, c3.sp) == Word(l) by { AboveAt(c2.mem, c3.mem, c2.sp, c2.sp); }
    var m;
    m, d := CombineRuns(code, op, l, r, c3);
    ExecThen(code, c, n1, c1, 1);
    ExecThen(code, c, n1 + 1, c2, n2);
    ExecThen(code, c, n1 + 1 + n2, c3, m);
    n := n1 + 1 + n2 + m;
    AboveTrans(c.mem, c1.mem, c2.mem, c.sp, c.sp);
    AboveTrans(c.mem, c2.mem, c3.mem, c.sp, c2.sp);
  }

  lemma AboveAt(m: map<int, int>, m': map<int, int>, a: int, b: int)
    requires Above(m, m', a) && a <= b
    ensures Load(m', b) == Load(m, b)
  {
  }

  // ---- Short-circuit operators ----

  lemma LogicParts(code: seq<Instr>, pc: int, conj: bool, lc: seq<Instr>, rc: seq<Instr>)
    requires CodeAt(code, pc, LogicCode(conj, lc, rc))
    ensures CodeAt(code, pc, lc) && CodeAt(code, pc + |lc| + 1, rc) && CodeAt(code, pc + |lc| + 1 + |rc|, TruthCode())
    ensures CodeAt(code, pc + |lc|, [if conj then Cbz(0, |rc| + 4) else Cbnz(0, |rc| + 4)])
    ensures CodeAt(code, pc + |lc| + 3 + |rc|, [B(2)]) && CodeAt(code, pc + |lc| + 4 + |rc|, [MovZ(0, if conj then 0 else 1, 0)])
  {
    hide CodeAt, TruthCode;
    var q, z := [if conj then Cbz(0, |rc| + 4) else Cbnz(0, |rc| + 4)], [MovZ(0, if conj then 0 else 1, 0)];
    assert |TruthCode()| == 2 by { assert |[CmpZero(0), CSet(0, CNe)]| == 2; TruthLen(); }
    CodeSplit(code, pc, lc + q + rc + TruthCode() + [B(2)], z);
    CodeSplit(code, pc, lc + q + rc + TruthCode(), [B(2)]);
    CodeSplit(code, pc, lc + q + rc, TruthCode());
    CodeSplit(code, pc, lc + q, rc);
    CodeSplit(code, pc, lc, q);
  }

  lemma TruthLen()
    ensures |TruthCode()| == 2
  {
  }

  /** The left operand decides. */
  lemma DecidedRuns(code: seq<Instr>, conj: bool, lc: seq<Instr>, rc: seq<Instr>, c: Cpu, n1: nat, c1: Cpu) returns (n: nat, d: Cpu)
    requires CodeAt(code, c.pc, LogicCode(conj, lc, rc)) && Computes(code, c, |lc|, Bool(!conj), n1, c1)
    ensures Computes(code, c, |lc| + |rc| + 5, Bool(!conj), n, d)
  {
    hide CodeAt, LogicCode, Above, Exec;
    LogicParts(code, c.pc, conj, lc, rc);
    var q := if conj then Cbz(0, |rc| + 4) else Cbnz(0, |rc| + 4);
    var c2 := c1.(pc := c1.pc + |rc| + 4);
    One(code, c1, q, c2);
    var z := MovZ(0, if conj then 0 else 1, 0);
    d := Regs3(c2, c2.x[0 := if conj then 0 else 1], 1);
    assert Do(z, c2) == Ran(d) by { assert Pow2(0) == 1; }
    One(code, c2, z, d);
    ExecThen(code, c, n1, c1, 1);
    ExecThen(code, c, n1 + 1, c2, 1);
    n := n1 + 2;
  }

  /** The left operand does not decide: the right one does, starting from `c2`. */
  lemma UndecidedRuns(code: seq<Instr>, conj: bool, r: bool, lc: seq<Instr>, rc: seq<Instr>,
                      c: Cpu, n1: nat, c1: Cpu, n2: nat, c3: Cpu) returns (n: nat, d: Cpu)
    requires CodeAt(code, c.pc, LogicCode(conj, lc, rc)) && Computes(code, c, |lc|, Bool(conj), n1, c1)
    requires Computes(code, Advance(c1), |rc|, Bool(r), n2, c3)
    ensures Computes(code, c, |lc| + |rc| + 5, Bool(r), n, d)
  {
    hide CodeAt, LogicCode, Above, Exec, RunSeq;
    LogicParts(code, c.pc, conj, lc, rc);
    var q := if conj then Cbz(0, |rc| + 4) else Cbnz(0, |rc| + 4);
    var c2 := Advance(c1);
    One(code, c1, q, c2);
    TruthYields(r, c3);
    var c4 := RunSeq(TruthCode(), c3).c;
    TruthLen();
    assert forall i :: i in TruthCode() ==> Straight(i);
    SeqExec(code, c3, TruthCode());
    d := c4.(pc := c4.pc + 2);
    One(code, c4, B(2), d);
    ExecThen(code, c, n1, c1, 1);
    ExecThen(code, c, n1 + 1, c2, n2);
    ExecThen(code, c, n1 + 1 + n2, c3, 2);
    ExecThen(code, c, n1 + 3 + n2, c4, 1);
    n := n1 + 4 + n2;
    AboveTrans(c.mem, c1.mem, c3.mem, c.sp, c.sp);
  }

  // ---- Arguments ----

  /** `vs` on the stack below `top`, the first one highest. */
  ghost predicate Stacked(m: map<int, int>, top: int, vs: seq<Value>) {
    forall i :: 0 <= i < |vs| ==> Load(m, top - 16 * (i + 1)) == Word(vs[i])
  }

  lemma StackedCons(m: map<int, int>, top: int, v: Value, vs: seq<Value>)
    requires Load(m, top - 16) == Word(v) && Stacked(m, top - 16, vs)
    ensures Stacked(m, top, [v] + vs)
  {
    var all := [v] + vs;
    forall i | 0 <= i < |all| ensures Load(m, top - 16 * (i + 1)) == Word(all[i]) {
      if i > 0 { assert Load(m, (top - 16) - 16 * ((i - 1) + 1)) == Word(vs[i - 1]); }
    }
  }

  lemma StackedPrefix(m: map<int, int>, top: int, vs: seq<Value>)
    requires Stacked(m, top, vs) && vs != []
    ensures Stacked(m, top, vs[..|vs| - 1]) && Load(m, top - 16 * |vs|) == Word(vs[|vs| - 1])
  {
    assert Load(m, top - 16 * ((|vs| - 1) + 1)) == Word(vs[|vs| - 1]);
  }

  /** After popping `|vs|` arguments each is in its register. */
  lemma {:induction false} PopsRun(code: seq<Instr>, c: Cpu, vs: seq<Value>) returns (d: Cpu)
    requires |vs| <= 8 && CodeAt(code, c.pc, Pops(|vs|)) && c.sp % 16 == 0 && Stacked(c.mem, c.sp + 16 * |vs|, vs)
    ensures Exec(code, c, |vs|) == Ran(d) && d.pc == c.pc + |vs| && d.sp == c.sp + 16 * |vs| && d.mem == c.mem
    ensures d.x[FP] == c.x[FP] && ArgsIn(d, vs) && forall r :: |vs| <= r < 31 ==> d.x[r] == c.x[r]
    decreases |vs|
  {
    hide CodeAt, Stacked, Exec;
    if vs == [] {
      d := c;
      assert Exec(code, c, 0) == Ran(c) by { ExecNone(code, c); }
    } else {
      var n := |vs| - 1;
      StackedPrefix(c.mem, c.sp + 16 * |vs|, vs);
      CodeSplit(code, c.pc, [Pop(n)], Pops(n));
      var e := Regs3(c, c.x[n := Word(vs[n])], 1).(sp := c.sp + 16);
      assert Do(Pop(n), c) == Ran(e);
      One(code, c, Pop(n), e);
      d := PopsRun(code, e, vs[..n]);
      ExecThen(code, c, 1, e, n);
      forall i | 0 <= i < |vs| ensures d.x[i] == Word(vs[i]) {
        if i < n { assert vs[..n][i] == vs[i]; }
      }
    }
  }

  lemma ExecNone(code: seq<Instr>, c: Cpu)
    ensures Exec(code, c, 0) == Ran(c)
  {
  }

  /** The arguments of an inlined builtin: all but the last are on the stack. */
  lemma TailRuns(code: seq<Instr>, f: string, vs: seq<Value>, c: Cpu) returns (n: nat, d: Cpu)
    requires Arity(f) == Some(|vs|) && AllInts(vs) && CodeAt(code, c.pc, BuiltinTail(f)) && c.sp % 16 == 0
    requires Stacked(c.mem, c.sp + 16 * (|vs| - 1), vs[..|vs| - 1]) && c.x[0] == Word(vs[|vs| - 1])
    ensures Exec(code, c, n) == Ran(d) && d.pc == c.pc + |BuiltinTail(f)| && d.sp == c.sp + 16 * (|vs| - 1)
    ensures d.mem == c.mem && d.x[FP] == c.x[FP] && d.x[0] == Scalar(f, vs)
  {
    hide CodeAt, Exec, RunSeq, Wrap, GcdI64;
    if f == "abs" {
      AbsRuns(0, 1, vs[0].n, c);
      n, d := StraightTail(code, f, c, AbsCode(0, 1), Scalar(f, vs));
    } else if f == "sign" {
      SignYields(vs[0].n, c);
      n, d := StraightTail(code, f, c, SignCode(), Scalar(f, vs));
    } else if f == "clamp" {
      n, d := ClampTail(code, vs, c);
    } else {
      n, d := PairTail(code, f, vs, c);
    }
  }

  lemma StraightTail(code: seq<Instr>, f: string, c: Cpu, part: seq<Instr>, v: i64) returns (n: nat, d: Cpu)
    requires CodeAt(code, c.pc, part) && BuiltinTail(f) == part && (f == "abs" || f == "sign") && Yields(c, RunSeq(part, c), |part|, v)
    ensures Exec(code, c, n) == Ran(d) && d.pc == c.pc + |BuiltinTail(f)| && d.sp == c.sp
    ensures d.mem == c.mem && d.x[FP] == c.x[FP] && d.x[0] == v
  {
    hide RunSeq, CodeAt, Exec;
    assert forall i :: i in part ==> Straight(i);
    SeqExec(code, c, part);
    n, d := |part|, RunSeq(part, c).c;
  }

  /** A stacked value popped into a register. */
  lemma PopRuns(code: seq<Instr>, r: Reg, v: Value, c: Cpu)
    requires r < 29 && CodeAt(code, c.pc, [Pop(r)]) && c.sp % 16 == 0 && Load(c.mem, c.sp) == Word(v)
    ensures Exec(code, c, 1) == Ran(Regs3(c, c.x[r := Word(v)], 1).(sp := c.sp + 16))
  {
    hide CodeAt;
    One(code, c, Pop(r), Regs3(c, c.x[r := Word(v)], 1).(sp := c.sp + 16));
  }

  /** `min`, `max` and `gcd`: the first argument comes back into `x1`. */
  lemma PairTail(code: seq<Instr>, f: string, vs: seq<Value>, c: Cpu) returns (n: nat, d: Cpu)
    requires (f == "min" || f == "max" || f == "gcd") && |vs| == 2 && AllInts(vs) && CodeAt(code, c.pc, BuiltinTail(f))
    requires c.sp % 16 == 0 && Stacked(c.mem, c.sp + 16, vs[..1]) && c.x[0] == Word(vs[1])
    ensures Exec(code, c, n) == Ran(d) && d.pc == c.pc + |BuiltinTail(f)| && d.sp == c.sp + 16
    ensures d.mem == c.mem && d.x[FP] == c.x[FP] && d.x[0] == Scalar(f, vs)
  {
    hide CodeAt, Exec, RunSeq, Wrap, GcdI64, GcdCode;
    var rest := if f == "min" then PickCode(CLt) else if f == "max" then PickCode(CGt) else GcdCode();
    CodeSplit(code, c.pc, [Pop(1)], rest);
    assert Load(c.mem, c.sp) == Word(vs[0]) by { assert Load(c.mem, (c.sp + 16) - 16 * (0 + 1)) == Word(vs[..1][0]); }
    PopRuns(code, 1, vs[0], c);
    var e := Regs3(c, c.x[1 := Word(vs[0])], 1).(sp := c.sp + 16);
    var m;
    if f == "gcd" {
      m := GcdRuns(code, vs[0].n, vs[1].n, e);
      d := Exec(code, e, m).c;
    } else {
      PickYields(vs[0].n, vs[1].n, e);
      assert forall i :: i in rest ==> Straight(i);
      SeqExec(code, e, rest);
      m, d := |rest|, RunSeq(rest, e).c;
    }
    ExecThen(code, c, 1, e, m);
    n := 1 + m;
  }

  lemma ClampTail(code: seq<Instr>, vs: seq<Value>, c: Cpu) returns (n: nat, d: Cpu)
    requires |vs| == 3 && AllInts(vs) && CodeAt(code, c.pc, BuiltinTail("clamp"))
    requires c.sp % 16 == 0 && Stacked(c.mem, c.sp + 32, vs[..2]) && c.x[0] == Word(vs[2])
    ensures Exec(code, c, n) == Ran(d) && d.pc == c.pc + |BuiltinTail("clamp")| && d.sp == c.sp + 32
    ensures d.mem == c.mem && d.x[FP] == c.x[FP] && d.x[0] == Scalar("clamp", vs)
  {
    hide CodeAt, Exec, RunSeq, ClampCode;
    CodeSplit(code, c.pc, [Pop(1), Pop(2)], ClampCode());
    assert [Pop(1), Pop(2)] == [Pop(1)] + [Pop(2)];
    CodeSplit(code, c.pc, [Pop(1)], [Pop(2)]);
    assert Load(c.mem, c.sp + 16) == Word(vs[0]) by { assert Load(c.mem, (c.sp + 32) - 16 * (0 + 1)) == Word(vs[..2][0]); }
    assert Load(c.mem, c.sp) == Word(vs[1]) by { assert Load(c.mem, (c.sp + 32) - 16 * (1 + 1)) == Word(vs[..2][1]); }
    PopRuns(code, 1, vs[1], c);
    var e := Regs3(c, c.x[1 := Word(vs[1])], 1).(sp := c.sp + 16);
    PopRuns(code, 2, vs[0], e);
    var f := Regs3(e, e.x[2 := Word(vs[0])], 1).(sp := e.sp + 16);
    ClampYields(vs[0].n, vs[1].n, vs[2].n, f);
    ClampShape();
    SeqExec(code, f, ClampCode());
    d := RunSeq(ClampCode(), f).c;
    ExecThen(code, c, 1, e, 1);
    ExecThen(code, c, 2, f, 6);
    n := 8;
  }

  lemma ClampShape()
    ensures |ClampCode()| == 6 && forall i :: i in ClampCode() ==> Straight(i)
  {
  }

  // ---- Calls ----

  lemma CallParts(code: seq<Instr>, pc: int, args: seq<Instr>, n: nat, off: int)
    requires n <= 8 && CodeAt(code, pc, CallCode(args, n, off))
    ensures CodeAt(code, pc, args) && CodeAt(code, pc + |args|, Pops(n)) && CodeAt(code, pc + |args| + n, [Bl(off)])
  {
    hide CodeAt, Pops;
    CodeSplit(code, pc, args + Pops(n), [Bl(off)]);
    CodeSplit(code, pc, args, Pops(n));
  }

  /** The stacked arguments go to their registers and the callee returns the value. */
  lemma CallRuns(w: World, f: string, vs: seq<Value>, c: Cpu, off: int) returns (n: nat, d: Cpu)
    requires CallsWork(w) && f in w.callable && !Inlined(f, |vs|) && f in w.sigs && |vs| <= 8 && AllTyped(vs, w.sigs[f].params) && w.cfg.call(f, vs).Ok?
    requires CodeAt(w.code, c.pc, Pops(|vs|)) && CodeAt(w.code, c.pc + |vs|, [Bl(off)]) && c.pc + |vs| + off == w.base + Entry(w.g, f)
    requires c.sp % 16 == 0 && Stacked(c.mem, c.sp + 16 * |vs|, vs)
    ensures Exec(w.code, c, n) == Ran(d) && d.pc == c.pc + |vs| + 1 && d.sp == c.sp + 16 * |vs| && d.x[FP] == c.x[FP]
    ensures d.x[0] == Word(w.cfg.call(f, vs).value) && Above(c.mem, d.mem, c.sp + 16 * |vs|)
    ensures HasType(w.cfg.call(f, vs).value, w.sigs[f].result)
  {
    hide CodeAt, Exec, Stacked, Above;
    var v := w.cfg.call(f, vs).value;
    assert CallWorks(w, f, vs);
    var c1 := PopsRun(w.code, c, vs);
    var c2 := c1.(x := c1.x[LR := c1.pc + 1], pc := c1.pc + off);
    assert Do(Bl(off), c1) == Ran(c2);
    One(w.code, c1, Bl(off), c2);
    assert ArgsIn(c2, vs);
    assert Returns(w.code, c2, v);
    var m;
    m, d :| Exec(w.code, c2, m) == Ran(d) && Answered(c2, d, v);
    ExecThen(w.code, c, |vs|, c1, 1);
    ExecThen(w.code, c, |vs| + 1, c2, m);
    n := |vs| + 1 + m;
  }
}

/** The fixed code of branches and loops: tests, jumps back, and the range loop's guard and step. */
module A64Loops {
  import opened Words
  import opened Ir
  import opened Eval
  import opened A64Isa
  import opened A64Machine
  import opened A64Idioms
  import opened A64Gen
  import opened A64Typing
  import opened A64Exprs
  import opened A64SimExpr
  import opened A64Frame
  import opened A64SimSimple

  ghost predicate BlockAt(w: World, body: seq<Stmt>, ex: Exits, c: Cpu) {
    w.base <= c.pc && CodeAt(w.code, c.pc, GenBlock(w.g, body, c.pc - w.base, ex))
  }

  lemma BlockAtPosition(w: World, body: seq<Stmt>, ex: Exits, c: Cpu, pc: nat)
    requires c.pc == w.base + pc && CodeAt(w.code, c.pc, GenBlock(w.g, body, pc, ex))
    ensures BlockAt(w, body, ex, c)
  {
    hide CodeAt, GenBlock;
  }

  // ---- Parts ----

  lemma WhileParts(code: seq<Instr>, pc: int, cnd: seq<Instr>, body: seq<Instr>)
    requires CodeAt(code, pc, WhileCode(cnd, body))
    ensures CodeAt(code, pc, cnd) && CodeAt(code, pc + |cnd|, [Cbz(0, |body| + 2)]) && CodeAt(code, pc + |cnd| + 1, body)
    ensures CodeAt(code, pc + |cnd| + 1 + |body|, [B(0 - (|cnd| + 1 + |body|))])
  {
    hide CodeAt;
    var q, b := [Cbz(0, |body| + 2)], [B(0 - (|cnd| + 1 + |body|))];
    CodeSplit(code, pc, cnd + q + body, b);
    CodeSplit(code, pc, cnd + q, body);
    CodeSplit(code, pc, cnd, q);
  }

  lemma LoopParts(code: seq<Instr>, pc: int, body: seq<Instr>)
    requires CodeAt(code, pc, LoopCode(body))
    ensures CodeAt(code, pc, body) && CodeAt(code, pc + |body|, [B(0 - |body|)])
  {
    hide CodeAt;
    CodeSplit(code, pc, body, [B(0 - |body|)]);
  }

  lemma BranchParts(code: seq<Instr>, pc: int, cnd: seq<Instr>, body: seq<Instr>, rest: seq<Instr>)
    requires CodeAt(code, pc, BranchCode(cnd, body, rest))
    ensures CodeAt(code, pc, cnd) && CodeAt(code, pc + |cnd|, [Cbz(0, |body| + 2)]) && CodeAt(code, pc + |cnd| + 1, body)
    ensures CodeAt(code, pc + |cnd| + 1 + |body|, [B(|rest| + 1)]) && CodeAt(code, pc + |cnd| + 2 + |body|, rest)
  {
    hide CodeAt;
    var q, b := [Cbz(0, |body| + 2)], [B(|rest| + 1)];
    CodeSplit(code, pc, cnd + q + body + b, rest);
    CodeSplit(code, pc, cnd + q + body, b);
    CodeSplit(code, pc, cnd + q, body);
    CodeSplit(code, pc, cnd, q);
  }

  lemma ForParts(code: seq<Instr>, pc: int, g: Gen, x: string, body: seq<Instr>)
    requires CodeAt(code, pc, ForCode(g, x, body))
    ensures CodeAt(code, pc, ForGuard(g, x, |body|)) && CodeAt(code, pc + 12, body) && CodeAt(code, pc + 12 + |body|, ForStep(g, x))
    ensures CodeAt(code, pc + 16 + |body|, [B(0 - (|body| + 16))])
  {
    assert |ForGuard(g, x, |body|)| == 12 && |ForStep(g, x)| == 4;
    hide CodeAt, ForGuard, ForStep;
    var a, z, b := ForGuard(g, x, |body|), ForStep(g, x), [B(0 - (|body| + 16))];
    CodeSplit(code, pc, a + body + z, b);
    CodeSplit(code, pc, a + body, z);
    CodeSplit(code, pc, a, body);
  }

  // ---- Conditions ----

  /** After the condition the machine is at the body, or just past it. */
  lemma TestRuns(w: World, cond: Expr, env: Env, ts: Types, c: Cpu, skip: nat) returns (n: nat, d: Cpu)
    requires Standing(w, env, ts, c) && Lowerable(w, cond) && ExprAt(w, cond, c) && TypeOf(w.sigs, ts, cond) == Some(TBool)
    requires EvalExpr(w.cfg, cond, env).Ok? && CodeAt(w.code, c.pc + ExprLen(cond), [Cbz(0, skip)])
    ensures EvalExpr(w.cfg, cond, env).value.Bool? && Exec(w.code, c, n) == Ran(d)
    ensures d.pc == c.pc + ExprLen(cond) + if EvalExpr(w.cfg, cond, env).value.b then 1 else skip
    ensures Standing(w, env, ts, d) && Kept(w, c, d, {})
  {
    hide Standing, CodeAt, Exec, ExprAt, Match, EvalExpr, TypeOf, ExprLen, Lowerable, Ready, Kept, Above;
    StandingFacts(w, env, ts, c);
    var v := EvalExpr(w.cfg, cond, env).value;
    var k, c1 := SimExpr(w, cond, env, ts, TBool, c);
    ComputesKept(w, env, ts, c, ExprLen(cond), v, k, c1);
    d := Jump(c1, !v.b, skip);
    One(w.code, c1, Cbz(0, skip), d);
    ExecThen(w.code, c, k, c1, 1);
    n := k + 1;
    Moved(w, c, env, ts, c1, d, {});
  }

  /** Only the program counter changed. */
  lemma Moved(w: World, c: Cpu, env: Env, ts: Types, c1: Cpu, d: Cpu, ws: set<string>)
    requires d == c1.(pc := d.pc) && Kept(w, c, c1, ws)
    ensures Kept(w, c, d, ws) && (Standing(w, env, ts, c1) ==> Standing(w, env, ts, d))
  {
    hide Match, Above, CallsWork, BuiltinsWork, GenOk, Distinct;
  }

  /** A jump after a run that kept the frame. */
  lemma ThenJump(w: World, c: Cpu, k: nat, c1: Cpu, ws: set<string>, off: int) returns (d: Cpu)
    requires Exec(w.code, c, k) == Ran(c1) && Kept(w, c, c1, ws) && CodeAt(w.code, c1.pc, [B(off)])
    ensures Exec(w.code, c, k + 1) == Ran(d) && Kept(w, c, d, ws) && d == c1.(pc := c1.pc + off)
  {
    hide CodeAt, Exec, Above;
    d := c1.(pc := c1.pc + off);
    One(w.code, c1, B(off), d);
    ExecThen(w.code, c, k, c1, 1);
  }

  // ---- The range loop ----

  function GuardPick(g: Gen, x: string): seq<Instr> { [LoadVar(g, 0, x), LoadVar(g, 1, EndName(x)), Cmp(0, 1)] }

  lemma GuardParts(code: seq<Instr>, pc: int, g: Gen, x: string, len: nat)
    requires CodeAt(code, pc, ForGuard(g, x, len))
    ensures CodeAt(code, pc, [LoadVar(g, 0, StepName(x)), CmpZero(0)]) && CodeAt(code, pc + 2, [BCond(CLt, 6)])
    ensures CodeAt(code, pc + 3, GuardPick(g, x)) && CodeAt(code, pc + 6, [BCond(CGt, len + 11)]) && CodeAt(code, pc + 7, [B(5)])
    ensures CodeAt(code, pc + 8, GuardPick(g, x)) && CodeAt(code, pc + 11, [BCond(CLt, len + 6)])
  {
    hide CodeAt, LoadVar;
    var p, q, a, r, b, s := [LoadVar(g, 0, StepName(x)), CmpZero(0)], [BCond(CLt, 6)], GuardPick(g, x), [BCond(CGt, len + 11)], [B(5)], [BCond(CLt, len + 6)];
    CodeSplit(code, pc, p + q + a + r + b + a, s);
    CodeSplit(code, pc, p + q + a + r + b, a);
    CodeSplit(code, pc, p + q + a + r, b);
    CodeSplit(code, pc, p + q + a, r);
    CodeSplit(code, pc, p + q, a);
    CodeSplit(code, pc, p, q);
  }

  /** The three slots of a running range loop. */
  ghost predicate Counting(w: World, x: string, c: Cpu, current: i64, end: i64, step: i64) {
    && x in w.g.slots && EndName(x) in w.g.slots && StepName(x) in w.g.slots && c.x[FP] % 16 == 0
    && Load(c.mem, SlotAddr(w, c, x)) == current && Load(c.mem, SlotAddr(w, c, EndName(x))) == end
    && Load(c.mem, SlotAddr(w, c, StepName(x))) == step
  }

  /** Registers and flags may differ. */
  predicate SameFrame(c: Cpu, d: Cpu) { d.sp == c.sp && d.mem == c.mem && d.x[FP] == c.x[FP] }

  lemma SignRuns(w: World, x: string, c: Cpu, current: i64, end: i64, step: i64) returns (d: Cpu)
    requires Counting(w, x, c, current, end, step) && CodeAt(w.code, c.pc, [LoadVar(w.g, 0, StepName(x)), CmpZero(0)])
    requires CodeAt(w.code, c.pc + 2, [BCond(CLt, 6)])
    ensures Exec(w.code, c, 3) == Ran(d) && SameFrame(c, d) && d.pc == c.pc + if step < 0 then 8 else 3
  {
    hide CodeAt, Exec;
    var i := LoadVar(w.g, 0, StepName(x));
    assert [i, CmpZero(0)] == [i] + [CmpZero(0)];
    CodeSplit(w.code, c.pc, [i], [CmpZero(0)]);
    var c1 := LoadRuns(w.code, w.g, 0, StepName(x), c);
    var c2 := Advance(A64Machine.Compare(c1, step, 0));
    One(w.code, c1, CmpZero(0), c2);
    ComparisonHolds(c1, step, 0);
    d := Jump(c2, step < 0, 6);
    One(w.code, c2, BCond(CLt, 6), d);
    ExecThen(w.code, c, 1, c1, 1);
    ExecThen(w.code, c, 2, c2, 1);
  }

  /** Counter against bound, then a conditional exit. */
  lemma PickRuns(w: World, x: string, c: Cpu, current: i64, end: i64, step: i64, cond: Condition, off: int) returns (d: Cpu)
    requires Counting(w, x, c, current, end, step) && CodeAt(w.code, c.pc, GuardPick(w.g, x)) && CodeAt(w.code, c.pc + 3, [BCond(cond, off)])
    ensures Exec(w.code, c, 4) == Ran(d) && SameFrame(c, d)
    ensures cond == CGt ==> d.pc == c.pc + 3 + if current > end then off else 1
    ensures cond == CLt ==> d.pc == c.pc + 3 + if current < end then off else 1
  {
    hide CodeAt, Exec;
    var i, j := LoadVar(w.g, 0, x), LoadVar(w.g, 1, EndName(x));
    assert GuardPick(w.g, x) == [i] + [j] + [Cmp(0, 1)];
    CodeSplit(w.code, c.pc, [i] + [j], [Cmp(0, 1)]);
    CodeSplit(w.code, c.pc, [i], [j]);
    var c1 := LoadRuns(w.code, w.g, 0, x, c);
    var c2 := LoadRuns(w.code, w.g, 1, EndName(x), c1);
    var c3 := Advance(A64Machine.Compare(c2, current, end));
    assert Do(Cmp(0, 1), c2) == Ran(c3);
    One(w.code, c2, Cmp(0, 1), c3);
    ComparisonHolds(c2, current, end);
    d := Jump(c3, Holds(c3, cond), off);
    One(w.code, c3, BCond(cond, off), d);
    ExecThen(w.code, c, 1, c1, 1);
    ExecThen(w.code, c, 2, c2, 1);
    ExecThen(w.code, c, 3, c3, 1);
  }

  /** The guard lets the body run exactly when the interpreter does. */
  lemma RangeGuardRuns(w: World, x: string, len: nat, c: Cpu, current: i64, end: i64, step: i64) returns (n: nat, d: Cpu)
    requires Counting(w, x, c, current, end, step) && step != 0 && CodeAt(w.code, c.pc, ForGuard(w.g, x, len))
    ensures Exec(w.code, c, n) == Ran(d) && SameFrame(c, d)
    ensures d.pc == c.pc + if Running(current, end, step) then 12 else len + 17
  {
    hide CodeAt, Exec, ForGuard, GuardPick;
    GuardParts(w.code, c.pc, w.g, x, len);
    var c1 := SignRuns(w, x, c, current, end, step);
    if step < 0 {
      d := PickRuns(w, x, c1, current, end, step, CLt, len + 6);
      ExecThen(w.code, c, 3, c1, 4);
      n := 7;
    } else {
      var c2 := PickRuns(w, x, c1, current, end, step, CGt, len + 11);
      ExecThen(w.code, c, 3, c1, 4);
      if current > end {
        n, d := 7, c2;
      } else {
        d := c2.(pc := c2.pc + 5);
        One(w.code, c2, B(5), d);
        ExecThen(w.code, c, 7, c2, 1);
        n := 8;
      }
    }
  }

  /** The step leaves the next counter in `x0` and in its slot. */
  lemma StepRuns(w: World, x: string, c: Cpu, current: i64, end: i64, step: i64) returns (c1: Cpu)
    requires Counting(w, x, c, current, end, step) && GenOk(w.g) && CodeAt(w.code, c.pc, ForStep(w.g, x))
    ensures Exec(w.code, c, 4) == Ran(Stored(w, x, c1)) && SameFrame(c, c1) && c1.x[0] == Wrap(current + step)
    ensures c1.pc == c.pc + 3 && Kept(w, c, Stored(w, x, c1), {x})
    ensures Counting(w, x, Stored(w, x, c1), Wrap(current + step), end, step)
  {
    hide CodeAt, Exec, GenOk, Kept, Wrap;
    var i, j, z := LoadVar(w.g, 0, x), LoadVar(w.g, 1, StepName(x)), StoreVar(w.g, x);
    assert ForStep(w.g, x) == [i] + [j] + [Alu(AAdd, 0, 0, 1)] + [z];
    CodeSplit(w.code, c.pc, [i] + [j] + [Alu(AAdd, 0, 0, 1)], [z]);
    CodeSplit(w.code, c.pc, [i] + [j], [Alu(AAdd, 0, 0, 1)]);
    CodeSplit(w.code, c.pc, [i], [j]);
    var a := LoadRuns(w.code, w.g, 0, x, c);
    var b := LoadRuns(w.code, w.g, 1, StepName(x), a);
    c1 := Regs3(b, b.x[0 := Wrap(current + step)], 1);
    assert Do(Alu(AAdd, 0, 0, 1), b) == Ran(c1);
    One(w.code, b, Alu(AAdd, 0, 0, 1), c1);
    StoreRuns(w, x, c1);
    ExecThen(w.code, c, 1, a, 1);
    ExecThen(w.code, c, 2, b, 1);
    ExecThen(w.code, c, 3, c1, 1);
    NamesApart(x);
    StoredCounting(w, x, c, c1, current, end, step);
  }

  lemma NamesApart(x: string)
    ensures x != EndName(x) && x != StepName(x) && EndName(x) != StepName(x)
  {
    assert |EndName(x)| == |x| + 5 && |StepName(x)| == |x| + 6;
  }

  lemma StoredCounting(w: World, x: string, c: Cpu, c1: Cpu, current: i64, end: i64, step: i64)
    requires Counting(w, x, c, current, end, step) && SameFrame(c, c1) && c1.x[0] == Wrap(current + step)
    requires Kept(w, c1, Stored(w, x, c1), {x}) && Load(Stored(w, x, c1).mem, SlotAddr(w, c1, x)) == c1.x[0]
    ensures Counting(w, x, Stored(w, x, c1), Wrap(current + step), end, step) && Kept(w, c, Stored(w, x, c1), {x})
  {
    hide Above, Load, Wrap;
    NamesApart(x);
    var d := Stored(w, x, c1);
    assert EndName(x) !in {x} && StepName(x) !in {x};
    forall y | y in w.g.slots && y !in {x} ensures Load(d.mem, SlotAddr(w, c, y)) == Load(c.mem, SlotAddr(w, c, y)) {
      assert SlotAddr(w, c, y) == SlotAddr(w, c1, y);
    }
    assert SlotAddr(w, d, x) == SlotAddr(w, c1, x);
  }

  /** The body left the three slots alone. */
  lemma StillCounting(w: World, x: string, c: Cpu, d: Cpu, ws: set<string>, current: i64, end: i64, step: i64)
    requires Counting(w, x, c, current, end, step) && Kept(w, c, d, ws) && x !in ws && EndName(x) !in ws && StepName(x) !in ws
    ensures Counting(w, x, d, current, end, step)
  {
    hide Above;
    assert SlotAddr(w, d, x) == SlotAddr(w, c, x);
  }
}

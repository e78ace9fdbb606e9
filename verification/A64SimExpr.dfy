/** Every expression the generator lowers computes the interpreter's value. */
module A64SimExpr {
  import opened Words
  import opened Ir
  import opened Eval
  import opened ScalarMath
  import opened A64Isa
  import opened A64Machine
  import opened A64Idioms
  import opened A64Gen
  import opened A64Typing
  import opened A64Exprs

  /** The code of an expression is where the machine stands. */
  ghost predicate ExprAt(w: World, e: Expr, c: Cpu) {
    w.base <= c.pc && CodeAt(w.code, c.pc, GenExpr(w.g, e, c.pc - w.base))
  }

  ghost predicate ArgsAt(w: World, es: seq<Expr>, c: Cpu, keep: bool) {
    w.base <= c.pc && CodeAt(w.code, c.pc, GenArgs(w.g, es, c.pc - w.base, keep))
  }

  lemma AtPosition(w: World, e: Expr, c: Cpu, pc: nat)
    requires c.pc == w.base + pc && CodeAt(w.code, c.pc, GenExpr(w.g, e, pc))
    ensures ExprAt(w, e, c)
  {
    hide CodeAt, GenExpr;
  }

  lemma PositionOf(w: World, e: Expr, c: Cpu)
    requires ExprAt(w, e, c)
    ensures w.base <= c.pc && CodeAt(w.code, w.base + (c.pc - w.base), GenExpr(w.g, e, c.pc - w.base))
  {
    hide CodeAt, GenExpr;
  }

  lemma ArgsAtPosition(w: World, es: seq<Expr>, c: Cpu, keep: bool, pc: nat)
    requires c.pc == w.base + pc && CodeAt(w.code, c.pc, GenArgs(w.g, es, pc, keep))
    ensures ArgsAt(w, es, c, keep)
  {
    hide CodeAt, GenArgs;
  }

  predicate Lowerable(w: World, e: Expr) { LowersExpr(w.g.slots.Keys, w.callable, e) }

  predicate LowerableArgs(w: World, es: seq<Expr>) { LowersArgs(w.g.slots.Keys, w.callable, es) }

  lemma BinaryTyped(l: Value, op: BinaryOp, r: Value, tl: Ty, tr: Ty, t: Ty)
    requires HasType(l, tl) && HasType(r, tr) && BinaryType(tl, op, tr) == Some(t) && op != And && op != Or
    ensures SameType(l, r)
    ensures EvalBinary(l, op, r).Ok? ==> HasType(EvalBinary(l, op, r).value, t)
  {
    hide Bits64, ShiftLeft, ShiftRight, WrappingDiv, WrappingRem, Wrap;
  }

  lemma UnaryTyped(op: UnaryOp, v: Value, t: Ty, u: Ty)
    requires HasType(v, t) && EvalUnary(op, v).Ok? && u == if op == Not then TBool else TInt
    ensures HasType(EvalUnary(op, v).value, u)
  {
  }

  /** Constants and variables. */
  lemma SimLeaf(w: World, e: Expr, env: Env, ts: Types, t: Ty, c: Cpu) returns (n: nat, d: Cpu)
    requires (e.Int? || e.BoolLit? || e.Var?) && Ready(w, env, ts, c) && Lowerable(w, e) && ExprAt(w, e, c)
    requires TypeOf(w.sigs, ts, e) == Some(t) && EvalExpr(w.cfg, e, env).Ok?
    ensures Computes(w.code, c, ExprLen(e), EvalExpr(w.cfg, e, env).value, n, d) && HasType(EvalExpr(w.cfg, e, env).value, t)
  {
    hide CodeAt, Match, CallsWork, BuiltinsWork, RunSeq, LoadImm, Exec, Do;
    match e
    case Int(k) =>
      n, d := ConstantRuns(w.code, k, c);
    case BoolLit(b) => n, d := ConstantRuns(w.code, if b then 1 else 0, c);
    case Var(x) =>
      MatchLookup(env, ts, w.g.slots, c.mem, c.x[FP], x);
      n := 1;
      d := LoadRuns(w.code, w.g, 0, x, c);
  }

  lemma ConstantRuns(code: seq<Instr>, k: i64, c: Cpu) returns (n: nat, d: Cpu)
    requires CodeAt(code, c.pc, LoadImm(k))
    ensures Computes(code, c, |LoadImm(k)|, I64(k), n, d)
  {
    hide RunSeq, CodeAt, Straight, LoadImm;
    LoadImmYields(k, c);
    LoadImmStraight(k);
    YieldsComputes(code, c, LoadImm(k), I64(k));
    n, d := |LoadImm(k)|, RunSeq(LoadImm(k), c).c;
  }

  lemma LoadImmStraight(k: i64)
    ensures forall i :: i in LoadImm(k) ==> Straight(i)
  {
    var u := U64(k);
    hide Chunk;
    assert forall h, i :: 1 <= h <= 3 && i in Insert(u, h) ==> Straight(i);
  }

  /** A local's slot is read. */
  lemma LoadRuns(code: seq<Instr>, g: Gen, r: Reg, x: string, c: Cpu) returns (d: Cpu)
    requires r < 29 && x in g.slots && CodeAt(code, c.pc, [LoadVar(g, r, x)]) && c.x[FP] % 16 == 0
    ensures Exec(code, c, 1) == Ran(d) && d == Regs3(c, c.x[r := Load(c.mem, c.x[FP] + 8 * g.slots[x])], 1)
  {
    hide CodeAt;
    d := Regs3(c, c.x[r := Load(c.mem, c.x[FP] + 8 * g.slots[x])], 1);
    One(code, c, LoadVar(g, r, x), d);
  }

  lemma {:induction false} SimExpr(w: World, e: Expr, env: Env, ts: Types, t: Ty, c: Cpu) returns (n: nat, d: Cpu)
    requires Ready(w, env, ts, c) && Lowerable(w, e) && ExprAt(w, e, c)
    requires TypeOf(w.sigs, ts, e) == Some(t) && EvalExpr(w.cfg, e, env).Ok?
    ensures Computes(w.code, c, ExprLen(e), EvalExpr(w.cfg, e, env).value, n, d) && HasType(EvalExpr(w.cfg, e, env).value, t)
    decreases e, 1
  {
    hide Ready, Computes, CodeAt, ExprAt, HasType, GenExpr, EvalUnary;
    match e
    case Unary(op, a) =>
      UnaryAt(w, op, a, c);
      var v := EvalExpr(w.cfg, a, env).value;
      var n1, c1 := SimExpr(w, a, env, ts, TypeOf(w.sigs, ts, a).value, c);
      n, d := UnaryRuns(w.code, op, a, v, c, n1, c1);
      UnaryTyped(op, v, TypeOf(w.sigs, ts, a).value, t);
    case Binary(l, op, r) =>
      if op == And || op == Or {
        n, d := SimLogic(w, l, op, r, env, ts, t, c);
      } else {
        n, d := SimStrict(w, l, op, r, env, ts, t, c);
      }
    case Call(f, args) => n, d := SimCall(w, f, args, env, ts, t, c);
    case _ => n, d := SimLeaf(w, e, env, ts, t, c);
  }

  lemma UnaryAt(w: World, op: UnaryOp, a: Expr, c: Cpu)
    requires ExprAt(w, Unary(op, a), c)
    ensures ExprAt(w, a, c) && CodeAt(w.code, c.pc + ExprLen(a), UnaryCode(op))
  {
    hide CodeAt, UnaryCode, GenExpr, ExprLen;
    UnaryShape(w.g, op, a, c.pc - w.base);
    CodeSplit(w.code, c.pc, GenExpr(w.g, a, c.pc - w.base), UnaryCode(op));
  }

  lemma UnaryRuns(code: seq<Instr>, op: UnaryOp, a: Expr, v: Value, c: Cpu, n1: nat, c1: Cpu) returns (n: nat, d: Cpu)
    requires Computes(code, c, ExprLen(a), v, n1, c1) && CodeAt(code, c.pc + ExprLen(a), UnaryCode(op)) && EvalUnary(op, v).Ok?
    ensures Computes(code, c, ExprLen(Unary(op, a)), EvalUnary(op, v).value, n, d)
  {
    hide RunSeq, Exec, CodeAt, EvalUnary, UnaryCode, Word, Above, ExprLen, Straight, Computes;
    var u, part := EvalUnary(op, v).value, UnaryCode(op);
    UnaryLen(op, a);
    ComputesParts(code, c, ExprLen(a), v, n1, c1);
    UnaryYields(op, v, c1);
    YieldsComputes(code, c1, part, u);
    d := RunSeq(part, c1).c;
    ComputesAfter(code, c, n1, c1, |part|, u, |part|, d, ExprLen(a) + |part|);
    n := n1 + |part|;
  }

  lemma UnaryLen(op: UnaryOp, a: Expr)
    ensures ExprLen(Unary(op, a)) == ExprLen(a) + |UnaryCode(op)| && forall i :: i in UnaryCode(op) ==> Straight(i)
  {
  }

  lemma ComputesParts(code: seq<Instr>, c: Cpu, len: nat, v: Value, n: nat, d: Cpu)
    requires Computes(code, c, len, v, n, d)
    ensures Exec(code, c, n) == Ran(d) && d.pc == c.pc + len && d.sp == c.sp && d.x[FP] == c.x[FP]
    ensures d.x[0] == Word(v) && Above(c.mem, d.mem, c.sp)
  {
  }

  // ---- Binary operators ----

  lemma StrictMeaning(w: World, l: Expr, op: BinaryOp, r: Expr, env: Env, ts: Types, t: Ty)
    requires op != And && op != Or && Lowerable(w, Binary(l, op, r))
    requires TypeOf(w.sigs, ts, Binary(l, op, r)) == Some(t) && EvalExpr(w.cfg, Binary(l, op, r), env).Ok?
    ensures Lowerable(w, l) && Lowerable(w, r) && TypeOf(w.sigs, ts, l).Some? && TypeOf(w.sigs, ts, r).Some?
    ensures BinaryType(TypeOf(w.sigs, ts, l).value, op, TypeOf(w.sigs, ts, r).value) == Some(t)
    ensures EvalExpr(w.cfg, l, env).Ok? && EvalExpr(w.cfg, r, env).Ok?
    ensures EvalExpr(w.cfg, Binary(l, op, r), env) == EvalBinary(EvalExpr(w.cfg, l, env).value, op, EvalExpr(w.cfg, r, env).value)
  {
    hide EvalBinary, BinaryType;
  }

  lemma LogicMeaning(w: World, l: Expr, op: BinaryOp, r: Expr, env: Env, ts: Types, t: Ty)
    requires (op == And || op == Or) && Lowerable(w, Binary(l, op, r))
    requires TypeOf(w.sigs, ts, Binary(l, op, r)) == Some(t) && EvalExpr(w.cfg, Binary(l, op, r), env).Ok?
    ensures Lowerable(w, l) && Lowerable(w, r) && TypeOf(w.sigs, ts, l) == Some(TBool) && TypeOf(w.sigs, ts, r) == Some(TBool) && t == TBool
    ensures EvalExpr(w.cfg, l, env).Ok? && EvalExpr(w.cfg, l, env).value.Bool?
    ensures EvalExpr(w.cfg, l, env).value.b == (op == And) ==>
              && EvalExpr(w.cfg, r, env).Ok? && EvalExpr(w.cfg, r, env).value.Bool?
              && EvalExpr(w.cfg, Binary(l, op, r), env) == EvalExpr(w.cfg, r, env)
    ensures EvalExpr(w.cfg, l, env).value.b != (op == And) ==> EvalExpr(w.cfg, Binary(l, op, r), env) == Ok(Bool(op != And))
  {
    hide EvalBinary;
  }

  lemma StrictAt(w: World, l: Expr, op: BinaryOp, r: Expr, c: Cpu)
    requires op != And && op != Or && ExprAt(w, Binary(l, op, r), c)
    ensures ExprAt(w, l, c) && w.base <= c.pc
    ensures CodeAt(w.code, c.pc, StrictCode(op, GenExpr(w.g, l, c.pc - w.base), GenExpr(w.g, r, c.pc - w.base + ExprLen(l) + 1)))
    ensures CodeAt(w.code, c.pc + ExprLen(l) + 1, GenExpr(w.g, r, c.pc - w.base + ExprLen(l) + 1))
  {
    hide CodeAt, StrictCode, GenExpr, ExprLen;
    BinaryShape(w.g, l, op, r, c.pc - w.base);
    StrictParts(w.code, c.pc, op, GenExpr(w.g, l, c.pc - w.base), GenExpr(w.g, r, c.pc - w.base + ExprLen(l) + 1));
  }

  lemma PushedReady(w: World, env: Env, ts: Types, c: Cpu, len: nat, v: Value, n: nat, c1: Cpu)
    requires Ready(w, env, ts, c) && Computes(w.code, c, len, v, n, c1)
    ensures Ready(w, env, ts, Pushed(c1)) && c1.sp == c.sp
  {
    hide Ready, Exec, Match;
    ReadySp(w, env, ts, c);
    AboveTrans(c.mem, c1.mem, Pushed(c1).mem, c.sp, c.sp);
    ReadyAfter(w, env, ts, c, Pushed(c1));
  }

  lemma ReadySp(w: World, env: Env, ts: Types, c: Cpu)
    requires Ready(w, env, ts, c)
    ensures c.sp % 16 == 0 && c.x[FP] % 16 == 0 && c.sp <= c.x[FP]
  {
  }

  lemma {:induction false} SimStrict(w: World, l: Expr, op: BinaryOp, r: Expr, env: Env, ts: Types, t: Ty, c: Cpu) returns (n: nat, d: Cpu)
    requires op != And && op != Or
    requires Ready(w, env, ts, c) && Lowerable(w, Binary(l, op, r)) && ExprAt(w, Binary(l, op, r), c)
    requires TypeOf(w.sigs, ts, Binary(l, op, r)) == Some(t) && EvalExpr(w.cfg, Binary(l, op, r), env).Ok?
    ensures Computes(w.code, c, ExprLen(Binary(l, op, r)), EvalExpr(w.cfg, Binary(l, op, r), env).value, n, d)
    ensures HasType(EvalExpr(w.cfg, Binary(l, op, r), env).value, t)
    decreases Binary(l, op, r), 0
  {
    hide Ready, CodeAt, GenExpr, EvalBinary, HasType, BinaryType, Exec, StrictCode, OpCode, Above, SameType, EvalExpr, TypeOf, Lowerable;
    hide ExprLen, Word, Computes, Pushed, ExprAt;
    StrictMeaning(w, l, op, r, env, ts, t);
    var tl, tr := TypeOf(w.sigs, ts, l).value, TypeOf(w.sigs, ts, r).value;
    var lv, rv := EvalExpr(w.cfg, l, env).value, EvalExpr(w.cfg, r, env).value;
    StrictAt(w, l, op, r, c);
    BinaryShape(w.g, l, op, r, c.pc - w.base);
    var n1, c1 := SimExpr(w, l, env, ts, tl, c);
    PushedReady(w, env, ts, c, ExprLen(l), lv, n1, c1);
    PushedPc(w.code, c, ExprLen(l), lv, n1, c1);
    AtPosition(w, r, Pushed(c1), c.pc - w.base + ExprLen(l) + 1);
    var n2, c3 := SimExpr(w, r, env, ts, tr, Pushed(c1));
    BinaryTyped(lv, op, rv, tl, tr, t);
    ReadySp(w, env, ts, c);
    n, d := StrictRuns(w.code, op, lv, rv, GenExpr(w.g, l, c.pc - w.base), GenExpr(w.g, r, c.pc - w.base + ExprLen(l) + 1), c, n1, c1, n2, c3);
  }

  lemma LogicAt(w: World, l: Expr, op: BinaryOp, r: Expr, c: Cpu)
    requires (op == And || op == Or) && ExprAt(w, Binary(l, op, r), c)
    ensures ExprAt(w, l, c) && w.base <= c.pc
    ensures CodeAt(w.code, c.pc, LogicCode(op == And, GenExpr(w.g, l, c.pc - w.base), GenExpr(w.g, r, c.pc - w.base + ExprLen(l) + 1)))
    ensures CodeAt(w.code, c.pc + ExprLen(l) + 1, GenExpr(w.g, r, c.pc - w.base + ExprLen(l) + 1))
  {
    hide CodeAt, LogicCode, GenExpr, ExprLen;
    BinaryShape(w.g, l, op, r, c.pc - w.base);
    LogicParts(w.code, c.pc, op == And, GenExpr(w.g, l, c.pc - w.base), GenExpr(w.g, r, c.pc - w.base + ExprLen(l) + 1));
  }

  lemma {:induction false} SimLogic(w: World, l: Expr, op: BinaryOp, r: Expr, env: Env, ts: Types, t: Ty, c: Cpu) returns (n: nat, d: Cpu)
    requires op == And || op == Or
    requires Ready(w, env, ts, c) && Lowerable(w, Binary(l, op, r)) && ExprAt(w, Binary(l, op, r), c)
    requires TypeOf(w.sigs, ts, Binary(l, op, r)) == Some(t) && EvalExpr(w.cfg, Binary(l, op, r), env).Ok?
    ensures Computes(w.code, c, ExprLen(Binary(l, op, r)), EvalExpr(w.cfg, Binary(l, op, r), env).value, n, d)
    ensures HasType(EvalExpr(w.cfg, Binary(l, op, r), env).value, t)
    decreases Binary(l, op, r), 0
  {
    hide Ready, CodeAt, GenExpr, Exec, LogicCode, Above, EvalExpr, TypeOf, Lowerable, ExprLen, Word, ExprAt;
    LogicMeaning(w, l, op, r, env, ts, t);
    LogicAt(w, l, op, r, c);
    BinaryShape(w.g, l, op, r, c.pc - w.base);
    var lc, rc := GenExpr(w.g, l, c.pc - w.base), GenExpr(w.g, r, c.pc - w.base + ExprLen(l) + 1);
    var lv := EvalExpr(w.cfg, l, env).value;
    var n1, c1 := SimExpr(w, l, env, ts, TBool, c);
    if lv.b == (op == And) {
      var c2 := Advance(c1);
      ReadySp(w, env, ts, c);
      ReadyAfter(w, env, ts, c, c2);
      AtPosition(w, r, c2, c.pc - w.base + ExprLen(l) + 1);
      var n2, c3 := SimExpr(w, r, env, ts, TBool, c2);
      n, d := UndecidedRuns(w.code, op == And, EvalExpr(w.cfg, r, env).value.b, lc, rc, c, n1, c1, n2, c3);
    } else {
      n, d := DecidedRuns(w.code, op == And, lc, rc, c, n1, c1);
    }
  }

  // ---- Calls ----

  lemma ArgsCons(w: World, es: seq<Expr>, c: Cpu, keep: bool)
    requires ArgsAt(w, es, c, keep) && es != [] && !(keep && |es| == 1)
    ensures ExprAt(w, es[0], c) && CodeAt(w.code, c.pc + ExprLen(es[0]), [Push(0)])
    ensures CodeAt(w.code, c.pc + ExprLen(es[0]) + 1, GenArgs(w.g, es[1..], c.pc - w.base + ExprLen(es[0]) + 1, keep))
  {
    hide CodeAt;
    var pc := c.pc - w.base;
    var first, rest := GenExpr(w.g, es[0], pc), GenArgs(w.g, es[1..], pc + ExprLen(es[0]) + 1, keep);
    CodeSplit(w.code, c.pc, first + [Push(0)], rest);
    CodeSplit(w.code, c.pc, first, [Push(0)]);
  }

  /** Where the arguments are after their code ran. */
  ghost predicate ArgsDone(code: seq<Instr>, c: Cpu, len: nat, vs: seq<Value>, keep: bool, n: nat, d: Cpu) {
    var m := if keep && vs != [] then |vs| - 1 else |vs|;
    && Exec(code, c, n) == Ran(d) && d.pc == c.pc + len && d.x[FP] == c.x[FP] && Above(c.mem, d.mem, c.sp)
    && d.sp == c.sp - 16 * m && Stacked(d.mem, c.sp, vs[..m]) && (m < |vs| ==> d.x[0] == Word(vs[m]))
  }

  lemma ArgsDoneCons(code: seq<Instr>, c: Cpu, len: nat, v: Value, n1: nat, c1: Cpu, rest: nat, vs: seq<Value>, keep: bool, n2: nat, d: Cpu)
    requires Computes(code, c, len, v, n1, c1) && c.sp % 16 == 0 && CodeAt(code, c.pc + len, [Push(0)]) && (keep ==> vs != [])
    requires ArgsDone(code, Pushed(c1), rest, vs, keep, n2, d)
    ensures ArgsDone(code, c, len + 1 + rest, [v] + vs, keep, n1 + 1 + n2, d)
  {
    hide Exec, CodeAt, Above, Stacked;
    var c2 := Pushed(c1);
    var m := if keep && vs != [] then |vs| - 1 else |vs|;
    PushRuns(code, c1);
    ExecThen(code, c, n1, c1, 1);
    ExecThen(code, c, n1 + 1, c2, n2);
    AboveTrans(c.mem, c1.mem, c2.mem, c.sp, c.sp);
    AboveTrans(c.mem, c2.mem, d.mem, c.sp, c2.sp);
    AboveAt(c2.mem, d.mem, c2.sp, c2.sp);
    StackedCons(d.mem, c.sp, v, vs[..m]);
    assert ([v] + vs)[..m + 1] == [v] + vs[..m];
  }

  lemma {:induction false} SimArgs(w: World, es: seq<Expr>, env: Env, ts: Types, us: seq<Ty>, keep: bool, c: Cpu) returns (n: nat, d: Cpu)
    requires Ready(w, env, ts, c) && LowerableArgs(w, es) && ArgsAt(w, es, c, keep)
    requires TypesOf(w.sigs, ts, es) == Some(us) && EvalExprs(w.cfg, es, env).Ok?
    ensures ArgsDone(w.code, c, ArgsLen(es, keep), EvalExprs(w.cfg, es, env).value, keep, n, d)
    ensures AllTyped(EvalExprs(w.cfg, es, env).value, us)
    decreases es, 0
  {
    hide Ready, CodeAt, GenExpr, GenArgs, HasType, Pushed, EvalExpr, TypeOf, LowersExpr, ExprLen, Above, Word, Computes, Exec;
    if es == [] {
      NothingDone(w.code, c, keep);
      n, d := 0, c;
    } else {
      var v, vs := EvalExpr(w.cfg, es[0], env).value, EvalExprs(w.cfg, es[1..], env).value;
      var t := TypeOf(w.sigs, ts, es[0]).value;
      if keep && |es| == 1 {
        SingleAt(w, es, c);
        n, d := SimExpr(w, es[0], env, ts, t, c);
        assert vs == [] && us == [t] && EvalExprs(w.cfg, es, env).value == [v];
        SingleDone(w.code, c, ExprLen(es[0]), v, n, d);
      } else {
        hide ArgsDone, ExprAt;
        ArgsCons(w, es, c, keep);
        var n1, c1 := SimExpr(w, es[0], env, ts, t, c);
        PushedReady(w, env, ts, c, ExprLen(es[0]), v, n1, c1);
        PushedPc(w.code, c, ExprLen(es[0]), v, n1, c1);
        var n2;
        n2, d := SimArgs(w, es[1..], env, ts, us[1..], keep, Pushed(c1));
        ReadySp(w, env, ts, c);
        ArgsDoneCons(w.code, c, ExprLen(es[0]), v, n1, c1, ArgsLen(es[1..], keep), vs, keep, n2, d);
        n := n1 + 1 + n2;
      }
    }
  }

  lemma NothingDone(code: seq<Instr>, c: Cpu, keep: bool)
    ensures ArgsDone(code, c, 0, [], keep, 0, c)
  {
  }

  lemma SingleDone(code: seq<Instr>, c: Cpu, len: nat, v: Value, n: nat, d: Cpu)
    requires Computes(code, c, len, v, n, d)
    ensures ArgsDone(code, c, len, [v], true, n, d)
  {
    hide Exec, Above;
  }

  lemma SingleAt(w: World, es: seq<Expr>, c: Cpu)
    requires ArgsAt(w, es, c, true) && |es| == 1
    ensures ExprAt(w, es[0], c)
  {
    hide CodeAt, GenExpr;
  }

  lemma PushedPc(code: seq<Instr>, c: Cpu, len: nat, v: Value, n: nat, c1: Cpu)
    requires Computes(code, c, len, v, n, c1)
    ensures Pushed(c1).pc == c.pc + len + 1
  {
    hide Exec, Above;
  }

  lemma TargetIs(w: World, env: Env, ts: Types, c: Cpu, f: string)
    requires Ready(w, env, ts, c)
    ensures CallTarget(f, env) == f
  {
    MatchLookup(env, ts, w.g.slots, c.mem, c.x[FP], f);
  }

  lemma CallCodeAt(w: World, f: string, args: seq<Expr>, pc: nat)
    requires CodeAt(w.code, w.base + pc, GenExpr(w.g, Call(f, args), pc)) && !Inlined(f, |args|) && |args| <= 8
    ensures var n, off := ArgsLen(args, false), Entry(w.g, f) - (pc + ArgsLen(args, false) + |args|);
            && CodeAt(w.code, w.base + pc, GenArgs(w.g, args, pc, false)) && CodeAt(w.code, w.base + pc + n, Pops(|args|))
            && CodeAt(w.code, w.base + pc + n + |args|, [Bl(off)])
  {
    hide *;
    var code, off := GenArgs(w.g, args, pc, false), Entry(w.g, f) - (pc + ArgsLen(args, false) + |args|);
    CallShape(w.g, f, args, pc);
    CallParts(w.code, w.base + pc, code, |args|, off);
  }

  lemma CallAt(w: World, f: string, args: seq<Expr>, c: Cpu)
    requires ExprAt(w, Call(f, args), c) && !Inlined(f, |args|) && |args| <= 8
    ensures ArgsAt(w, args, c, false) && CodeAt(w.code, c.pc + ArgsLen(args, false), Pops(|args|))
    ensures CodeAt(w.code, c.pc + ArgsLen(args, false) + |args|, [Bl(Entry(w.g, f) - (c.pc - w.base + ArgsLen(args, false) + |args|))])
  {
    hide *;
    PositionOf(w, Call(f, args), c);
    CallCodeAt(w, f, args, c.pc - w.base);
    ArgsAtPosition(w, args, c, false, c.pc - w.base);
  }

  lemma BuiltinAt(w: World, f: string, args: seq<Expr>, c: Cpu)
    requires ExprAt(w, Call(f, args), c) && Inlined(f, |args|)
    ensures ArgsAt(w, args, c, true) && CodeAt(w.code, c.pc + ArgsLen(args, true), BuiltinTail(f))
  {
    hide CodeAt, BuiltinTail, GenExpr, ExprLen, GenArgs, ArgsLen, Inlined;
    CallShape(w.g, f, args, c.pc - w.base);
    CodeSplit(w.code, c.pc, GenArgs(w.g, args, c.pc - w.base, true), BuiltinTail(f));
  }

  lemma {:induction false} SimCall(w: World, f: string, args: seq<Expr>, env: Env, ts: Types, t: Ty, c: Cpu) returns (n: nat, d: Cpu)
    requires Ready(w, env, ts, c) && Lowerable(w, Call(f, args)) && ExprAt(w, Call(f, args), c)
    requires TypeOf(w.sigs, ts, Call(f, args)) == Some(t) && EvalExpr(w.cfg, Call(f, args), env).Ok?
    ensures Computes(w.code, c, ExprLen(Call(f, args)), EvalExpr(w.cfg, Call(f, args), env).value, n, d)
    ensures HasType(EvalExpr(w.cfg, Call(f, args), env).value, t)
    decreases Call(f, args), 0
  {
    hide Ready, CodeAt, GenExpr, GenArgs, ArgsDone, Computes, AllTyped, ExprAt, ArgsAt, CallTarget, Inlined;
    var us := TypesOf(w.sigs, ts, args).value;
    var vs := EvalExprs(w.cfg, args, env).value;
    TargetIs(w, env, ts, c, f);
    var n1, c1;
    if Inlined(f, |args|) {
      BuiltinAt(w, f, args, c);
      n1, c1 := SimArgs(w, args, env, ts, us, true, c);
      n, d := FinishBuiltin(w, f, args, us, vs, env, ts, c, n1, c1);
    } else {
      CallAt(w, f, args, c);
      n1, c1 := SimArgs(w, args, env, ts, us, false, c);
      n, d := FinishCall(w, f, args, vs, env, ts, c, n1, c1);
    }
  }

  lemma BuiltinIs(c: Cfg, f: string, vs: seq<Value>)
    requires BuiltinsWork(c) && Inlined(f, |vs|) && AllInts(vs)
    ensures c.call(f, vs) == Ok(I64(Scalar(f, vs)))
  {
    hide Scalar;
    assert c.call(f, vs) == Builtin(f, vs);
  }

  lemma FinishBuiltin(w: World, f: string, args: seq<Expr>, us: seq<Ty>, vs: seq<Value>, env: Env, ts: Types, c: Cpu, n1: nat, c1: Cpu)
    returns (n: nat, d: Cpu)
    requires Ready(w, env, ts, c) && Inlined(f, |args|) && |vs| == |args|
    requires us == seq(|args|, _ => TInt) && AllTyped(vs, us)
    requires ArgsDone(w.code, c, ArgsLen(args, true), vs, true, n1, c1)
    requires CodeAt(w.code, c.pc + ArgsLen(args, true), BuiltinTail(f))
    ensures w.cfg.call(f, vs) == Ok(I64(Scalar(f, vs)))
    ensures Computes(w.code, c, ExprLen(Call(f, args)), I64(Scalar(f, vs)), n, d)
  {
    hide CodeAt, BuiltinTail, Stacked, Above, Exec, Match, CallsWork, BuiltinsWork, Scalar;
    assert AllInts(vs) by { forall i | 0 <= i < |vs| ensures vs[i].I64? { assert us[i] == TInt; } }
    BuiltinIs(w.cfg, f, vs);
    assert vs != [];
    var m;
    m, d := TailRuns(w.code, f, vs, c1);
    ExecThen(w.code, c, n1, c1, m);
    n := n1 + m;
  }

  lemma FinishCall(w: World, f: string, args: seq<Expr>, vs: seq<Value>, env: Env, ts: Types, c: Cpu, n1: nat, c1: Cpu)
    returns (n: nat, d: Cpu)
    requires Ready(w, env, ts, c) && !Inlined(f, |args|) && |vs| == |args| <= 8
    requires f in w.callable && f in w.sigs && AllTyped(vs, w.sigs[f].params) && w.cfg.call(f, vs).Ok?
    requires ArgsDone(w.code, c, ArgsLen(args, false), vs, false, n1, c1)
    requires CodeAt(w.code, c.pc + ArgsLen(args, false), Pops(|args|))
    requires CodeAt(w.code, c.pc + ArgsLen(args, false) + |args|, [Bl(Entry(w.g, f) - (c.pc - w.base + ArgsLen(args, false) + |args|))])
    ensures Computes(w.code, c, ExprLen(Call(f, args)), w.cfg.call(f, vs).value, n, d)
    ensures HasType(w.cfg.call(f, vs).value, w.sigs[f].result)
  {
    hide CodeAt, Stacked, Above, Exec, Match, CallsWork, Pops, AllTyped, Word;
    assert vs[..|vs|] == vs;
    var m;
    m, d := CallRuns(w, f, vs, c1, Entry(w.g, f) - (c.pc - w.base + ArgsLen(args, false) + |args|));
    ExecThen(w.code, c, n1, c1, m);
    AboveTrans(c.mem, c1.mem, d.mem, c.sp, c.sp);
    n := n1 + m;
  }
}

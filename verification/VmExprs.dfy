/** Simulation of expressions: running the code of an expression pushes exactly the value
    the tree-walker computes, or stops with the error the tree-walker raises. */
module VmExprs {
  import opened Ir
  import opened Eval
  import opened Vm

  /** Anything but a conversion error: a value, another error, or no result. */
  predicate Settled<T>(r: Res<T>) { r.Err? ==> !TypeFault(r.error) }

  /** The two dispatchers agree wherever the tree-walker's callee settles. */
  ghost predicate Agree(tree: Dispatch, vm: Dispatch) {
    forall f, args :: Settled(tree(f, args)) ==> vm(f, args) == tree(f, args)
  }

  // ---- Where code sits ----

  ghost predicate CodeAt(ops: seq<VmOp>, pc: nat, code: seq<VmOp>) {
    pc + |code| <= |ops| && forall i :: 0 <= i < |code| ==> ops[pc + i] == code[i]
  }

  lemma CodeSplit(ops: seq<VmOp>, pc: nat, a: seq<VmOp>, b: seq<VmOp>)
    requires CodeAt(ops, pc, a + b)
    ensures CodeAt(ops, pc, a) && CodeAt(ops, pc + |a|, b)
  {
    forall i | 0 <= i < |a| ensures ops[pc + i] == a[i] {
      assert (a + b)[i] == a[i];
    }
    forall i | 0 <= i < |b| ensures ops[pc + |a| + i] == b[i] {
      assert (a + b)[|a| + i] == b[i];
    }
  }

  lemma CodeOne(ops: seq<VmOp>, pc: nat, op: VmOp)
    requires CodeAt(ops, pc, [op])
    ensures pc < |ops| && ops[pc] == op
  {
    assert ops[pc + 0] == [op][0];
  }

  /** Split off the final instruction. */
  lemma CodeLast(ops: seq<VmOp>, pc: nat, a: seq<VmOp>, op: VmOp)
    requires CodeAt(ops, pc, a + [op])
    ensures CodeAt(ops, pc, a) && pc + |a| < |ops| && ops[pc + |a|] == op
  {
    CodeSplit(ops, pc, a, [op]);
    assert ops[pc + |a| + 0] == [op][0];
  }

  /** Run on from `s1`, reached after `n` turns, by one more turn. */
  lemma AndStep(ops: seq<VmOp>, call: Dispatch, s0: State, n: nat, s1: State)
    requires Exec(ops, call, s0, n) == Next(s1)
    ensures Exec(ops, call, s0, n + 1) == Step(ops, call, s1)
  {
    ExecThen(ops, call, s0, n, s1, 1);
    assert Exec(ops, call, s1, 1) == Step(ops, call, s1);
  }

  /** `test; branch; body; jump; rest`, the shape of a branch of an `if` and of a `while`. */
  lemma SplitBranch(ops: seq<VmOp>, pc: nat, test: seq<VmOp>, branch: VmOp, body: seq<VmOp>, jump: VmOp, rest: seq<VmOp>)
    requires CodeAt(ops, pc, test + [branch] + body + [jump] + rest)
    ensures CodeAt(ops, pc, test)
    ensures var p1 := pc + |test|;
            && p1 < |ops| && ops[p1] == branch && CodeAt(ops, p1 + 1, body)
            && var p2 := p1 + 1 + |body|; p2 < |ops| && ops[p2] == jump && CodeAt(ops, p2 + 1, rest)
  {
    hide CodeAt;
    CodeSplit(ops, pc, test + [branch] + body + [jump], rest);
    CodeLast(ops, pc, test + [branch] + body, jump);
    CodeSplit(ops, pc, test + [branch], body);
    CodeLast(ops, pc, test, branch);
  }

  /** `value; op; rest`. */
  lemma SplitOp(ops: seq<VmOp>, pc: nat, value: seq<VmOp>, op: VmOp, rest: seq<VmOp>)
    requires CodeAt(ops, pc, value + [op] + rest)
    ensures CodeAt(ops, pc, value)
    ensures var p := pc + |value|; p < |ops| && ops[p] == op && CodeAt(ops, p + 1, rest)
  {
    hide CodeAt;
    CodeSplit(ops, pc, value + [op], rest);
    CodeLast(ops, pc, value, op);
  }

  lemma ExecZero(ops: seq<VmOp>, call: Dispatch, st: State)
    ensures Exec(ops, call, st, 0) == Next(st)
  {
  }

  // ---- Single instructions, run on from a state already reached ----

  lemma DoPush(ops: seq<VmOp>, call: Dispatch, s0: State, n: nat, s1: State, v: Value)
    requires Exec(ops, call, s0, n) == Next(s1)
    requires s1.pc < |ops| && (ops[s1.pc] == PushConst(v) || (ops[s1.pc] == PushVoid && v == Void))
    ensures Exec(ops, call, s0, n + 1) == Next(State(s1.pc + 1, s1.stack + [v], s1.frame))
  {
    AndStep(ops, call, s0, n, s1);
    assert s1.stack[..|s1.stack|] == s1.stack;
  }

  lemma DoJump(ops: seq<VmOp>, call: Dispatch, s0: State, n: nat, s1: State, target: nat)
    requires Exec(ops, call, s0, n) == Next(s1)
    requires s1.pc < |ops| && ops[s1.pc] == Jump(target)
    ensures Exec(ops, call, s0, n + 1) == Next(s1.(pc := target))
  {
    AndStep(ops, call, s0, n, s1);
  }

  /** A conditional jump on the value `v` on top of `stack`. */
  lemma DoBranch(ops: seq<VmOp>, call: Dispatch, s0: State, n: nat, s1: State, stack: seq<Value>, v: Value, taken: bool, target: nat)
    requires Exec(ops, call, s0, n) == Next(s1) && s1.stack == stack + [v]
    requires s1.pc < |ops| && ops[s1.pc] == if taken then JumpIfTrue(target) else JumpIfFalse(target)
    ensures v.Bool? ==>
              Exec(ops, call, s0, n + 1) == Next(State(if v.b == taken then target else s1.pc + 1, stack, s1.frame))
    ensures !v.Bool? ==> Exec(ops, call, s0, n + 1) == Fail(AsBool(v).error)
  {
    AndStep(ops, call, s0, n, s1);
    assert s1.stack[..|stack|] == stack;
  }

  lemma DoStore(ops: seq<VmOp>, call: Dispatch, s0: State, n: nat, s1: State, stack: seq<Value>, v: Value, slot: nat)
    requires Exec(ops, call, s0, n) == Next(s1) && s1.stack == stack + [v]
    requires s1.pc < |ops| && ops[s1.pc] == StoreLocal(slot) && slot < |s1.frame|
    ensures Exec(ops, call, s0, n + 1) == Next(State(s1.pc + 1, stack, s1.frame[slot := v]))
  {
    AndStep(ops, call, s0, n, s1);
    assert s1.stack[..|stack|] == stack;
  }

  // ---- Slots refine scopes ----

  /** Every binding of every scope sits in its slot. */
  ghost predicate Match(env: Env, scopes: Scopes<nat>, frame: seq<Value>) {
    |env| == |scopes| &&
    forall k :: 0 <= k < |env| ==> MatchScope(env[k], scopes[k], frame)
  }

  ghost predicate MatchScope(scope: map<string, Value>, slots: map<string, nat>, frame: seq<Value>) {
    scope.Keys == slots.Keys &&
    forall x :: x in slots ==> slots[x] < |frame| && frame[slots[x]] == scope[x]
  }

  /** A name resolves at run time exactly when it resolves at compile time, to the value in its slot. */
  lemma MatchLookup(env: Env, scopes: Scopes<nat>, frame: seq<Value>, x: string)
    requires Match(env, scopes, frame)
    ensures Nearest(env, x) == Nearest(scopes, x)
    ensures Lookup(scopes, x).Some? ==>
              Lookup(scopes, x).value < |frame| && Lookup(env, x) == Some(frame[Lookup(scopes, x).value])
  {
    var k := Nearest(env, x);
    if k.Some? {
      assert MatchScope(env[k.value], scopes[k.value], frame);
      forall j | k.value < j < |scopes| ensures x !in scopes[j] {
        assert MatchScope(env[j], scopes[j], frame);
      }
      NearestIs(scopes, x, k.value);
    } else {
      forall j | 0 <= j < |scopes| ensures x !in scopes[j] {
        assert MatchScope(env[j], scopes[j], frame);
      }
    }
  }

  /** Every visible name has been recorded as a local. */
  ghost predicate Named(ctx: Ctx) {
    forall k, x :: 0 <= k < |ctx.scopes| && x in ctx.scopes[k] ==> x in ctx.locals
  }

  // ---- Expressions ----

  /** What running an expression's code must do, given what the tree-walker does. */
  ghost predicate Pushes(r: Res<Value>, ops: seq<VmOp>, call: Dispatch, st: State, len: nat, n: nat) {
    match r
    case Ok(v) => Exec(ops, call, st, n) == Next(State(st.pc + len, st.stack + [v], st.frame))
    case Err(e) => TypeFault(e) || Exec(ops, call, st, n) == Fail(e)
    case NoResult => Exec(ops, call, st, n) == Hung
  }

  ghost predicate PushesAll(r: Res<seq<Value>>, ops: seq<VmOp>, call: Dispatch, st: State, len: nat, n: nat) {
    match r
    case Ok(vs) => Exec(ops, call, st, n) == Next(State(st.pc + len, st.stack + vs, st.frame))
    case Err(e) => TypeFault(e) || Exec(ops, call, st, n) == Fail(e)
    case NoResult => Exec(ops, call, st, n) == Hung
  }

  /** The common setting of the simulation lemmas. */
  ghost predicate Setting(c: Cfg, call: Dispatch, ctx: Ctx, env: Env, frame: seq<Value>) {
    Agree(c.call, call) && Named(ctx) && Match(env, ctx.scopes, frame)
  }

  lemma {:induction false} SimExpr(c: Cfg, call: Dispatch, ops: seq<VmOp>, e: Expr, ctx: Ctx, env: Env, st: State)
    returns (n: nat)
    requires CompileExpr(e, ctx, st.pc).Some? && CodeAt(ops, st.pc, CompileExpr(e, ctx, st.pc).value)
    requires Setting(c, call, ctx, env, st.frame)
    ensures Pushes(EvalExpr(c, e, env), ops, call, st, ExprLen(e), n)
    decreases e, 2
  {
    hide Exec, Step, Setting, CodeAt, EvalExpr, ExprLen, Pushes;
    match e
    case Int(_) => n := SimLeaf(c, call, ops, e, ctx, env, st);
    case BoolLit(_) => n := SimLeaf(c, call, ops, e, ctx, env, st);
    case StrLit(_) => n := SimLeaf(c, call, ops, e, ctx, env, st);
    case Var(_) => n := SimLeaf(c, call, ops, e, ctx, env, st);
    case ArrayLit(es) => n := SimArray(c, call, ops, e, ctx, env, st);
    case Call(f, args) => n := SimCall(c, call, ops, e, ctx, env, st);
    case Index(t, i) =>
      if t.Var? {
        n := SimIndexLocal(c, call, ops, e, ctx, env, st);
      } else {
        n := SimIndex(c, call, ops, e, ctx, env, st);
      }
    case Field(t, field) =>
      if t.Var? {
        n := SimFieldLocal(c, call, ops, e, ctx, env, st);
      } else {
        n := SimField(c, call, ops, e, ctx, env, st);
      }
    case Unary(op, a) => n := SimUnary(c, call, ops, e, ctx, env, st);
    case Binary(l, op, r) =>
      if op == And || op == Or {
        n := SimLogic(c, call, ops, e, ctx, env, st);
      } else {
        n := SimStrict(c, call, ops, e, ctx, env, st);
      }
    case Cond(_, _, _) => assert false;
  }

  lemma {:induction false} SimLeaf(c: Cfg, call: Dispatch, ops: seq<VmOp>, e: Expr, ctx: Ctx, env: Env, st: State)
    returns (n: nat)
    requires e.Int? || e.BoolLit? || e.StrLit? || e.Var?
    requires CompileExpr(e, ctx, st.pc).Some? && CodeAt(ops, st.pc, CompileExpr(e, ctx, st.pc).value)
    requires Setting(c, call, ctx, env, st.frame)
    ensures Pushes(EvalExpr(c, e, env), ops, call, st, ExprLen(e), n)
    decreases e, 1
  {
    n := 1;
    if e.Var? {
      MatchLookup(env, ctx.scopes, st.frame, e.name);
    }
    CodeLast(ops, st.pc, [], CompileExpr(e, ctx, st.pc).value[0]);
    AndStep(ops, call, st, 0, st);
    assert st.stack[..|st.stack|] == st.stack;
  }

  /** The outcome of an instruction given the outcomes of its operands. */
  function Result1(op: VmOp, r: Res<Value>): Res<Value>
    requires op.Field? || op.Unary?
  {
    var v :- r;
    if op.Field? then FieldOf(v, op.field) else EvalUnary(op.uop, v)
  }

  function Result2(op: VmOp, l: Res<Value>, r: Res<Value>): Res<Value>
    requires op.Index? || (op.Binary? && op.op != And && op.op != Or)
  {
    var lv :- l;
    var rv :- r;
    if op.Index? then IndexOp(lv, rv) else EvalBinary(lv, op.op, rv)
  }

  function ResultAll(op: VmOp, call: Dispatch, r: Res<seq<Value>>): Res<Value>
    requires op.MakeArray? || op.Call?
  {
    var vs :- r;
    if op.MakeArray? then Ok(Array(vs)) else call(op.callee, vs)
  }

  /** One more instruction, which replaces what sits above `st.stack` by the outcome `r`. */
  lemma DoReplace(ops: seq<VmOp>, call: Dispatch, st: State, n: nat, s1: State, r: Res<Value>)
    requires Exec(ops, call, st, n) == Next(s1) && |st.stack| <= |s1.stack| && s1.stack[..|st.stack|] == st.stack
    requires s1.frame == st.frame && st.pc <= s1.pc && Step(ops, call, s1) == Push(r, s1, |st.stack|)
    ensures Pushes(r, ops, call, st, s1.pc + 1 - st.pc, n + 1)
  {
    hide Exec, Step;
    AndStep(ops, call, st, n, s1);
  }

  lemma StackTop(stack: seq<Value>, vs: seq<Value>)
    ensures (stack + vs)[|stack|..] == vs && (stack + vs)[..|stack|] == stack
  {
  }

  lemma Do1(ops: seq<VmOp>, call: Dispatch, st: State, n: nat, r: Res<Value>, len: nat, op: VmOp) returns (m: nat)
    requires op.Field? || op.Unary?
    requires Pushes(r, ops, call, st, len, n) && st.pc + len < |ops| && ops[st.pc + len] == op
    ensures Pushes(Result1(op, r), ops, call, st, len + 1, m)
  {
    hide Exec, FieldOf, EvalUnary;
    m := n;
    if r.Ok? {
      StackTop(st.stack, [r.value]);
      DoReplace(ops, call, st, n, State(st.pc + len, st.stack + [r.value], st.frame), Result1(op, r));
      m := n + 1;
    }
  }

  lemma DoAll(tree: Dispatch, ops: seq<VmOp>, call: Dispatch, st: State, n: nat, r: Res<seq<Value>>, len: nat, op: VmOp, count: nat)
    returns (m: nat)
    requires op == MakeArray(count) || (op.Call? && op.argc == count)
    requires PushesAll(r, ops, call, st, len, n) && (r.Ok? ==> |r.value| == count) && Agree(tree, call)
    requires st.pc + len < |ops| && ops[st.pc + len] == op
    ensures Pushes(ResultAll(op, tree, r), ops, call, st, len + 1, m)
  {
    hide Exec, Agree;
    m := n;
    if r.Ok? {
      StackTop(st.stack, r.value);
      DoReplace(ops, call, st, n, State(st.pc + len, st.stack + r.value, st.frame), ResultAll(op, call, r));
      if op.Call? && Settled(tree(op.callee, r.value)) { AgreeAt(tree, call, op.callee, r.value); }
      m := n + 1;
    }
  }

  lemma AgreeAt(tree: Dispatch, vm: Dispatch, name: string, args: seq<Value>)
    requires Agree(tree, vm) && Settled(tree(name, args))
    ensures vm(name, args) == tree(name, args)
  {
  }

  /** Code that computes arguments and then an instruction that takes them all. */
  lemma {:induction false} SimArgs(c: Cfg, call: Dispatch, ops: seq<VmOp>, e: Expr, es: seq<Expr>, op: VmOp, ctx: Ctx, env: Env, st: State)
    returns (n: nat)
    requires ((e.ArrayLit? && es == e.elems) || (e.Call? && es == e.args)) && (op == MakeArray(|es|) || (op.Call? && op.argc == |es|))
    requires CompileExprs(es, ctx, st.pc).Some? && CodeAt(ops, st.pc, CompileExprs(es, ctx, st.pc).value + [op])
    requires Setting(c, call, ctx, env, st.frame)
    ensures Pushes(ResultAll(op, c.call, EvalExprs(c, es, env)), ops, call, st, ExprsLen(es) + 1, n)
    decreases e, 0
  {
    hide Exec, Step, Setting, CodeAt, Pushes, PushesAll, CompileExprs;
    CodeLast(ops, st.pc, CompileExprs(es, ctx, st.pc).value, op);
    n := SimExprs(c, call, ops, es, ctx, env, st);
    assert Agree(c.call, call) by { SettingAgree(c, call, ctx, env, st.frame); }
    n := DoAll(c.call, ops, call, st, n, EvalExprs(c, es, env), ExprsLen(es), op, |es|);
  }

  lemma SettingAgree(c: Cfg, call: Dispatch, ctx: Ctx, env: Env, frame: seq<Value>)
    requires Setting(c, call, ctx, env, frame)
    ensures Agree(c.call, call)
  {
  }

  lemma {:induction false} SimArray(c: Cfg, call: Dispatch, ops: seq<VmOp>, e: Expr, ctx: Ctx, env: Env, st: State)
    returns (n: nat)
    requires e.ArrayLit?
    requires CompileExpr(e, ctx, st.pc).Some? && CodeAt(ops, st.pc, CompileExpr(e, ctx, st.pc).value)
    requires Setting(c, call, ctx, env, st.frame)
    ensures Pushes(EvalExpr(c, e, env), ops, call, st, ExprLen(e), n)
    decreases e, 1
  {
    hide Exec, Step, Setting, CodeAt, Pushes, PushesAll;
    n := SimArgs(c, call, ops, e, e.elems, MakeArray(|e.elems|), ctx, env, st);
  }

  lemma {:induction false} SimCall(c: Cfg, call: Dispatch, ops: seq<VmOp>, e: Expr, ctx: Ctx, env: Env, st: State)
    returns (n: nat)
    requires e.Call?
    requires CompileExpr(e, ctx, st.pc).Some? && CodeAt(ops, st.pc, CompileExpr(e, ctx, st.pc).value)
    requires Setting(c, call, ctx, env, st.frame)
    ensures Pushes(EvalExpr(c, e, env), ops, call, st, ExprLen(e), n)
    decreases e, 1
  {
    hide Exec, Step, Setting, CodeAt, Pushes, PushesAll, CallTarget;
    SettingCall(c, call, ctx, env, st.frame, e.callee);
    n := SimArgs(c, call, ops, e, e.args, VmOp.Call(e.callee, |e.args|), ctx, env, st);
  }

  /** A name that is no local is not bound at run time either, so it dispatches as itself. */
  lemma SettingCall(c: Cfg, call: Dispatch, ctx: Ctx, env: Env, frame: seq<Value>, name: string)
    requires Setting(c, call, ctx, env, frame) && name !in ctx.locals
    ensures CallTarget(name, env) == name
  {
    hide Agree;
    MatchLookup(env, ctx.scopes, frame, name);
  }

  lemma {:induction false} SimIndexLocal(c: Cfg, call: Dispatch, ops: seq<VmOp>, e: Expr, ctx: Ctx, env: Env, st: State)
    returns (n: nat)
    requires e.Index? && e.target.Var?
    requires CompileExpr(e, ctx, st.pc).Some? && CodeAt(ops, st.pc, CompileExpr(e, ctx, st.pc).value)
    requires Setting(c, call, ctx, env, st.frame)
    ensures Pushes(EvalExpr(c, e, env), ops, call, st, ExprLen(e), n)
    decreases e, 1
  {
    hide Exec, Step, Setting, IndexInto, EvalVar, CodeAt;
    var index := CompileExpr(e.index, ctx, st.pc).value;
    var slot := Lookup(ctx.scopes, e.target.name).value;
    CodeLast(ops, st.pc, index, IndexLocal(slot));
    n := SimExpr(c, call, ops, e.index, ctx, env, st);
    SettingLookup(c, call, ctx, env, st.frame, e.target.name);
    var i := EvalExpr(c, e.index, env);
    if i.Ok? {
      var s1 := State(st.pc + |index|, st.stack + [i.value], st.frame);
      StackTop(st.stack, [i.value]);
      IndexLocalStep(ops, call, s1, slot, st.stack, i.value);
      DoReplace(ops, call, st, n, s1, IndexOp(st.frame[slot], i.value));
      n := n + 1;
    }
  }

  lemma IndexLocalStep(ops: seq<VmOp>, call: Dispatch, s1: State, slot: nat, stack: seq<Value>, i: Value)
    requires s1.pc < |ops| && ops[s1.pc] == IndexLocal(slot) && slot < |s1.frame| && s1.stack == stack + [i]
    ensures Step(ops, call, s1) == Push(IndexOp(s1.frame[slot], i), s1, |stack|)
  {
  }

  lemma {:induction false} SimIndex(c: Cfg, call: Dispatch, ops: seq<VmOp>, e: Expr, ctx: Ctx, env: Env, st: State)
    returns (n: nat)
    requires e.Index? && !e.target.Var?
    requires CompileExpr(e, ctx, st.pc).Some? && CodeAt(ops, st.pc, CompileExpr(e, ctx, st.pc).value)
    requires Setting(c, call, ctx, env, st.frame)
    ensures Pushes(EvalExpr(c, e, env), ops, call, st, ExprLen(e), n)
    decreases e, 1
  {
    hide Exec, Step, Setting, IndexInto, CodeAt, Pushes;
    n := SimPair(c, call, ops, e, e.target, e.index, VmOp.Index, ctx, env, st);
  }

  lemma {:induction false} SimFieldLocal(c: Cfg, call: Dispatch, ops: seq<VmOp>, e: Expr, ctx: Ctx, env: Env, st: State)
    returns (n: nat)
    requires e.Field? && e.target.Var?
    requires CompileExpr(e, ctx, st.pc).Some? && CodeAt(ops, st.pc, CompileExpr(e, ctx, st.pc).value)
    requires Setting(c, call, ctx, env, st.frame)
    ensures Pushes(EvalExpr(c, e, env), ops, call, st, ExprLen(e), n)
    decreases e, 1
  {
    hide Exec, Setting, CodeAt, FieldOf;
    var slot := Lookup(ctx.scopes, e.target.name).value;
    SettingLookup(c, call, ctx, env, st.frame, e.target.name);
    CodeOne(ops, st.pc, FieldLocal(slot, e.field));
    ExecZero(ops, call, st);
    AndStep(ops, call, st, 0, st);
    assert st.stack[..|st.stack|] == st.stack;
    n := 1;
  }

  lemma {:induction false} SimField(c: Cfg, call: Dispatch, ops: seq<VmOp>, e: Expr, ctx: Ctx, env: Env, st: State)
    returns (n: nat)
    requires e.Field? && !e.target.Var?
    requires CompileExpr(e, ctx, st.pc).Some? && CodeAt(ops, st.pc, CompileExpr(e, ctx, st.pc).value)
    requires Setting(c, call, ctx, env, st.frame)
    ensures Pushes(EvalExpr(c, e, env), ops, call, st, ExprLen(e), n)
    decreases e, 1
  {
    hide Exec, Step, Setting, CodeAt, FieldOf, Pushes;
    var target := CompileExpr(e.target, ctx, st.pc).value;
    CodeLast(ops, st.pc, target, VmOp.Field(e.field));
    n := SimExpr(c, call, ops, e.target, ctx, env, st);
    n := Do1(ops, call, st, n, EvalExpr(c, e.target, env), |target|, VmOp.Field(e.field));
  }

  lemma {:induction false} SimUnary(c: Cfg, call: Dispatch, ops: seq<VmOp>, e: Expr, ctx: Ctx, env: Env, st: State)
    returns (n: nat)
    requires e.Unary?
    requires CompileExpr(e, ctx, st.pc).Some? && CodeAt(ops, st.pc, CompileExpr(e, ctx, st.pc).value)
    requires Setting(c, call, ctx, env, st.frame)
    ensures Pushes(EvalExpr(c, e, env), ops, call, st, ExprLen(e), n)
    decreases e, 1
  {
    hide Exec, Step, Setting, CodeAt, EvalUnary, Pushes;
    var arg := CompileExpr(e.operand, ctx, st.pc).value;
    CodeLast(ops, st.pc, arg, VmOp.Unary(e.uop));
    n := SimExpr(c, call, ops, e.operand, ctx, env, st);
    n := Do1(ops, call, st, n, EvalExpr(c, e.operand, env), |arg|, VmOp.Unary(e.uop));
  }

  lemma {:induction false} SimStrict(c: Cfg, call: Dispatch, ops: seq<VmOp>, e: Expr, ctx: Ctx, env: Env, st: State)
    returns (n: nat)
    requires e.Binary? && e.op != And && e.op != Or
    requires CompileExpr(e, ctx, st.pc).Some? && CodeAt(ops, st.pc, CompileExpr(e, ctx, st.pc).value)
    requires Setting(c, call, ctx, env, st.frame)
    ensures Pushes(EvalExpr(c, e, env), ops, call, st, ExprLen(e), n)
    decreases e, 1
  {
    hide Exec, Step, Setting, CodeAt, EvalBinary, Pushes, CompileExpr, EvalExpr, ExprLen;
    StrictShape(c, e, ctx, st.pc, env);
    n := SimPair(c, call, ops, e, e.left, e.right, VmOp.Binary(e.op), ctx, env, st);
  }

  lemma StrictShape(c: Cfg, e: Expr, ctx: Ctx, pc: nat, env: Env)
    requires e.Binary? && e.op != And && e.op != Or && CompileExpr(e, ctx, pc).Some?
    ensures ExprLen(e) == ExprLen(e.left) + ExprLen(e.right) + 1
    ensures CompileExpr(e.left, ctx, pc).Some? && CompileExpr(e.right, ctx, pc + ExprLen(e.left)).Some?
    ensures CompileExpr(e, ctx, pc).value ==
            CompileExpr(e.left, ctx, pc).value + CompileExpr(e.right, ctx, pc + ExprLen(e.left)).value + [VmOp.Binary(e.op)]
    ensures EvalExpr(c, e, env) == Result2(VmOp.Binary(e.op), EvalExpr(c, e.left, env), EvalExpr(c, e.right, env))
  {
    hide EvalBinary;
  }

  lemma SettingLookup(c: Cfg, call: Dispatch, ctx: Ctx, env: Env, frame: seq<Value>, x: string)
    requires Setting(c, call, ctx, env, frame)
    requires Lookup(ctx.scopes, x).Some?
    ensures Lookup(ctx.scopes, x).value < |frame|
    ensures EvalVar(c, x, env) == Ok(frame[Lookup(ctx.scopes, x).value])
  {
    MatchLookup(env, ctx.scopes, frame, x);
  }

  /** Two operands of `e`, then an instruction that combines them. */
  lemma {:induction false} SimPair(c: Cfg, call: Dispatch, ops: seq<VmOp>, e: Expr, l: Expr, r: Expr, op: VmOp, ctx: Ctx, env: Env, st: State)
    returns (n: nat)
    requires l < e && r < e && (op.Index? || (op.Binary? && op.op != And && op.op != Or))
    requires Setting(c, call, ctx, env, st.frame)
    requires CompileExpr(l, ctx, st.pc).Some? && CompileExpr(r, ctx, st.pc + ExprLen(l)).Some?
    requires CodeAt(ops, st.pc, CompileExpr(l, ctx, st.pc).value + CompileExpr(r, ctx, st.pc + ExprLen(l)).value + [op])
    ensures Pushes(Result2(op, EvalExpr(c, l, env), EvalExpr(c, r, env)), ops, call, st, ExprLen(l) + ExprLen(r) + 1, n)
    decreases e, 0
  {
    hide Exec, Step, Setting, CompileExpr, EvalExpr, ExprLen, CodeAt, Result2;
    var cl, cr := CompileExpr(l, ctx, st.pc).value, CompileExpr(r, ctx, st.pc + ExprLen(l)).value;
    CodeLast(ops, st.pc, cl + cr, op);
    CodeSplit(ops, st.pc, cl, cr);
    n := SimExpr(c, call, ops, l, ctx, env, st);
    var lv, rv := EvalExpr(c, l, env), EvalExpr(c, r, env);
    Result2Failed(op, lv, rv);
    if lv.Ok? {
      var s1 := State(st.pc + ExprLen(l), st.stack + [lv.value], st.frame);
      var m := SimExpr(c, call, ops, r, ctx, env, s1);
      ExecThen(ops, call, st, n, s1, m);
      n := n + m;
      if rv.Ok? {
        var s2 := State(st.pc + ExprLen(l) + ExprLen(r), st.stack + [lv.value, rv.value], st.frame);
        assert s1.stack + [rv.value] == s2.stack;
        Combine(ops, call, s2, st.stack, lv.value, rv.value, op);
        StackTop(st.stack, [lv.value, rv.value]);
        DoReplace(ops, call, st, n, s2, Result2(op, lv, rv));
        n := n + 1;
      }
    }
  }

  lemma Result2Failed(op: VmOp, l: Res<Value>, r: Res<Value>)
    requires op.Index? || (op.Binary? && op.op != And && op.op != Or)
    ensures l.Err? ==> Result2(op, l, r) == Err(l.error)
    ensures l.Ok? && r.Err? ==> Result2(op, l, r) == Err(r.error)
    ensures l.NoResult? || (l.Ok? && r.NoResult?) ==> Result2(op, l, r) == NoResult
  {
  }

  lemma Combine(ops: seq<VmOp>, call: Dispatch, s2: State, stack: seq<Value>, l: Value, r: Value, op: VmOp)
    requires op.Index? || (op.Binary? && op.op != And && op.op != Or)
    requires s2.pc < |ops| && ops[s2.pc] == op && s2.stack == stack + [l, r]
    ensures Step(ops, call, s2) == Push(Result2(op, Ok(l), Ok(r)), s2, |stack|)
  {
    hide IndexOp, EvalBinary;
  }

  /** Short-circuit `and`/`or`. The right operand's type is checked by the tree-walker only. */
  lemma {:induction false} SimLogic(c: Cfg, call: Dispatch, ops: seq<VmOp>, e: Expr, ctx: Ctx, env: Env, st: State)
    returns (n: nat)
    requires e.Binary? && (e.op == And || e.op == Or)
    requires CompileExpr(e, ctx, st.pc).Some? && CodeAt(ops, st.pc, CompileExpr(e, ctx, st.pc).value)
    requires Setting(c, call, ctx, env, st.frame)
    ensures Pushes(EvalExpr(c, e, env), ops, call, st, ExprLen(e), n)
    decreases e, 0
  {
    hide Exec, Step, Setting, CodeAt, EvalExpr, CompileExpr, ExprLen;
    var isOr := e.op == Or;
    var llen, rlen := ExprLen(e.left), ExprLen(e.right);
    var short := st.pc + llen + rlen + 2;
    LogicCode(ops, e, ctx, st.pc);
    LogicMeaning(c, e, env);
    n := SimExpr(c, call, ops, e.left, ctx, env, st);
    var lv := EvalExpr(c, e.left, env);
    if lv.Ok? {
      DoBranch(ops, call, st, n, State(st.pc + llen, st.stack + [lv.value], st.frame), st.stack, lv.value, isOr, short);
      n := n + 1;
      if lv.value.Bool? {
        if lv.value.b == isOr {
          DoPush(ops, call, st, n, State(short, st.stack, st.frame), Bool(isOr));
          n := n + 1;
        } else {
          var s1 := State(st.pc + llen + 1, st.stack, st.frame);
          var m := SimExpr(c, call, ops, e.right, ctx, env, s1);
          ExecThen(ops, call, st, n, s1, m);
          n := n + m;
          var rv := EvalExpr(c, e.right, env);
          if rv.Ok? {
            DoJump(ops, call, st, n, State(short - 1, st.stack + [rv.value], st.frame), short + 1);
            n := n + 1;
          }
        }
      }
    }
  }

  /** `and`/`or` given the outcomes of both operands; the right one counts only when reached. */
  function ShortCircuit(isOr: bool, lv: Res<Value>, rv: Res<Value>): Res<Value> {
    var l :- lv;
    var lb :- AsBool(l);
    if lb == isOr then Ok(Bool(isOr)) else var r :- rv; var rb :- AsBool(r); Ok(Bool(rb))
  }

  lemma LogicMeaning(c: Cfg, e: Expr, env: Env)
    requires e.Binary? && (e.op == And || e.op == Or)
    ensures EvalExpr(c, e, env) == ShortCircuit(e.op == Or, EvalExpr(c, e.left, env), EvalExpr(c, e.right, env))
  {
  }

  lemma LogicCode(ops: seq<VmOp>, e: Expr, ctx: Ctx, pc: nat)
    requires e.Binary? && (e.op == And || e.op == Or)
    requires CompileExpr(e, ctx, pc).Some? && CodeAt(ops, pc, CompileExpr(e, ctx, pc).value)
    ensures ExprLen(e) == ExprLen(e.left) + ExprLen(e.right) + 3
    ensures CompileExpr(e.left, ctx, pc).Some? && CodeAt(ops, pc, CompileExpr(e.left, ctx, pc).value)
    ensures var rpc := pc + ExprLen(e.left) + 1;
            CompileExpr(e.right, ctx, rpc).Some? && CodeAt(ops, rpc, CompileExpr(e.right, ctx, rpc).value)
    ensures var short := pc + ExprLen(e.left) + ExprLen(e.right) + 2;
            && short < |ops|
            && ops[pc + ExprLen(e.left)] == ShortJump(e.op, short)
            && ops[short - 1] == Jump(short + 1) && ops[short] == PushConst(Bool(e.op == Or))
  {
    hide CodeAt, CompileExpr, ExprLen;
    LogicShape(e, ctx, pc);
    var left := CompileExpr(e.left, ctx, pc).value;
    var right := CompileExpr(e.right, ctx, pc + |left| + 1).value;
    var short := pc + |left| + |right| + 2;
    SplitBranch(ops, pc, left, ShortJump(e.op, short), right, Jump(short + 1), [PushConst(Bool(e.op == Or))]);
    CodeOne(ops, short, PushConst(Bool(e.op == Or)));
  }

  lemma {:induction false} SimExprs(c: Cfg, call: Dispatch, ops: seq<VmOp>, es: seq<Expr>, ctx: Ctx, env: Env, st: State)
    returns (n: nat)
    requires CompileExprs(es, ctx, st.pc).Some? && CodeAt(ops, st.pc, CompileExprs(es, ctx, st.pc).value)
    requires Setting(c, call, ctx, env, st.frame)
    ensures PushesAll(EvalExprs(c, es, env), ops, call, st, ExprsLen(es), n)
    decreases es, 0
  {
    hide Step, Setting, CompileExpr, EvalExpr, ExprLen, CodeAt;
    n := 0;
    if es == [] {
      assert st.stack + [] == st.stack;
    } else {
      var first := CompileExpr(es[0], ctx, st.pc).value;
      var rest := CompileExprs(es[1..], ctx, st.pc + |first|).value;
      CodeSplit(ops, st.pc, first, rest);
      n := SimExpr(c, call, ops, es[0], ctx, env, st);
      var v := EvalExpr(c, es[0], env);
      if v.Ok? {
        var s1 := State(st.pc + |first|, st.stack + [v.value], st.frame);
        var m := SimExprs(c, call, ops, es[1..], ctx, env, s1);
        ExecThen(ops, call, st, n, s1, m);
        n := n + m;
        var vs := EvalExprs(c, es[1..], env);
        if vs.Ok? {
          assert s1.stack + vs.value == st.stack + ([v.value] + vs.value);
        }
      }
    }
  }
}

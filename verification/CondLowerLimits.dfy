/** Why lowering needs its conditions: for each, the runs on which the lowered code does something
    else. */
module CondLowerLimits {
  import opened Ir
  import opened Eval
  import opened CondLower
  import opened CondLowerFacts
  import opened CondLowerBlocks

  // ---- A conditional in a loop condition ----

  /** What the condition hoists is drained by the body, so the loop tests a temporary that does
      not exist yet: whatever the original loop does, and be it to end at once, the lowered one
      fails at its first test. */
  lemma ConditionInBody(c: Cfg, zero: Zeros, e: Expr, body: seq<Stmt>, n: nat, env: Env, fuel: nat)
    requires env != [] && e.Cond? && body != [] && 0 < Lower(zero, e, n).next
    requires var temp := Temp(Lower(zero, e, n).next - 1); Lookup(env, temp).None? && temp !in c.funcs
    ensures var temp := Temp(Lower(zero, e, n).next - 1);
            EvalBlock(c, LowerBlock(zero, [While(e, body)], [], n).body, env, fuel).out == Fault("L0403", "unknown variable " + temp)
    ensures EvalExpr(c, e, env) == Ok(Bool(false)) ==> EvalBlock(c, [While(e, body)], env, fuel).out == Ok(Normal(Void))
  {
    hide EvalStmt, EvalExpr, LowerStmt, Lower, Temp, Choose, Lookup;
    var temp := Temp(Lower(zero, e, n).next - 1);
    var l := LowerStmt(zero, While(e, body), [], n);
    LoopLowers(zero, e, body, n);
    LoopEnds(c, e, body, env, fuel);
    OneStmt(c, While(e, body), env, fuel);
    TestFails(c, l.s, temp, env, fuel);
    OneStmt(c, l.s, env, fuel);
    var none: seq<Stmt> := [];
    assert [While(e, body)][1..] == none && LowerBlock(zero, none, [], l.next).body == [];
    assert none + [l.s] + [] == [l.s];
  }

  lemma LoopEnds(c: Cfg, e: Expr, body: seq<Stmt>, env: Env, fuel: nat)
    requires env != []
    ensures EvalExpr(c, e, env) == Ok(Bool(false)) ==> EvalStmt(c, While(e, body), env, fuel).out == Ok(Normal(Void))
  {
    hide EvalExpr;
  }

  lemma LoopLowers(zero: Zeros, e: Expr, body: seq<Stmt>, n: nat)
    requires e.Cond? && body != []
    ensures var l, low := LowerStmt(zero, While(e, body), [], n), Lower(zero, e, n);
            0 < low.next && l.pending == [] && l.s.While? && l.s.cond == Var(Temp(low.next - 1))
  {
    hide Temp, Choose, Lower;
    CondShape(zero, e, n);
    Drains(zero, body, [] + Lower(zero, e, n).pre, Lower(zero, e, n).next);
  }

  /** A block that holds a statement leaves nothing pending. */
  lemma Drains(zero: Zeros, body: seq<Stmt>, pending: seq<Stmt>, n: nat)
    requires body != []
    ensures LowerBlock(zero, body, pending, n).pending == []
  {
    hide LowerStmt;
    NothingPending(zero, body[1..], LowerStmt(zero, body[0], pending, n).next);
  }

  lemma TestFails(c: Cfg, s: Stmt, x: string, env: Env, fuel: nat)
    requires env != [] && Lookup(env, x).None? && x !in c.funcs && s.While? && s.cond == Var(x)
    ensures EvalStmt(c, s, env, fuel).out == Fault("L0403", "unknown variable " + x)
  {
    hide Lookup;
    assert EvalExpr(c, s.cond, env) == Fault("L0403", "unknown variable " + x);
  }

  // ---- Hoisting before an operand that is not reached, or is evaluated first ----

  /** The right operand of `and` or `or` is not reached, but what it hoists runs: the original has
      its value, the lowered code fails with the hoisted condition's failure. */
  lemma GuardIgnored(c: Cfg, zero: Zeros, e: Expr, n: nat, env: Env, fuel: nat)
    requires !c.moves && env != [] && Literals(zero) && e.Binary? && (e.op == And || e.op == Or)
    requires Plain(e.left) && e.right.Cond? && UserExpr(e.right) && Hoistable(e.right) && Plain(e.right.cond)
    requires EvalExpr(c, e.left, env) == Ok(Bool(e.op == Or)) && EvalExpr(c, e.right.cond, env).IsFailure()
    ensures EvalExpr(c, e, env) == Ok(Bool(e.op == Or))
    ensures LowValue(c, Lower(zero, e, n), env, fuel) == EvalExpr(c, e.right.cond, env)
  {
    hide EvalBlock, Literals, UserExpr, Hoistable, Plain;
    LowerPlain(zero, e.left, n);
    CondStops(c, zero, e.right, n, env, fuel);
    hide EvalExpr;
    var hoisted := Lower(zero, e.right, n).pre;
    assert [] + hoisted == hoisted;
  }

  /** A hoisted conditional whose condition fails stops the run before anything else. */
  lemma CondStops(c: Cfg, zero: Zeros, e: Expr, n: nat, env: Env, fuel: nat)
    requires !c.moves && env != [] && Literals(zero) && e.Cond? && UserExpr(e) && Hoistable(e) && Plain(e.cond)
    requires EvalExpr(c, e.cond, env).IsFailure()
    ensures LowValue(c, Lower(zero, e, n), env, fuel) == EvalExpr(c, e.cond, env)
    ensures EvalBlock(c, Lower(zero, e, n).pre, env, fuel).out == EvalExpr(c, e.cond, env).PropagateFailure()
  {
    hide EvalBlock, EvalExpr, Literals, Lower, Choose, UserExpr, Hoistable, Plain, TempsOnly, Like;
    UserCond(e);
    CondShape(zero, e, n);
    LowerPlain(zero, e.cond, n);
    var _ := ChoiceLowered(false, c, zero, e, n, env, fuel);
    var t := Lower(zero, e.thn, n);
    var hoisted := Choose(zero, e.cond, t, Lower(zero, e.els, t.next));
    assert [] + hoisted == hoisted;
  }

  /** An operand that fails, then a conditional whose condition fails: the original raises the
      operand's failure, the lowered code the condition's. They agree on such a run exactly when
      the two are the same failure. */
  lemma OrderDecides(c: Cfg, zero: Zeros, e: Expr, n: nat, env: Env, fuel: nat)
    requires !c.moves && env != [] && Literals(zero) && e.Binary? && e.op != And && e.op != Or
    requires Plain(e.left) && e.right.Cond? && UserExpr(e.right) && Hoistable(e.right) && Plain(e.right.cond)
    requires EvalExpr(c, e.left, env).IsFailure() && EvalExpr(c, e.right.cond, env).IsFailure()
    ensures EvalExpr(c, e, env) == EvalExpr(c, e.left, env)
    ensures LowValue(c, Lower(zero, e, n), env, fuel) == EvalExpr(c, e.right.cond, env)
  {
    hide EvalBlock, EvalExpr, Literals, UserExpr, Hoistable, Plain;
    StrictParts(c, e, env);
    LowerPlain(zero, e.left, n);
    CondStops(c, zero, e.right, n, env, fuel);
    var hoisted := Lower(zero, e.right, n).pre;
    assert [] + hoisted == hoisted;
  }

  /** The same for an argument before another: `f(a, t if k else e)`. */
  lemma ArgumentOrderDecides(c: Cfg, zero: Zeros, e: Expr, n: nat, env: Env, fuel: nat)
    requires !c.moves && env != [] && Literals(zero) && e.Call? && |e.args| == 2
    requires Plain(e.args[0]) && e.args[1].Cond? && UserExpr(e.args[1]) && Hoistable(e.args[1]) && Plain(e.args[1].cond)
    requires EvalExpr(c, e.args[0], env).IsFailure() && EvalExpr(c, e.args[1].cond, env).IsFailure()
    ensures EvalExpr(c, e, env) == EvalExpr(c, e.args[0], env)
    ensures LowValue(c, Lower(zero, e, n), env, fuel) == EvalExpr(c, e.args[1].cond, env)
  {
    hide EvalBlock, EvalExpr, Literals, UserExpr, Hoistable, Plain;
    ArgsMeaning(c, e, e.args, env);
    ConsMeaning(c, e.args, env);
    LowerPlain(zero, e.args[0], n);
    CondStops(c, zero, e.args[1], n, env, fuel);
    assert e.args[1..] == [e.args[1]] && e.args[1..][1..] == [];
    var low := Lower(zero, e.args[1], n);
    assert LowerAll(zero, e.args[1..], n).pre == low.pre by {
      hide Lower;
      assert LowerAll(zero, [], low.next).pre == [] && low.pre + [] == low.pre;
    }
    assert [] + low.pre == low.pre;
    assert LowerAll(zero, e.args, n).pre == low.pre by { hide Lower; }
  }
}

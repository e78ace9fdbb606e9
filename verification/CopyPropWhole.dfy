/** Copy propagation over whole programs, and where it goes wrong. */
module CopyPropWhole {
  import opened Words
  import opened Ir
  import opened Eval
  import opened EvalMono
  import opened Vm
  import opened VmExprs
  import opened VmStmts
  import opened Programs
  import opened VmTier
  import opened CopyProp
  import opened CopyPropFacts
  import VmLimits

  function RewriteModule(m: Module): Module {
    m.(functions := map name | name in m.functions :: RewriteFunction(m.functions[name]))
  }

  ghost predicate ModuleStable(m: Module) {
    forall name :: name in m.functions ==> BlockStable(m.functions[name].body, map[])
  }

  lemma BodySame(c: Cfg, f: Function, args: seq<Value>, fuel: nat)
    requires !c.moves && |f.params| == |args| && BlockStable(f.body, map[])
    ensures EvalBody(c, RewriteFunction(f), args, fuel) == EvalBody(c, f, args, fuel)
  {
    hide EvalBlock, RewriteBlock, BlockStable;
    BlockSame(c, f.body, map[], [BindParams(f.params, args)], fuel);
  }

  /** A call into the rewritten module gives what a call into the original gives: the same
      value, the same error, or no result for both. */
  lemma {:induction false} ProgramSame(m: Module, depth: nat, name: string, args: seq<Value>)
    requires ModuleStable(m)
    ensures Invoke(Tier(false, false), RewriteModule(m), depth, name, args) == Invoke(Tier(false, false), m, depth, name, args)
    decreases RECURSION_LIMIT - depth
  {
    hide EvalBody, BlockStable, RewriteBlock;
    var t, m' := Tier(false, false), RewriteModule(m);
    if name in m.functions && name !in m.taken && |m.functions[name].params| == |args| && depth < RECURSION_LIMIT {
      var f := m.functions[name];
      var c, d := CfgAt(t, m, depth + 1), CfgAt(t, m', depth + 1);
      forall g, vs ensures d.call(g, vs) == c.call(g, vs) { ProgramSame(m, depth + 1, g, vs); }
      assert m'.functions.Keys == m.functions.Keys;
      assert Refines(Finishing, c, d) && Refines(Finishing, d, c);
      ResultSame(c, d, f, args);
      assert Invoke(t, m, depth, name, args) == TreeResult(c, f, args);
      assert Invoke(t, m', depth, name, args) == TreeResult(d, RewriteFunction(f), args);
    }
  }

  lemma ResultSame(c: Cfg, d: Cfg, f: Function, args: seq<Value>)
    requires !c.moves && |f.params| == |args| && BlockStable(f.body, map[]) && Refines(Finishing, c, d) && Refines(Finishing, d, c)
    ensures TreeResult(d, RewriteFunction(f), args) == TreeResult(c, f, args)
  {
    hide EvalBody, BlockStable, RewriteBlock, Refines;
    var f' := RewriteFunction(f);
    assert !d.moves by { RefinesMoves(c, d); }
    if exists fuel :: EvalBody(c, f, args, fuel) != NoResult {
      var fuel :| EvalBody(c, f, args, fuel) != NoResult;
      TreeResultIs(c, f, args, fuel);
      BodyMono(Finishing, c, d, f, args, fuel, fuel);
      BodySame(d, f, args, fuel);
      TreeResultIs(d, f', args, fuel);
    } else {
      forall fuel ensures EvalBody(d, f', args, fuel) == NoResult {
        BodySame(d, f, args, fuel);
        BodyMono(Finishing, d, c, f, args, fuel, fuel);
        assert EvalBody(c, f, args, fuel) == NoResult;
      }
    }
  }

  lemma RefinesMoves(c: Cfg, d: Cfg)
    requires Refines(Finishing, c, d)
    ensures d.moves == c.moves
  {
  }

  /** Optimise, then run on the bytecode tier: the outcome of the original on the tree-walker. */
  lemma OptimisedTierAgrees(m: Module, depth: nat, name: string, args: seq<Value>)
    requires ModuleStable(m) && ModuleFits(RewriteModule(m))
    requires Settled(Invoke(Tier(false, false), m, depth, name, args))
    ensures Invoke(Tier(true, false), RewriteModule(m), depth, name, args) == Invoke(Tier(false, false), m, depth, name, args)
  {
    hide Invoke, ModuleStable, ModuleFits;
    ProgramSame(m, depth, name, args);
    TiersAgree(RewriteModule(m), depth, name, args);
  }

  // ---- Where it goes wrong ----

  /** Passes that the loop makes from `env` to `last` while both conditions hold. */
  ghost predicate Passes(c: Cfg, s: Stmt, cond: Expr, env: Env, k: nat, fuel: nat, last: Env)
    requires s.While? && env != []
    decreases k
  {
    if k == 0 then env == last
    else
      && EvalExpr(c, s.cond, env) == Ok(Bool(true)) && EvalExpr(c, cond, env) == Ok(Bool(true)) && k <= fuel
      && var r := EvalScoped(c, s.body, env, fuel);
         r.out.Ok? && (r.out.value.Normal? || r.out.value.Continued?) && Passes(c, s, cond, r.env, k - 1, fuel - 1, last)
  }

  lemma OnePass(c: Cfg, s: Stmt, a: Aliases, env: Env, fuel: nat)
    requires !c.moves && env != [] && s.While? && BlockStable(s.body, map[])
    ensures var s' := RewriteStmt(s, a); s'.While? && s'.cond == Rewrite(s.cond, a) && EvalScoped(c, s'.body, env, fuel) == EvalScoped(c, s.body, env, fuel)
  {
    hide EvalBlock, RewriteBlock, BlockStable;
    BlockSame(c, s.body, map[], env + [map[]], fuel);
  }

  lemma WhileStep(c: Cfg, s: Stmt, env: Env, fuel: nat)
    requires env != [] && s.While?
    ensures EvalExpr(c, s.cond, env) == Ok(Bool(false)) ==> EvalStmt(c, s, env, fuel) == Run(Ok(Normal(Void)), env)
    ensures EvalExpr(c, s.cond, env) == Ok(Bool(true)) ==>
              EvalStmt(c, s, env, fuel) == if fuel == 0 then Run(NoResult, env) else AfterIteration(c, s, EvalScoped(c, s.body, env, fuel), fuel)
  {
    hide EvalExpr, EvalScoped, AfterIteration;
  }

  /** A loop and its rewriting go together while their conditions agree, and part at the first
      pass after which these differ: the one ends there, the other goes into its body. */
  lemma {:induction false} LoopsPart(c: Cfg, s: Stmt, a: Aliases, env: Env, k: nat, fuel: nat, last: Env)
    requires !c.moves && env != [] && s.While? && BlockStable(s.body, map[]) && Passes(c, s, Rewrite(s.cond, a), env, k, fuel, last)
    ensures k <= fuel
    ensures var s' := RewriteStmt(s, a);
            && last != [] && s'.While? && EvalStmt(c, s, env, fuel) == EvalStmt(c, s, last, fuel - k)
            && EvalStmt(c, s', env, fuel) == EvalStmt(c, s', last, fuel - k)
    ensures var s' := RewriteStmt(s, a);
            forall b: bool :: EvalExpr(c, s.cond, last) == Ok(Bool(b)) && EvalExpr(c, s'.cond, last) == Ok(Bool(!b)) ==>
              var (ended, went) := if b then (s', s) else (s, s');
              && EvalStmt(c, ended, last, fuel - k) == Run(Ok(Normal(Void)), last)
              && EvalStmt(c, went, last, fuel - k)
                 == if fuel == k then Run(NoResult, last) else AfterIteration(c, went, EvalScoped(c, s.body, last, fuel - k), fuel - k)
    decreases k
  {
    hide EvalExpr, EvalScoped, EvalStmt, RewriteStmt, BlockStable;
    var s' := RewriteStmt(s, a);
    OnePass(c, s, a, env, fuel);
    if k == 0 {
      WhileStep(c, s, env, fuel);
      WhileStep(c, s', env, fuel);
    } else {
      WhileStep(c, s, env, fuel);
      WhileStep(c, s', env, fuel);
      LoopsPart(c, s, a, EvalScoped(c, s.body, env, fuel).env, k - 1, fuel - 1, last);
    }
  }

  function IsPositive(x: string): Expr { Expr.Binary(Var(x), Greater, Int(0)) }

  function CountDown(tested: string): Stmt {
    While(IsPositive(tested), [Assign("i", Replace, Expr.Binary(Var("i"), Subtract, Int(1)))])
  }

  /** `let n = 1; let i = n; while i > 0 { i = i - 1 }`. */
  function Countdown(): seq<Stmt> { [Let("n", Int(1)), Let("i", Var("n")), CountDown("i")] }

  /** The rewritten loop tests `n`, which the body does not change: what ended after one
      pass goes on for ever. */
  lemma ConditionGoesStale(c: Cfg, fuel: nat)
    requires !c.moves
    ensures !BlockStable(Countdown(), map[])
    ensures EvalBlock(c, Countdown(), [map[]], 1).out == Ok(Normal(Void))
    ensures RewriteBlock(Countdown(), map[]) == [Let("n", Int(1)), Let("i", Var("n")), CountDown("n")]
    ensures EvalBlock(c, RewriteBlock(Countdown(), map[]), [map[]], fuel).out == NoResult
  {
    hide EvalStmt, EvalScoped, CountDown;
    CountdownRewritten();
    var start: Env, one := [map["n" := I64(1)]], [map["n" := I64(1), "i" := I64(1)]];
    CountdownLets(c, 1);
    CountdownLets(c, fuel);
    CountdownStep(c, 1, 1);
    CountdownEnds(c);
    StaleForever(c, 1, fuel);
    var lets := Countdown()[..2];
    BlockOfThree(c, Countdown(), 1);
    BlockOfThree(c, [Let("n", Int(1)), Let("i", Var("n")), CountDown("n")], fuel);
  }

  lemma BlockOfThree(c: Cfg, body: seq<Stmt>, fuel: nat)
    requires |body| == 3
    requires EvalStmt(c, body[0], [map[]], fuel) == Run(Ok(Normal(Void)), [map["n" := I64(1)]])
    requires EvalStmt(c, body[1], [map["n" := I64(1)]], fuel) == Run(Ok(Normal(Void)), [map["n" := I64(1), "i" := I64(1)]])
    ensures EvalBlock(c, body, [map[]], fuel) == EvalStmt(c, body[2], [map["n" := I64(1), "i" := I64(1)]], fuel)
  {
    hide EvalStmt;
    assert body[1..][0] == body[1] && body[1..][1..] == [body[2]];
    assert EvalBlock(c, [body[2]], [map["n" := I64(1), "i" := I64(1)]], fuel) == EvalStmt(c, body[2], [map["n" := I64(1), "i" := I64(1)]], fuel);
    assert EvalBlock(c, body[1..], [map["n" := I64(1)]], fuel) == EvalStmt(c, body[2], [map["n" := I64(1), "i" := I64(1)]], fuel);
  }

  lemma CountdownRewritten()
    ensures RewriteBlock(Countdown(), map[]) == [Let("n", Int(1)), Let("i", Var("n")), CountDown("n")]
    ensures !BlockStable(Countdown(), map[])
  {
    var a0, a2: Aliases := map[], map["i" := "n"];
    var body := Countdown();
    assert AfterStmt(body[0], a0) == a0;
    assert Resolve("n", a0) == "n" && Resolve("i", a2) == "n" by { FlatResolve("n", a0); FlatResolve("i", a2); }
    assert Invalidate("i", a0) == a0;
    assert AfterStmt(body[1], a0) == a2;
    assert Rewrite(IsPositive("i"), a2) == IsPositive("n");
    var inner := CountDown("i").body;
    assert Resolve("i", a0) == "i" by { FlatResolve("i", a0); }
    assert RewriteBlock(inner, a0) == inner by { assert RewriteStmt(inner[0], a0) == inner[0]; assert inner[1..] == []; }
    assert RewriteStmt(body[2], a2) == CountDown("n");
    assert body[1..][1..] == [body[2]] && body[1..][0] == body[1];
    assert RewriteBlock([body[2]], a2) == [CountDown("n")];
    assert !Stable(IsPositive("i"), inner, a2) by {
      assert UsesVar(IsPositive("i"), "i") && EvalFacts.BlockAssigns(inner, "i") by { assert EvalFacts.Assigns(inner[0], "i"); }
    }
    assert !StmtStable(body[2], a2);
    assert !BlockStable([body[2]], a2);
    assert !BlockStable(body[1..], a0);
  }

  lemma CountdownLets(c: Cfg, fuel: nat)
    requires !c.moves
    ensures EvalStmt(c, Let("n", Int(1)), [map[]], fuel) == Run(Ok(Normal(Void)), [map["n" := I64(1)]])
    ensures EvalStmt(c, Let("i", Var("n")), [map["n" := I64(1)]], fuel) == Run(Ok(Normal(Void)), [map["n" := I64(1), "i" := I64(1)]])
  {
    var one: Env := [map["n" := I64(1)]];
    assert Lookup(one, "n") == Some(I64(1));
    assert map["n" := I64(1)]["i" := I64(1)] == map["n" := I64(1), "i" := I64(1)];
  }

  function At(i: i64): Env { [map["n" := I64(1), "i" := I64(i)]] }

  /** One pass of the body. */
  lemma CountdownStep(c: Cfg, i: i64, fuel: nat)
    requires !c.moves
    ensures EvalScoped(c, CountDown("i").body, At(i), fuel) == Run(Ok(Normal(Void)), At(Wrap(i - 1)))
  {
    var inner := At(i) + [map[]];
    NearestIs(inner, "i", 0);
    var e := Expr.Binary(Var("i"), Subtract, Int(1));
    assert EvalExpr(c, e, inner) == Ok(I64(Wrap(i - 1))) by { assert EvalExpr(c, Var("i"), inner) == Ok(I64(i)); }
    assert inner[0]["i" := I64(Wrap(i - 1))] == At(Wrap(i - 1))[0];
    assert Update(inner, "i", I64(Wrap(i - 1))) == At(Wrap(i - 1)) + [map[]];
    assert (At(Wrap(i - 1)) + [map[]])[..1] == At(Wrap(i - 1));
    assert EvalStmt(c, CountDown("i").body[0], inner, fuel) == Run(Ok(Normal(Void)), At(Wrap(i - 1)) + [map[]]);
  }

  lemma Tested(c: Cfg, x: string, i: i64)
    requires x == "n" || x == "i"
    ensures EvalExpr(c, IsPositive(x), At(i)) == Ok(Bool(if x == "n" then true else i > 0))
  {
    assert Lookup(At(i), "n") == Some(I64(1)) && Lookup(At(i), "i") == Some(I64(i));
    assert EvalExpr(c, Var(x), At(i)) == Ok(I64(if x == "n" then 1 else i));
  }

  lemma CountdownEnds(c: Cfg)
    requires !c.moves
    ensures EvalStmt(c, CountDown("i"), At(1), 1).out == Ok(Normal(Void))
  {
    hide EvalExpr, EvalScoped;
    Tested(c, "i", 1);
    Tested(c, "i", 0);
    CountdownStep(c, 1, 1);
    assert EvalStmt(c, CountDown("i"), At(0), 0).out == Ok(Normal(Void));
  }

  lemma {:induction false} StaleForever(c: Cfg, i: i64, fuel: nat)
    requires !c.moves
    ensures EvalStmt(c, CountDown("n"), At(i), fuel).out == NoResult
    decreases fuel
  {
    hide EvalExpr, EvalScoped;
    Tested(c, "n", i);
    if fuel > 0 {
      CountdownStep(c, i, fuel);
      StaleForever(c, Wrap(i - 1), fuel - 1);
    }
  }

  /** A function the bytecode tier runs correctly and whose rewritten form it does not: the
      pass puts the loop variable's own name into a bound. */
  function Renamed(): seq<Stmt> { [Let("i", Int(0)), Let("e", Var("i")), CountedBy("e"), Stmt.Return(Some(Int(3)))] }

  function CountedBy(bound: string): Stmt { For("i", Int(1), Var(bound), None, [Stmt.Return(Some(Int(7)))]) }

  lemma RewritingBreaksFits(c: Cfg)
    requires !c.moves
    ensures BlockFits(Renamed(), true) && BlockStable(Renamed(), map[])
    ensures VmLimits.Tree(c, Renamed(), 1) == Ok(I64(3)) && CompileFunction(VmLimits.Body(Renamed())).Some?
    ensures exists n :: VmLimits.Machine(c.call, Renamed(), n) == Done(I64(3))
    ensures var rewritten := RewriteBlock(Renamed(), map[]);
            && !BlockFits(rewritten, true) && VmLimits.Tree(c, rewritten, 1) == Ok(I64(3))
            && CompileFunction(VmLimits.Body(rewritten)).Some? && VmLimits.Machine(c.call, rewritten, 15) == Done(I64(7))
  {
    hide BlockFits, BlockStable, RewriteBlock, CompileFunction, EvalBody, VmLimits.SelfBoundBody, Exec, EvalBlock;
    RenamedRewritten();
    RenamedFits();
    RenamedCompiles();
    VmLimits.BoundNamesCounter(c);
    BodySame(c, VmLimits.Body(Renamed()), [], 1);
    var n := CompiledBodyAgrees(c, c.call, VmLimits.Body(Renamed()), [], 1);
    assert Result(VmLimits.Machine(c.call, Renamed(), n)) == Ok(I64(3));
  }

  lemma RenamedCompiles()
    ensures CompileFunction(VmLimits.Body(Renamed())).Some?
  {
    hide CompileStmt;
    VmLimits.BoundLets();
    CountedCompiles();
    var body, last := Renamed(), Stmt.Return(Some(Int(3)));
    assert body[1..][1..] == [CountedBy("e"), last] && body[1..][1..][1..] == [last];
    var ctx := CompileStmt(CountedBy("e"), false, VmLimits.AT2, 4, NoLoop).value.ctx;
    var pc := 4 + |CompileStmt(CountedBy("e"), false, VmLimits.AT2, 4, NoLoop).value.ops|;
    ReturnCompiles(3, true, ctx, pc, NoLoop);
    assert CompileBlock([last], true, ctx, pc, NoLoop).Some?;
    assert CompileBlock(body[1..][1..], true, VmLimits.AT2, 4, NoLoop).Some?;
    assert CompileBlock(body[1..], true, VmLimits.AT1, 2, NoLoop).Some?;
    assert CompileBlock(body, true, VmLimits.AT0, 0, NoLoop).Some?;
  }

  lemma ReturnCompiles(n: i64, tail: bool, ctx: Ctx, pc: nat, loop: Targets)
    requires ctx.scopes != []
    ensures CompileStmt(Stmt.Return(Some(Int(n))), tail, ctx, pc, loop).Some?
  {
  }

  lemma CountedCompiles()
    ensures CompileStmt(CountedBy("e"), false, VmLimits.AT2, 4, NoLoop).Some?
  {
    hide CompileExpr;
    var s, at := CountedBy("e"), VmLimits.AT2;
    var inside := Declare(Open(at), "i");
    NearestIs(inside.scopes, "e", 0);
    VmLimits.LiteralCode(Open(at), 1, 4);
    VmLimits.VarCode(inside, "e", 1, 6);
    VmLimits.LiteralCode(inside, 1, 8);
    assert CompileForHead(s, at, 4).Some?;
    var head := CompileForHead(s, at, 4).value;
    var exit := 4 + |head| + BlockLen(s.body, false) + 4;
    hide CompileForHead;
    ReturnCompiles(7, false, Open(ForCtx(s, at)), 4 + |head| + 2, InLoop(exit, exit - 2));
    hide CompileStmt, BlockLen;
    assert CompileBlock(s.body, false, Open(ForCtx(s, at)), 4 + |head| + 2, InLoop(exit, exit - 2)).Some?;
    assert CompileFor(s, false, at, 4).Some?;
    CountedIs(at);
  }

  lemma CountedIs(at: Ctx)
    requires at.scopes != []
    ensures CompileStmt(CountedBy("e"), false, at, 4, NoLoop) == CompileFor(CountedBy("e"), false, at, 4)
  {
    hide CompileFor;
  }

  lemma RenamedRewritten()
    ensures RewriteBlock(Renamed(), map[]) == VmLimits.SelfBoundBody()
  {
    hide Resolve;
    var a0, a2: Aliases := map[], map["e" := "i"];
    var body := Renamed();
    FlatResolve("i", a0);
    FlatResolve("e", a2);
    assert AfterStmt(body[0], a0) == a0;
    assert Invalidate("e", a0) == a0;
    assert AfterStmt(body[1], a0) == a2;
    var ret := Stmt.Return(Some(Int(7)));
    assert RewriteBlock([ret], a0) == [ret] by { assert RewriteStmt(ret, a0) == ret; }
    assert RewriteStmt(body[2], a2) == VmLimits.SelfBound();
    assert body[1..][0] == body[1] && body[1..][1..] == body[2..] && body[2..][1..] == [body[3]];
    forall a: Aliases ensures RewriteBlock([body[3]], a) == [body[3]] { assert RewriteStmt(body[3], a) == body[3]; }
    assert RewriteBlock(body[2..], a2) == [VmLimits.SelfBound(), body[3]];
    assert RewriteBlock(body[1..], a0) == [body[1]] + [VmLimits.SelfBound(), body[3]];
  }

  lemma RenamedFits()
    ensures BlockFits(Renamed(), true) && BlockStable(Renamed(), map[])
  {
    hide AfterStmt;
    var body := Renamed();
    assert body[1..][0] == body[1] && body[1..][1..] == body[2..] && body[2..][1..] == [body[3]];
    assert BlockFits([body[3]], true);
    assert Fits(body[2], false);
    assert BlockFits(body[2..], true);
    assert BlockFits(body[1..], true);
    StableSimple(body);
  }

  lemma StableSimple(body: seq<Stmt>)
    requires body == Renamed()
    ensures BlockStable(body, map[])
  {
    hide AfterStmt;
    assert body[1..][0] == body[1] && body[1..][1..] == body[2..] && body[2..][1..] == [body[3]] && [body[3]][1..] == [];
    assert body[2..][0] == body[2];
    forall a: Aliases ensures StmtStable(body[2], a) && StmtStable(body[3], a) { ReturnStable(a); }
    forall a: Aliases ensures BlockStable([body[3]], a) { }
    forall a: Aliases ensures BlockStable(body[2..], a) { }
    forall a: Aliases ensures BlockStable(body[1..], a) { }
  }

  lemma ReturnStable(a: Aliases)
    ensures StmtStable(Renamed()[2], a) && StmtStable(Renamed()[3], a)
  {
    hide AfterStmt;
    var body := [Stmt.Return(Some(Int(7)))];
    assert body[1..] == [] && StmtStable(body[0], map[]);
    assert BlockStable(body, map[]);
  }
}

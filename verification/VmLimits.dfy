/** Why `Fits` and `Settled` stand in the agreement theorem: for each condition, a function
    that breaks it and on which the two tiers part. */
module VmLimits {
  import opened Words
  import opened Ir
  import opened Eval
  import opened EvalFacts
  import opened Vm
  import opened VmExprs
  import opened VmStmts
  import opened VmSim
  import opened VmFlow

  function Body(body: seq<Stmt>): Function { Function("f", [], body) }

  function Tree(c: Cfg, body: seq<Stmt>, fuel: nat): Res<Value> { EvalBody(c, Body(body), [], fuel) }

  function Machine(call: Dispatch, body: seq<Stmt>, n: nat): Outcome
    requires CompileFunction(Body(body)).Some?
  {
    var p := CompileFunction(Body(body)).value;
    Exec(p.ops, call, State(0, [], InitialFrame([], p.frameSize)), n)
  }

  // ---- A region block as the last statement ----

  /** The tree-walker yields the region's value, the compiled code drops it and yields `Void`. */
  lemma RegionInTail(c: Cfg)
    ensures var body := [Region([ExprStmt(Int(5))])];
            && !BlockFits(body, true) && Tree(c, body, 0) == Ok(I64(5))
            && CompileFunction(Body(body)).Some? && Machine(c.call, body, 4) == Done(Void)
  {
    hide Exec, Step, CompileFunction, EvalBody;
    RegionTree(c);
    RegionCode();
    var ops, s0 := [PushConst(I64(5)), Pop, PushVoid, VmOp.Return], State(0, [], []);
    ExecZero(ops, c.call, s0);
    DoPush(ops, c.call, s0, 0, s0, I64(5));
    DoPop(ops, c.call, s0, 1, State(1, [] + [I64(5)], []), I64(5));
    DoPush(ops, c.call, s0, 2, State(2, [], []), Void);
    DoReturn(ops, c.call, s0, 3, State(3, [] + [Void], []));
  }

  lemma RegionTree(c: Cfg)
    ensures Tree(c, [Region([ExprStmt(Int(5))])], 0) == Ok(I64(5))
    ensures !BlockFits([Region([ExprStmt(Int(5))])], true)
  {
    var env: Env := [map[]];
    assert EvalStmt(c, ExprStmt(Int(5)), env + [map[]], 0).out == Ok(Normal(I64(5)));
    assert EvalScoped(c, [ExprStmt(Int(5))], env, 0).out == Ok(Normal(I64(5)));
    assert !Fits(Region([ExprStmt(Int(5))]), true);
  }

  lemma RegionCode()
    ensures CompileFunction(Body([Region([ExprStmt(Int(5))])])) == Some(Program([PushConst(I64(5)), Pop, PushVoid, VmOp.Return], 0))
  {
    var c0 := Ctx([map[]], 0, {});
    assert [PushConst(I64(5))] + [Pop] == [PushConst(I64(5)), Pop];
    assert [PushConst(I64(5)), Pop] + [PushVoid] + [VmOp.Return] == [PushConst(I64(5)), Pop, PushVoid, VmOp.Return];
    assert CompileExpr(Int(5), Open(c0), 0) == Some([PushConst(I64(5))]);
    assert CompileStmt(ExprStmt(Int(5)), false, Open(c0), 0, NoLoop) == Some(Code([PushConst(I64(5)), Pop], Open(c0)));
    assert Close(Open(c0), 1) == c0;
    assert CompileScoped([ExprStmt(Int(5))], false, c0, 0, NoLoop) == Some(Code([PushConst(I64(5)), Pop], c0));
    hide CompileScoped, CompileExpr;
    assert CompileStmt(Region([ExprStmt(Int(5))]), true, c0, 0, NoLoop) == Some(Code([PushConst(I64(5)), Pop] + [PushVoid], c0));
  }

  // ---- An operand of the wrong type ----

  function FiveAsBool(): Expr { Expr.Binary(BoolLit(true), And, Int(5)) }

  /** A right operand of `and` that is no boolean: the tree-walker raises a type fault, the
      compiled code passes the value on. */
  lemma UncheckedOperand(c: Cfg)
    ensures var body := [ExprStmt(FiveAsBool())];
            && BlockFits(body, true) && Tree(c, body, 0) == Fault("L0408", "expected bool value")
            && CompileFunction(Body(body)).Some? && Machine(c.call, body, 5) == Done(I64(5))
  {
    hide Exec, Step, CompileFunction, EvalBody;
    OperandTree(c);
    OperandCode();
    var ops := [PushConst(Bool(true)), JumpIfFalse(4), PushConst(I64(5)), Jump(5), PushConst(Bool(false)), VmOp.Return];
    var s0 := State(0, [], []);
    ExecZero(ops, c.call, s0);
    DoPush(ops, c.call, s0, 0, s0, Bool(true));
    DoBranch(ops, c.call, s0, 1, State(1, [] + [Bool(true)], []), [], Bool(true), false, 4);
    DoPush(ops, c.call, s0, 2, State(2, [], []), I64(5));
    DoJump(ops, c.call, s0, 3, State(3, [] + [I64(5)], []), 5);
    DoReturn(ops, c.call, s0, 4, State(5, [] + [I64(5)], []));
  }

  /** So it is with every such operand, wherever the operator stands. */
  lemma OperandPasses(c: Cfg, call: Dispatch, ops: seq<VmOp>, e: Expr, ctx: Ctx, env: Env, st: State) returns (n: nat)
    requires e.Binary? && (e.op == And || e.op == Or) && Setting(c, call, ctx, env, st.frame)
    requires CompileExpr(e, ctx, st.pc).Some? && CodeAt(ops, st.pc, CompileExpr(e, ctx, st.pc).value)
    requires EvalExpr(c, e.left, env) == Ok(Bool(e.op == And)) && EvalExpr(c, e.right, env).Ok? && !EvalExpr(c, e.right, env).value.Bool?
    ensures EvalExpr(c, e, env) == Fault("L0408", "expected bool value")
    ensures Exec(ops, call, st, n) == Next(State(st.pc + ExprLen(e), st.stack + [EvalExpr(c, e.right, env).value], st.frame))
  {
    hide Exec, Step, Setting, CodeAt, EvalExpr, CompileExpr, ExprLen;
    var short := st.pc + ExprLen(e.left) + ExprLen(e.right) + 2;
    LogicCode(ops, e, ctx, st.pc);
    LogicMeaning(c, e, env);
    n := SimExpr(c, call, ops, e.left, ctx, env, st);
    var s1, v := State(st.pc + ExprLen(e.left) + 1, st.stack, st.frame), EvalExpr(c, e.right, env).value;
    DoBranch(ops, call, st, n, State(s1.pc - 1, st.stack + [Bool(e.op == And)], st.frame), st.stack, Bool(e.op == And), e.op == Or, short);
    var m := SimExpr(c, call, ops, e.right, ctx, env, s1);
    ExecThen(ops, call, st, n + 1, s1, m);
    DoJump(ops, call, st, n + 1 + m, State(short - 1, st.stack + [v], st.frame), short + 1);
    n := n + 1 + m + 1;
  }

  lemma OperandTree(c: Cfg)
    ensures Tree(c, [ExprStmt(FiveAsBool())], 0) == Fault("L0408", "expected bool value") && BlockFits([ExprStmt(FiveAsBool())], true)
  {
    var env: Env := [map[]];
    assert EvalExpr(c, FiveAsBool(), env) == Fault("L0408", "expected bool value");
    assert EvalStmt(c, ExprStmt(FiveAsBool()), env, 0).out == Fault("L0408", "expected bool value");
  }

  lemma OperandCode()
    ensures CompileFunction(Body([ExprStmt(FiveAsBool())])) ==
            Some(Program([PushConst(Bool(true)), JumpIfFalse(4), PushConst(I64(5)), Jump(5), PushConst(Bool(false)), VmOp.Return], 0))
  {
    hide CompileExpr;
    var c0 := Ctx([map[]], 0, {});
    var code := [PushConst(Bool(true)), JumpIfFalse(4), PushConst(I64(5)), Jump(5), PushConst(Bool(false))];
    OperandExpr(c0);
    assert code + [] == code;
    assert code + [VmOp.Return] ==
           [PushConst(Bool(true)), JumpIfFalse(4), PushConst(I64(5)), Jump(5), PushConst(Bool(false)), VmOp.Return];
    assert CompileStmt(ExprStmt(FiveAsBool()), true, c0, 0, NoLoop) == Some(Code(code, c0));
  }

  lemma OperandExpr(c0: Ctx)
    ensures CompileExpr(FiveAsBool(), c0, 0) ==
            Some([PushConst(Bool(true)), JumpIfFalse(4), PushConst(I64(5)), Jump(5), PushConst(Bool(false))])
  {
    assert CompileExpr(BoolLit(true), c0, 0) == Some([PushConst(Bool(true))]);
    assert CompileExpr(Int(5), c0, 2) == Some([PushConst(I64(5))]);
    assert [PushConst(Bool(true))] + [JumpIfFalse(4)] + [PushConst(I64(5))] + [Jump(5)] + [PushConst(Bool(false))]
           == [PushConst(Bool(true)), JumpIfFalse(4), PushConst(I64(5)), Jump(5), PushConst(Bool(false))];
  }

  // ---- A loop bound that mentions the loop variable ----

  function SelfBound(): Stmt { For("i", Int(1), Var("i"), None, [Stmt.Return(Some(Int(7)))]) }

  function SelfBoundBody(): seq<Stmt> { [Let("i", Int(0)), Let("e", Var("i")), SelfBound(), Stmt.Return(Some(Int(3)))] }

  /** The tree-walker reads the outer variable, the compiled code the new one. */
  lemma BoundNamesCounter(c: Cfg)
    requires !c.moves
    ensures !BlockFits(SelfBoundBody(), true) && Tree(c, SelfBoundBody(), 1) == Ok(I64(3))
    ensures CompileFunction(Body(SelfBoundBody())).Some? && Machine(c.call, SelfBoundBody(), 15) == Done(I64(7))
  {
    hide Exec, Step, CompileFunction, EvalBody;
    BoundTree(c);
    BoundCode();
    BoundRun(c.call);
  }

  lemma BoundTree(c: Cfg)
    requires !c.moves
    ensures Tree(c, SelfBoundBody(), 1) == Ok(I64(3)) && !BlockFits(SelfBoundBody(), true)
  {
    hide EvalExpr;
    var env0: Env, env: Env := [map["i" := I64(0)]], [map["i" := I64(0), "e" := I64(0)]];
    var inner := env + [map["i" := I64(1)]];
    assert EvalBounds(c, Int(1), Var("i"), None, env) == Ok((1, 0, 1)) by { BoundValues(c, env); }
    assert EvalFor(c, SelfBound(), 1, 0, 1, inner, 1) == Run(Ok(Normal(Void)), inner);
    assert inner[..1] == env;
    assert EvalStmt(c, SelfBound(), env, 1) == Run(Ok(Normal(Void)), env);
    var rest, last := SelfBoundBody()[1..][1..], Stmt.Return(Some(Int(3)));
    assert rest == [SelfBound(), last] && rest[1..] == [last];
    assert EvalExpr(c, Int(3), env) == Ok(I64(3)) by { BoundValues(c, env); }
    assert EvalStmt(c, last, env, 1).out == Ok(Returned(I64(3)));
    assert EvalBlock(c, [last], env, 1).out == Ok(Returned(I64(3)));
    assert EvalBlock(c, rest, env, 1).out == Ok(Returned(I64(3)));
    BoundStart(c);
    assert EvalBlock(c, SelfBoundBody()[1..], env0, 1).out == Ok(Returned(I64(3)));
    assert !Fits(SelfBound(), false) by { assert Mentions(Var("i"), "i"); }
    assert !BlockFits(rest, true);
    assert !BlockFits(SelfBoundBody()[1..], true);
  }

  lemma BoundStart(c: Cfg)
    requires !c.moves
    ensures EvalStmt(c, Let("i", Int(0)), [map[]], 1) == Run(Ok(Normal(Void)), [map["i" := I64(0)]])
    ensures EvalStmt(c, Let("e", Var("i")), [map["i" := I64(0)]], 1) == Run(Ok(Normal(Void)), [map["i" := I64(0), "e" := I64(0)]])
  {
    assert Lookup([map["i" := I64(0)]], "i") == Some(I64(0));
    assert map["i" := I64(0)]["e" := I64(0)] == map["i" := I64(0), "e" := I64(0)];
  }

  lemma BoundValues(c: Cfg, env: Env)
    requires env == [map["i" := I64(0), "e" := I64(0)]]
    ensures EvalBounds(c, Int(1), Var("i"), None, env) == Ok((1, 0, 1)) && EvalExpr(c, Int(3), env) == Ok(I64(3))
  {
    assert Lookup(env, "i") == Some(I64(0));
  }

  function BoundOps(): seq<VmOp> {
    [PushConst(I64(0)), StoreLocal(0), LoadLocal(0), StoreLocal(1)] + BoundHead() + BoundLoop() + [PushConst(I64(3)), VmOp.Return] + [VmOp.Return]
  }

  function BoundHead(): seq<VmOp> {
    [PushConst(I64(1)), StoreLocal(2), LoadLocal(2), StoreLocal(3), PushConst(I64(1)), StoreLocal(4), CheckStepNonzero(4)]
  }

  function BoundLoop(): seq<VmOp> {
    [ForCheck(2, 3, 4), JumpIfFalse(17), PushConst(I64(7)), VmOp.Return, ForStep(2, 4), Jump(11)]
  }

  /** The context at the start, after either `let`, and after the loop. */
  const AT0: Ctx := Ctx([map[]], 0, {})
  const AT1: Ctx := Ctx([map["i" := 0]], 1, {"i"})
  const AT2: Ctx := Ctx([map["i" := 0, "e" := 1]], 2, {"i", "e"})
  const AT3: Ctx := Ctx([map["i" := 0, "e" := 1]], 5, {"i", "e"})

  lemma BoundCode()
    ensures CompileFunction(Body(SelfBoundBody())) == Some(Program(BoundOps(), 5))
  {
    hide CompileStmt, CompileFor, CompileExpr;
    var last := Stmt.Return(Some(Int(3)));
    BoundLets();
    BoundForCode();
    BoundLast(AT3);
    var rest := SelfBoundBody()[1..][1..];
    assert rest == [SelfBound(), last] && rest[1..] == [last];
    assert CompileBlock([last], true, AT3, 17, NoLoop) == Some(Code([PushConst(I64(3)), VmOp.Return], AT3));
    var tail := BoundHead() + BoundLoop() + [PushConst(I64(3)), VmOp.Return];
    assert CompileBlock(rest, true, AT2, 4, NoLoop) == Some(Code(tail, AT3));
    assert CompileBlock(SelfBoundBody()[1..], true, AT1, 2, NoLoop) == Some(Code([LoadLocal(0), StoreLocal(1)] + tail, AT3));
    var all := [PushConst(I64(0)), StoreLocal(0)] + ([LoadLocal(0), StoreLocal(1)] + tail);
    assert CompileBlock(SelfBoundBody(), true, AT0, 0, NoLoop) == Some(Code(all, AT3));
    assert all + [VmOp.Return] == BoundOps();
  }

  lemma BoundLets()
    ensures CompileStmt(Let("i", Int(0)), false, AT0, 0, NoLoop) == Some(Code([PushConst(I64(0)), StoreLocal(0)], AT1))
    ensures CompileStmt(Let("e", Var("i")), false, AT1, 2, NoLoop) == Some(Code([LoadLocal(0), StoreLocal(1)], AT2))
  {
    hide CompileStmt, CompileExpr, Declare, Lookup, StmtLen, ExprLen;
    BoundNames();
    LiteralCode(AT0, 0, 0);
    VarCode(AT1, "i", 0, 2);
    LetCode("i", Int(0), PushConst(I64(0)), AT0, AT1, 0);
    LetCode("e", Var("i"), LoadLocal(0), AT1, AT2, 2);
  }

  lemma VarCode(ctx: Ctx, x: string, k: nat, pc: nat)
    requires Lookup(ctx.scopes, x) == Some(k)
    ensures CompileExpr(Var(x), ctx, pc) == Some([LoadLocal(k)])
  {
  }

  lemma BoundNames()
    ensures Declare(AT0, "i") == AT1 && Declare(AT1, "e") == AT2 && Lookup(AT1.scopes, "i") == Some(0)
  {
    assert AT0.scopes[0 := map["i" := 0]] == AT1.scopes && {} + {"i"} == {"i"};
    assert map["i" := 0]["e" := 1] == map["i" := 0, "e" := 1];
    assert AT1.scopes[0 := map["i" := 0, "e" := 1]] == AT2.scopes && {"i"} + {"e"} == {"i", "e"};
  }

  lemma LetCode(x: string, e: Expr, op: VmOp, ctx: Ctx, after: Ctx, pc: nat)
    requires ctx.scopes != [] && CompileExpr(e, ctx, pc) == Some([op]) && Declare(ctx, x) == after
    ensures CompileStmt(Let(x, e), false, ctx, pc, NoLoop) == Some(Code([op, StoreLocal(ctx.next)], after))
  {
    hide CompileExpr, Declare;
    assert [op] + [StoreLocal(ctx.next)] + [] == [op, StoreLocal(ctx.next)];
  }

  lemma LiteralCode(ctx: Ctx, n: i64, pc: nat)
    ensures CompileExpr(Int(n), ctx, pc) == Some([PushConst(I64(n))])
  {
  }

  lemma BoundLast(c2: Ctx)
    requires c2.scopes != []
    ensures CompileStmt(Stmt.Return(Some(Int(3))), true, c2, 17, NoLoop) == Some(Code([PushConst(I64(3)), VmOp.Return], c2))
    ensures CompileStmt(Stmt.Return(Some(Int(7))), false, c2, 13, InLoop(17, 15)) == Some(Code([PushConst(I64(7)), VmOp.Return], c2))
  {
    LiteralCode(c2, 3, 17);
    LiteralCode(c2, 7, 13);
    assert [PushConst(I64(3))] + [VmOp.Return] == [PushConst(I64(3)), VmOp.Return];
    assert [PushConst(I64(7))] + [VmOp.Return] == [PushConst(I64(7)), VmOp.Return];
  }

  lemma BoundForCode()
    ensures CompileStmt(SelfBound(), false, AT2, 4, NoLoop) == Some(Code(BoundHead() + BoundLoop(), AT3))
  {
    hide CompileExpr;
    var inside := Declare(Open(AT2), "i");
    assert Lookup(inside.scopes, "i") == Some(2);
    BoundExprs(inside);
    BoundExprs(Open(AT2));
    var one, var1 := [PushConst(I64(1))], [LoadLocal(2)];
    assert one + [StoreLocal(2)] + var1 + [StoreLocal(3)] + one + [StoreLocal(4)] + [CheckStepNonzero(4)] == BoundHead();
    assert CompileForHead(SelfBound(), AT2, 4) == Some(BoundHead());
    var ctx := ForCtx(SelfBound(), AT2);
    BoundLast(Open(ctx));
    assert Close(Open(ctx), 2) == ctx;
    assert CompileScoped(SelfBound().body, false, ctx, 13, InLoop(17, 15)) == Some(Code([PushConst(I64(7)), VmOp.Return], ctx));
    assert AT2.locals + {"i"} == AT2.locals;
    assert Close(ctx, 1) == AT3;
    var code := BoundHead() + [ForCheck(2, 3, 4)] + [JumpIfFalse(17)] + [PushConst(I64(7)), VmOp.Return] + [ForStep(2, 4)] + [Jump(11)] + [];
    assert code == BoundHead() + BoundLoop();
    assert CompileFor(SelfBound(), false, AT2, 4) == Some(Code(code, AT3));
  }

  lemma BoundExprs(ctx: Ctx)
    requires ctx.scopes != []
    ensures CompileExpr(Int(1), ctx, 4) == Some([PushConst(I64(1))])
    ensures Lookup(ctx.scopes, "i") == Some(2) ==> CompileExpr(Var("i"), ctx, 6) == Some([LoadLocal(2)])
  {
  }

  lemma BoundRun(call: Dispatch)
    ensures Exec(BoundOps(), call, State(0, [], InitialFrame([], 5)), 15) == Done(I64(7))
  {
    hide Exec, Step, LoopTest, BoundOps;
    var ops, s0 := BoundOps(), State(0, [], InitialFrame([], 5));
    var z, v, f5 := I64(0), I64(1), [I64(0), I64(0), I64(1), I64(1), I64(1)];
    BoundRunLets(call);
    BoundRunHead(call);
    ExecThen(ops, call, s0, 4, State(4, [], [z, z, Void, Void, Void]), 7);
    BoundAt();
    BoundTest(ops, call, f5);
    AndStep(ops, call, s0, 11, State(11, [], f5));
    DoBranch(ops, call, s0, 12, State(12, [] + [Bool(true)], f5), [], Bool(true), false, 17);
    DoPush(ops, call, s0, 13, State(13, [], f5), I64(7));
    DoReturn(ops, call, s0, 14, State(14, [] + [I64(7)], f5));
  }

  lemma BoundAt()
    ensures var ops := BoundOps();
            && |ops| == 20 && ops[0] == PushConst(I64(0)) && ops[1] == StoreLocal(0) && ops[2] == LoadLocal(0) && ops[3] == StoreLocal(1)
            && ops[4] == PushConst(I64(1)) && ops[5] == StoreLocal(2)
            && ops[6] == LoadLocal(2) && ops[7] == StoreLocal(3) && ops[8] == PushConst(I64(1)) && ops[9] == StoreLocal(4)
            && ops[10] == CheckStepNonzero(4) && ops[11] == ForCheck(2, 3, 4) && ops[12] == JumpIfFalse(17)
            && ops[13] == PushConst(I64(7)) && ops[14] == VmOp.Return
  {
  }

  lemma BoundRunLets(call: Dispatch)
    ensures Exec(BoundOps(), call, State(0, [], InitialFrame([], 5)), 4) == Next(State(4, [], [I64(0), I64(0), Void, Void, Void]))
  {
    hide Exec, Step, BoundOps;
    var ops, s0, z := BoundOps(), State(0, [], InitialFrame([], 5)), I64(0);
    var f0, f1, f2 := [Void, Void, Void, Void, Void], [z, Void, Void, Void, Void], [z, z, Void, Void, Void];
    BoundAt();
    assert s0.frame == f0 && f0[0 := z] == f1 && f1[1 := z] == f2;
    ExecZero(ops, call, s0);
    DoPush(ops, call, s0, 0, s0, z);
    DoStore(ops, call, s0, 1, State(1, [] + [z], f0), [], z, 0);
    DoLoad(ops, call, State(2, [], f1), 0);
    ExecThen(ops, call, s0, 2, State(2, [], f1), 1);
    DoStore(ops, call, s0, 3, State(3, [] + [z], f1), [], z, 1);
  }

  lemma BoundRunHead(call: Dispatch)
    ensures Exec(BoundOps(), call, State(4, [], [I64(0), I64(0), Void, Void, Void]), 7)
         == Next(State(11, [], [I64(0), I64(0), I64(1), I64(1), I64(1)]))
  {
    hide Exec, Step, BoundOps;
    var z, v := I64(0), I64(1);
    var f2, f3, f4, f5 := [z, z, Void, Void, Void], [z, z, v, Void, Void], [z, z, v, v, Void], [z, z, v, v, v];
    var ops, s0 := BoundOps(), State(4, [], f2);
    BoundAt();
    assert f2[2 := v] == f3 && f3[3 := v] == f4 && f4[4 := v] == f5;
    ExecZero(ops, call, s0);
    DoPush(ops, call, s0, 0, s0, v);
    DoStore(ops, call, s0, 1, State(5, [] + [v], f2), [], v, 2);
    DoLoad(ops, call, State(6, [], f3), 2);
    ExecThen(ops, call, s0, 2, State(6, [], f3), 1);
    DoStore(ops, call, s0, 3, State(7, [] + [v], f3), [], v, 3);
    DoPush(ops, call, s0, 4, State(8, [], f4), v);
    DoStore(ops, call, s0, 5, State(9, [] + [v], f4), [], v, 4);
    DoCheckStep(ops, call, s0, 6, State(10, [], f5), 4, 1);
  }

  lemma BoundTest(ops: seq<VmOp>, call: Dispatch, f: seq<Value>)
    requires |ops| > 11 && ops[11] == ForCheck(2, 3, 4) && f == [I64(0), I64(0), I64(1), I64(1), I64(1)]
    ensures Step(ops, call, State(11, [], f)) == Next(State(12, [] + [Bool(true)], f))
  {
  }

  // ---- A body that assigns the loop variable ----

  const BACK: i64 := -1

  function Rewinding(): Stmt { For("i", Int(0), Int(0), None, [Assign("i", Replace, Int(BACK))]) }

  function RewindingBody(): seq<Stmt> { [Rewinding(), Stmt.Return(Some(Int(3)))] }

  /** The tree-walker counts on its own and makes one pass; the compiled code reads the
      rewound slot and never ends. */
  lemma BodyAssignsCounter(c: Cfg, n: nat)
    requires !c.moves
    ensures !BlockFits(RewindingBody(), true) && Tree(c, RewindingBody(), 1) == Ok(I64(3))
    ensures CompileFunction(Body(RewindingBody())).Some? && Machine(c.call, RewindingBody(), n).Next?
  {
    hide Exec, Step, CompileFunction, EvalBody, RewindOps;
    RewindTree(c);
    RewindCode();
    RewindEnter(c.call);
    RewindCycle(c.call);
    Forever(RewindOps(), c.call, State(7, [], [I64(0), I64(0), I64(1)]), 6, n);
    if n <= 7 {
      NotYet(RewindOps(), c.call, State(0, [], InitialFrame([], 3)), n, 7);
    } else {
      Forever(RewindOps(), c.call, State(7, [], [I64(0), I64(0), I64(1)]), 6, n - 7);
      ExecThen(RewindOps(), c.call, State(0, [], InitialFrame([], 3)), 7, State(7, [], [I64(0), I64(0), I64(1)]), n - 7);
    }
  }

  /** A run that comes back to a state it was in never ends. */
  lemma {:induction false} Forever(ops: seq<VmOp>, call: Dispatch, st: State, k: nat, n: nat)
    requires k > 0 && Exec(ops, call, st, k) == Next(st)
    ensures Exec(ops, call, st, n).Next?
    decreases n
  {
    if n <= k {
      NotYet(ops, call, st, n, k);
    } else {
      Forever(ops, call, st, k, n - k);
      ExecThen(ops, call, st, k, st, n - k);
    }
  }

  lemma {:induction false} NotYet(ops: seq<VmOp>, call: Dispatch, st: State, n: nat, k: nat)
    requires n <= k && Exec(ops, call, st, k).Next?
    ensures Exec(ops, call, st, n).Next?
    decreases n
  {
    hide Step;
    if n > 0 { NotYet(ops, call, Step(ops, call, st).st, n - 1, k - 1); }
  }

  lemma RewindTree(c: Cfg)
    requires !c.moves
    ensures Tree(c, RewindingBody(), 1) == Ok(I64(3)) && !BlockFits(RewindingBody(), true)
  {
    hide EvalExpr, EvalScoped;
    var env: Env := [map[]];
    var env1 := env + [map["i" := I64(0)]];
    Literals(c, env);
    assert EvalBounds(c, Int(0), Int(0), None, env) == Ok((0, 0, 1));
    RewindPass(c, env1);
    DefineSame(env, "i", I64(0));
    var env2 := env + [map["i" := I64(BACK)]];
    assert EvalFor(c, Rewinding(), 1, 0, 1, env2, 0) == Run(Ok(Normal(Void)), env2);
    assert EvalFor(c, Rewinding(), 0, 0, 1, env1, 1) == Run(Ok(Normal(Void)), env2);
    assert env2[..1] == env;
    assert EvalStmt(c, Rewinding(), env, 1) == Run(Ok(Normal(Void)), env);
    var last := Stmt.Return(Some(Int(3)));
    assert RewindingBody()[1..] == [last];
    assert EvalStmt(c, last, env, 1).out == Ok(Returned(I64(3)));
    assert EvalBlock(c, [last], env, 1).out == Ok(Returned(I64(3)));
    assert !Fits(Rewinding(), false) by { assert Assigns(Rewinding().body[0], "i"); }
  }

  lemma Literals(c: Cfg, env: Env)
    ensures forall n :: EvalExpr(c, Int(n), env) == Ok(I64(n))
  {
  }

  lemma RewindPass(c: Cfg, env1: Env)
    requires !c.moves && env1 == [map[], map["i" := I64(0)]]
    ensures EvalScoped(c, Rewinding().body, env1, 1) == Run(Ok(Normal(Void)), [map[], map["i" := I64(BACK)]])
  {
    hide EvalExpr;
    var inner := env1 + [map[]];
    Literals(c, inner);
    NearestIs(inner, "i", 1);
    assert inner[1]["i" := I64(BACK)] == map["i" := I64(BACK)];
    assert Update(inner, "i", I64(BACK)) == inner[1 := map["i" := I64(BACK)]] == [map[], map["i" := I64(BACK)], map[]];
    assert EvalStmt(c, Rewinding().body[0], inner, 1) == Run(Ok(Normal(Void)), [map[], map["i" := I64(BACK)], map[]]);
    assert [map[], map["i" := I64(BACK)], map[]][..2] == [map[], map["i" := I64(BACK)]];
  }

  function RewindHead(): seq<VmOp> {
    [PushConst(I64(0)), StoreLocal(0), PushConst(I64(0)), StoreLocal(1), PushConst(I64(1)), StoreLocal(2), CheckStepNonzero(2)]
  }

  function RewindLoop(): seq<VmOp> {
    [ForCheck(0, 1, 2), JumpIfFalse(13), PushConst(I64(BACK)), StoreLocal(0), ForStep(0, 2), Jump(7)]
  }

  function RewindOps(): seq<VmOp> {
    RewindHead() + RewindLoop() + [PushConst(I64(3)), VmOp.Return] + [VmOp.Return]
  }

  lemma RewindCode()
    ensures CompileFunction(Body(RewindingBody())) == Some(Program(RewindOps(), 3))
  {
    hide CompileStmt, CompileFor, CompileExpr;
    var c0, c1 := Ctx([map[]], 0, {}), Ctx([map[]], 3, {"i"});
    var last := Stmt.Return(Some(Int(3)));
    RewindForCode(c0, c1);
    ReturnLiteral(c1, 3, 13);
    assert RewindingBody()[1..] == [last];
    assert CompileBlock([last], true, c1, 13, NoLoop) == Some(Code([PushConst(I64(3)), VmOp.Return], c1));
    var all := (RewindHead() + RewindLoop()) + [PushConst(I64(3)), VmOp.Return];
    assert CompileBlock(RewindingBody(), true, c0, 0, NoLoop) == Some(Code(all, c1));
  }

  lemma ReturnLiteral(ctx: Ctx, n: i64, pc: nat)
    requires ctx.scopes != []
    ensures CompileStmt(Stmt.Return(Some(Int(n))), true, ctx, pc, NoLoop) == Some(Code([PushConst(I64(n)), VmOp.Return], ctx))
  {
    LiteralCode(ctx, n, pc);
    assert [PushConst(I64(n))] + [VmOp.Return] == [PushConst(I64(n)), VmOp.Return];
  }

  lemma RewindForCode(c0: Ctx, c1: Ctx)
    requires c0 == Ctx([map[]], 0, {}) && c1 == Ctx([map[]], 3, {"i"})
    ensures CompileStmt(Rewinding(), false, c0, 0, NoLoop) == Some(Code(RewindHead() + RewindLoop(), c1))
  {
    hide CompileExpr;
    var inside := Declare(Open(c0), "i");
    LiteralCode(Open(c0), 0, 0);
    LiteralCode(inside, 0, 2);
    var zero, one := [PushConst(I64(0))], [PushConst(I64(1))];
    assert zero + [StoreLocal(0)] + zero + [StoreLocal(1)] + one + [StoreLocal(2)] + [CheckStepNonzero(2)] == RewindHead();
    assert CompileForHead(Rewinding(), c0, 0) == Some(RewindHead());
    var ctx := ForCtx(Rewinding(), c0);
    RewindBodyCode(ctx);
    assert c0.locals + {"i"} == {"i"};
    assert Close(ctx, 1) == c1;
    var code := RewindHead() + [ForCheck(0, 1, 2)] + [JumpIfFalse(13)] + [PushConst(I64(BACK)), StoreLocal(0)] + [ForStep(0, 2)] + [Jump(7)] + [];
    assert code == RewindHead() + RewindLoop();
    assert CompileFor(Rewinding(), false, c0, 0) == Some(Code(code, c1));
  }

  lemma RewindBodyCode(ctx: Ctx)
    requires ctx.scopes == [map[], map["i" := 0]]
    ensures CompileScoped(Rewinding().body, false, ctx, 9, InLoop(13, 11)) == Some(Code([PushConst(I64(BACK)), StoreLocal(0)], ctx))
  {
    hide CompileExpr;
    var inner := Open(ctx);
    LiteralCode(inner, BACK, 9);
    NearestIs(inner.scopes, "i", 1);
    assert [PushConst(I64(BACK))] + [StoreLocal(0)] + [] == [PushConst(I64(BACK)), StoreLocal(0)];
    assert CompileStmt(Rewinding().body[0], false, inner, 9, InLoop(13, 11)) == Some(Code([PushConst(I64(BACK)), StoreLocal(0)], inner));
    assert Close(inner, 2) == ctx;
  }

  lemma RewindAt()
    ensures var ops := RewindOps();
            && |ops| == 16 && ops[0] == PushConst(I64(0)) && ops[1] == StoreLocal(0) && ops[2] == PushConst(I64(0)) && ops[3] == StoreLocal(1)
            && ops[4] == PushConst(I64(1)) && ops[5] == StoreLocal(2) && ops[6] == CheckStepNonzero(2) && ops[7] == ForCheck(0, 1, 2)
            && ops[8] == JumpIfFalse(13) && ops[9] == PushConst(I64(BACK)) && ops[10] == StoreLocal(0) && ops[11] == ForStep(0, 2)
            && ops[12] == Jump(7)
  {
  }

  lemma RewindEnter(call: Dispatch)
    ensures Exec(RewindOps(), call, State(0, [], InitialFrame([], 3)), 7) == Next(State(7, [], [I64(0), I64(0), I64(1)]))
  {
    hide Exec, Step, RewindOps;
    var ops, s0 := RewindOps(), State(0, [], InitialFrame([], 3));
    var z, v := I64(0), I64(1);
    var f0, f1, f2, f3 := [Void, Void, Void], [z, Void, Void], [z, z, Void], [z, z, v];
    RewindAt();
    assert s0.frame == f0;
    assert f0[0 := z] == f1 && f1[1 := z] == f2 && f2[2 := v] == f3;
    ExecZero(ops, call, s0);
    DoPush(ops, call, s0, 0, s0, z);
    DoStore(ops, call, s0, 1, State(1, [] + [z], f0), [], z, 0);
    DoPush(ops, call, s0, 2, State(2, [], f1), z);
    DoStore(ops, call, s0, 3, State(3, [] + [z], f1), [], z, 1);
    DoPush(ops, call, s0, 4, State(4, [], f2), v);
    DoStore(ops, call, s0, 5, State(5, [] + [v], f2), [], v, 2);
    DoCheckStep(ops, call, s0, 6, State(6, [], f3), 2, 1);
  }

  /** One turn of the loop: the counter is rewound to -1 and stepped back to 0. */
  lemma RewindCycle(call: Dispatch)
    ensures var top := State(7, [], [I64(0), I64(0), I64(1)]); Exec(RewindOps(), call, top, 6) == Next(top)
  {
    hide Exec, Step, RewindOps;
    var ops, f, g := RewindOps(), [I64(0), I64(0), I64(1)], [I64(BACK), I64(0), I64(1)];
    var top := State(7, [], f);
    RewindAt();
    RewindSteps(ops, call, f, g);
    assert f[0 := I64(BACK)] == g;
    ExecZero(ops, call, top);
    AndStep(ops, call, top, 0, top);
    DoBranch(ops, call, top, 1, State(8, [] + [Bool(true)], f), [], Bool(true), false, 13);
    DoPush(ops, call, top, 2, State(9, [], f), I64(BACK));
    DoStore(ops, call, top, 3, State(10, [] + [I64(BACK)], f), [], I64(BACK), 0);
    AndStep(ops, call, top, 4, State(11, [], g));
    DoJump(ops, call, top, 5, State(12, [], f), 7);
  }

  lemma RewindSteps(ops: seq<VmOp>, call: Dispatch, f: seq<Value>, g: seq<Value>)
    requires |ops| > 11 && ops[7] == ForCheck(0, 1, 2) && ops[11] == ForStep(0, 2)
    requires f == [I64(0), I64(0), I64(1)] && g == [I64(BACK), I64(0), I64(1)]
    ensures Step(ops, call, State(7, [], f)) == Next(State(8, [] + [Bool(true)], f))
    ensures Step(ops, call, State(11, [], g)) == Next(State(12, [], f))
  {
    assert g[0 := I64(0)] == f;
  }
}

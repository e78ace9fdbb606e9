/** Names with which compiled programs do something else than the interpreter. */
module A64Limits {
  import opened Ir
  import opened Eval
  import opened ScalarMath
  import opened A64Isa
  import opened A64Machine
  import opened A64Gen
  import opened A64Typing
  import A64FnGen
  import A64Emit
  import opened A64Program
  import opened A64Dispatch
  import A64Object
  import opened Programs

  // ---- A builtin's name ----

  const POW: Function := Function("pow", ["a", "b"], [Stmt.Return(Some(Expr.Binary(Var("a"), Subtract, Var("b"))))])
  const MAIN: Function := Function("main", [], [Stmt.Return(Some(Expr.Call("pow", [Int(2), Int(5)])))])
  const SIGS: map<string, Sig> := map["pow" := Sig([TInt, TInt], TInt), "main" := Sig([], TInt)]

  /** `fn pow a i64 b i64 -> i64` with body `a - b`, and a `main` that returns `pow(2, 5)`. */
  function Shadowing(prim: Vm.Dispatch): Module {
    Module(map["pow" := POW, "main" := MAIN], prim, {"abs", "sign", "min", "max", "gcd", "clamp", "pow"}, {})
  }

  lemma BodyGives(c: Cfg, f: Function, args: seq<Value>, e: Expr, v: Value)
    requires f.body == [Stmt.Return(Some(e))] && |f.params| == |args| && EvalExpr(c, e, [BindParams(f.params, args)]) == Ok(v)
    ensures TreeResult(c, f, args) == Ok(v)
  {
    hide EvalExpr;
    assert EvalStmt(c, f.body[0], [BindParams(f.params, args)], 0).out == Ok(Returned(v));
    assert EvalBody(c, f, args, 0) == Ok(v);
    TreeResultIs(c, f, args, 0);
  }

  lemma TwoBound(u: Value, v: Value)
    ensures BindParams(["a", "b"], [u, v]) == map["a" := u, "b" := v]
    ensures BindTypes(["a", "b"], [TInt, TInt]) == map["a" := TInt, "b" := TInt]
  {
    assert ["a", "b"][..1] == ["a"] && [u, v][..1] == [u] && [TInt, TInt][..1] == [TInt];
    assert ["a"][..0] == [] && BindParams(["a"], [u]) == map["a" := u] && BindTypes(["a"], [TInt]) == map["a" := TInt];
  }

  lemma PowGives(m: Module)
    requires "pow" in m.functions && m.functions["pow"] == POW
    ensures Enter(TREE, m, 1, "pow", [I64(2), I64(5)]) == Ok(I64(-3))
  {
    hide TreeResult;
    var c, args := CfgAt(TREE, m, 2), [I64(2), I64(5)];
    var env: Env := [BindParams(POW.params, args)];
    TwoBound(I64(2), I64(5));
    assert env == [map["a" := I64(2), "b" := I64(5)]];
    assert EvalExpr(c, Var("a"), env) == Ok(I64(2)) && EvalExpr(c, Var("b"), env) == Ok(I64(5));
    BodyGives(c, POW, args, Expr.Binary(Var("a"), Subtract, Var("b")), I64(-3));
  }

  lemma MainGives(m: Module, v: Value)
    requires "main" in m.functions && m.functions["main"] == MAIN && Invoke(TREE, m, 1, "pow", [I64(2), I64(5)]) == Ok(v)
    ensures Enter(TREE, m, 0, "main", []) == Ok(v)
  {
    hide TreeResult, Invoke;
    var c, es := CfgAt(TREE, m, 1), [Int(2), Int(5)];
    var env: Env := [BindParams([], [])];
    assert es[1..] == [Int(5)] && [Int(5)][1..] == [];
    assert EvalExpr(c, Int(2), env) == Ok(I64(2)) && EvalExpr(c, Int(5), env) == Ok(I64(5));
    assert EvalExprs(c, [], env) == Ok([]);
    assert [I64(5)] + [] == [I64(5)] && [I64(2)] + [I64(5)] == [I64(2), I64(5)];
    assert EvalExprs(c, [Int(5)], env) == Ok([I64(5)]);
    assert EvalExprs(c, es, env) == Ok([I64(2), I64(5)]);
    assert EvalExpr(c, Expr.Call("pow", es), env) == c.call("pow", [I64(2), I64(5)]) by { assert Lookup(env, "pow").None?; }
    BodyGives(c, MAIN, [], Expr.Call("pow", es), v);
  }

  lemma PowTyped()
    ensures FunctionTyped(SIGS, POW)
  {
    var ts: Types := [BindTypes(POW.params, SIGS["pow"].params)];
    TwoBound(Void, Void);
    assert ts == [map["a" := TInt, "b" := TInt]];
    assert TypeOf(SIGS, ts, Var("a")) == Some(TInt) && TypeOf(SIGS, ts, Var("b")) == Some(TInt);
    assert POW.body[1..] == [];
  }

  lemma PowLowers()
    ensures LowersFunction(POW, {"pow", "main"})
  {
    var names := Locals(POW);
    assert names == ["a", "b"] by { assert POW.params[1..] == ["b"] && POW.body[1..] == []; }
    assert names[..1] == ["a"] && names[..1][..0] == [];
    assert SlotMap(names) == map["a" := 0, "b" := 1];
    assert POW.body[1..] == [];
  }

  lemma MainTyped()
    ensures FunctionTyped(SIGS, MAIN) && LowersFunction(MAIN, {"pow", "main"})
  {
    var ts: Types, es := [map[]], [Int(2), Int(5)];
    assert es[1..] == [Int(5)] && [Int(5)][1..] == [];
    assert TypesOf(SIGS, ts, []) == Some([]) && TypeOf(SIGS, ts, Int(5)) == Some(TInt);
    assert [TInt] + [] == [TInt] && [TInt] + [TInt] == [TInt, TInt];
    assert TypesOf(SIGS, ts, [Int(5)]) == Some([TInt]);
    assert TypesOf(SIGS, ts, es) == Some([TInt, TInt]);
    assert TypeOf(SIGS, ts, Expr.Call("pow", es)) == Some(TInt);
    assert LowersArgs({}, {"pow", "main"}, es[1..]);
    assert LowersExpr({}, {"pow", "main"}, Expr.Call("pow", es));
    assert Locals(MAIN) == [] && SlotMap([]) == map[];
    assert MAIN.body[1..] == [];
  }

  lemma ShadowingCompiled(prim: Vm.Dispatch)
    requires forall f, vs :: Arity(f).Some? ==> prim(f, vs) == Builtin(f, vs)
    ensures Compiled(UserFirst(Shadowing(prim)), SIGS, ["pow", "main"]) && Placeable(Shadowing(prim), ["pow", "main"])
  {
    hide FunctionTyped, LowersFunction, Builtin;
    PowTyped();
    PowLowers();
    MainTyped();
    assert Callable(UserFirst(Shadowing(prim)), ["pow", "main"]) == {"pow", "main"};
  }

  /** The interpreter answers with the builtin's 32, the native program exits with -3. */
  lemma PowDiffers(prim: Vm.Dispatch, c: Cpu) returns (n: nat, d: Cpu)
    requires (forall f, vs :: Arity(f).Some? ==> prim(f, vs) == Builtin(f, vs)) && prim("pow", [I64(2), I64(5)]) == Ok(I64(32))
    requires c.pc == 0 && c.sp % 16 == 0
    ensures Invoke(TREE, Shadowing(prim), 0, "main", []) == Ok(I64(32))
    ensures Placeable(Shadowing(prim), ["pow", "main"]) && AtExit(Image(Shadowing(prim), ["pow", "main"]), I64(-3), c, n, d)
  {
    hide Enter, Compiled, Image, AtExit;
    var m := Shadowing(prim);
    MainGives(m, I64(32));
    PowGives(UserFirst(m));
    MainGives(UserFirst(m), I64(-3));
    ShadowingCompiled(prim);
    n, d := ProgramFollows(m, SIGS, ["pow", "main"], 0, I64(-3), c);
  }

  // ---- The stub's name ----

  /** A `main` that is `_start()`, beside a user function of that name. */
  predicate CallsStart(m: Module, order: seq<string>) {
    && order == ["_start", "main"] && "_start" in m.functions && m.functions["_start"].params == []
    && "main" in m.functions && m.functions["main"] == Function("main", [], [Stmt.Return(Some(Expr.Call("_start", [])))])
  }

  lemma MainCode(g: Gen)
    requires g.size == 0
    ensures var code := GenFunction(g, Function("main", [], [Stmt.Return(Some(Expr.Call("_start", [])))]));
            2 < |code| && code[2] == Bl(Entry(g, "_start") - 2)
  {
    hide GenExpr, GenStmt, Entry, BlockLen, StmtLen, ExprLen;
    var call := Expr.Call("_start", []);
    var body := [Stmt.Return(Some(call))];
    assert body[1..] == [] && Spills(g, []) == [] && Prologue(g) == [StpPre, MovFpSp];
    var code := GenExpr(g, call, 2);
    assert code == [Bl(Entry(g, "_start") - 2)] by { OnlyCall(g); }
    ReturnShape(g, call, 2, NoLoop);
    assert GenBlock(g, body, 2, NoLoop) == code + Epilogue(g) + [];
  }

  lemma OnlyCall(g: Gen)
    ensures GenExpr(g, Expr.Call("_start", []), 2) == [Bl(Entry(g, "_start") - 2)]
  {
    hide GenExpr, ExprLen, Entry;
    CallShape(g, "_start", [], 2);
  }

  lemma StartsApart(m: Module)
    requires CallsStart(m, ["_start", "main"])
    ensures var starts := Starts(m, ["_start", "main"], STUB);
            starts.Keys == {"_start", "main"} && starts["_start"] < starts["main"]
  {
    hide BlockLen, SlotMap, Locals, Padding;
    assert ["_start", "main"][1..] == ["main"] && ["main"][1..] == [];
    assert 0 < FunctionLen(m.functions["_start"]);
  }

  lemma MainCalls(m: Module, order: seq<string>, starts: map<string, int>, code: seq<Instr>)
    requires CallsStart(m, order) && Placeable(m, order) && Loaded(m, order, starts, code) && "_start" in starts && "main" in starts
    ensures 0 <= starts["main"] && starts["main"] + 2 < |code| && code[starts["main"] + 2] == Bl(starts["_start"] - (starts["main"] + 2))
  {
    hide GenFunction, Loaded, GenAt, Placeable;
    LoadedOne(m, order, starts, code, "main");
    MainAt(m.functions["main"], starts, starts["main"]);
  }

  lemma MainAt(f: Function, starts: map<string, int>, base: int)
    requires f == Function("main", [], [Stmt.Return(Some(Expr.Call("_start", [])))]) && "_start" in starts
    ensures var code := GenFunction(GenAt(f, starts, base), f); 2 < |code| && code[2] == Bl(starts["_start"] - base - 2)
  {
    hide GenFunction;
    assert f.body[1..] == [] && Locals(f) == [];
    MainCode(GenAt(f, starts, base));
  }

  lemma CallNamed(relocs: seq<A64FnGen.CallSite>, code: seq<Instr>, starts: map<string, int>, f: string, k: nat)
    requires A64FnGen.CallsSound(relocs, code, starts) && k < |code| && f in starts && code[k] == Bl(starts[f] - k)
    requires forall g :: g in starts && starts[g] == starts[f] ==> g == f
    ensures exists j :: 0 <= j < |relocs| && relocs[j].symbol == f
  {
    var j :| 0 <= j < |relocs| && relocs[j].offset == k;
  }

  /** Such a program calls the stub: linked, `main` starts the program again instead of calling
      the function, and the file is not that of the image. */
  lemma StartLost(m: Module, e: A64Emit.Emitted)
    requires A64Object.Sound(m, e) && CallsStart(m, e.compiled)
    ensures !A64Object.EntryUncalled(e)
  {
    hide Image, A64Emit.Stands, A64FnGen.WithinReach, Starts, A64FnGen.CallsSound, Loaded;
    var starts := Starts(m, e.compiled, STUB);
    StartsApart(m);
    assert NoRepeats(e.compiled) by { assert e.compiled[0] != e.compiled[1]; }
    ImageLoaded(m, e.compiled);
    MainCalls(m, e.compiled, starts, Image(m, e.compiled));
    CallNamed(e.relocs, Image(m, e.compiled), starts, "_start", starts["main"] + 2);
  }
}

/** Lowering a whole program, and the passes one after the other. */
module CondLowerWhole {
  import opened Ir
  import opened Eval
  import opened EvalMono
  import opened Programs
  import opened VmTier
  import opened CondLower
  import opened CondLowerFacts
  import opened CondLowerBlocks
  import CopyProp
  import CopyPropWhole
  import MoveUpdate

  /** The counter of temporaries runs on from function to function; `at` says where each starts. */
  type Counter = string -> nat

  function LowerFunction(zero: Zeros, f: Function, n: nat): Function {
    f.(body := LowerBlock(zero, f.body, [], n).body)
  }

  function LowerModule(zero: Zeros, m: Module, at: Counter): (r: Module)
    ensures r.functions.Keys == m.functions.Keys && r.prim == m.prim && r.taken == m.taken && r.barred == m.barred
  {
    m.(functions := map name | name in m.functions :: LowerFunction(zero, m.functions[name], at(name)))
  }

  ghost predicate ModuleLowerable(m: Module) {
    forall name :: name in m.functions ==> BlockLowerable(m.functions[name].body) && BlockMeets(Ordered, m.functions[name].body)
  }

  lemma LikeItself(env: Env)
    ensures EnvLike(env, env)
  {
  }

  /** One body, with callees that agree on what checked programs do. */
  lemma BodyLowered(c: Cfg, d: Cfg, zero: Zeros, f: Function, n: nat, args: seq<Value>, fuel: nat)
    requires !c.moves && Literals(zero) && BlockLowerable(f.body) && BlockMeets(Ordered, f.body) && |f.params| == |args|
    requires Refines(Checking, c, d)
    ensures !Ruled(EvalBody(c, f, args, fuel)) ==> EvalBody(d, LowerFunction(zero, f, n), args, fuel) == EvalBody(c, f, args, fuel)
  {
    hide EvalBlock, LowerBlock, BlockLowerable, BlockMeets, Refines, EnvLike, Literals;
    var env: Env := [BindParams(f.params, args)];
    LikeItself(env);
    BlockLowered(Ordered, c, zero, f.body, n, env, env, fuel);
    BodyMono(Checking, c, d, LowerFunction(zero, f, n), args, fuel, fuel);
  }

  lemma TreeLowered(c: Cfg, d: Cfg, zero: Zeros, f: Function, n: nat, args: seq<Value>)
    requires !c.moves && Literals(zero) && BlockLowerable(f.body) && BlockMeets(Ordered, f.body) && |f.params| == |args|
    requires Refines(Checking, c, d)
    ensures !Ruled(TreeResult(c, f, args)) ==> TreeResult(d, LowerFunction(zero, f, n), args) == TreeResult(c, f, args)
  {
    hide EvalBody, BlockLowerable, BlockMeets, Refines, Literals, LowerBlock;
    var g := LowerFunction(zero, f, n);
    if exists fuel :: EvalBody(c, f, args, fuel) != NoResult {
      var fuel :| EvalBody(c, f, args, fuel) != NoResult;
      TreeResultIs(c, f, args, fuel);
      BodyLowered(c, d, zero, f, n, args, fuel);
      if !Ruled(EvalBody(c, f, args, fuel)) { TreeResultIs(d, g, args, fuel); }
    } else {
      forall fuel ensures EvalBody(d, g, args, fuel) == NoResult { BodyLowered(c, d, zero, f, n, args, fuel); }
    }
  }

  /** A lowered program does what the original does with its conditionals evaluated lazily:
      the same value, the same error, or no result for both, unless the original ends in an
      error the semantic checker rules out. */
  lemma {:induction false} LoweredSame(zero: Zeros, m: Module, at: Counter, depth: nat, name: string, args: seq<Value>)
    requires ModuleLowerable(m) && Literals(zero)
    ensures !Ruled(Invoke(Tier(false, false), m, depth, name, args)) ==>
              Invoke(Tier(false, false), LowerModule(zero, m, at), depth, name, args) == Invoke(Tier(false, false), m, depth, name, args)
    decreases RECURSION_LIMIT - depth
  {
    hide LowerFunction, TreeResult, BlockLowerable, BlockMeets, Literals;
    var tree, l := Tier(false, false), LowerModule(zero, m, at);
    if name in m.functions { SameParams(zero, m.functions[name], at(name)); }
    if name in m.functions && name !in m.taken && |m.functions[name].params| == |args| && depth < RECURSION_LIMIT {
      var f := m.functions[name];
      var c, d := CfgAt(tree, m, depth + 1), CfgAt(tree, l, depth + 1);
      forall g, vs | !Ruled(c.call(g, vs)) ensures d.call(g, vs) == c.call(g, vs) {
        LoweredSame(zero, m, at, depth + 1, g, vs);
      }
      assert Refines(Checking, c, d);
      TreeLowered(c, d, zero, f, at(name), args);
      assert l.functions[name] == LowerFunction(zero, f, at(name));
      assert Invoke(tree, m, depth, name, args) == TreeResult(c, f, args);
      assert Invoke(tree, l, depth, name, args) == TreeResult(d, LowerFunction(zero, f, at(name)), args);
    }
  }

  lemma SameParams(zero: Zeros, f: Function, n: nat)
    ensures LowerFunction(zero, f, n).params == f.params
  {
  }

  lemma QuietKept(zero: Zeros, m: Module, at: Counter)
    requires MoveUpdate.ModuleQuiet(m)
    ensures MoveUpdate.ModuleQuiet(CopyPropWhole.RewriteModule(LowerModule(zero, m, at)))
  {
    hide LowerFunction, CopyProp.RewriteFunction;
  }

  /** Lower the conditionals, propagate copies, compile, and run as shipped, with the fast
      path on: what the source program does, read lazily and without moves. */
  lemma PassesAgree(zero: Zeros, m: Module, at: Counter, depth: nat, name: string, args: seq<Value>)
    requires ModuleLowerable(m) && Literals(zero) && MoveUpdate.ModuleQuiet(m)
    requires CopyPropWhole.ModuleStable(LowerModule(zero, m, at))
    requires var p := CopyPropWhole.RewriteModule(LowerModule(zero, m, at));
             ModuleFits(p) && MoveUpdate.ModuleSteady(p)
    requires !Ruled(Invoke(Tier(false, false), m, depth, name, args))
    ensures Invoke(Tier(true, true), CopyPropWhole.RewriteModule(LowerModule(zero, m, at)), depth, name, args)
            == Invoke(Tier(false, false), m, depth, name, args)
  {
    hide Invoke, ModuleLowerable, LowerModule, CopyPropWhole.ModuleStable, CopyPropWhole.RewriteModule, ModuleFits,
      MoveUpdate.ModuleQuiet, MoveUpdate.ModuleSteady, Literals;
    var l := LowerModule(zero, m, at);
    var p := CopyPropWhole.RewriteModule(l);
    assert MoveUpdate.ModuleQuiet(p) by { QuietKept(zero, m, at); }
    LoweredSame(zero, m, at, depth, name, args);
    CopyPropWhole.ProgramSame(l, depth, name, args);
    TiersAgree(p, depth, name, args);
    MoveUpdate.MovesChangeNothing(true, p, depth, name, args);
  }
}

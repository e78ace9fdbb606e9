/** Whole programs: the bytecode tier, which runs eligible functions on the dispatch loop and
    the others on the tree-walker, against the tree-walking tier. */
module VmTier {
  import opened Ir
  import opened Eval
  import opened EvalMono
  import opened Vm
  import opened VmExprs
  import opened VmStmts
  import opened VmSim
  import opened VmFlow
  import opened Programs

  // ---- One function body ----

  /** The parameters sit in the first slots, a repeated name in its last one. */
  lemma {:induction false} EntryMatches(params: seq<string>, args: seq<Value>, f: seq<Value>)
    requires |params| == |args| <= |f| && forall j :: 0 <= j < |args| ==> f[j] == args[j]
    ensures SlotsOk(EntryCtx(params)) && Match([BindParams(params, args)], EntryCtx(params).scopes, f)
  {
    if params != [] {
      var n := |params| - 1;
      EntryMatches(params[..n], args[..n], f);
      DeclareOk(EntryCtx(params[..n]), params[n]);
      MatchDeclare([BindParams(params[..n], args[..n])], EntryCtx(params[..n]), f, params[n], args[n]);
      assert f[n := args[n]] == f;
    }
  }

  /** A body the tree-walker finishes, with a value or an error that is no conversion error, is
      finished the same way by its compiled code; one that has no result with some fuel keeps the
      machine going for as many turns. */
  lemma {:induction false} CompiledBodyAgrees(c: Cfg, call: Dispatch, f: Function, args: seq<Value>, fuel: nat) returns (n: nat)
    requires !c.moves && Agree(c.call, call) && |f.params| == |args|
    requires CompileFunction(f).Some? && BlockFits(f.body, true)
    requires Settled(EvalBody(c, f, args, fuel))
    ensures var p := CompileFunction(f).value;
            var o := Exec(p.ops, call, State(0, [], InitialFrame(args, p.frameSize)), n);
            Result(o) == EvalBody(c, f, args, fuel) && (Result(o).NoResult? ==> n >= fuel)
  {
    hide CompileBlock, EvalBlock, BlockFits, Exec, Step, Match, Kept, SlotsOk, Grows, Agree, EntryCtx, CompileFunction, Ready, Loaded;
    var p := CompileFunction(f).value;
    var st := State(0, [], InitialFrame(args, p.frameSize));
    BodyReady(c, call, f, args);
    var f';
    n, f' := SimBlock(c, call, p.ops, f.body, true, EntryCtx(f.params), NoLoop, [BindParams(f.params, args)], st, fuel);
    var r := EvalBlock(c, f.body, [BindParams(f.params, args)], fuel);
    if r.out.Ok? && r.out.value.Normal? {
      DoReturn(p.ops, call, st, n, State(BlockLen(f.body, true), [r.out.value.v], f'));
      n := n + 1;
    }
  }

  lemma BodyReady(c: Cfg, call: Dispatch, f: Function, args: seq<Value>)
    requires !c.moves && Agree(c.call, call) && |f.params| == |args| && CompileFunction(f).Some?
    ensures var p := CompileFunction(f).value;
            var st := State(0, [], InitialFrame(args, p.frameSize));
            && EntryCtx(f.params).scopes != []
            && Ready(c, call, EntryCtx(f.params), [BindParams(f.params, args)], st)
            && Loaded(p.ops, CompileBlock(f.body, true, EntryCtx(f.params), 0, NoLoop), st)
            && BlockLen(f.body, true) < |p.ops| && p.ops[BlockLen(f.body, true)] == VmOp.Return
  {
    hide CompileBlock, Match, SlotsOk, Grows, Agree;
    var ctx := EntryCtx(f.params);
    var body := CompileBlock(f.body, true, ctx, 0, NoLoop).value;
    EntrySlots(f.params);
    BlockGrows(f.body, true, ctx, 0, NoLoop);
    GrowsNext(ctx, body.ctx);
    EntryMatches(f.params, args, InitialFrame(args, body.ctx.next));
    SlotsNamed(ctx);
    BodyCode(CompileFunction(f).value.ops, body.ops);
  }

  lemma BodyCode(ops: seq<VmOp>, body: seq<VmOp>)
    requires ops == body + [VmOp.Return]
    ensures CodeAt(ops, 0, body) && ops[|body|] == VmOp.Return
  {
  }

  // ---- Programs ----

  predicate ModuleFits(m: Module) {
    forall name :: name in m.functions && CompileFunction(m.functions[name]).Some? ==> BlockFits(m.functions[name].body, true)
  }

  // ---- The tiers agree ----

  /** A body without a result leaves the machine without one. */
  lemma {:induction false} CompiledBodyEndless(c: Cfg, call: Dispatch, f: Function, args: seq<Value>)
    requires !c.moves && Agree(c.call, call) && |f.params| == |args|
    requires CompileFunction(f).Some? && BlockFits(f.body, true) && TreeResult(c, f, args).NoResult?
    ensures VmResult(CompileFunction(f).value, call, args).NoResult?
  {
    hide EvalBody, CompileFunction, BlockFits, Exec, Agree;
    var p := CompileFunction(f).value;
    var st := State(0, [], InitialFrame(args, p.frameSize));
    forall k ensures !Finished(Exec(p.ops, call, st, k)) {
      assert EvalBody(c, f, args, k) == NoResult;
      var n := CompiledBodyAgrees(c, call, f, args, k);
      if Finished(Exec(p.ops, call, st, k)) { FinishedStays(p.ops, call, st, k, n); }
    }
  }

  /** Every call gives the same on both tiers: the same value, the same error, or no result,
      unless the tree-walker ends it in a conversion error. */
  lemma {:induction false} TiersAgree(m: Module, depth: nat, name: string, args: seq<Value>)
    requires ModuleFits(m)
    requires Settled(Invoke(Tier(false, false), m, depth, name, args))
    ensures Invoke(Tier(true, false), m, depth, name, args) == Invoke(Tier(false, false), m, depth, name, args)
    decreases RECURSION_LIMIT - depth
  {
    hide EvalBody, CompileFunction, BlockFits, Exec, Settled;
    var tree, vm := Tier(false, false), Tier(true, false);
    if name in m.functions && name !in m.taken && |m.functions[name].params| == |args| && depth < RECURSION_LIMIT {
      var f := m.functions[name];
      var c, d := CfgAt(tree, m, depth + 1), CfgAt(vm, m, depth + 1);
      forall g, vs | Settled(c.call(g, vs)) ensures d.call(g, vs) == c.call(g, vs) {
        TiersAgree(m, depth + 1, g, vs);
      }
      assert Invoke(tree, m, depth, name, args) == TreeResult(c, f, args);
      if CompileFunction(f).Some? { CompiledAgrees(c, d.call, f, args); } else { TreeAgrees(c, d, f, args); }
    }
  }

  lemma CompiledAgrees(c: Cfg, call: Dispatch, f: Function, args: seq<Value>)
    requires !c.moves && Agree(c.call, call) && |f.params| == |args|
    requires CompileFunction(f).Some? && BlockFits(f.body, true) && Settled(TreeResult(c, f, args))
    ensures VmResult(CompileFunction(f).value, call, args) == TreeResult(c, f, args)
  {
    hide EvalBody, CompileFunction, BlockFits, Exec, Agree, Settled;
    if TreeResult(c, f, args).NoResult? {
      CompiledBodyEndless(c, call, f, args);
    } else {
      var fuel :| EvalBody(c, f, args, fuel) != NoResult && TreeResult(c, f, args) == EvalBody(c, f, args, fuel);
      var n := CompiledBodyAgrees(c, call, f, args, fuel);
      VmResultIs(CompileFunction(f).value, call, args, n);
    }
  }

  lemma TreeAgrees(c: Cfg, d: Cfg, f: Function, args: seq<Value>)
    requires Refines(Settling, c, d) && |f.params| == |args| && Settled(TreeResult(c, f, args))
    ensures TreeResult(d, f, args) == TreeResult(c, f, args)
  {
    hide EvalBody, Refines, Settled;
    if TreeResult(c, f, args).NoResult? {
      forall fuel ensures EvalBody(d, f, args, fuel) == NoResult { BodySettles(c, d, f, args, fuel); }
    } else {
      var fuel :| EvalBody(c, f, args, fuel) != NoResult && TreeResult(c, f, args) == EvalBody(c, f, args, fuel);
      BodySettles(c, d, f, args, fuel);
      TreeResultIs(d, f, args, fuel);
    }
  }

  lemma BodySettles(c: Cfg, d: Cfg, f: Function, args: seq<Value>, fuel: nat)
    requires Refines(Settling, c, d) && |f.params| == |args|
    ensures Settled(EvalBody(c, f, args, fuel)) ==> EvalBody(d, f, args, fuel) == EvalBody(c, f, args, fuel)
  {
    hide EvalBody, Refines;
    BodyMono(Settling, c, d, f, args, fuel, fuel);
  }
}

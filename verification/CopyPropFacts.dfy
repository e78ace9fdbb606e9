/** Copy propagation preserves meaning. */
module CopyPropFacts {
  import opened Words
  import opened Ir
  import opened Eval
  import opened EvalFacts
  import opened CopyProp

  // ---- The alias map stays flat ----

  /** No alias stands for another alias. */
  ghost predicate Flat(aliases: Aliases) {
    forall y :: y in aliases ==> aliases[y] !in aliases
  }

  /** In a flat map resolution takes at most one hop, and ends because there is no further
      alias, not because of the guard against circles. */
  lemma FlatResolve(x: string, aliases: Aliases)
    requires Flat(aliases)
    ensures Resolve(x, aliases) == if x in aliases then aliases[x] else x
    ensures Resolve(x, aliases) !in aliases
  {
    if x in aliases {
      assert {} + {x} == {x};
      assert Chase(aliases[x], aliases, {x}) == aliases[x];
    }
  }

  lemma InvalidateFlat(x: string, aliases: Aliases)
    requires Flat(aliases)
    ensures Flat(Invalidate(x, aliases))
    ensures forall y :: y in Invalidate(x, aliases) <==> y in aliases && y != x && aliases[y] != x
    ensures forall y :: y in Invalidate(x, aliases) ==> Invalidate(x, aliases)[y] == aliases[y]
  {
    forall y ensures y in Invalidate(x, aliases) <==> y in aliases && y != x && aliases[y] != x {
      FlatResolve(y, aliases);
    }
  }

  lemma AfterFlat(s: Stmt, aliases: Aliases)
    requires Flat(aliases)
    ensures Flat(AfterStmt(s, aliases))
  {
    hide Rewrite, Resolve, Barrier, Invalidate;
    if s.Let? || s.Assign? {
      var past := PastBarrier(Rewrite(s.value, aliases), aliases);
      InvalidateFlat(s.name, past);
      var kept := Invalidate(s.name, past);
      if s.Let? && Rewrite(s.value, aliases).Var? { FlatResolve(Rewrite(s.value, aliases).name, kept); }
    }
  }

  // ---- The alias map stays true ----

  /** Each alias has the value of what it stands for, or fails the same way. */
  ghost predicate Holds(c: Cfg, aliases: Aliases, env: Env) {
    forall y :: y in aliases ==> EvalVar(c, y, env) == EvalVar(c, aliases[y], env)
  }

  /** After a statement that falls through, the aliases the pass goes on with are true. */
  lemma AfterHolds(c: Cfg, s: Stmt, aliases: Aliases, env: Env, fuel: nat)
    requires !c.moves && env != [] && Flat(aliases) && Holds(c, aliases, env)
    ensures var r := EvalStmt(c, s, env, fuel); r.out.Ok? && r.out.value.Normal? ==> Holds(c, AfterStmt(s, aliases), r.env)
  {
    hide Holds, Flat, EvalStmt;
    match s
    case Let(_, _) => AfterLet(c, s, aliases, env, fuel);
    case Assign(_, _, _) => AfterAssign(c, s, aliases, env, fuel);
    case _ => AfterOther(c, s, aliases, env, fuel);
  }

  lemma AfterOther(c: Cfg, s: Stmt, aliases: Aliases, env: Env, fuel: nat)
    requires !c.moves && env != [] && Holds(c, aliases, env) && !s.Let? && !s.Assign?
    ensures var r := EvalStmt(c, s, env, fuel); r.out.Ok? && r.out.value.Normal? ==> Holds(c, AfterStmt(s, aliases), r.env)
  {
    hide EvalExpr, EvalVar, Rewrite, Barrier, EvalIf, EvalFor, EvalScoped, AfterIteration, EvalBlock, EvalBounds;
  }

  lemma AfterLet(c: Cfg, s: Stmt, aliases: Aliases, env: Env, fuel: nat)
    requires !c.moves && env != [] && Flat(aliases) && Holds(c, aliases, env) && s.Let?
    ensures var r := EvalStmt(c, s, env, fuel); r.out.Ok? && r.out.value.Normal? ==> Holds(c, AfterStmt(s, aliases), r.env)
  {
    hide EvalExpr, Resolve, Barrier, Flat, Invalidate, Lookup, Define, Rewrite;
    var v := EvalExpr(c, s.value, env);
    if v.Ok? {
      var env' := Define(env, s.name, v.value);
      var value := Rewrite(s.value, aliases);
      var past := PastBarrier(value, aliases);
      var kept := Invalidate(s.name, past);
      assert Flat(past) by { PastFlat(value, aliases); }
      KeptHolds(c, s.name, past, env, env') by { forall y ensures y != s.name ==> Lookup(env', y) == Lookup(env, y) { LookupDefine(env, s.name, v.value, y); } }
      if value.Var? && Resolve(value.name, kept) != s.name {
        VarNoBarrier(value, aliases);
        NewAlias(c, s, aliases, env, kept);
      }
    }
  }

  lemma VarNoBarrier(e: Expr, aliases: Aliases)
    requires e.Var?
    ensures PastBarrier(e, aliases) == aliases
  {
  }

  lemma PastFlat(e: Expr, aliases: Aliases)
    requires Flat(aliases)
    ensures Flat(PastBarrier(e, aliases))
  {
  }

  /** Names other than the one written keep their values, so the aliases between them stay true. */
  lemma KeptHolds(c: Cfg, x: string, aliases: Aliases, env: Env, env': Env)
    requires Flat(aliases) && Holds(c, aliases, env) && forall y :: y != x ==> Lookup(env', y) == Lookup(env, y)
    ensures Flat(Invalidate(x, aliases)) && Holds(c, Invalidate(x, aliases), env')
  {
    hide Lookup, Invalidate, Resolve;
    InvalidateFlat(x, aliases);
  }

  /** `let x = y`, after which `x` stands for what `y` stood for. */
  lemma NewAlias(c: Cfg, s: Stmt, aliases: Aliases, env: Env, kept: Aliases)
    requires env != [] && Flat(aliases) && Holds(c, aliases, env) && s.Let? && EvalExpr(c, s.value, env).Ok?
    requires Rewrite(s.value, aliases).Var? && Flat(kept) && kept == Invalidate(s.name, aliases)
    requires Resolve(Rewrite(s.value, aliases).name, kept) != s.name
    ensures var env' := Define(env, s.name, EvalExpr(c, s.value, env).value);
            EvalVar(c, s.name, env') == EvalVar(c, Resolve(Rewrite(s.value, aliases).name, kept), env')
  {
    hide Invalidate, Define, Lookup;
    var v := EvalExpr(c, s.value, env).value;
    var y := s.value.name;
    var z := Resolve(y, aliases);
    FlatResolve(y, aliases);
    FlatResolve(z, kept);
    InvalidateFlat(s.name, aliases);
    LookupDefine(env, s.name, v, s.name);
    LookupDefine(env, s.name, v, z);
  }

  lemma AfterAssign(c: Cfg, s: Stmt, aliases: Aliases, env: Env, fuel: nat)
    requires !c.moves && env != [] && Flat(aliases) && Holds(c, aliases, env) && s.Assign?
    ensures var r := EvalStmt(c, s, env, fuel); r.out.Ok? && r.out.value.Normal? ==> Holds(c, AfterStmt(s, aliases), r.env)
  {
    hide Flat, Barrier, Invalidate, Rewrite, Resolve, EvalStmt, Lookup, Holds;
    var r := EvalStmt(c, s, env, fuel);
    if r.out.Ok? {
      var value := Rewrite(s.value, aliases);
      PastFlat(value, aliases);
      assert Holds(c, PastBarrier(value, aliases), env) by { PastHolds(c, value, aliases, env); }
      forall y | y != s.name ensures Lookup(r.env, y) == Lookup(env, y) { AssignElsewhere(c, s, env, fuel, y); }
      KeptHolds(c, s.name, PastBarrier(value, aliases), env, r.env);
    }
  }

  lemma PastHolds(c: Cfg, e: Expr, aliases: Aliases, env: Env)
    requires Holds(c, aliases, env)
    ensures Holds(c, PastBarrier(e, aliases), env)
  {
  }

  lemma AssignElsewhere(c: Cfg, s: Stmt, env: Env, fuel: nat, y: string)
    requires !c.moves && env != [] && s.Assign? && y != s.name
    ensures Lookup(EvalStmt(c, s, env, fuel).env, y) == Lookup(env, y)
  {
    hide EvalExpr, ApplyCompound, Update, Lookup;
    var v := EvalExpr(c, s.value, env);
    if v.Ok? {
      LookupUpdate(env, s.name, v.value, y);
      if s.op != Replace && Lookup(env, s.name).Some? {
        var w := ApplyCompound(Lookup(env, s.name).value, s.op, v.value);
        if w.Ok? { LookupUpdate(env, s.name, w.value, y); }
      }
    }
  }

  // ---- Expressions ----

  /** Does the variable `x` occur in `e`? Call names do not count: the pass leaves them alone. */
  predicate UsesVar(e: Expr, x: string)
    decreases e, 1
  {
    match e
    case Var(y) => y == x
    case ArrayLit(elems) => AnyUsesVar(elems, x)
    case Index(t, i) => UsesVar(t, x) || UsesVar(i, x)
    case Field(t, _) => UsesVar(t, x)
    case Unary(_, a) => UsesVar(a, x)
    case Binary(l, _, r) => UsesVar(l, x) || UsesVar(r, x)
    case Call(_, args) => AnyUsesVar(args, x)
    case _ => false
  }

  predicate AnyUsesVar(es: seq<Expr>, x: string)
    decreases es, 0
  {
    es != [] && (UsesVar(es[0], x) || AnyUsesVar(es[1..], x))
  }

  /** The aliases that `e` uses are true. */
  ghost predicate HoldsIn(c: Cfg, e: Expr, aliases: Aliases, env: Env) {
    forall y :: UsesVar(e, y) ==> EvalVar(c, y, env) == EvalVar(c, Resolve(y, aliases), env)
  }

  lemma HoldsEverywhere(c: Cfg, aliases: Aliases, env: Env)
    requires Flat(aliases) && Holds(c, aliases, env)
    ensures forall e :: HoldsIn(c, e, aliases, env)
  {
    forall y ensures EvalVar(c, y, env) == EvalVar(c, Resolve(y, aliases), env) { FlatResolve(y, aliases); }
  }

  lemma {:induction false} RewriteSame(c: Cfg, e: Expr, aliases: Aliases, env: Env)
    requires HoldsIn(c, e, aliases, env)
    ensures EvalExpr(c, Rewrite(e, aliases), env) == EvalExpr(c, e, env)
    decreases e, 1
  {
    hide Resolve, EvalBinary, EvalUnary, FieldOf, IndexInto, CallTarget;
    match e
    case Var(x) => assert UsesVar(e, x);
    case ArrayLit(elems) => RewriteAllSame(c, elems, aliases, env);
    case Index(t, i) => RewriteSame(c, t, aliases, env); RewriteSame(c, i, aliases, env); if t.Var? { assert UsesVar(t, t.name); }
    case Field(t, _) => RewriteSame(c, t, aliases, env);
    case Unary(_, a) => RewriteSame(c, a, aliases, env);
    case Binary(l, _, r) => RewriteSame(c, l, aliases, env); RewriteSame(c, r, aliases, env);
    case Call(f, args) => RewriteAllSame(c, args, aliases, env);
    case _ =>
  }

  lemma {:induction false} RewriteAllSame(c: Cfg, es: seq<Expr>, aliases: Aliases, env: Env)
    requires forall y :: AnyUsesVar(es, y) ==> EvalVar(c, y, env) == EvalVar(c, Resolve(y, aliases), env)
    ensures EvalExprs(c, RewriteAll(es, aliases), env) == EvalExprs(c, es, env)
    decreases es, 0
  {
    hide Resolve, EvalVar;
    if es != [] {
      var es' := RewriteAll(es, aliases);
      RewriteSame(c, es[0], aliases, env);
      RewriteAllSame(c, es[1..], aliases, env);
      assert es'[0] == Rewrite(es[0], aliases) && es'[1..] == RewriteAll(es[1..], aliases);
    }
  }

  lemma OptionSame(c: Cfg, e: Option<Expr>, aliases: Aliases, env: Env)
    requires e.Some? ==> HoldsIn(c, e.value, aliases, env)
    ensures e.Some? ==> EvalExpr(c, Rewrite(e.value, aliases), env) == EvalExpr(c, e.value, env)
    ensures EvalStep(c, RewriteOption(e, aliases), env) == EvalStep(c, e, env)
  {
    hide HoldsIn, EvalExpr, Rewrite;
    if e.Some? { RewriteSame(c, e.value, aliases, env); }
  }

  // ---- The condition the pass needs ----

  /** A `while` condition is rewritten once, with the aliases from before the loop, and tested
      again after every pass. The body must assign neither end of an alias it uses. */
  predicate Stable(cond: Expr, body: seq<Stmt>, aliases: Aliases) {
    forall y <- aliases :: UsesVar(cond, y) ==> !BlockAssigns(body, y) && !BlockAssigns(body, aliases[y])
  }

  predicate StmtStable(s: Stmt, aliases: Aliases)
    decreases s, 1
  {
    match s
    case If(branches, orelse) => BranchesStable(branches) && BlockStable(orelse, map[])
    case While(cond, body) => Stable(cond, body, aliases) && BlockStable(body, map[])
    case For(_, _, _, _, body) => BlockStable(body, map[])
    case Loop(body) => BlockStable(body, map[])
    case Region(body) => BlockStable(body, map[])
    case Try(body, _, handler) => BlockStable(body, map[]) && BlockStable(handler, map[])
    case _ => true
  }

  predicate BranchesStable(branches: seq<Branch>)
    decreases branches, 0
  {
    branches == [] || (BlockStable(branches[0].body, map[]) && BranchesStable(branches[1..]))
  }

  predicate BlockStable(body: seq<Stmt>, aliases: Aliases)
    decreases body, 0
  {
    body == [] || (StmtStable(body[0], aliases) && BlockStable(body[1..], AfterStmt(body[0], aliases)))
  }

  lemma {:induction false} BranchAt(branches: seq<Branch>, aliases: Aliases, i: nat)
    requires i < |branches|
    ensures RewriteBranches(branches, aliases)[i] == Branch(Rewrite(branches[i].cond, aliases), RewriteBlock(branches[i].body, map[]))
    ensures BranchesStable(branches) ==> BlockStable(branches[i].body, map[])
    decreases i
  {
    hide Rewrite, RewriteBlock, BlockStable;
    if i > 0 { BranchAt(branches[1..], aliases, i - 1); }
  }

  // ---- Statements ----

  /** What running a block does to a name it does not assign: nothing. */
  lemma UnassignedKept(c: Cfg, body: seq<Stmt>, env: Env, fuel: nat, y: string)
    requires !c.moves && env != [] && !BlockAssigns(body, y)
    ensures EvalVar(c, y, EvalScoped(c, body, env, fuel).env) == EvalVar(c, y, env)
  {
    hide EvalScoped, BlockAssigns;
    var env' := EvalScoped(c, body, env, fuel).env;
    ScopedNames(c, body, env, fuel);
    var k := Nearest(env, y);
    if k.Some? {
      ScopedKeeps(c, body, env, fuel, k.value, y);
      forall j | k.value < j < |env'| ensures y !in env'[j] { assert y !in env[j]; }
      NearestIs(env', y, k.value);
    } else {
      forall j | 0 <= j < |env'| ensures y !in env'[j] { assert y !in env[j]; }
    }
  }

  lemma StableKept(c: Cfg, cond: Expr, body: seq<Stmt>, aliases: Aliases, env: Env, fuel: nat)
    requires !c.moves && env != [] && Flat(aliases) && Stable(cond, body, aliases) && HoldsIn(c, cond, aliases, env)
    ensures HoldsIn(c, cond, aliases, EvalScoped(c, body, env, fuel).env)
  {
    hide EvalScoped, BlockAssigns, EvalVar, UsesVar, Resolve;
    var env' := EvalScoped(c, body, env, fuel).env;
    forall y | UsesVar(cond, y) ensures EvalVar(c, y, env') == EvalVar(c, Resolve(y, aliases), env') {
      FlatResolve(y, aliases);
      if y in aliases {
        UnassignedKept(c, body, env, fuel, y);
        UnassignedKept(c, body, env, fuel, aliases[y]);
      }
    }
  }

  /** The rewritten statement does exactly what the statement does: same outcome, same
      scopes, with any amount of fuel. */
  lemma {:induction false} StmtSame(c: Cfg, s: Stmt, aliases: Aliases, env: Env, fuel: nat)
    requires !c.moves && env != [] && Flat(aliases) && Holds(c, aliases, env) && StmtStable(s, aliases)
    ensures EvalStmt(c, RewriteStmt(s, aliases), env, fuel) == EvalStmt(c, s, env, fuel)
    decreases fuel, s, 3
  {
    hide EvalStmt, RewriteStmt, Flat, Holds, StmtStable;
    match s
    case If(_, _) => IfStmtSame(c, s, aliases, env, fuel);
    case While(_, _) =>
      assert HoldsIn(c, s.cond, aliases, env) by { HoldsEverywhere(c, aliases, env); }
      WhileSame(c, s, aliases, env, fuel);
    case For(_, _, _, _, _) => RangeSame(c, s, aliases, env, fuel);
    case Loop(_) => LoopSame(c, s, aliases, env, fuel);
    case Region(_) => NestedSame(c, s, aliases, env, fuel);
    case Try(_, _, _) => TrySame(c, s, aliases, env, fuel);
    case _ => SimpleSame(c, s, aliases, env, fuel);
  }

  lemma SimpleSame(c: Cfg, s: Stmt, aliases: Aliases, env: Env, fuel: nat)
    requires !c.moves && env != [] && Flat(aliases) && Holds(c, aliases, env)
    requires s.Let? || s.Assign? || s.Return? || s.Break? || s.Continue? || s.ExprStmt? || s.Throw?
    ensures EvalStmt(c, RewriteStmt(s, aliases), env, fuel) == EvalStmt(c, s, env, fuel)
  {
    hide HoldsIn, Flat, Holds, Rewrite, EvalExpr, ApplyCompound, StoreTo, Define;
    HoldsEverywhere(c, aliases, env);
    if s.Let? || s.Assign? || s.ExprStmt? || s.Throw? { RewriteSame(c, s.value, aliases, env); }
    if s.Return? { OptionSame(c, s.result, aliases, env); }
  }

  lemma {:induction false} NestedSame(c: Cfg, s: Stmt, aliases: Aliases, env: Env, fuel: nat)
    requires !c.moves && env != [] && s.Region? && StmtStable(s, aliases)
    ensures EvalStmt(c, RewriteStmt(s, aliases), env, fuel) == EvalStmt(c, s, env, fuel)
    decreases fuel, s, 2
  {
    hide EvalScoped, RewriteBlock, BlockStable;
    ScopedSame(c, s.body, env, fuel);
  }

  lemma {:induction false} ScopedSame(c: Cfg, body: seq<Stmt>, env: Env, fuel: nat)
    requires !c.moves && env != [] && BlockStable(body, map[])
    ensures EvalScoped(c, RewriteBlock(body, map[]), env, fuel) == EvalScoped(c, body, env, fuel)
    decreases fuel, body, 1
  {
    hide EvalBlock, RewriteBlock, BlockStable;
    BlockSame(c, body, map[], env + [map[]], fuel);
  }

  /** The main theorem: a rewritten block has the same outcome and the same final scopes. */
  lemma {:induction false} BlockSame(c: Cfg, body: seq<Stmt>, aliases: Aliases, env: Env, fuel: nat)
    requires !c.moves && env != [] && Flat(aliases) && Holds(c, aliases, env) && BlockStable(body, aliases)
    ensures EvalBlock(c, RewriteBlock(body, aliases), env, fuel) == EvalBlock(c, body, env, fuel)
    decreases fuel, body, 0
  {
    hide EvalStmt, RewriteStmt, AfterStmt, StmtStable, Flat, Holds;
    if body != [] {
      var body', after := RewriteBlock(body, aliases), AfterStmt(body[0], aliases);
      StmtSame(c, body[0], aliases, env, fuel);
      assert body'[0] == RewriteStmt(body[0], aliases) && body'[1..] == RewriteBlock(body[1..], after);
      var r := EvalStmt(c, body[0], env, fuel);
      if r.out.Ok? && r.out.value.Normal? {
        AfterFlat(body[0], aliases);
        AfterHolds(c, body[0], aliases, env, fuel);
        BlockSame(c, body[1..], after, r.env, fuel);
      }
    }
  }

  lemma {:induction false} IfStmtSame(c: Cfg, s: Stmt, aliases: Aliases, env: Env, fuel: nat)
    requires !c.moves && env != [] && Flat(aliases) && Holds(c, aliases, env) && s.If? && StmtStable(s, aliases)
    ensures EvalStmt(c, RewriteStmt(s, aliases), env, fuel) == EvalStmt(c, s, env, fuel)
    decreases fuel, s, 2
  {
    hide EvalIf, RewriteBranches, RewriteBlock, BranchesStable, BlockStable, Flat, Holds;
    IfSame(c, s, aliases, 0, env, fuel);
  }

  lemma {:induction false} IfSame(c: Cfg, s: Stmt, aliases: Aliases, i: nat, env: Env, fuel: nat)
    requires !c.moves && env != [] && Flat(aliases) && Holds(c, aliases, env) && s.If? && i <= |s.branches| && StmtStable(s, aliases)
    ensures EvalIf(c, RewriteStmt(s, aliases), i, env, fuel) == EvalIf(c, s, i, env, fuel)
    decreases fuel, s, 1, |s.branches| - i
  {
    hide EvalScoped, EvalExpr, RewriteBranches, RewriteBlock, BranchesStable, BlockStable, Flat, Holds, HoldsIn, Rewrite;
    if i == |s.branches| {
      ScopedSame(c, s.orelse, env, fuel);
    } else {
      BranchAt(s.branches, aliases, i);
      HoldsEverywhere(c, aliases, env);
      RewriteSame(c, s.branches[i].cond, aliases, env);
      ScopedSame(c, s.branches[i].body, env, fuel);
      IfSame(c, s, aliases, i + 1, env, fuel);
    }
  }

  lemma {:induction false} WhileSame(c: Cfg, s: Stmt, aliases: Aliases, env: Env, fuel: nat)
    requires !c.moves && env != [] && Flat(aliases) && s.While? && HoldsIn(c, s.cond, aliases, env) && StmtStable(s, aliases)
    ensures EvalStmt(c, RewriteStmt(s, aliases), env, fuel) == EvalStmt(c, s, env, fuel)
    decreases fuel, s, 2
  {
    hide EvalScoped, EvalExpr, RewriteBlock, BlockStable, Flat, HoldsIn, Rewrite, Stable;
    RewriteSame(c, s.cond, aliases, env);
    if fuel > 0 {
      ScopedSame(c, s.body, env, fuel);
      StableKept(c, s.cond, s.body, aliases, env, fuel);
      WhileSame(c, s, aliases, EvalScoped(c, s.body, env, fuel).env, fuel - 1);
    }
  }

  lemma {:induction false} LoopSame(c: Cfg, s: Stmt, aliases: Aliases, env: Env, fuel: nat)
    requires !c.moves && env != [] && s.Loop? && StmtStable(s, aliases)
    ensures EvalStmt(c, RewriteStmt(s, aliases), env, fuel) == EvalStmt(c, s, env, fuel)
    decreases fuel, s, 2
  {
    hide EvalScoped, RewriteBlock, BlockStable;
    if fuel > 0 {
      ScopedSame(c, s.body, env, fuel);
      LoopSame(c, s, aliases, EvalScoped(c, s.body, env, fuel).env, fuel - 1);
    }
  }

  lemma {:induction false} RangeSame(c: Cfg, s: Stmt, aliases: Aliases, env: Env, fuel: nat)
    requires !c.moves && env != [] && Flat(aliases) && Holds(c, aliases, env) && s.For? && StmtStable(s, aliases)
    ensures EvalStmt(c, RewriteStmt(s, aliases), env, fuel) == EvalStmt(c, s, env, fuel)
    decreases fuel, s, 2
  {
    hide EvalFor, EvalExpr, EvalStep, RewriteBlock, BlockStable, Flat, Holds, HoldsIn, Rewrite, RewriteOption;
    HoldsEverywhere(c, aliases, env);
    RewriteSame(c, s.start, aliases, env);
    RewriteSame(c, s.end, aliases, env);
    OptionSame(c, s.step, aliases, env);
    var bounds := EvalBounds(c, s.start, s.end, s.step, env);
    if bounds.Ok? {
      var (first, last, stride) := bounds.value;
      ForSame(c, s, aliases, first, last, stride, env + [map[s.name := I64(first)]], fuel);
    }
  }

  lemma {:induction false} ForSame(c: Cfg, s: Stmt, aliases: Aliases, current: i64, end: i64, step: i64, env: Env, fuel: nat)
    requires !c.moves && env != [] && s.For? && StmtStable(s, aliases)
    ensures EvalFor(c, RewriteStmt(s, aliases), current, end, step, env, fuel) == EvalFor(c, s, current, end, step, env, fuel)
    decreases fuel, s, 1
  {
    hide EvalScoped, RewriteBlock, BlockStable, Define, RewriteOption, Rewrite;
    if Eval.Running(current, end, step) && fuel > 0 {
      ScopedSame(c, s.body, Define(env, s.name, I64(current)), fuel);
      var r := EvalScoped(c, s.body, Define(env, s.name, I64(current)), fuel);
      ForSame(c, s, aliases, Wrap(current + step), end, step, r.env, fuel - 1);
    }
  }

  lemma {:induction false} TrySame(c: Cfg, s: Stmt, aliases: Aliases, env: Env, fuel: nat)
    requires !c.moves && env != [] && s.Try? && StmtStable(s, aliases)
    ensures EvalStmt(c, RewriteStmt(s, aliases), env, fuel) == EvalStmt(c, s, env, fuel)
    decreases fuel, s, 2
  {
    hide EvalScoped, EvalBlock, RewriteBlock, BlockStable;
    ScopedSame(c, s.body, env, fuel);
    var r := EvalScoped(c, s.body, env, fuel);
    if r.out.Err? && r.out.error.code == "L0420" {
      BlockSame(c, s.catchBody, map[], r.env + [map[s.catchName := Str(r.out.error.message)]], fuel);
    }
  }

  // ---- The counter ----

  /** The pass reports zero copies exactly when it changed nothing. */
  lemma {:induction false} NothingCopied(body: seq<Stmt>, aliases: Aliases)
    ensures CopiesBlock(body, aliases) == 0 <==> RewriteBlock(body, aliases) == body
    decreases body, 0
  {
    hide CopiesStmt, RewriteStmt, AfterStmt;
    if body != [] {
      NothingCopiedStmt(body[0], aliases);
      NothingCopied(body[1..], AfterStmt(body[0], aliases));
      assert body == [body[0]] + body[1..];
    }
  }

  lemma {:induction false} NothingCopiedStmt(s: Stmt, aliases: Aliases)
    ensures CopiesStmt(s, aliases) == 0 <==> RewriteStmt(s, aliases) == s
    decreases s, 1
  {
    hide Copies, Rewrite, CopiesBlock, RewriteBlock, CopiesBranches, RewriteBranches;
    match s
    case Let(_, e) => NothingCopiedExpr(e, aliases);
    case Assign(_, _, e) => NothingCopiedExpr(e, aliases);
    case Return(Some(e)) => NothingCopiedExpr(e, aliases);
    case Return(None) =>
    case Break =>
    case Continue =>
    case ExprStmt(e) => NothingCopiedExpr(e, aliases);
    case If(branches, orelse) => NothingCopiedBranches(branches, aliases); NothingCopied(orelse, map[]);
    case While(cond, body) => NothingCopiedExpr(cond, aliases); NothingCopied(body, map[]);
    case For(_, start, end, step, body) =>
      NothingCopiedExpr(start, aliases);
      NothingCopiedExpr(end, aliases);
      if step.Some? { NothingCopiedExpr(step.value, aliases); }
      NothingCopied(body, map[]);
    case Loop(body) => NothingCopied(body, map[]);
    case Region(body) => NothingCopied(body, map[]);
    case Throw(e) => NothingCopiedExpr(e, aliases);
    case Try(body, _, handler) => NothingCopied(body, map[]); NothingCopied(handler, map[]);
  }

  lemma {:induction false} NothingCopiedBranches(branches: seq<Branch>, aliases: Aliases)
    ensures CopiesBranches(branches, aliases) == 0 <==> RewriteBranches(branches, aliases) == branches
    decreases branches, 0
  {
    hide Copies, Rewrite, CopiesBlock, RewriteBlock;
    if branches != [] {
      NothingCopiedExpr(branches[0].cond, aliases);
      NothingCopied(branches[0].body, map[]);
      NothingCopiedBranches(branches[1..], aliases);
      assert branches == [branches[0]] + branches[1..];
    }
  }

  lemma {:induction false} NothingCopiedExpr(e: Expr, aliases: Aliases)
    ensures Copies(e, aliases) == 0 <==> Rewrite(e, aliases) == e
    decreases e, 1
  {
    hide Resolve;
    match e
    case ArrayLit(elems) => NothingCopiedAll(elems, aliases);
    case Index(t, i) => NothingCopiedExpr(t, aliases); NothingCopiedExpr(i, aliases);
    case Field(t, _) => NothingCopiedExpr(t, aliases);
    case Unary(_, a) => NothingCopiedExpr(a, aliases);
    case Binary(l, _, r) => NothingCopiedExpr(l, aliases); NothingCopiedExpr(r, aliases);
    case Call(_, args) => NothingCopiedAll(args, aliases);
    case _ =>
  }

  lemma {:induction false} NothingCopiedAll(es: seq<Expr>, aliases: Aliases)
    ensures CopiesAll(es, aliases) == 0 <==> RewriteAll(es, aliases) == es
    decreases es, 0
  {
    hide Copies, Rewrite;
    if es != [] {
      NothingCopiedExpr(es[0], aliases);
      NothingCopiedAll(es[1..], aliases);
      assert es == [es[0]] + es[1..];
    }
  }
}

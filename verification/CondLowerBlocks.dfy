/** Lowered statements and blocks against the originals, where conditionals are lazy. */
module CondLowerBlocks {
  import opened Words
  import opened Ir
  import opened Eval
  import opened EvalFacts
  import opened CondLower
  import opened CondLowerFacts

  // ---- What the pass needs of a program ----

  /** How closely lowered code follows the original. `Loose`: it succeeds when the original
      does. `Ordered`: it ends as the original does, in every run a checked program can have.
      `Identical`: it ends as the original does. */
  datatype Grade = Loose | Ordered | Identical

  /** A failure inside a `try` body decides what is caught, so under `Loose` such bodies hold
      no conditional. */
  function Inside(g: Grade): Grade { if g.Loose? then Identical else g }

  predicate ExprMeets(g: Grade, e: Expr) {
    match g
    case Loose => true
    case Ordered => InOrder(e)
    case Identical => Plain(e)
  }

  predicate StmtMeets(g: Grade, s: Stmt)
    decreases s, 1
  {
    match s
    case Let(_, e) => ExprMeets(g, e)
    case Assign(_, _, e) => ExprMeets(g, e)
    case Return(e) => e.Some? ==> ExprMeets(g, e.value)
    case ExprStmt(e) => ExprMeets(g, e)
    case Throw(e) => ExprMeets(g, e)
    case If(branches, orelse) => BranchesMeet(g, branches) && BlockMeets(g, orelse)
    case While(_, body) => BlockMeets(g, body)
    case For(_, _, _, _, body) => BlockMeets(g, body)
    case Loop(body) => BlockMeets(g, body)
    case Region(body) => BlockMeets(g, body)
    case Try(body, _, handler) => BlockMeets(Inside(g), body) && BlockMeets(g, handler)
    case _ => true
  }

  predicate BranchesMeet(g: Grade, branches: seq<Branch>)
    decreases branches, 0
  {
    branches == [] || (BlockMeets(g, branches[0].body) && BranchesMeet(g, branches[1..]))
  }

  predicate BlockMeets(g: Grade, body: seq<Stmt>)
    decreases body, 0
  {
    body == [] || (StmtMeets(g, body[0]) && BlockMeets(g, body[1..]))
  }

  /** Conditionals stand in let, assign, return, throw and expression statements only, and not
      in the right operand of `and` or `or`. No name is one of the temporaries'. */
  ghost predicate Lowerable(s: Stmt)
    decreases s, 1
  {
    match s
    case Let(x, e) => UserName(x) && UserExpr(e) && Hoistable(e)
    case Assign(x, _, e) => UserName(x) && UserExpr(e) && Hoistable(e)
    case Return(e) => e.Some? ==> UserExpr(e.value) && Hoistable(e.value)
    case ExprStmt(e) => UserExpr(e) && Hoistable(e)
    case Throw(e) => UserExpr(e) && Hoistable(e)
    case If(branches, orelse) => BranchesLowerable(branches) && BlockLowerable(orelse)
    case While(cond, body) => UserExpr(cond) && Plain(cond) && BlockLowerable(body)
    case For(x, start, end, step, body) =>
      && UserName(x) && UserExpr(start) && Plain(start) && UserExpr(end) && Plain(end)
      && (step.Some? ==> UserExpr(step.value) && Plain(step.value)) && BlockLowerable(body)
    case Loop(body) => BlockLowerable(body)
    case Region(body) => BlockLowerable(body)
    case Try(body, x, handler) => UserName(x) && BlockLowerable(body) && BlockLowerable(handler)
    case _ => true
  }

  ghost predicate BranchesLowerable(branches: seq<Branch>)
    decreases branches, 0
  {
    branches == [] ||
    (UserExpr(branches[0].cond) && Plain(branches[0].cond) && BlockLowerable(branches[0].body) && BranchesLowerable(branches[1..]))
  }

  ghost predicate BlockLowerable(body: seq<Stmt>)
    decreases body, 0
  {
    body == [] || (Lowerable(body[0]) && BlockLowerable(body[1..]))
  }

  // ---- Scopes that agree on the user's names ----

  ghost predicate EnvLike(env: Env, env': Env) {
    && |env'| == |env|
    && forall k, y :: 0 <= k < |env| && UserName(y) ==>
         (y in env'[k] <==> y in env[k]) && (y in env[k] ==> env'[k][y] == env[k][y])
  }

  lemma LikeLookup(env: Env, env': Env, y: string)
    requires EnvLike(env, env') && UserName(y)
    ensures Nearest(env', y) == Nearest(env, y) && Lookup(env', y) == Lookup(env, y)
  {
    NearestSame(env, env', y);
  }

  lemma LikeSame(c: Cfg, e: Expr, env: Env, env': Env)
    requires EnvLike(env, env') && UserExpr(e)
    ensures EvalExpr(c, e, env') == EvalExpr(c, e, env)
  {
    forall y | Mentions(e, y) ensures Lookup(env', y) == Lookup(env, y) { LikeLookup(env, env', y); }
    EvalSame(c, e, env', env);
  }

  lemma LikeTemps(env: Env, env': Env, env'': Env, n: nat, m: nat)
    requires EnvLike(env, env') && TempsOnly(env', env'', n, m)
    ensures EnvLike(env, env'')
  {
    forall y | UserName(y) ensures !Mine(y, n, m) { UserNotMine(y, n, m); }
  }

  lemma LikeDefine(env: Env, env': Env, x: string, v: Value)
    requires EnvLike(env, env') && env != []
    ensures EnvLike(Define(env, x, v), Define(env', x, v))
  {
  }

  lemma LikeUpdate(env: Env, env': Env, x: string, v: Value)
    requires EnvLike(env, env') && UserName(x)
    ensures EnvLike(Update(env, x, v), Update(env', x, v))
  {
    LikeLookup(env, env', x);
  }

  lemma LikePush(env: Env, env': Env, scope: map<string, Value>)
    requires EnvLike(env, env')
    ensures EnvLike(env + [scope], env' + [scope])
  {
  }

  lemma LikePop(env: Env, env': Env, n: nat)
    requires EnvLike(env, env') && n <= |env|
    ensures EnvLike(env[..n], env'[..n])
  {
  }

  /** `Loose`: the lowered run succeeds exactly when the original does, with the same outcome
      and the same user bindings. Otherwise any outcome is the same, an error or no result
      included; under `Ordered` short of errors the semantic checker rules out. */
  ghost predicate Related(g: Grade, r: Run, r': Run) {
    match g
    case Loose => (r.out.Ok? <==> r'.out.Ok?) && (r.out.Ok? ==> r'.out == r.out && EnvLike(r.env, r'.env))
    case Ordered => !Ruled(r.out) ==> r'.out == r.out && EnvLike(r.env, r'.env)
    case Identical => r'.out == r.out && EnvLike(r.env, r'.env)
  }

  // ---- Shapes ----

  lemma NoStmts()
    ensures var none: seq<Stmt> := []; none + none == none
  {
  }

  /** A block leaves nothing pending. */
  lemma {:induction false} NothingPending(zero: Zeros, body: seq<Stmt>, n: nat)
    ensures LowerBlock(zero, body, [], n).pending == []
    decreases body
  {
    hide LowerStmt;
    if body != [] { NothingPending(zero, body[1..], LowerStmt(zero, body[0], [], n).next); }
  }

  /** The `i`-th branch after lowering. */
  lemma {:induction false} BranchLoweredAt(g: Grade, zero: Zeros, branches: seq<Branch>, n: nat, i: nat) returns (m: nat)
    requires i < |branches| && BranchesLowerable(branches)
    ensures LowerBranches(zero, branches, [], n).branches[i]
            == Branch(branches[i].cond, LowerBlock(zero, branches[i].body, [], m).body)
    ensures UserExpr(branches[i].cond) && BlockLowerable(branches[i].body)
    ensures BranchesMeet(g, branches) ==> BlockMeets(g, branches[i].body)
    decreases i
  {
    hide Lower, LowerBlock, Plain, UserExpr, BlockLowerable, BlockMeets;
    LowerPlain(zero, branches[0].cond, n);
    NothingPending(zero, branches[0].body, n);
    NoStmts();
    if i == 0 {
      m := n;
    } else {
      m := BranchLoweredAt(g, zero, branches[1..], LowerBlock(zero, branches[0].body, [], n).next, i - 1);
    }
  }

  lemma {:induction false} BranchesPending(zero: Zeros, branches: seq<Branch>, n: nat)
    requires BranchesLowerable(branches)
    ensures LowerBranches(zero, branches, [], n).pending == []
    decreases branches
  {
    hide Lower, LowerBlock, Plain, UserExpr, BlockLowerable;
    if branches != [] {
      LowerPlain(zero, branches[0].cond, n);
      NothingPending(zero, branches[0].body, n);
      NoStmts();
      BranchesPending(zero, branches[1..], LowerBlock(zero, branches[0].body, [], n).next);
    }
  }

  // ---- Statements ----

  /** A lowered statement together with what it hoists. */
  function Unit(zero: Zeros, s: Stmt, n: nat): seq<Stmt> {
    var l := LowerStmt(zero, s, [], n);
    l.pending + [l.s]
  }

  lemma {:induction false} StmtLowered(g: Grade, c: Cfg, zero: Zeros, s: Stmt, n: nat, env: Env, env': Env, fuel: nat)
    requires !c.moves && env != [] && EnvLike(env, env') && Literals(zero) && Lowerable(s) && StmtMeets(g, s)
    ensures Related(g, EvalStmt(c, s, env, fuel), EvalBlock(c, Unit(zero, s, n), env', fuel))
    decreases fuel, s, 4
  {
    hide EvalStmt, EvalBlock, LowerStmt, Lowerable, StmtMeets, EnvLike, Literals, Related;
    match s
    case If(_, _) => IfUnit(g, c, zero, s, n, env, env', fuel);
    case While(_, _) => LoopUnit(g, c, zero, s, n, env, env', fuel);
    case For(_, _, _, _, _) => ForUnit(g, c, zero, s, n, env, env', fuel);
    case Loop(_) => LoopUnit(g, c, zero, s, n, env, env', fuel);
    case Region(_) => RegionUnit(g, c, zero, s, n, env, env', fuel);
    case Try(_, _, _) => TryUnit(g, c, zero, s, n, env, env', fuel);
    case Return(None) => SimpleUnit(g, c, zero, s, n, env, env', fuel);
    case Break => SimpleUnit(g, c, zero, s, n, env, env', fuel);
    case Continue => SimpleUnit(g, c, zero, s, n, env, env', fuel);
    case _ => ValueUnit(g, c, zero, s, n, env, env', fuel);
  }

  lemma SimpleUnit(g: Grade, c: Cfg, zero: Zeros, s: Stmt, n: nat, env: Env, env': Env, fuel: nat)
    requires env != [] && EnvLike(env, env') && (s == Return(None) || s.Break? || s.Continue?)
    ensures Related(g, EvalStmt(c, s, env, fuel), EvalBlock(c, Unit(zero, s, n), env', fuel))
  {
    hide EnvLike;
    LikeLen(env, env');
    assert Unit(zero, s, n) == [s];
    OneStmt(c, s, env', fuel);
  }

  // ---- Statements that use one value ----

  /** The value a statement starts by computing. */
  function ValueOf(s: Stmt): Expr
    requires s.Let? || s.Assign? || s.ExprStmt? || s.Throw? || (s.Return? && s.result.Some?)
  {
    if s.Return? then s.result.value else s.value
  }

  function WithValue(s: Stmt, e: Expr): Stmt
    requires s.Let? || s.Assign? || s.ExprStmt? || s.Throw? || (s.Return? && s.result.Some?)
  {
    match s
    case Let(x, _) => Let(x, e)
    case Assign(x, op, _) => Assign(x, op, e)
    case ExprStmt(_) => ExprStmt(e)
    case Throw(_) => Throw(e)
    case _ => Return(Some(e))
  }

  lemma ValueShape(zero: Zeros, s: Stmt, n: nat)
    requires s.Let? || s.Assign? || s.ExprStmt? || s.Throw? || (s.Return? && s.result.Some?)
    ensures var a := Lower(zero, ValueOf(s), n); Unit(zero, s, n) == a.pre + [WithValue(s, a.e)]
    ensures WithValue(s, ValueOf(s)) == s
  {
    hide Lower;
    var a := Lower(zero, ValueOf(s), n);
    assert [] + a.pre == a.pre;
  }

  /** Two statements that compute equal values in scopes that agree do alike. */
  lemma ValueAlike(c: Cfg, s: Stmt, e: Expr, env: Env, env': Env, fuel: nat)
    requires !c.moves && env != [] && EnvLike(env, env')
    requires s.Let? || s.Assign? || s.ExprStmt? || s.Throw? || (s.Return? && s.result.Some?)
    requires (s.Let? || s.Assign?) ==> UserName(s.name)
    requires EvalExpr(c, e, env') == EvalExpr(c, ValueOf(s), env)
    ensures Related(Identical, EvalStmt(c, s, env, fuel), EvalStmt(c, WithValue(s, e), env', fuel))
  {
    hide EvalExpr, EnvLike, ApplyCompound, Update, Define, Nearest;
    var v := EvalExpr(c, ValueOf(s), env);
    if v.Ok? {
      if s.Let? { LikeDefine(env, env', s.name, v.value); }
      if s.Assign? {
        LikeLookup(env, env', s.name);
        LikeUpdate(env, env', s.name, v.value);
        if s.op != Replace && Lookup(env, s.name).Some? {
          var w := ApplyCompound(Lookup(env, s.name).value, s.op, v.value);
          if w.Ok? { LikeUpdate(env, env', s.name, w.value); }
        }
      }
    }
  }

  lemma ValueStops(c: Cfg, s: Stmt, env: Env, fuel: nat)
    requires !c.moves && env != []
    requires s.Let? || s.Assign? || s.ExprStmt? || s.Throw? || (s.Return? && s.result.Some?)
    requires EvalExpr(c, ValueOf(s), env).IsFailure()
    ensures EvalStmt(c, s, env, fuel) == Run(EvalExpr(c, ValueOf(s), env).PropagateFailure(), env)
  {
    hide EvalExpr;
  }

  lemma ValueUnit(g: Grade, c: Cfg, zero: Zeros, s: Stmt, n: nat, env: Env, env': Env, fuel: nat)
    requires !c.moves && env != [] && EnvLike(env, env') && Literals(zero) && Lowerable(s) && StmtMeets(g, s)
    requires s.Let? || s.Assign? || s.ExprStmt? || s.Throw? || (s.Return? && s.result.Some?)
    ensures Related(g, EvalStmt(c, s, env, fuel), EvalBlock(c, Unit(zero, s, n), env', fuel))
  {
    hide EvalExpr, EvalStmt, EvalBlock, Lower, EnvLike, Literals, TempsOnly, Unit, Reached;
    var e := ValueOf(s);
    var a := Lower(zero, e, n);
    LikeLen(env, env');
    ValueShape(zero, s, n);
    LikeSame(c, e, env, env');
    if g.Identical? {
      LowerPlain(zero, e, n);
      assert [] + [s] == [s];
      OneStmt(c, s, env', fuel);
      ValueAlike(c, s, e, env, env', fuel);
    } else {
      ExprLowered(g.Ordered?, c, zero, e, n, env', fuel);
      var v, w := EvalExpr(c, e, env), LowValue(c, a, env', fuel);
      var r := EvalBlock(c, a.pre, env', fuel);
      BlockAppend(c, a.pre, [WithValue(s, a.e)], env', fuel);
      LikeTemps(env, env', r.env, n, a.next);
      LikeLen(env, r.env);
      if v.IsFailure() { ValueStops(c, s, env, fuel); }
      if r.out.Ok? {
        OneStmt(c, WithValue(s, a.e), r.env, fuel);
        if w == v {
          ValueAlike(c, s, a.e, env, r.env, fuel);
        } else {
          ValueStops(c, WithValue(s, a.e), r.env, fuel);
        }
      }
    }
  }

  // ---- Blocks ----

  lemma {:induction false} ScopedLowered(g: Grade, c: Cfg, zero: Zeros, body: seq<Stmt>, n: nat, env: Env, env': Env, fuel: nat)
    requires !c.moves && env != [] && EnvLike(env, env') && Literals(zero) && BlockLowerable(body) && BlockMeets(g, body)
    ensures Related(g, EvalScoped(c, body, env, fuel), EvalScoped(c, LowerBlock(zero, body, [], n).body, env', fuel))
    decreases fuel, body, 1
  {
    hide EvalBlock, LowerBlock, EnvLike, Literals, BlockLowerable, BlockMeets;
    var body' := LowerBlock(zero, body, [], n).body;
    LikePush(env, env', map[]);
    assert |env'| == |env| by { LikeLen(env, env'); }
    BlockLowered(g, c, zero, body, n, env + [map[]], env' + [map[]], fuel);
    var r, r' := EvalBlock(c, body, env + [map[]], fuel), EvalBlock(c, body', env' + [map[]], fuel);
    if EnvLike(r.env, r'.env) { LikePop(r.env, r'.env, |env|); }
  }

  lemma LikeLen(env: Env, env': Env)
    requires EnvLike(env, env')
    ensures |env'| == |env|
  {
  }

  /** The main theorem. */
  lemma {:induction false} BlockLowered(g: Grade, c: Cfg, zero: Zeros, body: seq<Stmt>, n: nat, env: Env, env': Env, fuel: nat)
    requires !c.moves && env != [] && EnvLike(env, env') && Literals(zero) && BlockLowerable(body) && BlockMeets(g, body)
    ensures Related(g, EvalBlock(c, body, env, fuel), EvalBlock(c, LowerBlock(zero, body, [], n).body, env', fuel))
    decreases fuel, body, 0
  {
    hide EvalStmt, LowerStmt, EnvLike, Literals, Lowerable, StmtMeets, EvalBlock;
    assert |env'| == |env| by { LikeLen(env, env'); }
    if body == [] {
      EmptyBlock(c, env, fuel);
      EmptyBlock(c, env', fuel);
    } else {
      var l := LowerStmt(zero, body[0], [], n);
      var rest' := LowerBlock(zero, body[1..], [], l.next).body;
      StmtLowered(g, c, zero, body[0], n, env, env', fuel);
      var r, r' := EvalStmt(c, body[0], env, fuel), EvalBlock(c, Unit(zero, body[0], n), env', fuel);
      BlockAppend(c, Unit(zero, body[0], n), rest', env', fuel);
      BlockFirst(c, body, env, fuel);
      BlockNonEmpty(zero, body[1..], l.next);
      if r.out.Ok? && r.out.value.Normal? {
        assert r.env != [] && |r'.env| == |r.env| by { LikeLen(r.env, r'.env); }
        BlockLowered(g, c, zero, body[1..], l.next, r.env, r'.env, fuel);
      }
    }
  }

  lemma BlockNonEmpty(zero: Zeros, body: seq<Stmt>, n: nat)
    ensures (LowerBlock(zero, body, [], n).body == []) <==> (body == [])
  {
  }

  lemma BlockFirst(c: Cfg, body: seq<Stmt>, env: Env, fuel: nat)
    requires body != [] && env != []
    ensures var r := EvalStmt(c, body[0], env, fuel);
            EvalBlock(c, body, env, fuel) ==
            if body[1..] != [] && r.out.Ok? && r.out.value.Normal? then EvalBlock(c, body[1..], r.env, fuel) else r
  {
    hide EvalStmt;
  }

  // ---- Compound statements ----

  lemma {:induction false} RegionUnit(g: Grade, c: Cfg, zero: Zeros, s: Stmt, n: nat, env: Env, env': Env, fuel: nat)
    requires !c.moves && env != [] && EnvLike(env, env') && Literals(zero) && s.Region? && Lowerable(s) && StmtMeets(g, s)
    ensures Related(g, EvalStmt(c, s, env, fuel), EvalBlock(c, Unit(zero, s, n), env', fuel))
    decreases fuel, s, 3
  {
    hide EvalScoped, EvalBlock, LowerBlock, EnvLike, Literals, BlockLowerable, BlockMeets;
    assert |env'| == |env| by { LikeLen(env, env'); }
    NothingPending(zero, s.body, n);
    var s' := LowerStmt(zero, s, [], n).s;
    assert Unit(zero, s, n) == [s'];
    OneStmt(c, s', env', fuel);
    ScopedLowered(g, c, zero, s.body, n, env, env', fuel);
  }

  lemma {:induction false} LoopUnit(g: Grade, c: Cfg, zero: Zeros, s: Stmt, n: nat, env: Env, env': Env, fuel: nat)
    requires !c.moves && env != [] && EnvLike(env, env') && Literals(zero) && (s.While? || s.Loop?) && Lowerable(s) && StmtMeets(g, s)
    ensures Related(g, EvalStmt(c, s, env, fuel), EvalBlock(c, Unit(zero, s, n), env', fuel))
    decreases fuel, s, 3
  {
    hide EvalStmt, EvalBlock, LowerBlock, EnvLike, Literals, BlockLowerable, BlockMeets, Lower;
    assert |env'| == |env| by { LikeLen(env, env'); }
    if s.While? { LowerPlain(zero, s.cond, n); }
    NoStmts();
    NothingPending(zero, s.body, n);
    var s' := LowerStmt(zero, s, [], n).s;
    assert Unit(zero, s, n) == [s'];
    OneStmt(c, s', env', fuel);
    LoopLowered(g, c, zero, s, n, env, env', fuel);
  }

  function LoopForm(zero: Zeros, s: Stmt, n: nat): Stmt
    requires s.While? || s.Loop?
  {
    if s.While? then While(s.cond, LowerBlock(zero, s.body, [], n).body) else Loop(LowerBlock(zero, s.body, [], n).body)
  }

  lemma {:induction false} LoopLowered(g: Grade, c: Cfg, zero: Zeros, s: Stmt, n: nat, env: Env, env': Env, fuel: nat)
    requires !c.moves && env != [] && EnvLike(env, env') && Literals(zero) && (s.While? || s.Loop?) && Lowerable(s) && StmtMeets(g, s)
    ensures |env'| == |env| && Related(g, EvalStmt(c, s, env, fuel), EvalStmt(c, LoopForm(zero, s, n), env', fuel))
    decreases fuel, s, 2
  {
    hide EvalExpr, EvalScoped, LowerBlock, EnvLike, Literals, BlockLowerable, BlockMeets, Plain, UserExpr;
    LikeLen(env, env');
    if s.While? { LikeSame(c, s.cond, env, env'); }
    if fuel > 0 {
      ScopedLowered(g, c, zero, s.body, n, env, env', fuel);
      var r, r' := EvalScoped(c, s.body, env, fuel), EvalScoped(c, LowerBlock(zero, s.body, [], n).body, env', fuel);
      if r.out.Ok? { LoopLowered(g, c, zero, s, n, r.env, r'.env, fuel - 1); }
    }
  }

  lemma {:induction false} IfUnit(g: Grade, c: Cfg, zero: Zeros, s: Stmt, n: nat, env: Env, env': Env, fuel: nat)
    requires !c.moves && env != [] && EnvLike(env, env') && Literals(zero) && s.If? && Lowerable(s) && StmtMeets(g, s)
    ensures Related(g, EvalStmt(c, s, env, fuel), EvalBlock(c, Unit(zero, s, n), env', fuel))
    decreases fuel, s, 3
  {
    hide EvalIf, EvalBlock, LowerBlock, LowerBranches, EnvLike, Literals, BlockLowerable, BranchesLowerable, BlockMeets, BranchesMeet;
    assert |env'| == |env| by { LikeLen(env, env'); }
    BranchesPending(zero, s.branches, n);
    NothingPending(zero, s.orelse, LowerBranches(zero, s.branches, [], n).next);
    var s' := LowerStmt(zero, s, [], n).s;
    assert Unit(zero, s, n) == [s'];
    OneStmt(c, s', env', fuel);
    IfLowered(g, c, zero, s, n, s', 0, env, env', fuel);
  }

  lemma {:induction false} IfLowered(g: Grade, c: Cfg, zero: Zeros, s: Stmt, n: nat, s': Stmt, i: nat, env: Env, env': Env, fuel: nat)
    requires !c.moves && env != [] && EnvLike(env, env') && Literals(zero) && s.If? && Lowerable(s) && StmtMeets(g, s)
    requires i <= |s.branches| && s'.If? && s'.branches == LowerBranches(zero, s.branches, [], n).branches
    requires s'.orelse == LowerBlock(zero, s.orelse, [], LowerBranches(zero, s.branches, [], n).next).body
    ensures |env'| == |env| && Related(g, EvalIf(c, s, i, env, fuel), EvalIf(c, s', i, env', fuel))
    decreases fuel, s, 1, |s.branches| - i
  {
    hide EvalExpr, EvalScoped, LowerBlock, LowerBranches, EnvLike, Literals, BlockLowerable, BranchesLowerable, BlockMeets, BranchesMeet, UserExpr;
    LikeLen(env, env');
    if i == |s.branches| {
      ScopedLowered(g, c, zero, s.orelse, LowerBranches(zero, s.branches, [], n).next, env, env', fuel);
    } else {
      var m := BranchLoweredAt(g, zero, s.branches, n, i);
      LikeSame(c, s.branches[i].cond, env, env');
      ScopedLowered(g, c, zero, s.branches[i].body, m, env, env', fuel);
      IfLowered(g, c, zero, s, n, s', i + 1, env, env', fuel);
    }
  }

  lemma {:induction false} ForUnit(g: Grade, c: Cfg, zero: Zeros, s: Stmt, n: nat, env: Env, env': Env, fuel: nat)
    requires !c.moves && env != [] && EnvLike(env, env') && Literals(zero) && s.For? && Lowerable(s) && StmtMeets(g, s)
    ensures Related(g, EvalStmt(c, s, env, fuel), EvalBlock(c, Unit(zero, s, n), env', fuel))
    decreases fuel, s, 3
  {
    hide EvalFor, EvalExpr, EvalStep, EvalBlock, LowerBlock, EnvLike, Literals, BlockLowerable, BlockMeets, Plain, UserExpr, Lower;
    assert |env'| == |env| by { LikeLen(env, env'); }
    ForShape(zero, s, n);
    var s' := ForForm(zero, s, n);
    OneStmt(c, s', env', fuel);
    BoundsLike(c, s, env, env');
    var bounds := EvalBounds(c, s.start, s.end, s.step, env);
    if bounds.Ok? {
      var (first, last, stride) := bounds.value;
      var scope := map[s.name := I64(first)];
      LikePush(env, env', scope);
      ForLowered(g, c, zero, s, n, first, last, stride, env + [scope], env' + [scope], fuel);
      var r, r' := EvalFor(c, s, first, last, stride, env + [scope], fuel), EvalFor(c, s', first, last, stride, env' + [scope], fuel);
      if EnvLike(r.env, r'.env) { LikePop(r.env, r'.env, |env|); }
    }
  }

  function ForForm(zero: Zeros, s: Stmt, n: nat): Stmt
    requires s.For?
  {
    For(s.name, s.start, s.end, s.step, LowerBlock(zero, s.body, [], n).body)
  }

  lemma ForShape(zero: Zeros, s: Stmt, n: nat)
    requires s.For? && Plain(s.start) && Plain(s.end) && (s.step.Some? ==> Plain(s.step.value))
    ensures Unit(zero, s, n) == [ForForm(zero, s, n)]
  {
    hide Lower, Plain, LowerBlock;
    LowerPlain(zero, s.start, n);
    LowerPlain(zero, s.end, n);
    if s.step.Some? { LowerPlain(zero, s.step.value, n); }
    NoStmts();
    NothingPending(zero, s.body, n);
  }

  lemma BoundsLike(c: Cfg, s: Stmt, env: Env, env': Env)
    requires s.For? && EnvLike(env, env') && UserExpr(s.start) && UserExpr(s.end) && (s.step.Some? ==> UserExpr(s.step.value))
    ensures EvalBounds(c, s.start, s.end, s.step, env') == EvalBounds(c, s.start, s.end, s.step, env)
  {
    hide EvalExpr, EnvLike, UserExpr;
    LikeSame(c, s.start, env, env');
    LikeSame(c, s.end, env, env');
    if s.step.Some? { LikeSame(c, s.step.value, env, env'); }
  }

  lemma {:induction false} ForLowered(g: Grade, c: Cfg, zero: Zeros, s: Stmt, n: nat, current: i64, end: i64, step: i64,
                                      env: Env, env': Env, fuel: nat)
    requires !c.moves && env != [] && EnvLike(env, env') && Literals(zero) && s.For? && Lowerable(s) && StmtMeets(g, s)
    ensures |env'| == |env|
    ensures Related(g, EvalFor(c, s, current, end, step, env, fuel),
                    EvalFor(c, ForForm(zero, s, n), current, end, step, env', fuel))
    decreases fuel, s, 2
  {
    hide EvalScoped, LowerBlock, EnvLike, Literals, BlockLowerable, BlockMeets, Plain, UserExpr, Define;
    LikeLen(env, env');
    if Eval.Running(current, end, step) && fuel > 0 {
      LikeDefine(env, env', s.name, I64(current));
      var env1, env1' := Define(env, s.name, I64(current)), Define(env', s.name, I64(current));
      ScopedLowered(g, c, zero, s.body, n, env1, env1', fuel);
      var r, r' := EvalScoped(c, s.body, env1, fuel), EvalScoped(c, LowerBlock(zero, s.body, [], n).body, env1', fuel);
      if r.out.Ok? { ForLowered(g, c, zero, s, n, Wrap(current + step), end, step, r.env, r'.env, fuel - 1); }
    }
  }

  lemma {:induction false} TryUnit(g: Grade, c: Cfg, zero: Zeros, s: Stmt, n: nat, env: Env, env': Env, fuel: nat)
    requires !c.moves && env != [] && EnvLike(env, env') && Literals(zero) && s.Try? && Lowerable(s) && StmtMeets(g, s)
    ensures Related(g, EvalStmt(c, s, env, fuel), EvalBlock(c, Unit(zero, s, n), env', fuel))
    decreases fuel, s, 3
  {
    hide EvalScoped, EvalBlock, LowerBlock, EnvLike, Literals, BlockLowerable, BlockMeets;
    assert |env'| == |env| by { LikeLen(env, env'); }
    NothingPending(zero, s.body, n);
    var m := LowerBlock(zero, s.body, [], n).next;
    NothingPending(zero, s.catchBody, m);
    var s' := LowerStmt(zero, s, [], n).s;
    assert Unit(zero, s, n) == [s'];
    OneStmt(c, s', env', fuel);
    ScopedLowered(Inside(g), c, zero, s.body, n, env, env', fuel);
    var r, r' := EvalScoped(c, s.body, env, fuel), EvalScoped(c, LowerBlock(zero, s.body, [], n).body, env', fuel);
    if r.out.Err? && r.out.error.code == "L0420" {
      var scope := map[s.catchName := Str(r.out.error.message)];
      LikePush(r.env, r'.env, scope);
      BlockLowered(g, c, zero, s.catchBody, m, r.env + [scope], r'.env + [scope], fuel);
      var h, h' := EvalBlock(c, s.catchBody, r.env + [scope], fuel), EvalBlock(c, LowerBlock(zero, s.catchBody, [], m).body, r'.env + [scope], fuel);
      if EnvLike(h.env, h'.env) { LikePop(h.env, h'.env, |env|); }
    }
  }
}

/** The move-instead-of-clone update against the plain evaluation it stands in for. */
module MoveUpdate {
  import opened Words
  import opened Ir
  import opened Eval
  import opened EvalFacts
  import opened EvalMono
  import opened Vm
  import opened VmExprs
  import opened Programs
  import opened VmTier

  function Cloning(c: Cfg): Cfg { c.(moves := false) }

  // ---- Expressions do not know about moves ----

  lemma {:induction false} ExprEither(c: Cfg, e: Expr, env: Env)
    ensures EvalExpr(c, e, env) == EvalExpr(Cloning(c), e, env)
    decreases e, 1
  {
    match e
    case ArrayLit(es) => ExprsEither(c, es, env);
    case Index(t, i) => ExprEither(c, t, env); ExprEither(c, i, env);
    case Field(t, _) => ExprEither(c, t, env);
    case Unary(_, a) => ExprEither(c, a, env);
    case Binary(l, _, r) => ExprEither(c, l, env); ExprEither(c, r, env);
    case Call(_, args) => ExprsEither(c, args, env);
    case Cond(t, k, f) => ExprEither(c, t, env); ExprEither(c, k, env); ExprEither(c, f, env);
    case _ =>
  }

  lemma {:induction false} ExprsEither(c: Cfg, es: seq<Expr>, env: Env)
    ensures EvalExprs(c, es, env) == EvalExprs(Cloning(c), es, env)
    decreases es, 0
  {
    if es != [] {
      ExprEither(c, es[0], env);
      ExprsEither(c, es[1..], env);
    }
  }

  // ---- One update ----

  lemma VarMeaning(c: Cfg, x: string, env: Env)
    requires Lookup(env, x).Some?
    ensures EvalExpr(c, Var(x), env) == Ok(Lookup(env, x).value)
  {
  }

  /** Evaluating all arguments is evaluating the others and putting the moved value in its place. */
  lemma {:induction false} OthersThenMoved(c: Cfg, x: string, args: seq<Expr>, env: Env)
    requires SoleBareArg(x, args).Some? && Lookup(env, x).Some?
    ensures var k := SoleBareArg(x, args).value;
            var others := EvalExprs(c, args[..k] + args[k + 1..], env);
            EvalExprs(c, args, env) ==
            (match others
             case Ok(vs) => Ok(vs[..k] + [Lookup(env, x).value] + vs[k..])
             case Err(e) => Err(e)
             case NoResult => NoResult)
  {
    var k := SoleBareArg(x, args).value;
    var rest := args[..k] + args[k + 1..];
    if k == 0 {
      assert rest == args[1..];
      VarMeaning(c, x, env);
      var others := EvalExprs(c, rest, env);
      if others.Ok? { assert others.value[..0] + [Lookup(env, x).value] + others.value[0..] == [Lookup(env, x).value] + others.value; }
    } else {
      hide SoleBareArg;
      SoleBareNext(x, args);
      OthersThenMoved(c, x, args[1..], env);
      assert rest[0] == args[0] && rest[1..] == args[1..][..k - 1] + args[1..][k..];
      var first, others := EvalExpr(c, args[0], env), EvalExprs(c, rest[1..], env);
      if first.Ok? && others.Ok? { InsertAfter(first.value, others.value, k, Lookup(env, x).value); }
    }
  }

  lemma SoleBareNext(x: string, args: seq<Expr>)
    requires SoleBareArg(x, args).Some? && SoleBareArg(x, args).value > 0
    ensures args != [] && SoleBareArg(x, args[1..]) == Some(SoleBareArg(x, args).value - 1)
  {
  }

  lemma InsertAfter(v: Value, vs: seq<Value>, k: nat, w: Value)
    requires 0 < k <= |vs| + 1
    ensures [v] + (vs[..k - 1] + [w] + vs[k - 1..]) == ([v] + vs)[..k] + [w] + ([v] + vs)[k..]
  {
  }

  /** Did the update move `x` out, and was everything else evaluated without failing? */
  predicate Moved(c: Cfg, x: string, rhs: Expr, env: Env, innermost: bool) {
    c.moves && Movable(x, env, innermost) &&
    match rhs
    case Call(f, args) =>
      var k := SoleBareArg(x, args);
      f != x && MoveSafe(c, f, env) && k.Some? && EvalExprs(c, args[..k.value] + args[k.value + 1..], env).Ok?
    case Binary(l, op, r) =>
      op != And && op != Or &&
      if l == Var(x) && !Mentions(r, x) then EvalExpr(c, r, env).Ok?
      else r == Var(x) && !Mentions(l, x) && EvalExpr(c, l, env).Ok?
    case _ => false
  }

  lemma MovableBound(x: string, env: Env, innermost: bool)
    requires Movable(x, env, innermost)
    ensures Lookup(env, x).Some?
  {
  }

  /** The moved update computes what the plain one does; the scopes it leaves differ, if at
      all, in the placeholder it put in `x`. */
  lemma UpdateEither(c: Cfg, x: string, rhs: Expr, env: Env, innermost: bool)
    ensures var r := EvalUpdate(c, x, rhs, env, innermost);
            r.0 == EvalExpr(Cloning(c), rhs, env) && r.1 == if Moved(c, x, rhs, env, innermost) then Update(env, x, Void) else env
  {
    hide EvalExpr, EvalExprs, EvalBinary, Update, SoleBareArg, Mentions;
    ExprEither(c, rhs, env);
    if c.moves && Movable(x, env, innermost) {
      MovableBound(x, env, innermost);
      if rhs.Call? && SoleBareArg(x, rhs.args).Some? {
        OthersThenMoved(c, x, rhs.args, env);
        CallMeaning(c, rhs, env);
      } else if rhs.Binary? {
        BinaryMeaning(c, rhs, env);
        VarMeaning(c, x, env);
      }
    }
  }

  lemma CallMeaning(c: Cfg, e: Expr, env: Env)
    requires e.Call?
    ensures var vs := EvalExprs(c, e.args, env);
            && (vs.Ok? && MoveSafe(c, e.callee, env) ==> EvalExpr(c, e, env) == c.call(e.callee, vs.value))
            && (vs.IsFailure() ==> EvalExpr(c, e, env) == vs.PropagateFailure())
  {
  }

  lemma BinaryMeaning(c: Cfg, e: Expr, env: Env)
    requires e.Binary?
    ensures e.op != And && e.op != Or ==>
              var l, r := EvalExpr(c, e.left, env), EvalExpr(c, e.right, env);
              EvalExpr(c, e, env) == if l.IsFailure() then l else if r.IsFailure() then r else EvalBinary(l.value, e.op, r.value)
  {
  }

  /** The write-back hits the very slot the value was moved out of. */
  lemma WriteBack(env: Env, x: string, v: Value, innermost: bool)
    requires Movable(x, env, innermost)
    ensures innermost ==> Define(Update(env, x, Void), x, v) == Define(env, x, v)
    ensures Update(Update(env, x, Void), x, v) == Update(env, x, v)
    ensures Nearest(Update(env, x, Void), x) == Nearest(env, x)
    ensures Lookup(Update(env, x, Void), x) == Some(Void)
  {
    MovableBound(x, env, innermost);
    var k := Nearest(env, x).value;
    var env' := Update(env, x, Void);
    NearestIs(env', x, k);
    assert env[k][x := Void][x := v] == env[k][x := v];
    assert Update(env', x, v) == env[k := env[k][x := v]];
    if innermost { assert k == |env| - 1; }
  }

  /** The builtins that run user code, or wait for it, and pass on the error it throws. The
      gate lets all of them through. */
  const CALLBACKS: set<string> := {"list_map", "list_filter", "list_reduce", "sort_by", "parallel_map", "task_join"}

  function Callbacks(c: Cfg): set<string> { CALLBACKS - c.funcs - c.barred }

  /** No other builtin that the gate lets through raises the catchable error. */
  ghost predicate Quiet(c: Cfg) {
    forall f, args :: f != "assert" && f !in c.funcs && f !in c.barred && f !in CALLBACKS ==> !Catchable(c.call(f, args))
  }

  /** `x = f(.., x, ..)` with `f` one of these builtins and no other mention of `x`. */
  predicate Risky(names: set<string>, x: string, rhs: Expr) {
    rhs.Call? && rhs.callee in names && rhs.callee != x && SoleBareArg(x, rhs.args).Some?
  }

  /** No assignment hands its target over to a builtin that may throw. A `let` may: the slot
      it moves out of is gone when the error is caught. */
  predicate Steady(names: set<string>, s: Stmt)
    decreases s, 1
  {
    match s
    case Assign(x, op, rhs) => op == Replace ==> !Risky(names, x, rhs)
    case If(branches, orelse) =>
      (forall i :: 0 <= i < |branches| ==> BlockSteady(names, branches[i].body)) && BlockSteady(names, orelse)
    case While(_, body) => BlockSteady(names, body)
    case For(_, _, _, _, body) => BlockSteady(names, body)
    case Loop(body) => BlockSteady(names, body)
    case Region(body) => BlockSteady(names, body)
    case Try(body, _, handler) => BlockSteady(names, body) && BlockSteady(names, handler)
    case _ => true
  }

  predicate BlockSteady(names: set<string>, body: seq<Stmt>)
    decreases body, 0
  {
    body == [] || (Steady(names, body[0]) && BlockSteady(names, body[1..]))
  }

  predicate Catchable<T>(r: Res<T>) { r.Err? && r.error.code == "L0420" }

  lemma BinaryNeverCatchable(l: Value, op: BinaryOp, r: Value)
    requires op != And && op != Or
    ensures !Catchable(EvalBinary(l, op, r))
  {
  }

  lemma MovedNotCaught(c: Cfg, x: string, rhs: Expr, env: Env, innermost: bool)
    requires Quiet(c) && Moved(c, x, rhs, env, innermost) && !Risky(Callbacks(c), x, rhs)
    ensures !Catchable(EvalExpr(Cloning(c), rhs, env))
  {
    hide EvalExpr, EvalExprs, EvalBinary, SoleBareArg, Mentions;
    MovableBound(x, env, innermost);
    ExprEither(c, rhs, env);
    if rhs.Call? {
      OthersThenMoved(c, x, rhs.args, env);
      CallMeaning(c, rhs, env);
    } else {
      BinaryMeaning(c, rhs, env);
      VarMeaning(c, x, env);
      var l, r := EvalExpr(c, rhs.left, env), EvalExpr(c, rhs.right, env);
      if l.Ok? && r.Ok? { BinaryNeverCatchable(l.value, rhs.op, r.value); }
    }
  }

  /** When the callee does raise it, the `catch` finds the placeholder; and only then. */
  lemma PlaceholderSeen(c: Cfg, x: string, rhs: Expr, env: Env, innermost: bool)
    requires Catchable(EvalExpr(Cloning(c), rhs, env))
    ensures var r := EvalUpdate(c, x, rhs, env, innermost);
            && Catchable(r.0)
            && (Moved(c, x, rhs, env, innermost) ==> Lookup(r.1, x) == Some(Void))
            && (r.1 == env <==> !Moved(c, x, rhs, env, innermost) || Lookup(env, x) == Some(Void))
  {
    hide EvalExpr, EvalUpdate;
    UpdateEither(c, x, rhs, env, innermost);
    if Moved(c, x, rhs, env, innermost) {
      MovableBound(x, env, innermost);
      WriteBack(env, x, Void, innermost);
      var k := Nearest(env, x).value;
      if Lookup(env, x) == Some(Void) {
        assert env[k][x := Void] == env[k];
      }
    }
  }

  // ---- Statements ----

  /** Same outcome; and the same scopes wherever anything can go on from them: after any
      normal outcome, and where a `catch` takes over. */
  ghost predicate Alike(moving: Run, cloning: Run) {
    moving.out == cloning.out && (cloning.out.Ok? || Catchable(cloning.out) ==> moving.env == cloning.env)
  }

  /** The same, but for the scope a `catch` will not see. */
  ghost predicate AlikeOutside(moving: Run, cloning: Run) {
    && moving.out == cloning.out && (cloning.out.Ok? ==> moving.env == cloning.env)
    && (Catchable(cloning.out) ==>
          |moving.env| == |cloning.env| > 0 && moving.env[..|cloning.env| - 1] == cloning.env[..|cloning.env| - 1])
  }

  lemma {:induction false} StmtAlike(c: Cfg, s: Stmt, env: Env, fuel: nat)
    requires Quiet(c) && Steady(Callbacks(c), s) && env != []
    ensures AlikeOutside(EvalStmt(c, s, env, fuel), EvalStmt(Cloning(c), s, env, fuel))
    decreases fuel, s, 3
  {
    hide EvalStmt, Quiet, Alike;
    match s
    case Let(_, _) => LetAlike(c, s, env, fuel);
    case Assign(_, _, _) => AssignAlike(c, s, env, fuel);
    case If(_, _) => IfAlike(c, s, 0, env, fuel); WrapAlike(c, s, env, fuel);
    case While(_, _) => LoopAlike(c, s, env, fuel);
    case For(_, _, _, _, _) => RangeAlike(c, s, env, fuel);
    case Loop(_) => LoopAlike(c, s, env, fuel);
    case Region(body) => ScopedAlike(c, body, env, fuel); WrapAlike(c, s, env, fuel);
    case Try(_, _, _) => TryAlike(c, s, env, fuel);
    case _ => SimpleAlike(c, s, env, fuel);
  }

  lemma SimpleAlike(c: Cfg, s: Stmt, env: Env, fuel: nat)
    requires env != [] && (s.Return? || s.Break? || s.Continue? || s.ExprStmt? || s.Throw?)
    ensures AlikeOutside(EvalStmt(c, s, env, fuel), EvalStmt(Cloning(c), s, env, fuel))
  {
    hide EvalExpr;
    if s.ExprStmt? || s.Throw? { ExprEither(c, s.value, env); }
    if s.Return? && s.result.Some? { ExprEither(c, s.result.value, env); }
  }

  lemma WrapAlike(c: Cfg, s: Stmt, env: Env, fuel: nat)
    requires env != [] && (s.If? || s.Region?)
    requires s.If? ==> Alike(EvalIf(c, s, 0, env, fuel), EvalIf(Cloning(c), s, 0, env, fuel))
    requires s.Region? ==> Alike(EvalScoped(c, s.body, env, fuel), EvalScoped(Cloning(c), s.body, env, fuel))
    ensures AlikeOutside(EvalStmt(c, s, env, fuel), EvalStmt(Cloning(c), s, env, fuel))
  {
    hide EvalIf, EvalScoped;
  }

  lemma LetAlike(c: Cfg, s: Stmt, env: Env, fuel: nat)
    requires env != [] && s.Let?
    ensures AlikeOutside(EvalStmt(c, s, env, fuel), EvalStmt(Cloning(c), s, env, fuel))
  {
    hide EvalExpr, EvalUpdate, Moved, Update, Define;
    UpdateEither(c, s.name, s.value, env, true);
    UpdateEither(Cloning(c), s.name, s.value, env, true);
    CloningNeverMoves(c, s.name, s.value, env, true);
    if Moved(c, s.name, s.value, env, true) {
      assert Movable(s.name, env, true) by { MovedMovable(c, s.name, s.value, env, true); }
      var v := EvalExpr(Cloning(c), s.value, env);
      InnermostOnly(env, s.name);
      if v.Ok? { WriteBack(env, s.name, v.value, true); }
    }
  }

  lemma InnermostOnly(env: Env, x: string)
    requires Movable(x, env, true)
    ensures env != [] && |Update(env, x, Void)| == |env| && Update(env, x, Void)[..|env| - 1] == env[..|env| - 1]
  {
  }

  lemma CloningNeverMoves(c: Cfg, x: string, rhs: Expr, env: Env, innermost: bool)
    ensures !Moved(Cloning(c), x, rhs, env, innermost)
  {
  }

  lemma MovedMovable(c: Cfg, x: string, rhs: Expr, env: Env, innermost: bool)
    requires Moved(c, x, rhs, env, innermost)
    ensures Movable(x, env, innermost)
  {
  }

  lemma AssignAlike(c: Cfg, s: Stmt, env: Env, fuel: nat)
    requires Quiet(c) && Steady(Callbacks(c), s) && env != [] && s.Assign?
    ensures AlikeOutside(EvalStmt(c, s, env, fuel), EvalStmt(Cloning(c), s, env, fuel))
  {
    hide EvalExpr, EvalUpdate, Quiet, Moved, Update, ApplyCompound;
    if s.op == Replace {
      UpdateEither(c, s.name, s.value, env, false);
      UpdateEither(Cloning(c), s.name, s.value, env, false);
      CloningNeverMoves(c, s.name, s.value, env, false);
      if Moved(c, s.name, s.value, env, false) {
        MovedNotCaught(c, s.name, s.value, env, false);
        assert Movable(s.name, env, false) by { MovedMovable(c, s.name, s.value, env, false); }
        var v := EvalExpr(Cloning(c), s.value, env);
        if v.Ok? { WriteBack(env, s.name, v.value, false); }
      }
    } else {
      ExprEither(c, s.value, env);
    }
  }

  lemma {:induction false} LoopAlike(c: Cfg, s: Stmt, env: Env, fuel: nat)
    requires Quiet(c) && Steady(Callbacks(c), s) && env != [] && (s.While? || s.Loop?)
    ensures AlikeOutside(EvalStmt(c, s, env, fuel), EvalStmt(Cloning(c), s, env, fuel))
    decreases fuel, s, 2
  {
    hide EvalExpr, EvalScoped, Quiet;
    if s.While? { ExprEither(c, s.cond, env); }
    if fuel > 0 {
      ScopedAlike(c, s.body, env, fuel);
      LoopAlike(c, s, EvalScoped(c, s.body, env, fuel).env, fuel - 1);
    }
  }

  lemma {:induction false} IfAlike(c: Cfg, s: Stmt, i: nat, env: Env, fuel: nat)
    requires Quiet(c) && Steady(Callbacks(c), s) && s.If? && i <= |s.branches| && env != []
    ensures Alike(EvalIf(c, s, i, env, fuel), EvalIf(Cloning(c), s, i, env, fuel))
    decreases fuel, s, 1, |s.branches| - i
  {
    hide EvalExpr, EvalScoped, Quiet;
    if i == |s.branches| {
      ScopedAlike(c, s.orelse, env, fuel);
    } else {
      ExprEither(c, s.branches[i].cond, env);
      ScopedAlike(c, s.branches[i].body, env, fuel);
      IfAlike(c, s, i + 1, env, fuel);
    }
  }

  lemma BoundsEither(c: Cfg, s: Stmt, env: Env)
    requires s.For?
    ensures EvalBounds(c, s.start, s.end, s.step, env) == EvalBounds(Cloning(c), s.start, s.end, s.step, env)
  {
    hide EvalExpr;
    ExprEither(c, s.start, env);
    ExprEither(c, s.end, env);
    if s.step.Some? { ExprEither(c, s.step.value, env); }
  }

  lemma {:induction false} RangeAlike(c: Cfg, s: Stmt, env: Env, fuel: nat)
    requires Quiet(c) && Steady(Callbacks(c), s) && env != [] && s.For?
    ensures AlikeOutside(EvalStmt(c, s, env, fuel), EvalStmt(Cloning(c), s, env, fuel))
    decreases fuel, s, 2
  {
    hide EvalBounds, EvalFor, Quiet;
    BoundsEither(c, s, env);
    var bounds := EvalBounds(c, s.start, s.end, s.step, env);
    if bounds.Ok? {
      var (first, last, stride) := bounds.value;
      ForAlike(c, s, first, last, stride, env + [map[s.name := I64(first)]], fuel);
    }
  }

  lemma {:induction false} ForAlike(c: Cfg, s: Stmt, current: i64, end: i64, step: i64, env: Env, fuel: nat)
    requires Quiet(c) && Steady(Callbacks(c), s) && s.For? && env != []
    ensures Alike(EvalFor(c, s, current, end, step, env, fuel), EvalFor(Cloning(c), s, current, end, step, env, fuel))
    decreases fuel, s, 1, 0
  {
    hide EvalScoped, Quiet, Define;
    if Eval.Running(current, end, step) && fuel > 0 {
      var env1 := Define(env, s.name, I64(current));
      ScopedAlike(c, s.body, env1, fuel);
      ForAlike(c, s, Wrap(current + step), end, step, EvalScoped(c, s.body, env1, fuel).env, fuel - 1);
    }
  }

  lemma {:induction false} TryAlike(c: Cfg, s: Stmt, env: Env, fuel: nat)
    requires Quiet(c) && Steady(Callbacks(c), s) && env != [] && s.Try?
    ensures AlikeOutside(EvalStmt(c, s, env, fuel), EvalStmt(Cloning(c), s, env, fuel))
    decreases fuel, s, 2
  {
    hide EvalScoped, EvalBlock, Quiet;
    ScopedAlike(c, s.body, env, fuel);
    var r := EvalScoped(c, s.body, env, fuel);
    if Catchable(r.out) {
      BlockAlike(c, s.catchBody, r.env + [map[s.catchName := Str(r.out.error.message)]], fuel);
    }
  }

  lemma {:induction false} ScopedAlike(c: Cfg, body: seq<Stmt>, env: Env, fuel: nat)
    requires Quiet(c) && BlockSteady(Callbacks(c), body) && env != []
    ensures Alike(EvalScoped(c, body, env, fuel), EvalScoped(Cloning(c), body, env, fuel))
    decreases fuel, body, 1
  {
    hide EvalBlock, Quiet;
    BlockAlike(c, body, env + [map[]], fuel);
  }

  /** The main theorem: with moves or without, a block has the same outcome, and the same
      final scopes unless it fails for good. */
  lemma {:induction false} BlockAlike(c: Cfg, body: seq<Stmt>, env: Env, fuel: nat)
    requires Quiet(c) && BlockSteady(Callbacks(c), body) && env != []
    ensures AlikeOutside(EvalBlock(c, body, env, fuel), EvalBlock(Cloning(c), body, env, fuel))
    decreases fuel, body, 0
  {
    hide EvalStmt, Quiet;
    if body != [] {
      StmtAlike(c, body[0], env, fuel);
      if |body| > 1 {
        BlockAlike(c, body[1..], EvalStmt(c, body[0], env, fuel).env, fuel);
      }
    }
  }

  lemma BodyAlike(c: Cfg, f: Function, args: seq<Value>, fuel: nat)
    requires Quiet(c) && BlockSteady(Callbacks(c), f.body) && |f.params| == |args|
    ensures EvalBody(c, f, args, fuel) == EvalBody(Cloning(c), f, args, fuel)
  {
    hide EvalBlock, Quiet;
    BlockAlike(c, f.body, [BindParams(f.params, args)], fuel);
  }

  // ---- Whole programs ----

  /** True of the builtins: apart from `assert`, only those that run user code raise it. */
  ghost predicate ModuleQuiet(m: Module) {
    forall f, args :: f != "assert" && f !in m.functions && f !in m.barred && f !in CALLBACKS ==> !Catchable(m.prim(f, args))
  }

  predicate ModuleSteady(m: Module) {
    forall name :: name in m.functions ==> BlockSteady(CALLBACKS - m.functions.Keys - m.barred, m.functions[name].body)
  }

  lemma {:induction false} ExecEither(ops: seq<VmOp>, call: Dispatch, call': Dispatch, st: State, n: nat)
    requires forall f, args :: call(f, args) == call'(f, args)
    ensures Exec(ops, call, st, n) == Exec(ops, call', st, n)
    decreases n
  {
    hide Step;
    if n > 0 {
      StepEither(ops, call, call', st);
      var o := Step(ops, call, st);
      if o.Next? { ExecEither(ops, call, call', o.st, n - 1); }
    }
  }

  lemma StepEither(ops: seq<VmOp>, call: Dispatch, call': Dispatch, st: State)
    requires forall f, args :: call(f, args) == call'(f, args)
    ensures Step(ops, call, st) == Step(ops, call', st)
  {
  }

  lemma VmEither(p: Program, call: Dispatch, call': Dispatch, args: seq<Value>)
    requires forall f, vs :: call(f, vs) == call'(f, vs)
    ensures VmResult(p, call, args) == VmResult(p, call', args)
  {
    hide Exec;
    var st := State(0, [], InitialFrame(args, p.frameSize));
    forall n ensures Exec(p.ops, call, st, n) == Exec(p.ops, call', st, n) { ExecEither(p.ops, call, call', st, n); }
    if exists n :: Finished(Exec(p.ops, call, st, n)) {
      var n :| Finished(Exec(p.ops, call, st, n));
      VmResultIs(p, call, args, n);
      VmResultIs(p, call', args, n);
    }
  }

  lemma TreeEither(c: Cfg, d: Cfg, f: Function, args: seq<Value>)
    requires |f.params| == |args| && Quiet(c) && BlockSteady(Callbacks(c), f.body) && Refines(Finishing, Cloning(c), d) && Refines(Finishing, d, Cloning(c))
    ensures TreeResult(c, f, args) == TreeResult(d, f, args)
  {
    hide EvalBody, Quiet, Refines;
    if exists fuel :: EvalBody(c, f, args, fuel) != NoResult {
      var fuel :| EvalBody(c, f, args, fuel) != NoResult;
      TreeResultIs(c, f, args, fuel);
      BodyAlike(c, f, args, fuel);
      BodyMono(Finishing, Cloning(c), d, f, args, fuel, fuel);
      TreeResultIs(d, f, args, fuel);
    } else {
      forall fuel ensures EvalBody(d, f, args, fuel) == NoResult {
        BodyMono(Finishing, d, Cloning(c), f, args, fuel, fuel);
        BodyAlike(c, f, args, fuel);
        assert EvalBody(c, f, args, fuel) == NoResult;
      }
    }
  }

  lemma PrimQuiet(vm: bool, m: Module, depth: nat)
    requires ModuleQuiet(m)
    ensures Quiet(CfgAt(Tier(vm, true), m, depth))
  {
    var c := CfgAt(Tier(vm, true), m, depth);
    forall f, args | f != "assert" && f !in c.funcs && f !in c.barred && f !in CALLBACKS ensures !Catchable(c.call(f, args)) {
      assert c.call(f, args) == Invoke(Tier(vm, true), m, depth, f, args);
    }
  }

  /** Every call gives the same with the fast path on as with it off. */
  lemma {:induction false} MovesChangeNothing(vm: bool, m: Module, depth: nat, name: string, args: seq<Value>)
    requires ModuleQuiet(m) && ModuleSteady(m)
    ensures Invoke(Tier(vm, true), m, depth, name, args) == Invoke(Tier(vm, false), m, depth, name, args)
    decreases RECURSION_LIMIT - depth
  {
    hide EvalBody, CompileFunction;
    if name in m.functions && name !in m.taken && |m.functions[name].params| == |args| && depth < RECURSION_LIMIT {
      var f := m.functions[name];
      var c, d := CfgAt(Tier(vm, true), m, depth + 1), CfgAt(Tier(vm, false), m, depth + 1);
      forall g, vs ensures c.call(g, vs) == d.call(g, vs) { MovesChangeNothing(vm, m, depth + 1, g, vs); }
      PrimQuiet(vm, m, depth + 1);
      if vm && CompileFunction(f).Some? {
        VmEither(CompileFunction(f).value, c.call, d.call, args);
      } else {
        TreeEither(c, d, f, args);
      }
    }
  }

  /** The tiers as they ship, both with the fast path on. */
  lemma ShippedTiersAgree(m: Module, depth: nat, name: string, args: seq<Value>)
    requires ModuleFits(m) && ModuleQuiet(m) && ModuleSteady(m)
    requires Settled(Invoke(Tier(false, true), m, depth, name, args))
    ensures Invoke(Tier(true, true), m, depth, name, args) == Invoke(Tier(false, true), m, depth, name, args)
  {
    hide Invoke, ModuleFits, ModuleQuiet, ModuleSteady;
    MovesChangeNothing(false, m, depth, name, args);
    MovesChangeNothing(true, m, depth, name, args);
    TiersAgree(m, depth, name, args);
  }

  // ---- Where it goes wrong ----

  /** `try { x = rhs } catch e { return x }`. */
  function Attempt(x: string, rhs: Expr, e: string): Stmt {
    Try([Assign(x, Replace, rhs)], e, [Stmt.Return(Some(Var(x)))])
  }

  /** Every refused assignment shows the difference: whenever its arguments evaluate and the
      builtin passes on what user code threw, the handler finds the placeholder where the
      plain evaluation leaves the variable's value. */
  lemma RiskyLosesValue(c: Cfg, x: string, rhs: Expr, e: string, env: Env)
    requires c.moves && Risky(Callbacks(c), x, rhs) && e != x && env != [] && Lookup(env, x).Some?
    requires !(Lookup(env, rhs.callee).Some? && Lookup(env, rhs.callee).value.Func?)
    requires EvalExprs(c, rhs.args, env).Ok? && Catchable(c.call(rhs.callee, EvalExprs(c, rhs.args, env).value))
    ensures EvalStmt(c, Attempt(x, rhs, e), env, 0).out == Ok(Returned(Void))
    ensures EvalStmt(Cloning(c), Attempt(x, rhs, e), env, 0).out == Ok(Returned(Lookup(env, x).value))
  {
    hide EvalStmt, EvalUpdate, EvalExpr, EvalExprs, Update, SoleBareArg, Mentions, Moved;
    var inner, failure := env + [map[]], c.call(rhs.callee, EvalExprs(c, rhs.args, env).value);
    RiskyFails(c, x, rhs, env);
    UpdateEither(c, x, rhs, inner, false);
    UpdateEither(Cloning(c), x, rhs, inner, false);
    CloningNeverMoves(c, x, rhs, inner, false);
    UpdateInside(env, x);
    LookupUpdated(env, x);
    HandlerSees(c, x, rhs, e, env, Update(env, x, Void), failure, Void);
    HandlerSees(Cloning(c), x, rhs, e, env, env, failure, Lookup(env, x).value);
  }

  /** In the scope of the `try` body the update moves `x` out, and fails. */
  lemma RiskyFails(c: Cfg, x: string, rhs: Expr, env: Env)
    requires c.moves && Risky(Callbacks(c), x, rhs) && env != [] && Lookup(env, x).Some?
    requires !(Lookup(env, rhs.callee).Some? && Lookup(env, rhs.callee).value.Func?)
    requires EvalExprs(c, rhs.args, env).Ok?
    ensures Moved(c, x, rhs, env + [map[]], false)
    ensures EvalExpr(Cloning(c), rhs, env + [map[]]) == c.call(rhs.callee, EvalExprs(c, rhs.args, env).value)
  {
    hide EvalExpr, EvalExprs, SoleBareArg, Mentions;
    var inner := env + [map[]];
    forall y ensures Lookup(inner, y) == Lookup(env, y) && Nearest(inner, y) == Nearest(env, y) { LookupInner(env, map[], y); InnerNearest(env, y); }
    EvalSames(c, rhs.args, inner, env);
    OthersThenMoved(c, x, rhs.args, inner);
    ExprEither(c, rhs, inner);
    CallMeaning(c, rhs, inner);
  }

  lemma InnerNearest(env: Env, y: string)
    ensures Nearest(env + [map[]], y) == Nearest(env, y)
  {
    assert (env + [map[]])[..|env|] == env;
  }

  lemma UpdateInside(env: Env, x: string)
    requires Lookup(env, x).Some?
    ensures Update(env + [map[]], x, Void) == Update(env, x, Void) + [map[]]
  {
    InnerNearest(env, x);
    var k := Nearest(env, x).value;
    assert (env + [map[]])[k] == env[k];
  }

  lemma LookupUpdated(env: Env, x: string)
    requires Lookup(env, x).Some?
    ensures Lookup(Update(env, x, Void), x) == Some(Void)
  {
    var k := Nearest(env, x).value;
    NearestIs(Update(env, x, Void), x, k);
  }

  /** The handler returns what the failed update left in `x`. */
  lemma HandlerSees(c: Cfg, x: string, rhs: Expr, e: string, env: Env, after: Env, failure: Res<Value>, seen: Value)
    requires env != [] && |after| == |env| && e != x && Catchable(failure) && Lookup(after, x) == Some(seen)
    requires EvalUpdate(c, x, rhs, env + [map[]], false) == (failure, after + [map[]])
    ensures EvalStmt(c, Attempt(x, rhs, e), env, 0).out == Ok(Returned(seen))
  {
    hide EvalUpdate, Nearest;
    var inner := env + [map[]];
    var assign := Assign(x, Replace, rhs);
    assert EvalStmt(c, assign, inner, 0) == Run(failure.PropagateFailure(), after + [map[]]);
    assert EvalBlock(c, [assign], inner, 0) == EvalStmt(c, assign, inner, 0);
    assert (after + [map[]])[..|env|] == after;
    var handler := after + [map[e := Str(failure.error.message)]];
    LookupInner(after, map[e := Str(failure.error.message)], x);
    assert EvalExpr(c, Var(x), handler) == Ok(seen);
    assert EvalStmt(c, Stmt.Return(Some(Var(x))), handler, 0).out == Ok(Returned(seen));
    assert EvalBlock(c, [Stmt.Return(Some(Var(x)))], handler, 0).out == Ok(Returned(seen));
  }

  /** `let x = [5]; try { x = list_map(x, g) } catch e { return x }`: when `g` throws, the
      handler returns the placeholder instead of the list. */
  lemma MappingLosesValue(c: Cfg)
    requires c.moves && "list_map" !in c.funcs && "list_map" !in c.barred && "g" in c.funcs
    requires c.call("list_map", [Array([I64(5)]), Func("g")]) == Fault("L0420", "user error")
    ensures var list, s := Array([I64(5)]), Attempt("x", Expr.Call("list_map", [Var("x"), Var("g")]), "e");
            && EvalStmt(Cloning(c), s, [map["x" := list]], 0).out == Ok(Returned(list))
            && EvalStmt(c, s, [map["x" := list]], 0).out == Ok(Returned(Void))
  {
    hide EvalStmt;
    var list := Array([I64(5)]);
    var env: Env := [map["x" := list]];
    var rhs := Expr.Call("list_map", [Var("x"), Var("g")]);
    MappingArgs(c, env, list);
    assert Lookup(env, "list_map").None?;
    RiskyLosesValue(c, "x", rhs, "e", env);
  }

  lemma MappingArgs(c: Cfg, env: Env, v: Value)
    requires "g" in c.funcs && env == [map["x" := v]]
    ensures EvalExprs(c, [Var("x"), Var("g")], env) == Ok([v, Func("g")])
    ensures SoleBareArg("x", [Var("x"), Var("g")]) == Some(0)
  {
    var args := [Var("x"), Var("g")];
    NearestIs(env, "x", 0);
    assert EvalExpr(c, Var("x"), env) == Ok(v) && EvalExpr(c, Var("g"), env) == Ok(Func("g"));
    assert args[0] == Var("x") && args[1..] == [Var("g")] && [Var("g")][0] == Var("g") && [Var("g")][1..] == [];
    assert EvalExprs(c, [], env) == Ok([]);
    hide EvalExpr;
    assert EvalExprs(c, [Var("g")], env) == Ok([Func("g")]) by { assert [Func("g")] + [] == [Func("g")]; }
    assert [v] + [Func("g")] == [v, Func("g")];
    assert EvalExprs(c, args, env) == Ok([v, Func("g")]);
    assert !AnyMentions([Var("g")], "x");
  }
}

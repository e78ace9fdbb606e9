/** What every run of the tree-walker leaves alone: outer scopes keep their names, and a
    binding that nothing in the code assigns keeps its value. */
module EvalFacts {
  import opened Words
  import opened Ir
  import opened Eval

  // ---- Scopes keep their names ----

  /** Outer scopes bind the same names before and after; the innermost only gains some. */
  ghost predicate NamesKept(env: Env, env': Env) {
    && |env'| == |env|
    && (forall k :: 0 <= k < |env| - 1 ==> env'[k].Keys == env[k].Keys)
    && (env != [] ==> env[|env| - 1].Keys <= env'[|env| - 1].Keys)
  }

  lemma NamesKeptTrans(a: Env, b: Env, c: Env)
    requires NamesKept(a, b) && NamesKept(b, c)
    ensures NamesKept(a, c)
  {
  }

  /** What happens inside a pushed scope leaves all the names outside it as they were. */
  lemma NamesKeptInside(env: Env, scope: map<string, Value>, env': Env)
    requires NamesKept(env + [scope], env')
    ensures NamesKept(env, env'[..|env|])
    ensures forall k :: 0 <= k < |env| ==> env'[k].Keys == env[k].Keys
  {
    forall k | 0 <= k < |env| ensures env'[k].Keys == env[k].Keys {
      assert (env + [scope])[k] == env[k];
    }
  }

  lemma UpdateKeepsNames(env: Env, x: string, v: Value)
    ensures NamesKept(env, Update(env, x, v))
    ensures forall k :: 0 <= k < |env| ==> Update(env, x, v)[k].Keys == env[k].Keys
  {
  }

  lemma {:induction false} EvalUpdateNames(c: Cfg, x: string, e: Expr, env: Env, innermost: bool)
    ensures NamesKept(env, EvalUpdate(c, x, e, env, innermost).1)
    ensures forall k :: 0 <= k < |env| ==> EvalUpdate(c, x, e, env, innermost).1[k].Keys == env[k].Keys
  {
    UpdateKeepsNames(env, x, Void);
  }

  /** Scopes are balanced on every path: whatever the outcome, at any depth, the scopes
      found are the scopes left, with no outer name added or removed. */
  lemma {:induction false} StmtNames(c: Cfg, s: Stmt, env: Env, fuel: nat)
    requires env != []
    ensures NamesKept(env, EvalStmt(c, s, env, fuel).env)
    decreases fuel, s, 3
  {
    hide EvalStmt, NamesKept;
    match s
    case Let(_, _) => StoreNames(c, s, env, fuel);
    case Assign(_, _, _) => StoreNames(c, s, env, fuel);
    case If(_, _) => IfNames(c, s, 0, env, fuel); SimpleNames(c, s, env, fuel);
    case While(_, _) => LoopNames(c, s, env, fuel);
    case For(_, _, _, _, _) => RangeNames(c, s, env, fuel);
    case Loop(_) => LoopNames(c, s, env, fuel);
    case Region(body) => ScopedNames(c, body, env, fuel); SimpleNames(c, s, env, fuel);
    case Try(_, _, _) => TryNames(c, s, env, fuel);
    case _ => SimpleNames(c, s, env, fuel);
  }

  lemma SimpleNames(c: Cfg, s: Stmt, env: Env, fuel: nat)
    requires env != [] && !s.Let? && !s.Assign? && !s.While? && !s.For? && !s.Loop? && !s.Try?
    requires s.If? ==> NamesKept(env, EvalIf(c, s, 0, env, fuel).env)
    requires s.Region? ==> NamesKept(env, EvalScoped(c, s.body, env, fuel).env)
    ensures NamesKept(env, EvalStmt(c, s, env, fuel).env)
  {
    hide EvalIf, EvalScoped;
  }

  lemma StoreNames(c: Cfg, s: Stmt, env: Env, fuel: nat)
    requires env != [] && (s.Let? || s.Assign?)
    ensures NamesKept(env, EvalStmt(c, s, env, fuel).env)
  {
    hide EvalUpdate, EvalExpr, ApplyCompound, Update;
    EvalUpdateNames(c, s.name, s.value, env, s.Let?);
    var (v, env') := EvalUpdate(c, s.name, s.value, env, s.Let?);
    if v.Ok? { UpdateKeepsNames(env', s.name, v.value); }
    var w := EvalExpr(c, s.value, env);
    if s.Assign? && s.op != Replace && w.Ok? && Lookup(env, s.name).Some? {
      var r := ApplyCompound(Lookup(env, s.name).value, s.op, w.value);
      if r.Ok? { UpdateKeepsNames(env, s.name, r.value); }
    }
  }

  lemma {:induction false} LoopNames(c: Cfg, s: Stmt, env: Env, fuel: nat)
    requires env != [] && (s.While? || s.Loop?)
    ensures NamesKept(env, EvalStmt(c, s, env, fuel).env)
    decreases fuel, s, 2
  {
    hide EvalExpr, AfterIteration, EvalScoped;
    if fuel > 0 {
      ScopedNames(c, s.body, env, fuel);
      AgainNames(c, s, EvalScoped(c, s.body, env, fuel), fuel);
    }
  }

  lemma {:induction false} RangeNames(c: Cfg, s: Stmt, env: Env, fuel: nat)
    requires env != [] && s.For?
    ensures NamesKept(env, EvalStmt(c, s, env, fuel).env)
    decreases fuel, s, 2
  {
    hide EvalBounds, EvalFor;
    var bounds := EvalBounds(c, s.start, s.end, s.step, env);
    if bounds.Ok? {
      var (first, last, stride) := bounds.value;
      ForNames(c, s, first, last, stride, env + [map[s.name := I64(first)]], fuel);
      NamesKeptInside(env, map[s.name := I64(first)], EvalFor(c, s, first, last, stride, env + [map[s.name := I64(first)]], fuel).env);
    }
  }

  lemma {:induction false} TryNames(c: Cfg, s: Stmt, env: Env, fuel: nat)
    requires env != [] && s.Try?
    ensures NamesKept(env, EvalStmt(c, s, env, fuel).env)
    decreases fuel, s, 2
  {
    hide EvalBlock, EvalScoped, NamesKept;
    ScopedNames(c, s.body, env, fuel);
    var r := EvalScoped(c, s.body, env, fuel);
    if r.out.Err? && r.out.error.code == "L0420" {
      var scope := map[s.catchName := Str(r.out.error.message)];
      BlockNames(c, s.catchBody, r.env + [scope], fuel);
      NamesKeptInside(r.env, scope, EvalBlock(c, s.catchBody, r.env + [scope], fuel).env);
      NamesKeptTrans(env, r.env, EvalBlock(c, s.catchBody, r.env + [scope], fuel).env[..|env|]);
    }
  }

  lemma {:induction false} AgainNames(c: Cfg, s: Stmt, r: Run, fuel: nat)
    requires (s.While? || s.Loop?) && r.env != [] && fuel > 0
    ensures NamesKept(r.env, AfterIteration(c, s, r, fuel).env)
    decreases fuel, s, 1, 0
  {
    if r.out.Ok? && !r.out.value.Returned? && !r.out.value.Broke? {
      StmtNames(c, s, r.env, fuel - 1);
    }
  }

  lemma {:induction false} IfNames(c: Cfg, s: Stmt, i: nat, env: Env, fuel: nat)
    requires s.If? && i <= |s.branches| && env != []
    ensures NamesKept(env, EvalIf(c, s, i, env, fuel).env)
    decreases fuel, s, 1, |s.branches| - i
  {
    if i == |s.branches| {
      ScopedNames(c, s.orelse, env, fuel);
    } else {
      ScopedNames(c, s.branches[i].body, env, fuel);
      IfNames(c, s, i + 1, env, fuel);
    }
  }

  lemma {:induction false} ForNames(c: Cfg, s: Stmt, current: i64, end: i64, step: i64, env: Env, fuel: nat)
    requires s.For? && env != []
    ensures NamesKept(env, EvalFor(c, s, current, end, step, env, fuel).env)
    decreases fuel, s, 1, 0
  {
    if Eval.Running(current, end, step) && fuel > 0 {
      var env1 := Define(env, s.name, I64(current));
      ScopedNames(c, s.body, env1, fuel);
      var r := EvalScoped(c, s.body, env1, fuel);
      if r.out.Ok? && !r.out.value.Returned? && !r.out.value.Broke? {
        ForNames(c, s, Wrap(current + step), end, step, r.env, fuel - 1);
      }
    }
  }

  lemma {:induction false} ScopedNames(c: Cfg, body: seq<Stmt>, env: Env, fuel: nat)
    requires env != []
    ensures NamesKept(env, EvalScoped(c, body, env, fuel).env)
    ensures forall k :: 0 <= k < |env| ==> EvalScoped(c, body, env, fuel).env[k].Keys == env[k].Keys
    decreases fuel, body, 1
  {
    BlockNames(c, body, env + [map[]], fuel);
    NamesKeptInside(env, map[], EvalBlock(c, body, env + [map[]], fuel).env);
  }

  lemma {:induction false} BlockNames(c: Cfg, body: seq<Stmt>, env: Env, fuel: nat)
    requires env != []
    ensures NamesKept(env, EvalBlock(c, body, env, fuel).env)
    decreases fuel, body, 0
  {
    if body != [] {
      StmtNames(c, body[0], env, fuel);
      if |body| > 1 {
        BlockNames(c, body[1..], EvalStmt(c, body[0], env, fuel).env, fuel);
      }
    }
  }

  // ---- Bindings nothing assigns ----

  /** Can running `s` assign a binding of `x` made outside it? A `let` or a loop variable
      of the same name shadows what follows it. */
  predicate Assigns(s: Stmt, x: string)
    decreases s, 2
  {
    match s
    case Assign(y, _, _) => y == x
    case If(_, _) => IfAssigns(s, 0, x)
    case While(_, body) => BlockAssigns(body, x)
    case For(y, _, _, _, body) => y != x && BlockAssigns(body, x)
    case Loop(body) => BlockAssigns(body, x)
    case Region(body) => BlockAssigns(body, x)
    case Try(body, y, handler) => BlockAssigns(body, x) || (y != x && BlockAssigns(handler, x))
    case _ => false
  }

  predicate IfAssigns(s: Stmt, i: nat, x: string)
    requires s.If? && i <= |s.branches|
    decreases s, 1, |s.branches| - i
  {
    if i == |s.branches| then BlockAssigns(s.orelse, x)
    else BlockAssigns(s.branches[i].body, x) || IfAssigns(s, i + 1, x)
  }

  predicate BlockAssigns(body: seq<Stmt>, x: string)
    decreases body, 0
  {
    body != [] && (Assigns(body[0], x) || (!(body[0].Let? && body[0].name == x) && BlockAssigns(body[1..], x)))
  }

  /** Some scope inside scope `k` also binds `x`. */
  ghost predicate Shadowed(env: Env, k: nat, x: string) {
    exists j :: k < j < |env| && x in env[j]
  }

  /** The binding of `x` in scope `k` is out of reach of assignments that `reached` speaks of. */
  ghost predicate Safe(env: Env, k: nat, x: string, reached: bool) {
    k < |env| && x in env[k] && (Shadowed(env, k, x) || !reached)
  }

  ghost predicate Keeps(env: Env, env': Env, k: nat, x: string) {
    k < |env'| && k < |env| && x in env[k] && x in env'[k] && env'[k][x] == env[k][x]
  }

  lemma ShadowedStays(env: Env, env': Env, k: nat, x: string)
    requires NamesKept(env, env') && Shadowed(env, k, x)
    ensures Shadowed(env', k, x)
  {
    var j :| k < j < |env| && x in env[j];
    assert x in env'[j];
  }

  lemma SafeInside(env: Env, scope: map<string, Value>, k: nat, x: string, reached: bool)
    requires Safe(env, k, x, x !in scope && reached)
    ensures Safe(env + [scope], k, x, reached)
  {
    var inner := env + [scope];
    if x in scope {
      assert x in inner[|env|];
    } else if Shadowed(env, k, x) {
      var j :| k < j < |env| && x in env[j];
      assert x in inner[j];
    }
  }

  lemma {:induction false} StmtKeeps(c: Cfg, s: Stmt, env: Env, fuel: nat, k: nat, x: string)
    requires !c.moves && k < |env| - 1
    requires Safe(env, k, x, Assigns(s, x))
    ensures Keeps(env, EvalStmt(c, s, env, fuel).env, k, x)
    decreases fuel, s, 3
  {
    hide EvalStmt, Safe, Keeps;
    match s
    case Let(_, _) => StoreKeeps(c, s, env, fuel, k, x);
    case Assign(_, _, _) => StoreKeeps(c, s, env, fuel, k, x);
    case If(_, _) => IfKeeps(c, s, 0, env, fuel, k, x); SimpleKeeps(c, s, env, fuel, k, x);
    case While(_, _) => LoopKeeps(c, s, env, fuel, k, x);
    case For(_, _, _, _, _) => RangeKeeps(c, s, env, fuel, k, x);
    case Loop(_) => LoopKeeps(c, s, env, fuel, k, x);
    case Region(body) => ScopedKeeps(c, body, env, fuel, k, x); SimpleKeeps(c, s, env, fuel, k, x);
    case Try(_, _, _) => TryKeeps(c, s, env, fuel, k, x);
    case _ => SimpleKeeps(c, s, env, fuel, k, x);
  }

  lemma SimpleKeeps(c: Cfg, s: Stmt, env: Env, fuel: nat, k: nat, x: string)
    requires k < |env| - 1 && Safe(env, k, x, Assigns(s, x))
    requires !s.Let? && !s.Assign? && !s.While? && !s.For? && !s.Loop? && !s.Try?
    requires s.If? ==> Keeps(env, EvalIf(c, s, 0, env, fuel).env, k, x)
    requires s.Region? ==> Keeps(env, EvalScoped(c, s.body, env, fuel).env, k, x)
    ensures Keeps(env, EvalStmt(c, s, env, fuel).env, k, x)
  {
    hide EvalIf, EvalScoped, Shadowed, Assigns;
  }

  lemma StoreKeeps(c: Cfg, s: Stmt, env: Env, fuel: nat, k: nat, x: string)
    requires !c.moves && k < |env| - 1 && (s.Let? || s.Assign?)
    requires Safe(env, k, x, Assigns(s, x))
    ensures Keeps(env, EvalStmt(c, s, env, fuel).env, k, x)
  {
    hide EvalExpr, ApplyCompound;
    if s.Assign? && s.name == x {
      var j :| k < j < |env| && x in env[j];
      assert Nearest(env, x).Some? && Nearest(env, x).value >= j;
    }
  }

  lemma {:induction false} LoopKeeps(c: Cfg, s: Stmt, env: Env, fuel: nat, k: nat, x: string)
    requires !c.moves && k < |env| - 1 && (s.While? || s.Loop?)
    requires Safe(env, k, x, Assigns(s, x))
    ensures Keeps(env, EvalStmt(c, s, env, fuel).env, k, x)
    decreases fuel, s, 2
  {
    hide EvalExpr, AfterIteration, EvalScoped, NamesKept, Shadowed;
    if fuel > 0 {
      ScopedKeeps(c, s.body, env, fuel, k, x);
      ScopedNames(c, s.body, env, fuel);
      AgainKeeps(c, s, env, EvalScoped(c, s.body, env, fuel), fuel, k, x);
    }
  }

  lemma {:induction false} RangeKeeps(c: Cfg, s: Stmt, env: Env, fuel: nat, k: nat, x: string)
    requires !c.moves && k < |env| - 1 && s.For?
    requires Safe(env, k, x, Assigns(s, x))
    ensures Keeps(env, EvalStmt(c, s, env, fuel).env, k, x)
    decreases fuel, s, 2
  {
    hide EvalBounds, EvalFor, Shadowed;
    var bounds := EvalBounds(c, s.start, s.end, s.step, env);
    if bounds.Ok? {
      var (first, last, stride) := bounds.value;
      SafeInside(env, map[s.name := I64(first)], k, x, s.name != x && BlockAssigns(s.body, x));
      ForKeeps(c, s, first, last, stride, env + [map[s.name := I64(first)]], fuel, k, x);
    }
  }

  lemma {:induction false} TryKeeps(c: Cfg, s: Stmt, env: Env, fuel: nat, k: nat, x: string)
    requires !c.moves && k < |env| - 1 && s.Try?
    requires Safe(env, k, x, Assigns(s, x))
    ensures Keeps(env, EvalStmt(c, s, env, fuel).env, k, x)
    decreases fuel, s, 2
  {
    hide EvalBlock, EvalScoped, NamesKept, Shadowed;
    ScopedKeeps(c, s.body, env, fuel, k, x);
    var r := EvalScoped(c, s.body, env, fuel);
    if r.out.Err? && r.out.error.code == "L0420" {
      ScopedNames(c, s.body, env, fuel);
      if Shadowed(env, k, x) { ShadowedStays(env, r.env, k, x); }
      var scope := map[s.catchName := Str(r.out.error.message)];
      SafeInside(r.env, scope, k, x, BlockAssigns(s.catchBody, x));
      BlockKeeps(c, s.catchBody, r.env + [scope], fuel, k, x);
    }
  }

  lemma {:induction false} AgainKeeps(c: Cfg, s: Stmt, env: Env, r: Run, fuel: nat, k: nat, x: string)
    requires !c.moves && (s.While? || s.Loop?) && fuel > 0 && k < |env| - 1
    requires Safe(env, k, x, Assigns(s, x)) && NamesKept(env, r.env) && Keeps(env, r.env, k, x)
    ensures Keeps(env, AfterIteration(c, s, r, fuel).env, k, x)
    decreases fuel, s, 1, 0
  {
    if r.out.Ok? && !r.out.value.Returned? && !r.out.value.Broke? {
      if Shadowed(env, k, x) { ShadowedStays(env, r.env, k, x); }
      StmtKeeps(c, s, r.env, fuel - 1, k, x);
    }
  }

  lemma {:induction false} IfKeeps(c: Cfg, s: Stmt, i: nat, env: Env, fuel: nat, k: nat, x: string)
    requires !c.moves && s.If? && i <= |s.branches| && k < |env| - 1
    requires Safe(env, k, x, IfAssigns(s, i, x))
    ensures Keeps(env, EvalIf(c, s, i, env, fuel).env, k, x)
    decreases fuel, s, 1, |s.branches| - i
  {
    if i == |s.branches| {
      ScopedKeeps(c, s.orelse, env, fuel, k, x);
    } else {
      ScopedKeeps(c, s.branches[i].body, env, fuel, k, x);
      IfKeeps(c, s, i + 1, env, fuel, k, x);
    }
  }

  lemma {:induction false} ForKeeps(c: Cfg, s: Stmt, current: i64, end: i64, step: i64, env: Env, fuel: nat, k: nat, x: string)
    requires !c.moves && s.For? && k < |env| - 1 && s.name in env[|env| - 1]
    requires Safe(env, k, x, s.name != x && BlockAssigns(s.body, x))
    ensures Keeps(env, EvalFor(c, s, current, end, step, env, fuel).env, k, x)
    decreases fuel, s, 1, 0
  {
    hide EvalScoped, Shadowed, BlockAssigns;
    if Eval.Running(current, end, step) && fuel > 0 {
      var env1 := Define(env, s.name, I64(current));
      CounterScope(env, s.name, I64(current), k, x);
      if Shadowed(env, k, x) { ShadowedStays(env, env1, k, x); }
      ScopedKeeps(c, s.body, env1, fuel, k, x);
      ScopedNames(c, s.body, env1, fuel);
      var r := EvalScoped(c, s.body, env1, fuel);
      if r.out.Ok? && !r.out.value.Returned? && !r.out.value.Broke? {
        if Shadowed(env1, k, x) { ShadowedStays(env1, r.env, k, x); }
        ForKeeps(c, s, Wrap(current + step), end, step, r.env, fuel - 1, k, x);
      }
    }
  }

  lemma CounterScope(env: Env, y: string, v: Value, k: nat, x: string)
    requires k < |env| - 1 && y in env[|env| - 1]
    ensures NamesKept(env, Define(env, y, v))
    ensures y == x ==> Shadowed(env, k, x)
  {
  }

  /** A scoped block may also spare a binding of the scope it is pushed onto. */
  lemma {:induction false} ScopedKeeps(c: Cfg, body: seq<Stmt>, env: Env, fuel: nat, k: nat, x: string)
    requires !c.moves && env != []
    requires Safe(env, k, x, BlockAssigns(body, x))
    ensures Keeps(env, EvalScoped(c, body, env, fuel).env, k, x)
    decreases fuel, body, 1
  {
    SafeInside(env, map[], k, x, BlockAssigns(body, x));
    BlockKeeps(c, body, env + [map[]], fuel, k, x);
  }

  lemma {:induction false} BlockKeeps(c: Cfg, body: seq<Stmt>, env: Env, fuel: nat, k: nat, x: string)
    requires !c.moves && k < |env| - 1
    requires Safe(env, k, x, BlockAssigns(body, x))
    ensures Keeps(env, EvalBlock(c, body, env, fuel).env, k, x)
    decreases fuel, body, 0
  {
    if body != [] {
      StmtKeeps(c, body[0], env, fuel, k, x);
      var r := EvalStmt(c, body[0], env, fuel);
      if |body| > 1 && r.out.Ok? && r.out.value.Normal? {
        StmtNames(c, body[0], env, fuel);
        if Shadowed(env, k, x) { ShadowedStays(env, r.env, k, x); }
        if body[0].Let? && body[0].name == x { assert x in r.env[|env| - 1]; }
        BlockKeeps(c, body[1..], r.env, fuel, k, x);
      }
    }
  }

  // ---- Expressions look at the names they mention only ----

  lemma {:induction false} EvalSame(c: Cfg, e: Expr, env: Env, env': Env)
    requires forall y :: Mentions(e, y) ==> Lookup(env, y) == Lookup(env', y)
    ensures EvalExpr(c, e, env) == EvalExpr(c, e, env')
    decreases e, 1
  {
    match e
    case ArrayLit(es) => EvalSames(c, es, env, env');
    case Var(x) => assert Mentions(e, x);
    case Index(t, i) => EvalSame(c, i, env, env'); EvalSame(c, t, env, env'); if t.Var? { assert Mentions(t, t.name); }
    case Field(t, _) => EvalSame(c, t, env, env');
    case Unary(_, a) => EvalSame(c, a, env, env');
    case Binary(l, _, r) => EvalSame(c, l, env, env'); EvalSame(c, r, env, env');
    case Call(f, args) => assert Mentions(e, f); EvalSames(c, args, env, env');
    case Cond(t, k, f) => EvalSame(c, t, env, env'); EvalSame(c, k, env, env'); EvalSame(c, f, env, env');
    case _ =>
  }

  lemma {:induction false} EvalSames(c: Cfg, es: seq<Expr>, env: Env, env': Env)
    requires forall y :: AnyMentions(es, y) ==> Lookup(env, y) == Lookup(env', y)
    ensures EvalExprs(c, es, env) == EvalExprs(c, es, env')
    decreases es, 0
  {
    if es != [] {
      EvalSame(c, es[0], env, env');
      EvalSames(c, es[1..], env, env');
    }
  }

  lemma LookupInner(env: Env, scope: map<string, Value>, x: string)
    ensures Lookup(env + [scope], x) == if x in scope then Some(scope[x]) else Lookup(env, x)
  {
    assert (env + [scope])[..|env|] == env;
  }

  /** A scope that binds nothing the expression mentions does not change its value. */
  lemma EvalInner(c: Cfg, e: Expr, env: Env, scope: map<string, Value>)
    requires forall y :: y in scope ==> !Mentions(e, y)
    ensures EvalExpr(c, e, env + [scope]) == EvalExpr(c, e, env)
  {
    forall y | Mentions(e, y) ensures Lookup(env + [scope], y) == Lookup(env, y) {
      LookupInner(env, scope, y);
    }
    EvalSame(c, e, env + [scope], env);
  }

  // ---- What a write does to lookups ----

  lemma LookupDefine(env: Env, x: string, v: Value, y: string)
    requires env != []
    ensures Lookup(Define(env, x, v), y) == if y == x then Some(v) else Lookup(env, y)
  {
    var env' := Define(env, x, v);
    if y != x {
      assert env'[..|env'| - 1] == env[..|env| - 1];
      NearestSame(env, env', y);
    }
  }

  /** Lookup depends on which scopes bind the name and on the values there. */
  lemma NearestSame(env: Env, env': Env, y: string)
    requires |env'| == |env| && forall k :: 0 <= k < |env| ==> (y in env'[k] <==> y in env[k]) && (y in env[k] ==> env'[k][y] == env[k][y])
    ensures Nearest(env', y) == Nearest(env, y) && Lookup(env', y) == Lookup(env, y)
  {
    var k := Nearest(env, y);
    if k.Some? { NearestIs(env', y, k.value); }
  }

  lemma LookupUpdate(env: Env, x: string, v: Value, y: string)
    requires y != x
    ensures Lookup(Update(env, x, v), y) == Lookup(env, y)
  {
    NearestSame(env, Update(env, x, v), y);
  }
}

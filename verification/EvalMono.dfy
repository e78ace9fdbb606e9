/** More fuel and a better-informed dispatcher never change an outcome already reached. */
module EvalMono {
  import opened Words
  import opened Ir
  import opened Eval
  import opened VmExprs

  /** Which outcomes carry over: any that settles, with the same fuel; values and errors, with
      more; or any but the errors the semantic checker rules out, again with the same. */
  datatype Carry = Settling | Finishing | Checking

  predicate Final<T>(k: Carry, r: Res<T>) {
    match k
    case Settling => Settled(r)
    case Finishing => !r.NoResult?
    case Checking => !Ruled(r)
  }

  /** `d` is `c` with a dispatcher that agrees wherever `c`'s outcome carries over. */
  ghost predicate Refines(k: Carry, c: Cfg, d: Cfg) {
    d == c.(call := d.call) && forall f, args :: Final(k, c.call(f, args)) ==> d.call(f, args) == c.call(f, args)
  }

  lemma {:induction false} ExprMono(k: Carry, c: Cfg, d: Cfg, e: Expr, env: Env)
    requires Refines(k, c, d)
    ensures Final(k, EvalExpr(c, e, env)) ==> EvalExpr(d, e, env) == EvalExpr(c, e, env)
    decreases e, 1
  {
    hide EvalBinary, EvalUnary, IndexInto, FieldOf, CallTarget, Lookup;
    assert d.funcs == c.funcs;
    match e
    case ArrayLit(es) => ExprsMono(k, c, d, es, env);
    case Index(t, i) =>
      ExprMono(k, c, d, t, env);
      ExprMono(k, c, d, i, env);
      IndexMono(k, c, d, t, i, env);
    case Field(t, _) => ExprMono(k, c, d, t, env);
    case Unary(_, a) => ExprMono(k, c, d, a, env);
    case Binary(l, op, r) =>
      ExprMono(k, c, d, l, env);
      ExprMono(k, c, d, r, env);
      BinaryMono(k, c, d, l, op, r, env);
    case Call(f, args) => ExprsMono(k, c, d, args, env);
    case Cond(t, test, f) => ExprMono(k, c, d, t, env); ExprMono(k, c, d, test, env); ExprMono(k, c, d, f, env);
    case _ =>
  }

  lemma BinaryMono(k: Carry, c: Cfg, d: Cfg, l: Expr, op: BinaryOp, r: Expr, env: Env)
    requires Final(k, EvalExpr(c, l, env)) ==> EvalExpr(d, l, env) == EvalExpr(c, l, env)
    requires Final(k, EvalExpr(c, r, env)) ==> EvalExpr(d, r, env) == EvalExpr(c, r, env)
    ensures var e := Expr.Binary(l, op, r); Final(k, EvalExpr(c, e, env)) ==> EvalExpr(d, e, env) == EvalExpr(c, e, env)
  {
    hide EvalBinary;
  }

  lemma IndexMono(k: Carry, c: Cfg, d: Cfg, t: Expr, i: Expr, env: Env)
    requires Final(k, EvalExpr(c, t, env)) ==> EvalExpr(d, t, env) == EvalExpr(c, t, env)
    requires Final(k, EvalExpr(c, i, env)) ==> EvalExpr(d, i, env) == EvalExpr(c, i, env)
    requires d.funcs == c.funcs
    ensures var e := Expr.Index(t, i); Final(k, EvalExpr(c, e, env)) ==> EvalExpr(d, e, env) == EvalExpr(c, e, env)
  {
    hide IndexInto, Lookup;
  }

  lemma {:induction false} ExprsMono(k: Carry, c: Cfg, d: Cfg, es: seq<Expr>, env: Env)
    requires Refines(k, c, d)
    ensures Final(k, EvalExprs(c, es, env)) ==> EvalExprs(d, es, env) == EvalExprs(c, es, env)
    decreases es, 0
  {
    if es != [] {
      ExprMono(k, c, d, es[0], env);
      ExprsMono(k, c, d, es[1..], env);
    }
  }

  lemma UpdateMono(k: Carry, c: Cfg, d: Cfg, x: string, e: Expr, env: Env, innermost: bool)
    requires Refines(k, c, d)
    ensures Final(k, EvalUpdate(c, x, e, env, innermost).0) ==>
              EvalUpdate(d, x, e, env, innermost) == EvalUpdate(c, x, e, env, innermost)
  {
    hide EvalExpr, EvalExprs, EvalUpdate;
    ExprMono(k, c, d, e, env);
    if e.Call? {
      var i := SoleBareArg(x, e.args);
      if i.Some? { ExprsMono(k, c, d, e.args[..i.value] + e.args[i.value + 1..], env); }
    } else if e.Binary? {
      ExprMono(k, c, d, e.left, env);
      ExprMono(k, c, d, e.right, env);
    }
    UpdateRefines(k, c, d, x, e, env, innermost);
  }

  lemma UpdateRefines(k: Carry, c: Cfg, d: Cfg, x: string, e: Expr, env: Env, innermost: bool)
    requires Refines(k, c, d)
    requires Final(k, EvalExpr(c, e, env)) ==> EvalExpr(d, e, env) == EvalExpr(c, e, env)
    requires e.Call? && SoleBareArg(x, e.args).Some? ==>
               var i := SoleBareArg(x, e.args).value;
               var others := e.args[..i] + e.args[i + 1..];
               Final(k, EvalExprs(c, others, env)) ==> EvalExprs(d, others, env) == EvalExprs(c, others, env)
    requires e.Binary? && Final(k, EvalExpr(c, e.left, env)) ==> EvalExpr(d, e.left, env) == EvalExpr(c, e.left, env)
    requires e.Binary? && Final(k, EvalExpr(c, e.right, env)) ==> EvalExpr(d, e.right, env) == EvalExpr(c, e.right, env)
    ensures Final(k, EvalUpdate(c, x, e, env, innermost).0) ==>
              EvalUpdate(d, x, e, env, innermost) == EvalUpdate(c, x, e, env, innermost)
  {
    hide EvalExpr, EvalExprs, EvalBinary, Mentions, Update, SoleBareArg;
  }

  lemma {:induction false} StmtMono(k: Carry, c: Cfg, d: Cfg, s: Stmt, env: Env, fuel: nat, more: nat)
    requires Refines(k, c, d) && env != [] && fuel <= more && (!k.Finishing? ==> more == fuel)
    ensures Final(k, EvalStmt(c, s, env, fuel).out) ==> EvalStmt(d, s, env, more) == EvalStmt(c, s, env, fuel)
    decreases fuel, s, 3
  {
    hide EvalStmt, Refines;
    match s
    case Let(_, _) => SimpleMono(k, c, d, s, env, fuel, more);
    case Assign(_, _, _) => SimpleMono(k, c, d, s, env, fuel, more);
    case If(_, _) => IfMono(k, c, d, s, 0, env, fuel, more); WrapMono(k, c, d, s, env, fuel, more);
    case While(_, _) => LoopMono(k, c, d, s, env, fuel, more);
    case For(_, _, _, _, _) => RangeMono(k, c, d, s, env, fuel, more);
    case Loop(_) => LoopMono(k, c, d, s, env, fuel, more);
    case Region(body) => ScopedMono(k, c, d, body, env, fuel, more); WrapMono(k, c, d, s, env, fuel, more);
    case Try(_, _, _) => TryMono(k, c, d, s, env, fuel, more);
    case _ => SimpleMono(k, c, d, s, env, fuel, more);
  }

  lemma WrapMono(k: Carry, c: Cfg, d: Cfg, s: Stmt, env: Env, fuel: nat, more: nat)
    requires env != [] && (s.If? || s.Region?)
    requires s.If? && Final(k, EvalIf(c, s, 0, env, fuel).out) ==> EvalIf(d, s, 0, env, more) == EvalIf(c, s, 0, env, fuel)
    requires s.Region? && Final(k, EvalScoped(c, s.body, env, fuel).out) ==>
               EvalScoped(d, s.body, env, more) == EvalScoped(c, s.body, env, fuel)
    ensures Final(k, EvalStmt(c, s, env, fuel).out) ==> EvalStmt(d, s, env, more) == EvalStmt(c, s, env, fuel)
  {
    hide EvalIf, EvalScoped;
  }

  lemma SimpleMono(k: Carry, c: Cfg, d: Cfg, s: Stmt, env: Env, fuel: nat, more: nat)
    requires Refines(k, c, d) && env != []
    requires s.Let? || s.Assign? || s.Return? || s.Break? || s.Continue? || s.ExprStmt? || s.Throw?
    ensures Final(k, EvalStmt(c, s, env, fuel).out) ==> EvalStmt(d, s, env, more) == EvalStmt(c, s, env, fuel)
  {
    hide EvalExpr, EvalUpdate, ApplyCompound, Refines;
    if s.Let? || s.Assign? { UpdateMono(k, c, d, s.name, s.value, env, s.Let?); }
    if s.Assign? || s.ExprStmt? || s.Throw? { ExprMono(k, c, d, s.value, env); }
    if s.Return? && s.result.Some? { ExprMono(k, c, d, s.result.value, env); }
  }

  lemma {:induction false} LoopMono(k: Carry, c: Cfg, d: Cfg, s: Stmt, env: Env, fuel: nat, more: nat)
    requires Refines(k, c, d) && env != [] && fuel <= more && (!k.Finishing? ==> more == fuel) && (s.While? || s.Loop?)
    ensures Final(k, EvalStmt(c, s, env, fuel).out) ==> EvalStmt(d, s, env, more) == EvalStmt(c, s, env, fuel)
    decreases fuel, s, 2
  {
    hide EvalExpr, EvalScoped, Refines;
    if s.While? { ExprMono(k, c, d, s.cond, env); }
    if fuel > 0 {
      ScopedMono(k, c, d, s.body, env, fuel, more);
      AgainMono(k, c, d, s, EvalScoped(c, s.body, env, fuel), fuel, more);
    }
  }

  lemma BoundsMono(k: Carry, c: Cfg, d: Cfg, s: Stmt, env: Env)
    requires Refines(k, c, d) && s.For?
    ensures Final(k, EvalBounds(c, s.start, s.end, s.step, env)) ==>
              EvalBounds(d, s.start, s.end, s.step, env) == EvalBounds(c, s.start, s.end, s.step, env)
  {
    hide EvalExpr, Refines;
    ExprMono(k, c, d, s.start, env);
    ExprMono(k, c, d, s.end, env);
    if s.step.Some? { ExprMono(k, c, d, s.step.value, env); }
  }

  lemma {:induction false} RangeMono(k: Carry, c: Cfg, d: Cfg, s: Stmt, env: Env, fuel: nat, more: nat)
    requires Refines(k, c, d) && env != [] && fuel <= more && (!k.Finishing? ==> more == fuel) && s.For?
    ensures Final(k, EvalStmt(c, s, env, fuel).out) ==> EvalStmt(d, s, env, more) == EvalStmt(c, s, env, fuel)
    decreases fuel, s, 2
  {
    hide EvalBounds, EvalFor, Refines;
    BoundsMono(k, c, d, s, env);
    var bounds := EvalBounds(c, s.start, s.end, s.step, env);
    if bounds.Ok? {
      var (first, last, stride) := bounds.value;
      ForMono(k, c, d, s, first, last, stride, env + [map[s.name := I64(first)]], fuel, more);
    }
  }

  lemma {:induction false} TryMono(k: Carry, c: Cfg, d: Cfg, s: Stmt, env: Env, fuel: nat, more: nat)
    requires Refines(k, c, d) && env != [] && fuel <= more && (!k.Finishing? ==> more == fuel) && s.Try?
    ensures Final(k, EvalStmt(c, s, env, fuel).out) ==> EvalStmt(d, s, env, more) == EvalStmt(c, s, env, fuel)
    decreases fuel, s, 2
  {
    hide EvalBlock, EvalScoped, Refines;
    ScopedMono(k, c, d, s.body, env, fuel, more);
    var r := EvalScoped(c, s.body, env, fuel);
    if r.out.Err? && r.out.error.code == "L0420" {
      BlockMono(k, c, d, s.catchBody, r.env + [map[s.catchName := Str(r.out.error.message)]], fuel, more);
    }
  }

  lemma {:induction false} AgainMono(k: Carry, c: Cfg, d: Cfg, s: Stmt, r: Run, fuel: nat, more: nat)
    requires Refines(k, c, d) && (s.While? || s.Loop?) && r.env != [] && 0 < fuel <= more && (!k.Finishing? ==> more == fuel)
    ensures Final(k, AfterIteration(c, s, r, fuel).out) ==> AfterIteration(d, s, r, more) == AfterIteration(c, s, r, fuel)
    decreases fuel, s, 1, 0
  {
    StmtMono(k, c, d, s, r.env, fuel - 1, more - 1);
  }

  lemma {:induction false} IfMono(k: Carry, c: Cfg, d: Cfg, s: Stmt, i: nat, env: Env, fuel: nat, more: nat)
    requires Refines(k, c, d) && s.If? && i <= |s.branches| && env != [] && fuel <= more && (!k.Finishing? ==> more == fuel)
    ensures Final(k, EvalIf(c, s, i, env, fuel).out) ==> EvalIf(d, s, i, env, more) == EvalIf(c, s, i, env, fuel)
    decreases fuel, s, 1, |s.branches| - i
  {
    if i == |s.branches| {
      ScopedMono(k, c, d, s.orelse, env, fuel, more);
    } else {
      ExprMono(k, c, d, s.branches[i].cond, env);
      ScopedMono(k, c, d, s.branches[i].body, env, fuel, more);
      IfMono(k, c, d, s, i + 1, env, fuel, more);
    }
  }

  lemma {:induction false} ForMono(k: Carry, c: Cfg, d: Cfg, s: Stmt, current: i64, end: i64, step: i64, env: Env, fuel: nat, more: nat)
    requires Refines(k, c, d) && s.For? && env != [] && fuel <= more && (!k.Finishing? ==> more == fuel)
    ensures Final(k, EvalFor(c, s, current, end, step, env, fuel).out) ==>
              EvalFor(d, s, current, end, step, env, more) == EvalFor(c, s, current, end, step, env, fuel)
    decreases fuel, s, 1, 0
  {
    if Eval.Running(current, end, step) && fuel > 0 {
      ScopedMono(k, c, d, s.body, Define(env, s.name, I64(current)), fuel, more);
      var r := EvalScoped(c, s.body, Define(env, s.name, I64(current)), fuel);
      ForMono(k, c, d, s, Wrap(current + step), end, step, r.env, fuel - 1, more - 1);
    }
  }

  lemma {:induction false} ScopedMono(k: Carry, c: Cfg, d: Cfg, body: seq<Stmt>, env: Env, fuel: nat, more: nat)
    requires Refines(k, c, d) && env != [] && fuel <= more && (!k.Finishing? ==> more == fuel)
    ensures Final(k, EvalScoped(c, body, env, fuel).out) ==> EvalScoped(d, body, env, more) == EvalScoped(c, body, env, fuel)
    decreases fuel, body, 1
  {
    BlockMono(k, c, d, body, env + [map[]], fuel, more);
  }

  lemma {:induction false} BlockMono(k: Carry, c: Cfg, d: Cfg, body: seq<Stmt>, env: Env, fuel: nat, more: nat)
    requires Refines(k, c, d) && env != [] && fuel <= more && (!k.Finishing? ==> more == fuel)
    ensures Final(k, EvalBlock(c, body, env, fuel).out) ==> EvalBlock(d, body, env, more) == EvalBlock(c, body, env, fuel)
    decreases fuel, body, 0
  {
    if body != [] {
      StmtMono(k, c, d, body[0], env, fuel, more);
      if |body| > 1 {
        BlockMono(k, c, d, body[1..], EvalStmt(c, body[0], env, fuel).env, fuel, more);
      }
    }
  }

  lemma BodyMono(k: Carry, c: Cfg, d: Cfg, f: Function, args: seq<Value>, fuel: nat, more: nat)
    requires Refines(k, c, d) && |f.params| == |args| && fuel <= more && (!k.Finishing? ==> more == fuel)
    ensures Final(k, EvalBody(c, f, args, fuel)) ==> EvalBody(d, f, args, more) == EvalBody(c, f, args, fuel)
  {
    BlockMono(k, c, d, f.body, [BindParams(f.params, args)], fuel, more);
  }
}

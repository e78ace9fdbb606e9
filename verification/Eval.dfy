/** The tree-walking interpreter: the reference meaning of the IR. */
module Eval {
  import opened Words
  import opened Ir

  type Env = Scopes<Value>

  /** What a body runs against: `call` stands for every function and builtin reached by
      name, `funcs` the user functions (usable as values), `barred` the extern, async
      and trait names. `moves` switches the move-instead-of-clone update on. */
  datatype Cfg = Cfg(call: (string, seq<Value>) -> Res<Value>, funcs: set<string>, barred: set<string>, moves: bool)

  datatype Flow = Normal(v: Value) | Returned(v: Value) | Broke | Continued

  datatype Run = Run(out: Res<Flow>, env: Env)

  function EvalVar(c: Cfg, x: string, env: Env): Res<Value> {
    match Lookup(env, x)
    case Some(v) => Ok(v)
    case None => if x in c.funcs then Ok(Func(x)) else Fault("L0403", "unknown variable " + x)
  }

  /** A call name bound to a function value dispatches through it. */
  function CallTarget(name: string, env: Env): string {
    var bound := Lookup(env, name);
    if bound.Some? && bound.value.Func? then bound.value.name else name
  }

  function EvalExpr(c: Cfg, e: Expr, env: Env): Res<Value>
    decreases e, 1
  {
    match e
    case Int(n) => Ok(I64(n))
    case BoolLit(b) => Ok(Bool(b))
    case StrLit(s) => Ok(Str(s))
    case ArrayLit(elems) => var vs :- EvalExprs(c, elems, env); Ok(Array(vs))
    case Var(x) => EvalVar(c, x, env)
    case Index(target, index) =>
      if target.Var? then
        // A bare variable is borrowed after the index has been evaluated.
        var i :- EvalExpr(c, index, env);
        var n :- AsI64(i);
        var t :- EvalVar(c, target.name, env);
        IndexInto(t, n)
      else
        var t :- EvalExpr(c, target, env);
        var i :- EvalExpr(c, index, env);
        var n :- AsI64(i);
        IndexInto(t, n)
    case Field(target, field) => var t :- EvalExpr(c, target, env); FieldOf(t, field)
    case Unary(op, a) => var v :- EvalExpr(c, a, env); EvalUnary(op, v)
    case Binary(l, op, r) =>
      var lv :- EvalExpr(c, l, env);
      if op == And then
        var lb :- AsBool(lv);
        if !lb then Ok(Bool(false)) else var rv :- EvalExpr(c, r, env); var rb :- AsBool(rv); Ok(Bool(rb))
      else if op == Or then
        var lb :- AsBool(lv);
        if lb then Ok(Bool(true)) else var rv :- EvalExpr(c, r, env); var rb :- AsBool(rv); Ok(Bool(rb))
      else
        var rv :- EvalExpr(c, r, env); EvalBinary(lv, op, rv)
    case Call(name, args) => var vs :- EvalExprs(c, args, env); c.call(CallTarget(name, env), vs)
    case Cond(thn, cond, els) =>
      var cv :- EvalExpr(c, cond, env);
      var b :- AsBool(cv);
      if b then EvalExpr(c, thn, env) else EvalExpr(c, els, env)
  }

  function EvalExprs(c: Cfg, es: seq<Expr>, env: Env): (r: Res<seq<Value>>)
    ensures r.Ok? ==> |r.value| == |es|
    decreases es, 0
  {
    if es == [] then Ok([])
    else
      var v :- EvalExpr(c, es[0], env);
      var vs :- EvalExprs(c, es[1..], env);
      Ok([v] + vs)
  }

  // ---- The move-instead-of-clone update ----

  /** Does `x` occur anywhere in `e` (as a variable or as a call name)? */
  predicate Mentions(e: Expr, x: string)
    decreases e, 1
  {
    match e
    case Int(_) => false
    case BoolLit(_) => false
    case StrLit(_) => false
    case ArrayLit(elems) => AnyMentions(elems, x)
    case Var(y) => y == x
    case Index(t, i) => Mentions(t, x) || Mentions(i, x)
    case Field(t, _) => Mentions(t, x)
    case Unary(_, a) => Mentions(a, x)
    case Binary(l, _, r) => Mentions(l, x) || Mentions(r, x)
    case Call(f, args) => f == x || AnyMentions(args, x)
    case Cond(t, k, f) => Mentions(t, x) || Mentions(k, x) || Mentions(f, x)
  }

  predicate AnyMentions(es: seq<Expr>, x: string)
    decreases es, 0
  {
    es != [] && (Mentions(es[0], x) || AnyMentions(es[1..], x))
  }

  predicate MoveSafe(c: Cfg, f: string, env: Env) {
    !(Lookup(env, f).Some? && Lookup(env, f).value.Func?) && f != "assert" && f !in c.funcs && f !in c.barred
  }

  predicate Movable(x: string, env: Env, innermost: bool) {
    if innermost then env != [] && x in env[|env| - 1] else Nearest(env, x).Some?
  }

  /** The position of the single argument that is exactly the variable `x`, provided no
      other argument mentions it. */
  function SoleBareArg(x: string, args: seq<Expr>): (k: Option<nat>)
    ensures k.Some? ==> k.value < |args| && args[k.value] == Var(x)
  {
    if args == [] then None
    else if args[0] == Var(x) then if AnyMentions(args[1..], x) then None else Some(0)
    else if Mentions(args[0], x) then None
    else match SoleBareArg(x, args[1..])
         case Some(k) => Some(k + 1)
         case None => None
  }

  /** Evaluate the right-hand side of `x = rhs` or `let x = rhs`, moving `x` out when the
      single-occurrence test passes. A moved-out binding holds `Void` until it is written back. */
  function EvalUpdate(c: Cfg, x: string, rhs: Expr, env: Env, innermost: bool): (r: (Res<Value>, Env))
    ensures |r.1| == |env|
  {
    if !c.moves || !Movable(x, env, innermost) then (EvalExpr(c, rhs, env), env)
    else match rhs
      case Call(f, args) =>
        var k := SoleBareArg(x, args);
        if f == x || !MoveSafe(c, f, env) || k.None? then (EvalExpr(c, rhs, env), env)
        else
          var others := EvalExprs(c, args[..k.value] + args[k.value + 1..], env);
          if others.IsFailure() then (others.PropagateFailure(), env)
          else
            var moved := Lookup(env, x).value;
            (c.call(f, others.value[..k.value] + [moved] + others.value[k.value..]), Update(env, x, Void))
      case Binary(l, op, r) =>
        if op == And || op == Or then (EvalExpr(c, rhs, env), env)
        else if l == Var(x) && !Mentions(r, x) then
          var other := EvalExpr(c, r, env);
          if other.IsFailure() then (other, env)
          else (EvalBinary(Lookup(env, x).value, op, other.value), Update(env, x, Void))
        else if r == Var(x) && !Mentions(l, x) then
          var other := EvalExpr(c, l, env);
          if other.IsFailure() then (other, env)
          else (EvalBinary(other.value, op, Lookup(env, x).value), Update(env, x, Void))
        else (EvalExpr(c, rhs, env), env)
      case _ => (EvalExpr(c, rhs, env), env)
  }

  // ---- Statements ----

  function Failed<T>(r: Res<T>, env: Env): (run: Run)
    requires r.IsFailure()
    ensures run.env == env && run.out.IsFailure()
  {
    Run(r.PropagateFailure<Flow>(), env)
  }

  predicate Running(current: int, end: int, step: int) {
    if step > 0 then current <= end else current >= end
  }

  function EvalBlock(c: Cfg, body: seq<Stmt>, env: Env, fuel: nat): (r: Run)
    requires env != []
    ensures |r.env| == |env|
    decreases fuel, body, 0
  {
    if body == [] then Run(Ok(Normal(Void)), env)
    else
      var r := EvalStmt(c, body[0], env, fuel);
      if |body| > 1 && r.out.Ok? && r.out.value.Normal? then EvalBlock(c, body[1..], r.env, fuel) else r
  }

  function EvalScoped(c: Cfg, body: seq<Stmt>, env: Env, fuel: nat): (r: Run)
    requires env != []
    ensures |r.env| == |env|
    decreases fuel, body, 1
  {
    var r := EvalBlock(c, body, env + [map[]], fuel);
    Run(r.out, r.env[..|env|])
  }

  function EvalStmt(c: Cfg, s: Stmt, env: Env, fuel: nat): (r: Run)
    requires env != []
    ensures |r.env| == |env|
    decreases fuel, s, 2
  {
    match s
    case Let(x, value) =>
      var (v, env') := EvalUpdate(c, x, value, env, true);
      if v.IsFailure() then Failed(v, env') else Run(Ok(Normal(Void)), Define(env', x, v.value))
    case Assign(x, op, value) =>
      if op == Replace then
        var (v, env') := EvalUpdate(c, x, value, env, false);
        if v.IsFailure() then Failed(v, env') else StoreTo(x, v.value, env')
      else
        var v := EvalExpr(c, value, env);
        if v.IsFailure() then Failed(v, env)
        else
          var current := Lookup(env, x);
          if current.None? then Run(Fault("L0403", "unknown variable " + x), env)
          else
            var w := ApplyCompound(current.value, op, v.value);
            if w.IsFailure() then Failed(w, env) else StoreTo(x, w.value, env)
    case Return(None) => Run(Ok(Returned(Void)), env)
    case Return(Some(e)) =>
      var v := EvalExpr(c, e, env);
      if v.IsFailure() then Failed(v, env) else Run(Ok(Returned(v.value)), env)
    case Break => Run(Ok(Broke), env)
    case Continue => Run(Ok(Continued), env)
    case ExprStmt(e) =>
      var v := EvalExpr(c, e, env);
      if v.IsFailure() then Failed(v, env) else Run(Ok(Normal(v.value)), env)
    case If(_, _) => EvalIf(c, s, 0, env, fuel)
    case While(cond, body) =>
      var v := EvalExpr(c, cond, env);
      if v.IsFailure() then Failed(v, env)
      else
        var b := AsBool(v.value);
        if b.IsFailure() then Failed(b, env)
        else if !b.value then Run(Ok(Normal(Void)), env)
        else if fuel == 0 then Run(NoResult, env)
        else
          var r := EvalScoped(c, body, env, fuel);
          AfterIteration(c, s, r, fuel)
    case For(x, start, end, step, body) =>
      var bounds := EvalBounds(c, start, end, step, env);
      if bounds.IsFailure() then Failed(bounds, env)
      else
        var (first, last, stride) := bounds.value;
        var r := EvalFor(c, s, first, last, stride, env + [map[x := I64(first)]], fuel);
        Run(r.out, r.env[..|env|])
    case Loop(body) =>
      if fuel == 0 then Run(NoResult, env)
      else
        var r := EvalScoped(c, body, env, fuel);
        AfterIteration(c, s, r, fuel)
    case Region(body) => EvalScoped(c, body, env, fuel)
    case Throw(e) =>
      var v := EvalExpr(c, e, env);
      if v.IsFailure() then Failed(v, env)
      else
        var m := AsString(v.value);
        if m.IsFailure() then Failed(m, env) else Run(Fault("L0420", m.value), env)
    case Try(body, x, handler) =>
      var r := EvalScoped(c, body, env, fuel);
      if r.out.Err? && r.out.error.code == "L0420" then
        var h := EvalBlock(c, handler, r.env + [map[x := Str(r.out.error.message)]], fuel);
        Run(h.out, h.env[..|env|])
      else r
  }

  function StoreTo(x: string, v: Value, env: Env): (r: Run)
    ensures |r.env| == |env|
  {
    if Nearest(env, x).Some? then Run(Ok(Normal(Void)), Update(env, x, v))
    else Run(Fault("L0403", "unknown variable " + x), env)
  }

  /** The loop bounds, each checked to be an i64 as soon as it is evaluated. */
  function EvalBounds(c: Cfg, start: Expr, end: Expr, step: Option<Expr>, env: Env): Res<(i64, i64, i64)> {
    var s :- EvalExpr(c, start, env);
    var first :- AsI64(s);
    var e :- EvalExpr(c, end, env);
    var last :- AsI64(e);
    var stride :- EvalStep(c, step, env);
    if stride == 0 then Fault("L0411", "for loop step cannot be zero") else Ok((first, last, stride))
  }

  function EvalStep(c: Cfg, step: Option<Expr>, env: Env): Res<i64> {
    match step
    case None => Ok(1)
    case Some(e) => var v :- EvalExpr(c, e, env); AsI64(v)
  }

  function EvalIf(c: Cfg, s: Stmt, i: nat, env: Env, fuel: nat): (r: Run)
    requires s.If? && i <= |s.branches| && env != []
    ensures |r.env| == |env|
    decreases fuel, s, 1, |s.branches| - i
  {
    if i == |s.branches| then EvalScoped(c, s.orelse, env, fuel)
    else
      var v := EvalExpr(c, s.branches[i].cond, env);
      if v.IsFailure() then Failed(v, env)
      else
        var b := AsBool(v.value);
        if b.IsFailure() then Failed(b, env)
        else if b.value then EvalScoped(c, s.branches[i].body, env, fuel)
        else EvalIf(c, s, i + 1, env, fuel)
  }

  /** What a `while` or `loop` does with the outcome of one pass through its body. */
  function AfterIteration(c: Cfg, s: Stmt, r: Run, fuel: nat): (out: Run)
    requires (s.While? || s.Loop?) && r.env != [] && fuel > 0
    ensures |out.env| == |r.env|
    decreases fuel, s, 1, 0
  {
    if r.out.IsFailure() then r
    else match r.out.value
      case Returned(_) => r
      case Broke => Run(Ok(Normal(Void)), r.env)
      case _ => EvalStmt(c, s, r.env, fuel - 1)
  }

  /** The passes of a range-`for`; the loop variable's scope is the innermost one of `env`. */
  function EvalFor(c: Cfg, s: Stmt, current: i64, end: i64, step: i64, env: Env, fuel: nat): (r: Run)
    requires s.For? && env != []
    ensures |r.env| == |env|
    decreases fuel, s, 1, 0
  {
    if !Running(current, end, step) then Run(Ok(Normal(Void)), env)
    else if fuel == 0 then Run(NoResult, env)
    else
      var r := EvalScoped(c, s.body, Define(env, s.name, I64(current)), fuel);
      if r.out.IsFailure() then r
      else match r.out.value
        case Returned(_) => r
        case Broke => Run(Ok(Normal(Void)), r.env)
        case _ => EvalFor(c, s, Wrap(current + step), end, step, r.env, fuel - 1)
  }

  /** A function body, with its parameters bound left to right in one scope. */
  function BindParams(params: seq<string>, args: seq<Value>): map<string, Value>
    requires |params| == |args|
  {
    if params == [] then map[]
    else BindParams(params[..|params| - 1], args[..|args| - 1])[params[|params| - 1] := args[|args| - 1]]
  }

  function EvalBody(c: Cfg, f: Function, args: seq<Value>, fuel: nat): Res<Value>
    requires |f.params| == |args|
  {
    var r := EvalBlock(c, f.body, [BindParams(f.params, args)], fuel);
    var flow :- r.out;
    match flow
    case Normal(v) => Ok(v)
    case Returned(v) => Ok(v)
    case _ => Fault("L0410", "loop control escaped function body")
  }
}

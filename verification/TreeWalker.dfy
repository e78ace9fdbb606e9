/** The tree-walker as it runs: over one stored environment that its statements change in
    place, pushing and popping scopes. Every statement computes what the evaluator says and
    leaves the scopes it found, by id and in order, whichever way it ends. */
module TreeWalker {
  import opened Words
  import opened Ir
  import opened Eval
  import EnvStore
  import EnvFacts

  // ---- What a run leaves ----

  ghost predicate Usable(s: EnvStore.EnvState) { EnvFacts.Sound(s) && s.scopes != [] }

  /** The same scopes: same environment, same ids, same order. */
  ghost predicate SameScopes(s: EnvStore.EnvState, s': EnvStore.EnvState) {
    && Usable(s') && s'.id == s.id && s'.next >= s.next && |s'.scopes| == |s.scopes|
    && forall k :: 0 <= k < |s.scopes| ==> s'.scopes[k].id == s.scopes[k].id
  }

  ghost predicate Leaves(s: EnvStore.EnvState, s': EnvStore.EnvState, run: Run, out: Res<Flow>) {
    SameScopes(s, s') && out == run.out && EnvFacts.Meaning(s') == run.env
  }

  lemma SameTrans(a: EnvStore.EnvState, b: EnvStore.EnvState, c: EnvStore.EnvState)
    requires SameScopes(a, b) && SameScopes(b, c)
    ensures SameScopes(a, c)
  {
  }

  /** A change of bindings keeps the scopes. */
  lemma Written(s: EnvStore.EnvState, op: EnvStore.Op)
    requires Usable(s) && (op.Define? || op.SetLoopVar? || op.Assign? || op.MoveOut?)
    ensures SameScopes(s, EnvStore.Apply(s, op))
    ensures op.Define? || op.SetLoopVar? ==> EnvFacts.Meaning(EnvStore.Apply(s, op)) == Define(EnvFacts.Meaning(s), op.x, op.v)
    ensures op.Assign? ==> EnvFacts.Meaning(EnvStore.Apply(s, op)) == Update(EnvFacts.Meaning(s), op.x, op.v)
    ensures op.MoveOut? ==> EnvFacts.Meaning(EnvStore.Apply(s, op)) == Update(EnvFacts.Meaning(s), op.x, Void)
  {
    hide EnvStore.FindEntry, EnvStore.FindPlace;
    EnvFacts.ApplySound(s, op);
    hide EnvFacts.Sound, EnvFacts.Meaning;
    EnvFacts.ApplyMeaning(s, op);
  }

  lemma Pushed(s: EnvStore.EnvState)
    requires Usable(s)
    ensures Usable(EnvStore.Apply(s, EnvStore.PushScope))
    ensures EnvFacts.Meaning(EnvStore.Apply(s, EnvStore.PushScope)) == EnvFacts.Meaning(s) + [map[]]
  {
    EnvFacts.ApplySound(s, EnvStore.PushScope);
    EnvFacts.ApplyMeaning(s, EnvStore.PushScope);
  }

  /** Whatever ran in a pushed scope, popping it gives back the scopes there were. */
  lemma Popped(s: EnvStore.EnvState, inner: EnvStore.EnvState)
    requires Usable(s) && SameScopes(EnvStore.Apply(s, EnvStore.PushScope), inner)
    ensures var out := EnvStore.Apply(inner, EnvStore.PopScope);
            SameScopes(s, out) && EnvFacts.Meaning(out) == EnvFacts.Meaning(inner)[..|EnvFacts.Meaning(s)|]
  {
    EnvFacts.ApplySound(inner, EnvStore.PopScope);
    EnvFacts.ApplyMeaning(inner, EnvStore.PopScope);
    var pushed := EnvStore.Apply(s, EnvStore.PushScope);
    assert forall k :: 0 <= k < |s.scopes| ==> pushed.scopes[k] == s.scopes[k];
  }

  // ---- The interpreter ----

  class Interpreter {
    const cfg: Cfg
    const env: EnvStore.Env

    constructor (cfg: Cfg, env: EnvStore.Env)
      ensures this.cfg == cfg && this.env == env
    {
      this.cfg, this.env := cfg, env;
    }

    ghost function View(): EnvStore.EnvState
      reads env
    {
      env.View()
    }

    ghost function Scopes(): Eval.Env
      reads env
    {
      EnvFacts.Meaning(env.View())
    }

    method Find(x: string) returns (v: Option<Value>)
      ensures v == Lookup(Scopes(), x)
      ensures v.Some? <==> Nearest(Scopes(), x).Some?
    {
      v := env.GetRef(x);
      EnvFacts.PlaceIsNearest(env.View(), x);
    }

    method EvalVariable(x: string) returns (r: Res<Value>)
      ensures r == EvalVar(cfg, x, Scopes())
    {
      var v := Find(x);
      match v
      case Some(w) => r := Ok(w);
      case None => r := if x in cfg.funcs then Ok(Func(x)) else Fault("L0403", "unknown variable " + x);
    }

    /** An expression only reads the environment. */
    method EvalExpression(e: Expr) returns (r: Res<Value>)
      ensures r == EvalExpr(cfg, e, Scopes())
      decreases e, 1
    {
      match e
      case Int(n) => r := Ok(I64(n));
      case BoolLit(b) => r := Ok(Bool(b));
      case StrLit(s) => r := Ok(Str(s));
      case ArrayLit(elems) =>
        var vs := EvalArguments(elems);
        if vs.IsFailure() { return vs.PropagateFailure(); }
        r := Ok(Array(vs.value));
      case Var(x) => r := EvalVariable(x);
      case Index(target, index) => r := EvalIndex(e);
      case Field(target, field) =>
        var t := EvalExpression(target);
        if t.IsFailure() { return t; }
        r := FieldOf(t.value, field);
      case Unary(op, a) =>
        var v := EvalExpression(a);
        if v.IsFailure() { return v; }
        r := EvalUnary(op, v.value);
      case Binary(_, _, _) => r := EvalBinaryExpression(e);
      case Call(name, args) =>
        var vs := EvalArguments(args);
        if vs.IsFailure() { return vs.PropagateFailure(); }
        var bound := Find(name);
        r := cfg.call(if bound.Some? && bound.value.Func? then bound.value.name else name, vs.value);
      case Cond(thn, cond, els) =>
        var v := EvalExpression(cond);
        if v.IsFailure() { return v; }
        var b := AsBool(v.value);
        if b.IsFailure() { return b.PropagateFailure(); }
        if b.value { r := EvalExpression(thn); } else { r := EvalExpression(els); }
    }

    /** A bare variable is borrowed after the index has been evaluated. */
    method EvalIndex(e: Expr) returns (r: Res<Value>)
      requires e.Index?
      ensures r == EvalExpr(cfg, e, Scopes())
      decreases e, 0
    {
      hide IndexInto;
      var t: Res<Value> := NoResult;
      if !e.target.Var? {
        t := EvalExpression(e.target);
        if t.IsFailure() { return t; }
      }
      var i := EvalExpression(e.index);
      if i.IsFailure() { return i; }
      var n := AsI64(i.value);
      if n.IsFailure() { return n.PropagateFailure(); }
      if e.target.Var? {
        t := EvalVariable(e.target.name);
        if t.IsFailure() { return t; }
      }
      r := IndexInto(t.value, n.value);
    }

    method EvalBinaryExpression(e: Expr) returns (r: Res<Value>)
      requires e.Binary?
      ensures r == EvalExpr(cfg, e, Scopes())
      decreases e, 0
    {
      hide EvalBinary;
      var l := EvalExpression(e.left);
      if l.IsFailure() { return l; }
      if e.op == And || e.op == Or {
        var lb := AsBool(l.value);
        if lb.IsFailure() { return lb.PropagateFailure(); }
        if lb.value != (e.op == And) { return Ok(Bool(lb.value)); }
        var rv := EvalExpression(e.right);
        if rv.IsFailure() { return rv; }
        var rb := AsBool(rv.value);
        if rb.IsFailure() { return rb.PropagateFailure(); }
        return Ok(Bool(rb.value));
      }
      var rv := EvalExpression(e.right);
      if rv.IsFailure() { return rv; }
      r := EvalBinary(l.value, e.op, rv.value);
    }

    method EvalArguments(es: seq<Expr>) returns (r: Res<seq<Value>>)
      ensures r == EvalExprs(cfg, es, Scopes())
      decreases es, 0
    {
      hide EvalExpr;
      var vs: seq<Value> := [];
      assert es[0..] == es;
      JoinedNone(EvalExprs(cfg, es, Scopes()));
      for k := 0 to |es|
        invariant EvalExprs(cfg, es, Scopes()) == Joined(vs, EvalExprs(cfg, es[k..], Scopes()))
      {
        assert es[k..][1..] == es[k + 1..];
        var v := EvalExpression(es[k]);
        if v.IsFailure() { return v.PropagateFailure(); }
        JoinedTwice(vs, v.value, EvalExprs(cfg, es[k + 1..], Scopes()));
        vs := vs + [v.value];
      }
      assert vs + [] == vs;
      r := Ok(vs);
    }

    // ---- The move-instead-of-clone update ----

    /** `is_move_safe_builtin`. */
    method GateOpen(f: string) returns (ok: bool)
      ensures ok == MoveSafe(cfg, f, Scopes())
    {
      var bound := Find(f);
      ok := !(bound.Some? && bound.value.Func?) && f != "assert" && f !in cfg.funcs && f !in cfg.barred;
    }

    method MayMove(x: string, innermost: bool) returns (ok: bool)
      requires Usable(View())
      ensures ok == Movable(x, Scopes(), innermost)
    {
      if innermost {
        ok := env.InnermostHas(x);
        EnvFacts.ScopeMapFinds(env.scopes[|env.scopes| - 1].entries, x);
      } else {
        var v := Find(x);
        ok := v.Some?;
      }
    }

    /** The argument that is `x` itself, if `x` is mentioned nowhere else. */
    static method FindTarget(x: string, args: seq<Expr>) returns (k: Option<nat>)
      ensures k == SoleBareArg(x, args)
    {
      hide Mentions;
      k := None;
      assert args[0..] == args;
      for i := 0 to |args|
        invariant k.None? ==> SoleBareArg(x, args) == EnvStore.Shift(SoleBareArg(x, args[i..]), i)
        invariant k.Some? ==> SoleBareArg(x, args) == if AnyMentions(args[i..], x) then None else k
      {
        assert args[i..][0] == args[i] && args[i..][1..] == args[i + 1..];
        if args[i] == Var(x) && k.None? {
          k := Some(i);
        } else if Mentions(args[i], x) {
          return None;
        }
      }
    }

    /** The right-hand side of an update of `x`: moved out when the gate allows it, cloned otherwise. */
    method EvalUpdated(x: string, rhs: Expr, innermost: bool) returns (r: Res<Value>)
      requires Usable(View())
      modifies env
      ensures var u := EvalUpdate(cfg, x, rhs, old(Scopes()), innermost);
              r == u.0 && Scopes() == u.1 && SameScopes(old(View()), View())
    {
      hide EvalExpr, EvalExprs, EvalBinary, SoleBareArg, Mentions, MoveSafe, Movable, Update, Usable, EnvFacts.Meaning;
      var bound := MayMove(x, innermost);
      if cfg.moves && bound {
        if rhs.Call? {
          var open := GateOpen(rhs.callee);
          var k := FindTarget(x, rhs.args);
          if rhs.callee != x && open && k.Some? {
            r := MoveIntoCall(x, rhs, k.value, innermost);
            return;
          }
        } else if rhs.Binary? && rhs.op != And && rhs.op != Or {
          if rhs.left == Var(x) && !Mentions(rhs.right, x) {
            r := MoveIntoLeft(x, rhs, innermost);
            return;
          } else if rhs.right == Var(x) && !Mentions(rhs.left, x) {
            r := MoveIntoRight(x, rhs, innermost);
            return;
          }
        }
      }
      r := EvalExpression(rhs);
      SameItself(env.View());
    }

    /** The other arguments first, so that a failure there leaves the target alone. */
    method MoveIntoCall(x: string, rhs: Expr, k: nat, innermost: bool) returns (r: Res<Value>)
      requires Usable(View()) && cfg.moves && Movable(x, Scopes(), innermost)
      requires rhs.Call? && rhs.callee != x && MoveSafe(cfg, rhs.callee, Scopes()) && SoleBareArg(x, rhs.args) == Some(k)
      modifies env
      ensures var u := EvalUpdate(cfg, x, rhs, old(Scopes()), innermost);
              r == u.0 && Scopes() == u.1 && SameScopes(old(View()), View())
    {
      hide EvalExpr, EvalExprs, SoleBareArg, MoveSafe, Movable, Update, EnvFacts.Meaning, EnvFacts.Sound;
      MovableFound(x, Scopes(), innermost);
      SameItself(env.View());
      var others := EvalArguments(rhs.args[..k] + rhs.args[k + 1..]);
      if others.IsFailure() { return others.PropagateFailure(); }
      EnvFacts.PlaceIsNearest(env.View(), x);
      Written(env.View(), EnvStore.MoveOut(x));
      var moved := env.MoveOutNearest(x);
      r := cfg.call(rhs.callee, others.value[..k] + [moved.value] + others.value[k..]);
    }

    method MoveIntoLeft(x: string, rhs: Expr, innermost: bool) returns (r: Res<Value>)
      requires Usable(View()) && cfg.moves && Movable(x, Scopes(), innermost)
      requires rhs.Binary? && rhs.op != And && rhs.op != Or && rhs.left == Var(x) && !Mentions(rhs.right, x)
      modifies env
      ensures var u := EvalUpdate(cfg, x, rhs, old(Scopes()), innermost);
              r == u.0 && Scopes() == u.1 && SameScopes(old(View()), View())
    {
      hide EvalExpr, EvalBinary, Mentions, Movable, Update, EnvFacts.Meaning, EnvFacts.Sound;
      MovableFound(x, Scopes(), innermost);
      SameItself(env.View());
      var other := EvalExpression(rhs.right);
      if other.IsFailure() { return other; }
      EnvFacts.PlaceIsNearest(env.View(), x);
      Written(env.View(), EnvStore.MoveOut(x));
      var moved := env.MoveOutNearest(x);
      r := EvalBinary(moved.value, rhs.op, other.value);
    }

    method MoveIntoRight(x: string, rhs: Expr, innermost: bool) returns (r: Res<Value>)
      requires Usable(View()) && cfg.moves && Movable(x, Scopes(), innermost)
      requires rhs.Binary? && rhs.op != And && rhs.op != Or && rhs.right == Var(x) && !Mentions(rhs.left, x)
      requires !(rhs.left == Var(x) && !Mentions(rhs.right, x))
      modifies env
      ensures var u := EvalUpdate(cfg, x, rhs, old(Scopes()), innermost);
              r == u.0 && Scopes() == u.1 && SameScopes(old(View()), View())
    {
      hide EvalExpr, EvalBinary, Mentions, Movable, Update, EnvFacts.Meaning, EnvFacts.Sound;
      MovableFound(x, Scopes(), innermost);
      SameItself(env.View());
      var other := EvalExpression(rhs.left);
      if other.IsFailure() { return other; }
      EnvFacts.PlaceIsNearest(env.View(), x);
      Written(env.View(), EnvStore.MoveOut(x));
      var moved := env.MoveOutNearest(x);
      r := EvalBinary(other.value, rhs.op, moved.value);
    }

    // ---- Statements ----

    method EvalStatement(s: Stmt, fuel: nat) returns (r: Res<Flow>)
      requires Usable(View())
      modifies env
      ensures Leaves(old(View()), View(), EvalStmt(cfg, s, old(Scopes()), fuel), r)
      decreases fuel, s, 2
    {
      hide EvalStmt, Leaves, EnvFacts.Meaning, EnvFacts.Sound;
      match s
      case Let(_, _) => r := DoLet(s, fuel);
      case Assign(_, _, _) => r := DoAssign(s, fuel);
      case If(_, _) => r := DoIf(s, fuel);
      case While(_, _) => r := DoLoop(s, fuel);
      case For(_, _, _, _, _) => r := DoFor(s, fuel);
      case Loop(_) => r := DoLoop(s, fuel);
      case Region(body) =>
        r := EvalScopedBlock(body, fuel);
        RegionMeaning(cfg, s, old(Scopes()), fuel);
      case Try(_, _, _) => r := DoTry(s, fuel);
      case _ => r := DoSimple(s, fuel);
    }

    method DoSimple(s: Stmt, fuel: nat) returns (r: Res<Flow>)
      requires Usable(View()) && (s.Return? || s.Break? || s.Continue? || s.ExprStmt? || s.Throw?)
      ensures Leaves(View(), View(), EvalStmt(cfg, s, Scopes(), fuel), r)
    {
      hide EvalExpr, EnvFacts.Meaning, EnvFacts.Sound;
      SameItself(env.View());
      match s
      case Return(None) => r := Ok(Returned(Void));
      case Return(Some(e)) =>
        var v := EvalExpression(e);
        if v.IsFailure() { return v.PropagateFailure(); }
        r := Ok(Returned(v.value));
      case Break => r := Ok(Broke);
      case Continue => r := Ok(Continued);
      case ExprStmt(e) =>
        var v := EvalExpression(e);
        if v.IsFailure() { return v.PropagateFailure(); }
        r := Ok(Normal(v.value));
      case Throw(e) =>
        var v := EvalExpression(e);
        if v.IsFailure() { return v.PropagateFailure(); }
        var m := AsString(v.value);
        if m.IsFailure() { return m.PropagateFailure(); }
        r := Fault("L0420", m.value);
    }

    method DoLet(s: Stmt, fuel: nat) returns (r: Res<Flow>)
      requires Usable(View()) && s.Let?
      modifies env
      ensures Leaves(old(View()), View(), EvalStmt(cfg, s, old(Scopes()), fuel), r)
    {
      hide EvalUpdate, EnvFacts.Meaning, EnvFacts.Sound, Define;
      var v := EvalUpdated(s.name, s.value, true);
      if v.IsFailure() { return v.PropagateFailure(); }
      Written(env.View(), EnvStore.Define(s.name, v.value));
      env.Define(s.name, v.value);
      r := Ok(Normal(Void));
    }

    /** Write a value to the nearest binding of `x`, if there is one. */
    method Store(x: string, v: Value) returns (r: Res<Flow>)
      requires Usable(View())
      modifies env
      ensures Leaves(old(View()), View(), StoreTo(x, v, old(Scopes())), r)
    {
      hide EnvFacts.Meaning, EnvFacts.Sound, Update, Nearest;
      EnvFacts.PlaceIsNearest(env.View(), x);
      UpdateUnbound(Scopes(), x, v);
      Written(env.View(), EnvStore.Assign(x, v));
      var stored := env.Assign(x, v);
      if stored.IsFailure() { return stored.PropagateFailure(); }
      r := Ok(Normal(Void));
    }

    method DoAssign(s: Stmt, fuel: nat) returns (r: Res<Flow>)
      requires Usable(View()) && s.Assign?
      modifies env
      ensures Leaves(old(View()), View(), EvalStmt(cfg, s, old(Scopes()), fuel), r)
    {
      hide EvalUpdate, EvalExpr, EnvFacts.Meaning, EnvFacts.Sound, StoreTo, ApplyCompound;
      SameItself(env.View());
      var new_: Res<Value>;
      if s.op == Replace {
        new_ := EvalUpdated(s.name, s.value, false);
        if new_.IsFailure() { return new_.PropagateFailure(); }
      } else {
        var v := EvalExpression(s.value);
        if v.IsFailure() { return v.PropagateFailure(); }
        var current := Find(s.name);
        if current.None? { return Fault("L0403", "unknown variable " + s.name); }
        new_ := ApplyCompound(current.value, s.op, v.value);
        if new_.IsFailure() { return new_.PropagateFailure(); }
      }
      ghost var before := env.View();
      r := Store(s.name, new_.value);
      SameTrans(old(View()), before, env.View());
    }

    method DoIf(s: Stmt, fuel: nat) returns (r: Res<Flow>)
      requires Usable(View()) && s.If?
      modifies env
      ensures Leaves(old(View()), View(), EvalStmt(cfg, s, old(Scopes()), fuel), r)
      decreases fuel, s, 1
    {
      hide EvalExpr, EvalScoped, EnvFacts.Meaning, EnvFacts.Sound;
      for i := 0 to |s.branches|
        invariant View() == old(View())
        invariant EvalIf(cfg, s, 0, old(Scopes()), fuel) == EvalIf(cfg, s, i, old(Scopes()), fuel)
      {
        SameItself(env.View());
        var v := EvalExpression(s.branches[i].cond);
        if v.IsFailure() { return v.PropagateFailure(); }
        var b := AsBool(v.value);
        if b.IsFailure() { return b.PropagateFailure(); }
        if b.value {
          r := EvalScopedBlock(s.branches[i].body, fuel);
          return;
        }
      }
      r := EvalScopedBlock(s.orelse, fuel);
    }

    /** `while` and `loop`. Every turn spends one unit of fuel. */
    method DoLoop(s: Stmt, fuel: nat) returns (r: Res<Flow>)
      requires Usable(View()) && (s.While? || s.Loop?)
      modifies env
      ensures Leaves(old(View()), View(), EvalStmt(cfg, s, old(Scopes()), fuel), r)
      decreases fuel, s, 1
    {
      hide EvalExpr, EvalScoped, EnvFacts.Meaning, EnvFacts.Sound;
      SameItself(env.View());
      var n: nat := fuel;
      while true
        invariant n <= fuel && SameScopes(old(View()), View())
        invariant EvalStmt(cfg, s, old(Scopes()), fuel) == EvalStmt(cfg, s, Scopes(), n)
        decreases n
      {
        if s.While? {
          var v := EvalExpression(s.cond);
          if v.IsFailure() { return v.PropagateFailure(); }
          var b := AsBool(v.value);
          if b.IsFailure() { return b.PropagateFailure(); }
          if !b.value { return Ok(Normal(Void)); }
        }
        if n == 0 { return NoResult; }
        ghost var before := env.View();
        r := EvalScopedBlock(s.body, n);
        SameTrans(old(View()), before, env.View());
        if r.IsFailure() || r.value.Returned? { return; }
        if r.value.Broke? { return Ok(Normal(Void)); }
        n := n - 1;
      }
    }

    method EvalLimit(e: Expr) returns (r: Res<i64>)
      ensures r == (var v := EvalExpr(cfg, e, Scopes()); if v.IsFailure() then v.PropagateFailure() else AsI64(v.value))
    {
      var v := EvalExpression(e);
      if v.IsFailure() { return v.PropagateFailure(); }
      r := AsI64(v.value);
    }

    /** The loop variable is bound once, in a scope of its own around all the passes. */
    method DoFor(s: Stmt, fuel: nat) returns (r: Res<Flow>)
      requires Usable(View()) && s.For?
      modifies env
      ensures Leaves(old(View()), View(), EvalStmt(cfg, s, old(Scopes()), fuel), r)
      decreases fuel, s, 1
    {
      hide EvalExpr, EvalFor, EnvFacts.Meaning, EnvFacts.Sound, Define;
      SameItself(env.View());
      var first := EvalLimit(s.start);
      if first.IsFailure() { return first.PropagateFailure(); }
      var last := EvalLimit(s.end);
      if last.IsFailure() { return last.PropagateFailure(); }
      var stride: Res<i64> := Ok(1);
      if s.step.Some? { stride := EvalLimit(s.step.value); }
      if stride.IsFailure() { return stride.PropagateFailure(); }
      if stride.value == 0 { return Fault("L0411", "for loop step cannot be zero"); }
      Pushed(env.View());
      env.PushScope();
      ghost var pushed := env.View();
      Written(env.View(), EnvStore.Define(s.name, I64(first.value)));
      env.Define(s.name, I64(first.value));
      DefineNew(old(Scopes()), s.name, I64(first.value));
      ghost var started := env.View();
      r := DoPasses(s, first.value, last.value, stride.value, fuel);
      SameTrans(pushed, started, env.View());
      Popped(old(View()), env.View());
      env.PopScope();
    }

    method DoPasses(s: Stmt, first: i64, last: i64, stride: i64, fuel: nat) returns (r: Res<Flow>)
      requires Usable(View()) && s.For?
      modifies env
      ensures Leaves(old(View()), View(), EvalFor(cfg, s, first, last, stride, old(Scopes()), fuel), r)
      decreases fuel, s, 0
    {
      hide EvalScoped, EnvFacts.Meaning, EnvFacts.Sound, Define;
      SameItself(env.View());
      var current: i64, n: nat := first, fuel;
      while Running(current, last, stride)
        invariant n <= fuel && SameScopes(old(View()), View())
        invariant EvalFor(cfg, s, first, last, stride, old(Scopes()), fuel) == EvalFor(cfg, s, current, last, stride, Scopes(), n)
        decreases n
      {
        if n == 0 { return NoResult; }
        ghost var before := env.View();
        Written(env.View(), EnvStore.SetLoopVar(s.name, I64(current)));
        env.SetLoopVar(s.name, I64(current));
        SameTrans(old(View()), before, env.View());
        ghost var bound := env.View();
        r := EvalScopedBlock(s.body, n);
        SameTrans(old(View()), bound, env.View());
        if r.IsFailure() || r.value.Returned? { return; }
        if r.value.Broke? { return Ok(Normal(Void)); }
        current, n := Wrap(current + stride), n - 1;
      }
      r := Ok(Normal(Void));
    }

    /** The handler runs in the scopes the `try` was entered with. */
    method DoTry(s: Stmt, fuel: nat) returns (r: Res<Flow>)
      requires Usable(View()) && s.Try?
      modifies env
      ensures Leaves(old(View()), View(), EvalStmt(cfg, s, old(Scopes()), fuel), r)
      decreases fuel, s, 1
    {
      hide EvalScoped, EvalBlock, EnvFacts.Meaning, EnvFacts.Sound, Define;
      r := EvalScopedBlock(s.body, fuel);
      if r.Err? && r.error.code == "L0420" {
        ghost var caught := env.View();
        var text := Str(r.error.message);
        Pushed(env.View());
        env.PushScope();
        ghost var pushed := env.View();
        Written(env.View(), EnvStore.Define(s.catchName, text));
        env.Define(s.catchName, text);
        DefineNew(EnvFacts.Meaning(caught), s.catchName, text);
        ghost var started := env.View();
        r := EvalStatements(s.catchBody, fuel);
        SameTrans(pushed, started, env.View());
        Popped(caught, env.View());
        env.PopScope();
        SameTrans(old(View()), caught, env.View());
      }
    }

    /** The scope is popped whichever way the block ends. */
    method EvalScopedBlock(body: seq<Stmt>, fuel: nat) returns (r: Res<Flow>)
      requires Usable(View())
      modifies env
      ensures Leaves(old(View()), View(), EvalScoped(cfg, body, old(Scopes()), fuel), r)
      decreases fuel, body, 1
    {
      hide EvalBlock, EnvFacts.Meaning, EnvFacts.Sound;
      Pushed(env.View());
      env.PushScope();
      r := EvalStatements(body, fuel);
      Popped(old(View()), env.View());
      env.PopScope();
    }

    method EvalStatements(body: seq<Stmt>, fuel: nat) returns (r: Res<Flow>)
      requires Usable(View())
      modifies env
      ensures Leaves(old(View()), View(), EvalBlock(cfg, body, old(Scopes()), fuel), r)
      decreases fuel, body, 0
    {
      hide EvalStmt, EnvFacts.Meaning, EnvFacts.Sound;
      SameItself(env.View());
      assert body[0..] == body;
      r := Ok(Normal(Void));
      for k := 0 to |body|
        invariant SameScopes(old(View()), View()) && (k == 0 ==> r == Ok(Normal(Void))) && r.Ok? && r.value.Normal?
        invariant k < |body| || k == 0 ==> EvalBlock(cfg, body, old(Scopes()), fuel) == EvalBlock(cfg, body[k..], Scopes(), fuel)
        invariant 0 < k == |body| ==> EvalBlock(cfg, body, old(Scopes()), fuel) == Run(r, Scopes())
      {
        assert body[k..][0] == body[k] && body[k..][1..] == body[k + 1..];
        ghost var before := env.View();
        r := EvalStatement(body[k], fuel);
        SameTrans(old(View()), before, env.View());
        if r.IsFailure() || !r.value.Normal? { return; }
      }
    }
  }

  // ---- Small facts ----

  lemma SameItself(s: EnvStore.EnvState)
    requires Usable(s)
    ensures SameScopes(s, s)
  {
  }

  function Joined(vs: seq<Value>, rest: Res<seq<Value>>): Res<seq<Value>> {
    if rest.Ok? then Ok(vs + rest.value) else rest
  }

  lemma JoinedNone(rest: Res<seq<Value>>)
    ensures Joined([], rest) == rest
  {
    if rest.Ok? { assert [] + rest.value == rest.value; }
  }

  lemma JoinedTwice(vs: seq<Value>, v: Value, rest: Res<seq<Value>>)
    ensures Joined(vs, Joined([v], rest)) == Joined(vs + [v], rest)
  {
    if rest.Ok? { assert vs + ([v] + rest.value) == vs + [v] + rest.value; }
  }

  lemma MovableFound(x: string, env: Eval.Env, innermost: bool)
    requires Movable(x, env, innermost)
    ensures Lookup(env, x).Some?
  {
  }

  lemma UpdateUnbound(env: Eval.Env, x: string, v: Value)
    ensures Nearest(env, x).None? ==> Update(env, x, v) == env
  {
  }

  lemma DefineNew(env: Eval.Env, x: string, v: Value)
    ensures Define(env + [map[]], x, v) == env + [map[x := v]]
  {
    assert map[][x := v] == map[x := v];
  }

  lemma RegionMeaning(c: Cfg, s: Stmt, env: Eval.Env, fuel: nat)
    requires s.Region? && env != []
    ensures EvalStmt(c, s, env, fuel) == EvalScoped(c, s.body, env, fuel)
  {
  }
}

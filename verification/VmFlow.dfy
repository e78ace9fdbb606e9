/** Forward simulation of compound statements and blocks, and of whole function bodies. */
module VmFlow {
  import opened Words
  import opened Ir
  import opened Eval
  import opened EvalFacts
  import opened Vm
  import opened VmExprs
  import opened VmStmts
  import opened VmSim

  lemma {:induction false} SimStmt(c: Cfg, call: Dispatch, ops: seq<VmOp>, s: Stmt, tail: bool, ctx: Ctx, loop: Targets,
                                   env: Env, st: State, fuel: nat)
    returns (n: nat, f: seq<Value>)
    requires Fits(s, tail) && Ready(c, call, ctx, env, st)
    requires Loaded(ops, CompileStmt(s, tail, ctx, st.pc, loop), st)
    ensures Ran(EvalStmt(c, s, env, fuel), ops, call, st, st.pc + StmtLen(s, tail), tail,
                ctx, CompileStmt(s, tail, ctx, st.pc, loop).value.ctx.scopes, loop, false, n, f)
    ensures EvalStmt(c, s, env, fuel).out.NoResult? ==> n >= fuel
    decreases fuel, s, 3
  {
    hide Ran, EvalStmt, StmtLen, SlotsOk, Setting, CodeAt, CompileStmt, CompileIf, IfLen, EvalIf;
    IfShape(s, tail, ctx, loop, st);
    match s
    case Let(_, _) => n, f := SimLet(c, call, ops, s, tail, ctx, loop, env, st, fuel);
    case Assign(_, op, _) =>
      if op == Replace {
        n, f := SimReplace(c, call, ops, s, tail, ctx, loop, env, st, fuel);
      } else {
        n, f := SimCompound(c, call, ops, s, tail, ctx, loop, env, st, fuel);
      }
    case Return(_) => n, f := SimReturn(c, call, ops, s, tail, ctx, loop, env, st, fuel);
    case Break => n, f := SimExit(c, call, ops, s, tail, ctx, loop, env, st, fuel);
    case Continue => n, f := SimExit(c, call, ops, s, tail, ctx, loop, env, st, fuel);
    case ExprStmt(_) => n, f := SimExprStmt(c, call, ops, s, tail, ctx, loop, env, st, fuel);
    case If(_, _) =>
      n, f := SimIf(c, call, ops, s, tail, ctx, loop, 0, st.pc + IfLen(s, tail, 0), env, st, fuel);
      IfStmt(c, ops, call, s, tail, ctx, loop, env, st, fuel, n, f);
    case While(_, _) => n, f := SimWhile(c, call, ops, s, tail, ctx, loop, env, st, fuel);
    case For(_, _, _, _, _) => n, f := SimFor(c, call, ops, s, tail, ctx, loop, env, st, fuel);
    case Loop(_) => n, f := SimLoop(c, call, ops, s, tail, ctx, loop, env, st, fuel);
    case Region(_) => n, f := SimRegion(c, call, ops, s, tail, ctx, loop, env, st, fuel);
    case Throw(_) => NotCompiled(s, tail, ctx, loop, st);
    case Try(_, _, _) => NotCompiled(s, tail, ctx, loop, st);
  }

  lemma IfShape(s: Stmt, tail: bool, ctx: Ctx, loop: Targets, st: State)
    requires ctx.scopes != []
    ensures s.If? ==> CompileStmt(s, tail, ctx, st.pc, loop) == CompileIf(s, tail, ctx, st.pc, loop, 0, st.pc + IfLen(s, tail, 0))
  {
  }

  lemma NotCompiled(s: Stmt, tail: bool, ctx: Ctx, loop: Targets, st: State)
    requires (s.Throw? || s.Try?) && ctx.scopes != []
    ensures CompileStmt(s, tail, ctx, st.pc, loop).None?
  {
  }

  lemma {:induction false} SimBlock(c: Cfg, call: Dispatch, ops: seq<VmOp>, body: seq<Stmt>, tail: bool, ctx: Ctx, loop: Targets,
                                    env: Env, st: State, fuel: nat)
    returns (n: nat, f: seq<Value>)
    requires BlockFits(body, tail) && Ready(c, call, ctx, env, st)
    requires Loaded(ops, CompileBlock(body, tail, ctx, st.pc, loop), st)
    ensures Ran(EvalBlock(c, body, env, fuel), ops, call, st, st.pc + BlockLen(body, tail), tail,
                ctx, CompileBlock(body, tail, ctx, st.pc, loop).value.ctx.scopes, loop, false, n, f)
    ensures EvalBlock(c, body, env, fuel).out.NoResult? ==> n >= fuel
    decreases fuel, body, 0
  {
    hide CompileStmt, EvalStmt, EvalBlock, StmtLen, BlockLen, CompileBlock, Fits, Exec, CodeAt, Match, Kept, SlotsOk, Setting, Grows, Ran;
    BlockShape(c, body, tail, ctx, st.pc, loop, env, fuel);
    if body == [] {
      n, f := SimEmpty(c, call, ops, tail, ctx, loop, env, st, fuel);
    } else if |body| == 1 {
      n, f := SimStmt(c, call, ops, body[0], tail, ctx, loop, env, st, fuel);
    } else {
      var first := CompileStmt(body[0], false, ctx, st.pc, loop).value;
      var rest := CompileBlock(body[1..], tail, first.ctx, st.pc + |first.ops|, loop).value;
      CodeSplit(ops, st.pc, first.ops, rest.ops);
      StmtGrows(body[0], false, ctx, st.pc, loop);
      BlockGrows(body[1..], tail, first.ctx, st.pc + |first.ops|, loop);
      GrowsNext(first.ctx, rest.ctx);
      n, f := SimStmt(c, call, ops, body[0], false, ctx, loop, env, st, fuel);
      var r := EvalStmt(c, body[0], env, fuel);
      if r.out.Ok? && r.out.value.Normal? {
        var s1 := State(st.pc + |first.ops|, [], f);
        FellThrough(c, call, ops, r, ctx, first.ctx, loop, env, st, s1, n);
        var m, f' := SimBlock(c, call, ops, body[1..], tail, first.ctx, loop, r.env, s1, fuel);
        RanThen(EvalBlock(c, body[1..], r.env, fuel), ops, call, st, n, s1, st.pc + BlockLen(body, tail), tail,
                ctx, first.ctx, rest.ctx.scopes, loop, m, f');
        n, f := n + m, f';
      } else {
        RanAbrupt(r, ops, call, st, st.pc + StmtLen(body[0], false), false, first.ctx.scopes,
                  st.pc + BlockLen(body, tail), tail, rest.ctx.scopes, ctx, loop, n, f);
      }
    }
  }

  lemma BlockShape(c: Cfg, body: seq<Stmt>, tail: bool, ctx: Ctx, pc: nat, loop: Targets, env: Env, fuel: nat)
    requires ctx.scopes != [] && env != [] && CompileBlock(body, tail, ctx, pc, loop).Some?
    ensures body == [] ==> CompileBlock(body, tail, ctx, pc, loop) == Some(Code(Tail(tail), ctx))
    ensures |body| == 1 ==>
              && CompileBlock(body, tail, ctx, pc, loop) == CompileStmt(body[0], tail, ctx, pc, loop)
              && BlockLen(body, tail) == StmtLen(body[0], tail) && EvalBlock(c, body, env, fuel) == EvalStmt(c, body[0], env, fuel)
    ensures |body| > 1 ==>
              var first, r := CompileStmt(body[0], false, ctx, pc, loop), EvalStmt(c, body[0], env, fuel);
              && first.Some?
              && var rest := CompileBlock(body[1..], tail, first.value.ctx, pc + |first.value.ops|, loop);
                 && rest.Some? && CompileBlock(body, tail, ctx, pc, loop) == Some(Code(first.value.ops + rest.value.ops, rest.value.ctx))
                 && BlockLen(body, tail) == StmtLen(body[0], false) + BlockLen(body[1..], tail)
                 && EvalBlock(c, body, env, fuel) == if r.out.Ok? && r.out.value.Normal? then EvalBlock(c, body[1..], r.env, fuel) else r
  {
    hide CompileStmt, EvalStmt, StmtLen;
  }

  lemma SimEmpty(c: Cfg, call: Dispatch, ops: seq<VmOp>, tail: bool, ctx: Ctx, loop: Targets, env: Env, st: State, fuel: nat)
    returns (n: nat, f: seq<Value>)
    requires Ready(c, call, ctx, env, st) && CodeAt(ops, st.pc, Tail(tail))
    ensures Ran(EvalBlock(c, [], env, fuel), ops, call, st, st.pc + BlockLen([], tail), tail, ctx, ctx.scopes, loop, false, n, f)
    ensures !EvalBlock(c, [], env, fuel).out.NoResult?
  {
    hide Exec, CodeAt, SlotsOk, Match;
    ExecZero(ops, call, st);
    SettingMatch(c, call, ctx, env, st.frame);
    f := st.frame;
    n := DoTail(ops, call, st, 0, st.pc, f, tail);
  }

  /** How a run that does not fall through ends does not depend on what follows it. */
  lemma RanAbrupt(r: Run, ops: seq<VmOp>, call: Dispatch, st: State, goal: nat, tail: bool, after: Scopes<nat>,
                  goal': nat, tail': bool, after': Scopes<nat>, before: Ctx, loop: Targets, n: nat, f: seq<Value>)
    requires Ran(r, ops, call, st, goal, tail, before, after, loop, false, n, f)
    requires !(r.out.Ok? && r.out.value.Normal?)
    ensures Ran(r, ops, call, st, goal', tail', before, after', loop, false, n, f)
  {
  }

  /** A statement that fell through leaves things ready for the next one. */
  lemma FellThrough(c: Cfg, call: Dispatch, ops: seq<VmOp>, r: Run, ctx: Ctx, ctx': Ctx, loop: Targets, env: Env, st: State, st': State, n: nat)
    requires Ready(c, call, ctx, env, st) && SlotsOk(ctx') && ctx'.scopes != [] && r.env != []
    requires r.out.Ok? && r.out.value.Normal? && st'.stack == []
    requires Ran(r, ops, call, st, st'.pc, false, ctx, ctx'.scopes, loop, false, n, st'.frame)
    ensures Ready(c, call, ctx', r.env, st') && |st'.frame| == |st.frame|
    ensures Exec(ops, call, st, n) == Next(st') && Kept(ctx, st.frame, st'.frame)
  {
    hide Match, Agree, Exec;
  }

  lemma {:induction false} SimScoped(c: Cfg, call: Dispatch, ops: seq<VmOp>, body: seq<Stmt>, tail: bool, ctx: Ctx, loop: Targets,
                                     env: Env, st: State, fuel: nat)
    returns (n: nat, f: seq<Value>)
    requires BlockFits(body, tail) && Ready(c, call, ctx, env, st)
    requires Loaded(ops, CompileScoped(body, tail, ctx, st.pc, loop), st)
    ensures Ran(EvalScoped(c, body, env, fuel), ops, call, st, st.pc + BlockLen(body, tail), tail,
                ctx, ctx.scopes, loop, true, n, f)
    ensures EvalScoped(c, body, env, fuel).out.NoResult? ==> n >= fuel
    decreases fuel, body, 1
  {
    hide EvalBlock, BlockLen, BlockFits, CompileBlock, Exec, CodeAt, Match, Kept, SlotsOk, Agree, Named;
    var inner := CompileBlock(body, tail, Open(ctx), st.pc, loop).value;
    OpenOk(ctx);
    MatchOpen(env, ctx.scopes, st.frame);
    assert Named(Open(ctx)) by { SlotsNamed(Open(ctx)); }
    n, f := SimBlock(c, call, ops, body, tail, Open(ctx), loop, env + [map[]], st, fuel);
    ScopedGrows(body, tail, ctx, st.pc, loop);
    var r := EvalBlock(c, body, env + [map[]], fuel);
    if r.out.Ok? && !r.out.value.Returned? {
      KeptOpen(ctx, st.frame, f);
      if r.out.value.Normal? {
        MatchPop(r.env, inner.ctx.scopes, f, |env|);
      } else {
        assert r.env[..|env|] == r.env[..|r.env| - 1];
        assert Open(ctx).scopes[..|ctx.scopes|] == ctx.scopes;
      }
    }
  }

  lemma SlotsNamed(ctx: Ctx)
    requires SlotsOk(ctx)
    ensures Named(ctx)
  {
  }

  lemma KeptOpen(ctx: Ctx, f: seq<Value>, f': seq<Value>)
    requires Kept(Open(ctx), f, f')
    ensures Kept(ctx, f, f')
  {
    forall j | Owned(Open(ctx).scopes, j) ensures Owned(ctx.scopes, j) {
      var k, x :| 0 <= k < |Open(ctx).scopes| && x in Open(ctx).scopes[k] && Open(ctx).scopes[k][x] == j;
      assert k < |ctx.scopes| && x in ctx.scopes[k];
    }
  }

  /** What a scoped block did, seen from the statement that contains it. */
  lemma ScopedAsStmt(r: Run, ops: seq<VmOp>, call: Dispatch, st: State, goal: nat, tail: bool, ctx: Ctx, loop: Targets, n: nat, f: seq<Value>)
    requires Ran(r, ops, call, st, goal, tail, ctx, ctx.scopes, loop, true, n, f) && r.env != []
    ensures Ran(r, ops, call, st, goal, tail, ctx, ctx.scopes, loop, false, n, f)
  {
    hide Match, Kept, Exec;
    if r.out.Ok? && (r.out.value.Broke? || r.out.value.Continued?) {
      WholeIsOuter(r.env, ctx.scopes, f);
    }
  }

  lemma {:induction false} SimRegion(c: Cfg, call: Dispatch, ops: seq<VmOp>, s: Stmt, tail: bool, ctx: Ctx, loop: Targets,
                                     env: Env, st: State, fuel: nat)
    returns (n: nat, f: seq<Value>)
    requires s.Region? && Fits(s, tail) && Ready(c, call, ctx, env, st)
    requires Loaded(ops, CompileStmt(s, tail, ctx, st.pc, loop), st)
    ensures Ran(EvalStmt(c, s, env, fuel), ops, call, st, st.pc + StmtLen(s, tail), tail,
                ctx, CompileStmt(s, tail, ctx, st.pc, loop).value.ctx.scopes, loop, false, n, f)
    ensures EvalStmt(c, s, env, fuel).out.NoResult? ==> n >= fuel
    decreases fuel, s, 2
  {
    hide EvalScoped, BlockLen, BlockFits, CompileScoped, Exec, CodeAt, Ran, Setting, SlotsOk;
    RegionParts(ops, s, tail, ctx, st, loop);
    ScopedGrows(s.body, false, ctx, st.pc, loop);
    var r := EvalScoped(c, s.body, env, fuel);
    n, f := SimScoped(c, call, ops, s.body, false, ctx, loop, env, st, fuel);
    ScopedAsStmt(r, ops, call, st, st.pc + BlockLen(s.body, false), false, ctx, loop, n, f);
    if tail {
      VoidScoped(c, s.body, env, fuel);
      n := RanTail(r, ops, call, st, st.pc + BlockLen(s.body, false), tail, ctx, loop, loop, n, f);
    }
  }

  lemma RegionParts(ops: seq<VmOp>, s: Stmt, tail: bool, ctx: Ctx, st: State, loop: Targets)
    requires s.Region? && ctx.scopes != [] && Loaded(ops, CompileStmt(s, tail, ctx, st.pc, loop), st)
    ensures Loaded(ops, CompileScoped(s.body, false, ctx, st.pc, loop), st)
    ensures CodeAt(ops, st.pc + BlockLen(s.body, false), Tail(tail)) && StmtLen(s, tail) == BlockLen(s.body, false) + |Tail(tail)|
  {
    hide CodeAt, CompileScoped, BlockLen;
    CodeSplit(ops, st.pc, CompileScoped(s.body, false, ctx, st.pc, loop).value.ops, Tail(tail));
  }

  // ---- Statements whose value is always `Void` ----

  lemma {:induction false} VoidStmt(c: Cfg, s: Stmt, env: Env, fuel: nat)
    requires env != [] && StmtVoid(s)
    ensures var r := EvalStmt(c, s, env, fuel); r.out.Ok? && r.out.value.Normal? ==> r.out.value.v == Void
    decreases fuel, s, 3
  {
    hide EvalExpr, EvalUpdate, EvalIf, EvalScoped, EvalFor, EvalBlock, EvalBounds, AfterIteration, Update, Define, ApplyCompound;
    match s
    case If(_, _) => VoidIf(c, s, 0, env, fuel);
    case While(_, body) => if fuel > 0 { VoidAgain(c, s, EvalScoped(c, body, env, fuel), fuel); }
    case Loop(body) => if fuel > 0 { VoidAgain(c, s, EvalScoped(c, body, env, fuel), fuel); }
    case For(x, start, end, step, _) =>
      var bounds := EvalBounds(c, start, end, step, env);
      if bounds.Ok? {
        var (first, last, stride) := bounds.value;
        ForYieldsVoid(c, s, first, last, stride, env + [map[x := I64(first)]], fuel);
      }
    case Region(body) => VoidScoped(c, body, env, fuel);
    case Try(body, x, handler) =>
      VoidScoped(c, body, env, fuel);
      var r := EvalScoped(c, body, env, fuel);
      if r.out.Err? { VoidBlock(c, handler, r.env + [map[x := Str(r.out.error.message)]], fuel); }
    case _ =>
  }

  lemma {:induction false} VoidAgain(c: Cfg, s: Stmt, r: Run, fuel: nat)
    requires (s.While? || s.Loop?) && r.env != [] && fuel > 0
    ensures var out := AfterIteration(c, s, r, fuel).out; out.Ok? && out.value.Normal? ==> out.value.v == Void
    decreases fuel, s, 2
  {
    if r.out.Ok? { VoidStmt(c, s, r.env, fuel - 1); }
  }

  lemma {:induction false} VoidIf(c: Cfg, s: Stmt, i: nat, env: Env, fuel: nat)
    requires env != [] && s.If? && i <= |s.branches| && StmtVoid(s)
    ensures var r := EvalIf(c, s, i, env, fuel); r.out.Ok? && r.out.value.Normal? ==> r.out.value.v == Void
    decreases fuel, s, 2, |s.branches| - i
  {
    hide EvalExpr, EvalScoped;
    if i == |s.branches| {
      VoidScoped(c, s.orelse, env, fuel);
    } else {
      VoidScoped(c, s.branches[i].body, env, fuel);
      VoidIf(c, s, i + 1, env, fuel);
    }
  }

  lemma {:induction false} VoidScoped(c: Cfg, body: seq<Stmt>, env: Env, fuel: nat)
    requires env != [] && BlockVoid(body)
    ensures var r := EvalScoped(c, body, env, fuel); r.out.Ok? && r.out.value.Normal? ==> r.out.value.v == Void
    decreases fuel, body, 1
  {
    hide EvalBlock;
    VoidBlock(c, body, env + [map[]], fuel);
  }

  lemma {:induction false} VoidBlock(c: Cfg, body: seq<Stmt>, env: Env, fuel: nat)
    requires env != [] && BlockVoid(body)
    ensures var r := EvalBlock(c, body, env, fuel); r.out.Ok? && r.out.value.Normal? ==> r.out.value.v == Void
    decreases fuel, body, 0
  {
    hide EvalStmt;
    if |body| == 1 {
      VoidStmt(c, body[0], env, fuel);
    } else if |body| > 1 {
      VoidBlock(c, body[1..], EvalStmt(c, body[0], env, fuel).env, fuel);
    }
  }

  // ---- Conditionals ----

  /** The statement is its chain of branches. */
  lemma IfStmt(c: Cfg, ops: seq<VmOp>, call: Dispatch, s: Stmt, tail: bool, ctx: Ctx, loop: Targets,
               env: Env, st: State, fuel: nat, n: nat, f: seq<Value>)
    requires s.If? && env != [] && SlotsOk(ctx) && ctx.scopes != [] && CompileStmt(s, tail, ctx, st.pc, loop).Some?
    requires Ran(EvalIf(c, s, 0, env, fuel), ops, call, st, st.pc + IfLen(s, tail, 0), tail, ctx, ctx.scopes, loop, true, n, f)
    ensures Ran(EvalStmt(c, s, env, fuel), ops, call, st, st.pc + StmtLen(s, tail), tail,
                ctx, CompileStmt(s, tail, ctx, st.pc, loop).value.ctx.scopes, loop, false, n, f)
    ensures EvalStmt(c, s, env, fuel) == EvalIf(c, s, 0, env, fuel)
  {
    hide Ran, SlotsOk, CompileIf, EvalIf, IfLen;
    IfGrows(s, tail, ctx, st.pc, loop, 0, st.pc + IfLen(s, tail, 0));
    ScopedAsStmt(EvalIf(c, s, 0, env, fuel), ops, call, st, st.pc + IfLen(s, tail, 0), tail, ctx, loop, n, f);
  }

  /** Prefix a run with turns that only moved the program counter. */
  lemma RanPrefix(r: Run, ops: seq<VmOp>, call: Dispatch, s0: State, k: nat, s1: State, goal: nat, tail: bool,
                  ctx: Ctx, after: Scopes<nat>, loop: Targets, whole: bool, n: nat, f: seq<Value>)
    requires Exec(ops, call, s0, k) == Next(s1) && s1.frame == s0.frame
    requires Ran(r, ops, call, s1, goal, tail, ctx, after, loop, whole, n, f)
    ensures Ran(r, ops, call, s0, goal, tail, ctx, after, loop, whole, k + n, f)
  {
    hide Exec, Left, Match, Kept;
    ExecThen(ops, call, s0, k, s1, n);
  }

  /** A run that falls through onto a jump goes on to the jump's target. */
  lemma RanJump(r: Run, ops: seq<VmOp>, call: Dispatch, st: State, goal: nat, target: nat, tail: bool,
                ctx: Ctx, after: Scopes<nat>, loop: Targets, whole: bool, n: nat, f: seq<Value>) returns (m: nat)
    requires Ran(r, ops, call, st, goal, tail, ctx, after, loop, whole, n, f)
    requires goal < |ops| && ops[goal] == Jump(target)
    ensures Ran(r, ops, call, st, target, tail, ctx, after, loop, whole, m, f)
    ensures m >= n && (r.out.Ok? && r.out.value.Normal? ==> m > 0)
  {
    hide Exec, Left, Match, Kept;
    m := n;
    if r.out.Ok? && r.out.value.Normal? {
      DoJump(ops, call, st, n, State(goal, if tail then [r.out.value.v] else [], f), target);
      m := n + 1;
    }
  }

  lemma {:induction false} SimIf(c: Cfg, call: Dispatch, ops: seq<VmOp>, s: Stmt, tail: bool, ctx: Ctx, loop: Targets,
                                 i: nat, end: nat, env: Env, st: State, fuel: nat)
    returns (n: nat, f: seq<Value>)
    requires s.If? && i <= |s.branches| && IfFits(s, tail, i) && Ready(c, call, ctx, env, st)
    requires Loaded(ops, CompileIf(s, tail, ctx, st.pc, loop, i, end), st) && end == st.pc + IfLen(s, tail, i)
    ensures Ran(EvalIf(c, s, i, env, fuel), ops, call, st, end, tail, ctx, ctx.scopes, loop, true, n, f)
    ensures EvalIf(c, s, i, env, fuel).out.NoResult? ==> n >= fuel
    decreases fuel, s, 1, |s.branches| - i
  {
    hide EvalExpr, EvalScoped, EvalIf, CompileExpr, CompileScoped, CompileIf, ExprLen, BlockLen, IfLen, BlockFits,
      Exec, CodeAt, Match, Kept, SlotsOk, Setting, Ran;
    IfMeaning(c, s, tail, ctx, st.pc, loop, i, end, env, fuel);
    if i == |s.branches| {
      n, f := SimScoped(c, call, ops, s.orelse, tail, ctx, loop, env, st, fuel);
    } else {
      var branch := s.branches[i];
      var len := ExprLen(branch.cond);
      IfCode(ops, s, tail, ctx, loop, i, end, st);
      var inner := CompileScoped(branch.body, tail, ctx, st.pc + len + 1, loop).value;
      var next := st.pc + len + |inner.ops| + 2;
      ScopedGrows(branch.body, tail, ctx, st.pc + len + 1, loop);
      IfGrows(s, tail, inner.ctx, next, loop, i + 1, end);
      GrowsNext(inner.ctx, CompileIf(s, tail, inner.ctx, next, loop, i + 1, end).value.ctx);
      n := SimExpr(c, call, ops, branch.cond, ctx, env, st);
      f := st.frame;
      var v := EvalExpr(c, branch.cond, env);
      if v.Ok? && v.value.Bool? {
        DoBranch(ops, call, st, n, State(st.pc + len, st.stack + [v.value], f), [], v.value, false, next);
        if v.value.b {
          var s1 := State(st.pc + len + 1, [], f);
          var m, f' := SimScoped(c, call, ops, branch.body, tail, ctx, loop, env, s1, fuel);
          var r := EvalScoped(c, branch.body, env, fuel);
          m := RanJump(r, ops, call, s1, next - 1, end, tail, ctx, ctx.scopes, loop, true, m, f');
          RanPrefix(r, ops, call, st, n + 1, s1, end, tail, ctx, ctx.scopes, loop, true, m, f');
          n, f := n + 1 + m, f';
        } else {
          var s1 := State(next, [], f);
          SameScopes(c, call, ctx, inner.ctx, env, st, s1);
          var m, f' := SimIf(c, call, ops, s, tail, inner.ctx, loop, i + 1, end, env, s1, fuel);
          var r := EvalIf(c, s, i + 1, env, fuel);
          RanSmaller(r, ops, call, s1, end, tail, ctx, inner.ctx, loop, m, f');
          RanPrefix(r, ops, call, st, n + 1, s1, end, tail, ctx, ctx.scopes, loop, true, m, f');
          n, f := n + 1 + m, f';
        }
      } else {
        n := ExprFailed(c, ops, call, branch.cond, env, st, len, end, tail, ctx, loop, true, n, f, EvalIf(c, s, i, env, fuel), fuel);
      }
    }
  }

  lemma IfMeaning(c: Cfg, s: Stmt, tail: bool, ctx: Ctx, pc: nat, loop: Targets, i: nat, end: nat, env: Env, fuel: nat)
    requires s.If? && i <= |s.branches| && env != [] && ctx.scopes != []
    ensures i == |s.branches| ==>
              && EvalIf(c, s, i, env, fuel) == EvalScoped(c, s.orelse, env, fuel)
              && CompileIf(s, tail, ctx, pc, loop, i, end) == CompileScoped(s.orelse, tail, ctx, pc, loop)
              && IfLen(s, tail, i) == BlockLen(s.orelse, tail)
    ensures i < |s.branches| ==>
              && IfLen(s, tail, i) == ExprLen(s.branches[i].cond) + BlockLen(s.branches[i].body, tail) + 2 + IfLen(s, tail, i + 1)
              && var v, r := EvalExpr(c, s.branches[i].cond, env), EvalIf(c, s, i, env, fuel);
                 && (v.Ok? && v.value.Bool? && v.value.b ==> r == EvalScoped(c, s.branches[i].body, env, fuel))
                 && (v.Ok? && v.value.Bool? && !v.value.b ==> r == EvalIf(c, s, i + 1, env, fuel))
                 && Condition(v, r.out)
  {
    hide EvalScoped, CompileScoped, EvalExpr, ExprLen, BlockLen, CompileExpr;
  }

  /** A condition that is no boolean decides the outcome. */
  predicate Condition(v: Res<Value>, out: Res<Flow>) {
    (v.Ok? && v.value.Bool?) || out == (if v.Ok? then AsBool(v.value).PropagateFailure() else v.PropagateFailure())
  }

  /** A run that ends where its condition does: with the condition's error, hung, or ill typed. */
  lemma ExprFailed(c: Cfg, ops: seq<VmOp>, call: Dispatch, e: Expr, env: Env, st: State, len: nat, goal: nat, tail: bool,
                   ctx: Ctx, loop: Targets, whole: bool, n: nat, f: seq<Value>, r: Run, fuel: nat) returns (m: nat)
    requires var v := EvalExpr(c, e, env);
             Pushes(v, ops, call, st, len, n) && !(v.Ok? && v.value.Bool?) && Condition(v, r.out)
    ensures Ran(r, ops, call, st, goal, tail, ctx, ctx.scopes, loop, whole, m, f) && (r.out.NoResult? ==> m >= fuel)
  {
    hide Exec, EvalExpr;
    m := n;
    if EvalExpr(c, e, env).NoResult? { m := StillHung(ops, call, st, n, fuel); }
  }

  lemma SameScopes(c: Cfg, call: Dispatch, ctx: Ctx, ctx': Ctx, env: Env, st: State, st': State)
    requires Ready(c, call, ctx, env, st) && SlotsOk(ctx') && ctx'.scopes == ctx.scopes
    requires st'.stack == [] && st'.frame == st.frame
    ensures Ready(c, call, ctx', env, st')
  {
  }

  lemma RanSmaller(r: Run, ops: seq<VmOp>, call: Dispatch, st: State, goal: nat, tail: bool, a: Ctx, b: Ctx, loop: Targets,
                   n: nat, f: seq<Value>)
    requires Ran(r, ops, call, st, goal, tail, b, b.scopes, loop, true, n, f)
    requires a.scopes == b.scopes && a.next <= b.next
    ensures Ran(r, ops, call, st, goal, tail, a, a.scopes, loop, true, n, f)
  {
    hide Exec, Match, Owned;
  }

  lemma IfCode(ops: seq<VmOp>, s: Stmt, tail: bool, ctx: Ctx, loop: Targets, i: nat, end: nat, st: State)
    requires s.If? && i < |s.branches| && ctx.scopes != []
    requires Loaded(ops, CompileIf(s, tail, ctx, st.pc, loop, i, end), st)
    ensures var body, len := s.branches[i].body, ExprLen(s.branches[i].cond);
            var inner := CompileScoped(body, tail, ctx, st.pc + len + 1, loop);
            && CompileExpr(s.branches[i].cond, ctx, st.pc).Some? && CodeAt(ops, st.pc, CompileExpr(s.branches[i].cond, ctx, st.pc).value)
            && inner.Some? && CodeAt(ops, st.pc + len + 1, inner.value.ops)
            && var next := st.pc + len + BlockLen(body, tail) + 2;
               && st.pc + len < |ops| && ops[st.pc + len] == JumpIfFalse(next)
               && next - 1 < |ops| && ops[next - 1] == Jump(end)
               && var rest := CompileIf(s, tail, inner.value.ctx, next, loop, i + 1, end);
                  && rest.Some? && CodeAt(ops, next, rest.value.ops)
                  && CompileIf(s, tail, ctx, st.pc, loop, i, end).value.ctx == rest.value.ctx
  {
    hide CodeAt, CompileExpr, CompileScoped, ExprLen, BlockLen;
    var test := CompileExpr(s.branches[i].cond, ctx, st.pc).value;
    var inner := CompileScoped(s.branches[i].body, tail, ctx, st.pc + |test| + 1, loop).value;
    var next := st.pc + |test| + |inner.ops| + 2;
    var rest := CompileIf(s, tail, inner.ctx, next, loop, i + 1, end).value;
    SplitBranch(ops, st.pc, test, JumpIfFalse(next), inner.ops, Jump(end), rest.ops);
  }

  // ---- while and loop ----

  /** From the outcome of one pass, with the machine back at `top` or at the loop's end. */
  lemma {:induction false} SimAgain(c: Cfg, call: Dispatch, ops: seq<VmOp>, s: Stmt, tail: bool, ctx: Ctx, loop: Targets, end: nat,
                                    r: Run, env: Env, st: State, fuel: nat, n: nat, f: seq<Value>)
    returns (m: nat, f': seq<Value>)
    requires (s.While? || s.Loop?) && fuel > 0 && r.env != [] && Fits(s, tail) && Ready(c, call, ctx, env, st)
    requires Loaded(ops, CompileStmt(s, tail, ctx, st.pc, loop), st) && CompileStmt(s, tail, ctx, st.pc, loop).value.ctx.scopes == ctx.scopes
    requires CodeAt(ops, end, Tail(tail)) && end + |Tail(tail)| == st.pc + StmtLen(s, tail)
    requires Ran(r, ops, call, st, st.pc, false, ctx, ctx.scopes, InLoop(end, st.pc), true, n, f)
    requires (r.out.Ok? && r.out.value.Normal? ==> n > 0) && (r.out.NoResult? ==> n >= fuel)
    ensures Ran(AfterIteration(c, s, r, fuel), ops, call, st, st.pc + StmtLen(s, tail), tail, ctx, ctx.scopes, loop, false, m, f')
    ensures AfterIteration(c, s, r, fuel).out.NoResult? ==> m >= fuel
    decreases fuel, s, 1, 0
  {
    hide Exec, Match, Kept, SlotsOk, Setting, CodeAt, Fits, CompileStmt, StmtLen, EvalStmt;
    m, f' := n, f;
    if r.out.Ok? && r.out.value.Broke? {
      m := DoTail(ops, call, st, n, end, f, tail);
    } else if r.out.Ok? && !r.out.value.Returned? {
      var s1 := State(st.pc, [], f);
      ReadyAgain(c, call, ctx, env, r.env, st, s1);
      var k, g := SimStmt(c, call, ops, s, tail, ctx, loop, r.env, s1, fuel - 1);
      GrowsRefl(ctx);
      RanThen(EvalStmt(c, s, r.env, fuel - 1), ops, call, st, n, s1, st.pc + StmtLen(s, tail), tail, ctx, ctx, ctx.scopes, loop, k, g);
      m, f' := n + k, g;
    }
  }

  lemma ReadyAgain(c: Cfg, call: Dispatch, ctx: Ctx, env: Env, env': Env, st: State, st': State)
    requires Ready(c, call, ctx, env, st) && env' != []
    requires Match(env', ctx.scopes, st'.frame) && st'.stack == [] && Kept(ctx, st.frame, st'.frame)
    ensures Ready(c, call, ctx, env', st') && |st'.frame| == |st.frame|
  {
    hide Match, Agree, SlotsOk;
  }

  lemma {:induction false} SimWhile(c: Cfg, call: Dispatch, ops: seq<VmOp>, s: Stmt, tail: bool, ctx: Ctx, loop: Targets,
                                    env: Env, st: State, fuel: nat)
    returns (n: nat, f: seq<Value>)
    requires s.While? && Fits(s, tail) && Ready(c, call, ctx, env, st)
    requires Loaded(ops, CompileStmt(s, tail, ctx, st.pc, loop), st)
    ensures Ran(EvalStmt(c, s, env, fuel), ops, call, st, st.pc + StmtLen(s, tail), tail,
                ctx, CompileStmt(s, tail, ctx, st.pc, loop).value.ctx.scopes, loop, false, n, f)
    ensures EvalStmt(c, s, env, fuel).out.NoResult? ==> n >= fuel
    decreases fuel, s, 2
  {
    hide EvalExpr, EvalScoped, EvalStmt, CompileExpr, CompileScoped, CompileStmt, StmtLen, ExprLen, BlockLen, AfterIteration,
      Exec, CodeAt, Match, Kept, SlotsOk, Setting, Ran;
    WhileMeaning(c, s, env, fuel);
    WhileCode(ops, s, tail, ctx, loop, st);
    StmtGrows(s, tail, ctx, st.pc, loop);
    var len := ExprLen(s.cond);
    var end := st.pc + len + BlockLen(s.body, false) + 2;
    n := SimExpr(c, call, ops, s.cond, ctx, env, st);
    f := st.frame;
    var v := EvalExpr(c, s.cond, env);
    if v.Ok? && v.value.Bool? {
      DoBranch(ops, call, st, n, State(st.pc + len, st.stack + [v.value], f), [], v.value, false, end);
      n := n + 1;
      if !v.value.b {
        n := DoTail(ops, call, st, n, end, f, tail);
        LeftLoop(c, ops, call, env, st, end + |Tail(tail)|, tail, ctx, loop, n);
      } else if fuel > 0 {
        var s1 := State(st.pc + len + 1, [], f);
        var m, f1 := SimScoped(c, call, ops, s.body, false, ctx, InLoop(end, st.pc), env, s1, fuel);
        var r := EvalScoped(c, s.body, env, fuel);
        m := RanJump(r, ops, call, s1, end - 1, st.pc, false, ctx, ctx.scopes, InLoop(end, st.pc), true, m, f1);
        RanPrefix(r, ops, call, st, n, s1, st.pc, false, ctx, ctx.scopes, InLoop(end, st.pc), true, m, f1);
        n, f := SimAgain(c, call, ops, s, tail, ctx, loop, end, r, env, st, fuel, n + m, f1);
      } else {
        NoRun(Run(NoResult, env), ops, call, st, st.pc + StmtLen(s, tail), tail, ctx, loop, n, f);
      }
    } else {
      n := ExprFailed(c, ops, call, s.cond, env, st, len, st.pc + StmtLen(s, tail), tail, ctx, loop, false, n, f, EvalStmt(c, s, env, fuel), fuel);
    }
  }

  lemma WhileMeaning(c: Cfg, s: Stmt, env: Env, fuel: nat)
    requires s.While? && env != []
    ensures var v, r := EvalExpr(c, s.cond, env), EvalStmt(c, s, env, fuel);
            && (v.Ok? && v.value.Bool? && !v.value.b ==> r == Run(Ok(Normal(Void)), env))
            && (v.Ok? && v.value.Bool? && v.value.b && fuel == 0 ==> r == Run(NoResult, env))
            && (v.Ok? && v.value.Bool? && v.value.b && fuel > 0 ==> r == AfterIteration(c, s, EvalScoped(c, s.body, env, fuel), fuel))
            && Condition(v, r.out)
  {
    hide EvalScoped, EvalExpr, AfterIteration;
  }

  lemma NoRun(r: Run, ops: seq<VmOp>, call: Dispatch, st: State, goal: nat, tail: bool, ctx: Ctx, loop: Targets, n: nat, f: seq<Value>)
    requires r.out.NoResult? && Exec(ops, call, st, n).Next?
    ensures Ran(r, ops, call, st, goal, tail, ctx, ctx.scopes, loop, false, n, f)
  {
  }

  lemma LeftLoop(c: Cfg, ops: seq<VmOp>, call: Dispatch, env: Env, st: State, goal: nat, tail: bool, ctx: Ctx, loop: Targets, n: nat)
    requires Ready(c, call, ctx, env, st)
    requires Exec(ops, call, st, n) == Next(State(goal, if tail then [Void] else [], st.frame))
    ensures Ran(Run(Ok(Normal(Void)), env), ops, call, st, goal, tail, ctx, ctx.scopes, loop, false, n, st.frame)
  {
    hide Exec;
  }

  lemma WhileCode(ops: seq<VmOp>, s: Stmt, tail: bool, ctx: Ctx, loop: Targets, st: State)
    requires s.While? && ctx.scopes != [] && Loaded(ops, CompileStmt(s, tail, ctx, st.pc, loop), st)
    ensures var len := ExprLen(s.cond);
            var end := st.pc + len + BlockLen(s.body, false) + 2;
            var inner := CompileScoped(s.body, false, ctx, st.pc + len + 1, InLoop(end, st.pc));
            && CompileExpr(s.cond, ctx, st.pc).Some? && CodeAt(ops, st.pc, CompileExpr(s.cond, ctx, st.pc).value)
            && st.pc + len < |ops| && ops[st.pc + len] == JumpIfFalse(end)
            && inner.Some? && CodeAt(ops, st.pc + len + 1, inner.value.ops)
            && end - 1 < |ops| && ops[end - 1] == Jump(st.pc)
            && CodeAt(ops, end, Tail(tail)) && end + |Tail(tail)| == st.pc + StmtLen(s, tail)
            && CompileStmt(s, tail, ctx, st.pc, loop).value.ctx == inner.value.ctx
  {
    hide CodeAt, CompileExpr, CompileScoped, ExprLen, BlockLen;
    var test := CompileExpr(s.cond, ctx, st.pc).value;
    var end := st.pc + |test| + BlockLen(s.body, false) + 2;
    var inner := CompileScoped(s.body, false, ctx, st.pc + |test| + 1, InLoop(end, st.pc)).value;
    SplitBranch(ops, st.pc, test, JumpIfFalse(end), inner.ops, Jump(st.pc), Tail(tail));
  }

  lemma {:induction false} SimLoop(c: Cfg, call: Dispatch, ops: seq<VmOp>, s: Stmt, tail: bool, ctx: Ctx, loop: Targets,
                                   env: Env, st: State, fuel: nat)
    returns (n: nat, f: seq<Value>)
    requires s.Loop? && Fits(s, tail) && Ready(c, call, ctx, env, st)
    requires Loaded(ops, CompileStmt(s, tail, ctx, st.pc, loop), st)
    ensures Ran(EvalStmt(c, s, env, fuel), ops, call, st, st.pc + StmtLen(s, tail), tail,
                ctx, CompileStmt(s, tail, ctx, st.pc, loop).value.ctx.scopes, loop, false, n, f)
    ensures EvalStmt(c, s, env, fuel).out.NoResult? ==> n >= fuel
    decreases fuel, s, 2
  {
    hide EvalScoped, CompileScoped, CompileStmt, StmtLen, BlockLen, AfterIteration, Exec, CodeAt, Match, Kept, SlotsOk, Setting, Ran;
    LoopCode(ops, s, tail, ctx, loop, st);
    StmtGrows(s, tail, ctx, st.pc, loop);
    var end := st.pc + BlockLen(s.body, false) + 1;
    n, f := 0, st.frame;
    ExecZero(ops, call, st);
    if fuel > 0 {
      var r := EvalScoped(c, s.body, env, fuel);
      n, f := SimScoped(c, call, ops, s.body, false, ctx, InLoop(end, st.pc), env, st, fuel);
      n := RanJump(r, ops, call, st, end - 1, st.pc, false, ctx, ctx.scopes, InLoop(end, st.pc), true, n, f);
      n, f := SimAgain(c, call, ops, s, tail, ctx, loop, end, r, env, st, fuel, n, f);
    } else {
      NoRun(Run(NoResult, env), ops, call, st, st.pc + StmtLen(s, tail), tail, ctx, loop, n, f);
    }
  }

  lemma LoopCode(ops: seq<VmOp>, s: Stmt, tail: bool, ctx: Ctx, loop: Targets, st: State)
    requires s.Loop? && ctx.scopes != [] && Loaded(ops, CompileStmt(s, tail, ctx, st.pc, loop), st)
    ensures var end := st.pc + BlockLen(s.body, false) + 1;
            var inner := CompileScoped(s.body, false, ctx, st.pc, InLoop(end, st.pc));
            && inner.Some? && CodeAt(ops, st.pc, inner.value.ops)
            && end - 1 < |ops| && ops[end - 1] == Jump(st.pc)
            && CodeAt(ops, end, Tail(tail)) && end + |Tail(tail)| == st.pc + StmtLen(s, tail)
            && CompileStmt(s, tail, ctx, st.pc, loop).value.ctx == inner.value.ctx
  {
    hide CodeAt, CompileScoped, BlockLen;
    var end := st.pc + BlockLen(s.body, false) + 1;
    var inner := CompileScoped(s.body, false, ctx, st.pc, InLoop(end, st.pc)).value;
    SplitOp(ops, st.pc, inner.ops, Jump(st.pc), Tail(tail));
  }

  // ---- range-for ----

  /** Evaluate a bound and store it in a slot. */
  lemma {:induction false} SimBound(c: Cfg, call: Dispatch, ops: seq<VmOp>, e: Expr, ctx: Ctx, env: Env, st: State, slot: nat)
    returns (n: nat)
    requires CompileExpr(e, ctx, st.pc).Some? && CodeAt(ops, st.pc, CompileExpr(e, ctx, st.pc).value)
    requires st.pc + ExprLen(e) < |ops| && ops[st.pc + ExprLen(e)] == StoreLocal(slot) && slot < |st.frame|
    requires Setting(c, call, ctx, env, st.frame) && st.stack == []
    ensures Stores(EvalExpr(c, e, env), ops, call, st, ExprLen(e) + 1, slot, n)
  {
    hide EvalExpr, CompileExpr, ExprLen, Exec, CodeAt, Setting;
    n := SimExpr(c, call, ops, e, ctx, env, st);
    var v := EvalExpr(c, e, env);
    if v.Ok? {
      DoStore(ops, call, st, n, State(st.pc + ExprLen(e), st.stack + [v.value], st.frame), [], v.value, slot);
      n := n + 1;
    }
  }

  ghost predicate Stores(r: Res<Value>, ops: seq<VmOp>, call: Dispatch, st: State, len: nat, slot: nat, n: nat)
    requires slot < |st.frame|
  {
    match r
    case Ok(v) => Exec(ops, call, st, n) == Next(State(st.pc + len, [], st.frame[slot := v]))
    case Err(e) => TypeFault(e) || Exec(ops, call, st, n) == Fail(e)
    case NoResult => Exec(ops, call, st, n) == Hung
  }

  /** What the code before the loop test must achieve. */
  ghost predicate HeadRan(r: Res<(i64, i64, i64)>, s: Stmt, ops: seq<VmOp>, call: Dispatch, ctx: Ctx, env: Env, st: State, n: nat, f: seq<Value>)
    requires s.For? && ctx.scopes != []
  {
    match r
    case Ok((first, last, stride)) =>
      && Exec(ops, call, st, n) == Next(State(st.pc + ForHeadLen(s), [], f))
      && AtTop(s, ctx, env + [map[s.name := I64(first)]], last, stride, f) && Kept(ctx, st.frame, f)
    case Err(e) => TypeFault(e) || Exec(ops, call, st, n) == Fail(e)
    case NoResult => Exec(ops, call, st, n) == Hung
  }

  /** At the loop test: the counter's slot holds the loop variable's next value, the two
      unnamed slots the bounds. */
  ghost predicate AtTop(s: Stmt, ctx: Ctx, env: Env, last: i64, stride: i64, f: seq<Value>)
    requires s.For? && ctx.scopes != []
  {
    && ctx.next + 2 < |f| && Match(env, ForCtx(s, ctx).scopes, f)
    && f[ctx.next + 1] == I64(last) && f[ctx.next + 2] == I64(stride)
  }

  lemma MatchFresh(env: Env, ctx: Ctx, f: seq<Value>, j: nat, v: Value)
    requires SlotsOk(ctx) && Match(env, ctx.scopes, f) && ctx.next <= j < |f|
    ensures Match(env, ctx.scopes, f[j := v])
  {
    forall k | 0 <= k < |env| ensures MatchScope(env[k], ctx.scopes[k], f[j := v]) {
      assert MatchScope(env[k], ctx.scopes[k], f);
    }
  }

  ghost predicate OpIs(ops: seq<VmOp>, pc: nat, op: VmOp) { pc < |ops| && ops[pc] == op }

  ghost predicate ExprAt(ops: seq<VmOp>, pc: nat, e: Expr, ctx: Ctx) {
    CompileExpr(e, ctx, pc).Some? && CodeAt(ops, pc, CompileExpr(e, ctx, pc).value)
  }

  ghost predicate StepAt(ops: seq<VmOp>, pc: nat, step: Option<Expr>, ctx: Ctx, end: nat) {
    && CompileStep(step, ctx, pc).Some? && CodeAt(ops, pc, CompileStep(step, ctx, pc).value)
    && end == pc + |CompileStep(step, ctx, pc).value|
  }

  /** Where the pieces of the loop head sit. */
  lemma HeadCode(ops: seq<VmOp>, s: Stmt, ctx: Ctx, pc: nat)
    requires s.For? && ctx.scopes != [] && CompileForHead(s, ctx, pc).Some? && CodeAt(ops, pc, CompileForHead(s, ctx, pc).value)
    ensures ForHeadLen(s) >= 2
    ensures var slot, inside := ctx.next, Declare(Open(ctx), s.name);
            var p1 := pc + ExprLen(s.start);
            var p2 := p1 + 1 + ExprLen(s.end);
            var p3 := pc + ForHeadLen(s) - 2;
            && ExprAt(ops, pc, s.start, Open(ctx)) && ExprAt(ops, p1 + 1, s.end, inside) && StepAt(ops, p2 + 1, s.step, inside, p3)
            && OpIs(ops, p1, StoreLocal(slot)) && OpIs(ops, p2, StoreLocal(slot + 1)) && OpIs(ops, p3, StoreLocal(slot + 2))
            && OpIs(ops, p3 + 1, CheckStepNonzero(slot + 2))
  {
    hide CodeAt, CompileExpr, ExprLen;
    var slot, inside := ctx.next, Declare(Open(ctx), s.name);
    var a := CompileExpr(s.start, Open(ctx), pc).value;
    var b := CompileExpr(s.end, inside, pc + |a| + 1).value;
    var d := CompileStep(s.step, inside, pc + |a| + |b| + 2).value;
    CodeLast(ops, pc, a + [StoreLocal(slot)] + b + [StoreLocal(slot + 1)] + d + [StoreLocal(slot + 2)], CheckStepNonzero(slot + 2));
    CodeLast(ops, pc, a + [StoreLocal(slot)] + b + [StoreLocal(slot + 1)] + d, StoreLocal(slot + 2));
    CodeSplit(ops, pc, a + [StoreLocal(slot)] + b + [StoreLocal(slot + 1)], d);
    CodeLast(ops, pc, a + [StoreLocal(slot)] + b, StoreLocal(slot + 1));
    CodeSplit(ops, pc, a + [StoreLocal(slot)], b);
    CodeLast(ops, pc, a, StoreLocal(slot));
  }

  lemma DoCheckStep(ops: seq<VmOp>, call: Dispatch, s0: State, n: nat, s1: State, slot: nat, stride: i64)
    requires Exec(ops, call, s0, n) == Next(s1) && s1.pc < |ops| && ops[s1.pc] == CheckStepNonzero(slot)
    requires slot < |s1.frame| && s1.frame[slot] == I64(stride)
    ensures Exec(ops, call, s0, n + 1) ==
            if stride == 0 then Fail(Error("L0411", "for loop step cannot be zero")) else Next(s1.(pc := s1.pc + 1))
  {
    AndStep(ops, call, s0, n, s1);
  }

  /** The step, evaluated in the loop variable's scope, is the one the tree-walker evaluates outside it. */
  lemma {:induction false} SimStep(c: Cfg, call: Dispatch, ops: seq<VmOp>, s: Stmt, ctx: Ctx, env: Env, scope: map<string, Value>,
                                   st: State, slot: nat)
    returns (n: nat)
    requires s.For? && !(s.step.Some? && Mentions(s.step.value, s.name)) && slot < |st.frame| && st.stack == []
    requires scope.Keys == {s.name} && Setting(c, call, ctx, env + [scope], st.frame)
    requires CompileStep(s.step, ctx, st.pc).Some? && CodeAt(ops, st.pc, CompileStep(s.step, ctx, st.pc).value)
    requires var len := |CompileStep(s.step, ctx, st.pc).value|; st.pc + len < |ops| && ops[st.pc + len] == StoreLocal(slot)
    ensures var len := |CompileStep(s.step, ctx, st.pc).value|;
            match EvalStep(c, s.step, env)
            case Ok(v) => Exec(ops, call, st, n) == Next(State(st.pc + len + 1, [], st.frame[slot := I64(v)]))
            case Err(e) => TypeFault(e) || Exec(ops, call, st, n) == Fail(e)
            case NoResult => Exec(ops, call, st, n) == Hung
  {
    hide EvalExpr, CompileExpr, ExprLen, Exec, CodeAt, Setting, Mentions;
    if s.step.Some? {
      n := SimBound(c, call, ops, s.step.value, ctx, env + [scope], st, slot);
      EvalInner(c, s.step.value, env, scope);
    } else {
      ExecZero(ops, call, st);
      CodeOne(ops, st.pc, PushConst(I64(1)));
      DoPush(ops, call, st, 0, st, I64(1));
      DoStore(ops, call, st, 1, State(st.pc + 1, st.stack + [I64(1)], st.frame), [], I64(1), slot);
      n := 2;
    }
  }

  /** After the start value is stored: the loop variable's scope is in place. */
  ghost predicate Inside(c: Cfg, call: Dispatch, s: Stmt, ctx: Ctx, env: Env, first: i64, f: seq<Value>)
    requires s.For? && ctx.scopes != []
  {
    var inside := Declare(Open(ctx), s.name);
    SlotsOk(inside) && Setting(c, call, inside, env + [map[s.name := I64(first)]], f) && ctx.next + 2 < |f|
  }

  lemma {:induction false} SimFirst(c: Cfg, call: Dispatch, ops: seq<VmOp>, s: Stmt, ctx: Ctx, env: Env, st: State)
    returns (n: nat)
    requires s.For? && Ready(c, call, ctx, env, st) && ctx.next + 2 < |st.frame|
    requires CompileForHead(s, ctx, st.pc).Some? && CodeAt(ops, st.pc, CompileForHead(s, ctx, st.pc).value)
    ensures Stores(EvalExpr(c, s.start, env), ops, call, st, ExprLen(s.start) + 1, ctx.next, n)
    ensures var v := EvalExpr(c, s.start, env);
            v.Ok? && v.value.I64? ==>
              && Inside(c, call, s, ctx, env, v.value.n, st.frame[ctx.next := v.value])
              && Kept(ctx, st.frame, st.frame[ctx.next := v.value])
  {
    hide EvalExpr, CompileExpr, CompileForHead, ExprLen, Exec, CodeAt, Agree, Match, Kept, Named, SlotsOk, Stores;
    HeadCode(ops, s, ctx, st.pc);
    OpenOk(ctx);
    SlotsNamed(Open(ctx));
    MatchOpen(env, ctx.scopes, st.frame);
    n := SimBound(c, call, ops, s.start, Open(ctx), env + [map[]], st, ctx.next);
    EvalInner(c, s.start, env, map[]);
    var v := EvalExpr(c, s.start, env);
    if v.Ok? && v.value.I64? {
      DeclareOk(Open(ctx), s.name);
      SlotsNamed(Declare(Open(ctx), s.name));
      MatchDeclare(env + [map[]], Open(ctx), st.frame, s.name, v.value);
      assert Define(env + [map[]], s.name, v.value) == env + [map[s.name := v.value]];
      KeptOpen(ctx, st.frame, st.frame[ctx.next := v.value]);
    }
  }

  lemma {:induction false} SimLast(c: Cfg, call: Dispatch, ops: seq<VmOp>, s: Stmt, ctx: Ctx, env: Env, first: i64, pc: nat, st: State)
    returns (n: nat)
    requires s.For? && ctx.scopes != [] && Inside(c, call, s, ctx, env, first, st.frame) && st.stack == []
    requires !Mentions(s.end, s.name) && st.pc == pc + ExprLen(s.start) + 1
    requires CompileForHead(s, ctx, pc).Some? && CodeAt(ops, pc, CompileForHead(s, ctx, pc).value)
    ensures Stores(EvalExpr(c, s.end, env), ops, call, st, ExprLen(s.end) + 1, ctx.next + 1, n)
    ensures var v := EvalExpr(c, s.end, env);
            v.Ok? ==> Inside(c, call, s, ctx, env, first, st.frame[ctx.next + 1 := v.value])
  {
    hide EvalExpr, CompileExpr, CompileForHead, ExprLen, Exec, CodeAt, Agree, Match, Named, SlotsOk, Stores, Mentions;
    HeadCode(ops, s, ctx, pc);
    var inside, scope := Declare(Open(ctx), s.name), map[s.name := I64(first)];
    n := SimBound(c, call, ops, s.end, inside, env + [scope], st, ctx.next + 1);
    EvalInner(c, s.end, env, scope);
    var v := EvalExpr(c, s.end, env);
    if v.Ok? {
      MatchFresh(env + [scope], inside, st.frame, ctx.next + 1, v.value);
    }
  }

  lemma {:induction false} SimStride(c: Cfg, call: Dispatch, ops: seq<VmOp>, s: Stmt, ctx: Ctx, env: Env, first: i64, pc: nat, st: State)
    returns (n: nat)
    requires s.For? && ctx.scopes != [] && Inside(c, call, s, ctx, env, first, st.frame) && st.stack == []
    requires !(s.step.Some? && Mentions(s.step.value, s.name)) && st.pc == pc + ExprLen(s.start) + ExprLen(s.end) + 2
    requires CompileForHead(s, ctx, pc).Some? && CodeAt(ops, pc, CompileForHead(s, ctx, pc).value)
    ensures match EvalStep(c, s.step, env)
            case Ok(v) =>
              var f := st.frame[ctx.next + 2 := I64(v)];
              && Match(env + [map[s.name := I64(first)]], ForCtx(s, ctx).scopes, f)
              && Exec(ops, call, st, n) ==
                 if v == 0 then Fail(Error("L0411", "for loop step cannot be zero")) else Next(State(pc + ForHeadLen(s), [], f))
            case Err(e) => TypeFault(e) || Exec(ops, call, st, n) == Fail(e)
            case NoResult => Exec(ops, call, st, n) == Hung
  {
    hide EvalExpr, EvalStep, CompileExpr, CompileStep, CompileForHead, ExprLen, ForHeadLen, Exec, CodeAt, Agree, Match, Named, SlotsOk, Mentions;
    HeadCode(ops, s, ctx, pc);
    var inside, scope := Declare(Open(ctx), s.name), map[s.name := I64(first)];
    n := SimStep(c, call, ops, s, inside, env, scope, st, ctx.next + 2);
    var v := EvalStep(c, s.step, env);
    if v.Ok? {
      var f := st.frame[ctx.next + 2 := I64(v.value)];
      MatchFresh(env + [scope], inside, st.frame, ctx.next + 2, I64(v.value));
      DoCheckStep(ops, call, st, n, State(pc + ForHeadLen(s) - 1, [], f), ctx.next + 2, v.value);
      n := n + 1;
    }
  }

  lemma {:induction false} SimHead(c: Cfg, call: Dispatch, ops: seq<VmOp>, s: Stmt, ctx: Ctx, env: Env, st: State)
    returns (n: nat, f: seq<Value>)
    requires s.For? && Ready(c, call, ctx, env, st) && ctx.next + 2 < |st.frame|
    requires !Mentions(s.end, s.name) && !(s.step.Some? && Mentions(s.step.value, s.name))
    requires CompileForHead(s, ctx, st.pc).Some? && CodeAt(ops, st.pc, CompileForHead(s, ctx, st.pc).value)
    ensures HeadRan(EvalBounds(c, s.start, s.end, s.step, env), s, ops, call, ctx, env, st, n, f)
  {
    hide EvalExpr, EvalStep, CompileForHead, ExprLen, ForHeadLen, Exec, CodeAt, Match, Kept, SlotsOk, Mentions, Inside, Setting;
    f := st.frame;
    n := SimFirst(c, call, ops, s, ctx, env, st);
    var v := EvalExpr(c, s.start, env);
    if v.Ok? && v.value.I64? {
      var s1 := State(st.pc + ExprLen(s.start) + 1, [], st.frame[ctx.next := v.value]);
      var m := SimLast(c, call, ops, s, ctx, env, v.value.n, st.pc, s1);
      ExecThen(ops, call, st, n, s1, m);
      n := n + m;
      var w := EvalExpr(c, s.end, env);
      if w.Ok? && w.value.I64? {
        var s2 := State(s1.pc + ExprLen(s.end) + 1, [], s1.frame[ctx.next + 1 := w.value]);
        m := SimStride(c, call, ops, s, ctx, env, v.value.n, st.pc, s2);
        ExecThen(ops, call, st, n, s2, m);
        n := n + m;
        var d := EvalStep(c, s.step, env);
        if d.Ok? {
          f := s2.frame[ctx.next + 2 := I64(d.value)];
          KeptFresh(ctx, st.frame, s1.frame, f, ctx.next);
        }
      }
    }
  }

  lemma KeptFresh(ctx: Ctx, f: seq<Value>, f1: seq<Value>, f2: seq<Value>, slot: nat)
    requires Kept(ctx, f, f1) && ctx.next <= slot && |f2| == |f1| && forall j :: 0 <= j <= slot && j < |f1| ==> f2[j] == f1[j]
    ensures Kept(ctx, f, f2)
  {
  }

  /** A range-`for` in place: its loop test at `top`, everything after it up to `exit`. */
  ghost predicate ForLoaded(ops: seq<VmOp>, s: Stmt, ctx: Ctx, top: nat, frameSize: nat)
    requires s.For? && ctx.scopes != []
  {
    var exit := top + BlockLen(s.body, false) + 4;
    var inner := CompileScoped(s.body, false, ForCtx(s, ctx), top + 2, InLoop(exit, exit - 2));
    && exit <= |ops| && ops[top] == ForCheck(ctx.next, ctx.next + 1, ctx.next + 2) && ops[top + 1] == JumpIfFalse(exit)
    && inner.Some? && CodeAt(ops, top + 2, inner.value.ops) && inner.value.ctx.next <= frameSize
    && ops[exit - 2] == ForStep(ctx.next, ctx.next + 2) && ops[exit - 1] == Jump(top)
  }

  lemma ForShape(s: Stmt, tail: bool, ctx: Ctx, loop: Targets, pc: nat)
    requires s.For? && ctx.scopes != [] && CompileStmt(s, tail, ctx, pc, loop).Some?
    ensures StmtLen(s, tail) == ForHeadLen(s) + BlockLen(s.body, false) + 4 + |Tail(tail)|
    ensures CompileForHead(s, ctx, pc).Some?
    ensures var top := pc + ForHeadLen(s);
            var exit := top + BlockLen(s.body, false) + 4;
            var inner := CompileScoped(s.body, false, ForCtx(s, ctx), top + 2, InLoop(exit, exit - 2));
            && inner.Some?
            && CompileStmt(s, tail, ctx, pc, loop).value ==
               Code(CompileForHead(s, ctx, pc).value + [ForCheck(ctx.next, ctx.next + 1, ctx.next + 2)] + [JumpIfFalse(exit)] + inner.value.ops
                    + [ForStep(ctx.next, ctx.next + 2)] + [Jump(top)] + Tail(tail), Close(inner.value.ctx, |ctx.scopes|))
  {
    hide CompileForHead, CompileScoped, BlockLen, ForHeadLen;
  }

  lemma ForCode(ops: seq<VmOp>, s: Stmt, tail: bool, ctx: Ctx, loop: Targets, st: State)
    requires s.For? && ctx.scopes != [] && Loaded(ops, CompileStmt(s, tail, ctx, st.pc, loop), st)
    ensures CompileForHead(s, ctx, st.pc).Some? && CodeAt(ops, st.pc, CompileForHead(s, ctx, st.pc).value)
    ensures ForLoaded(ops, s, ctx, st.pc + ForHeadLen(s), |st.frame|)
    ensures var exit := st.pc + ForHeadLen(s) + BlockLen(s.body, false) + 4;
            CodeAt(ops, exit, Tail(tail)) && exit + |Tail(tail)| == st.pc + StmtLen(s, tail)
  {
    hide CodeAt, CompileForHead, CompileScoped, ForHeadLen, BlockLen, CompileStmt, StmtLen, ForCtx;
    ForShape(s, tail, ctx, loop, st.pc);
    var slot := ctx.next;
    var head := CompileForHead(s, ctx, st.pc).value;
    var top := st.pc + |head|;
    var exit := top + BlockLen(s.body, false) + 4;
    var inner := CompileScoped(s.body, false, ForCtx(s, ctx), top + 2, InLoop(exit, exit - 2)).value;
    SplitFor(ops, st.pc, head, ForCheck(slot, slot + 1, slot + 2), JumpIfFalse(exit), inner.ops, ForStep(slot, slot + 2), Jump(top), Tail(tail));
  }

  lemma SplitFor(ops: seq<VmOp>, pc: nat, head: seq<VmOp>, test: VmOp, branch: VmOp, body: seq<VmOp>, step: VmOp, jump: VmOp, rest: seq<VmOp>)
    requires CodeAt(ops, pc, head + [test] + [branch] + body + [step] + [jump] + rest)
    ensures CodeAt(ops, pc, head)
    ensures var p1 := pc + |head|;
            && p1 + 1 < |ops| && ops[p1] == test && ops[p1 + 1] == branch && CodeAt(ops, p1 + 2, body)
            && var p2 := p1 + 2 + |body|;
               p2 + 1 < |ops| && ops[p2] == step && ops[p2 + 1] == jump && CodeAt(ops, p2 + 2, rest)
  {
    hide CodeAt;
    SplitOp(ops, pc, head + [test] + [branch] + body + [step], jump, rest);
    SplitBranch(ops, pc, head + [test], branch, body, step, []) by {
      assert head + [test] + [branch] + body + [step] + [] == head + [test] + [branch] + body + [step];
    }
    CodeLast(ops, pc, head, test);
  }

  /** The loop test pushes whether another pass is due, and the jump takes it or leaves. */
  lemma DoTest(ops: seq<VmOp>, call: Dispatch, s: Stmt, ctx: Ctx, env: Env, st: State, current: i64, last: i64, stride: i64)
    requires s.For? && ctx.scopes != [] && st.stack == []
    requires ForLoaded(ops, s, ctx, st.pc, |st.frame|) && AtTop(s, ctx, env, last, stride, st.frame)
    requires st.frame[ctx.next] == I64(current)
    ensures var exit := st.pc + BlockLen(s.body, false) + 4;
            Exec(ops, call, st, 2) ==
            Next(State(if Eval.Running(current, last, stride) then st.pc + 2 else exit, [], st.frame))
  {
    hide Exec, CompileScoped, BlockLen, Match;
    var exit := st.pc + BlockLen(s.body, false) + 4;
    ExecZero(ops, call, st);
    AndStep(ops, call, st, 0, st);
    var go := Bool(Eval.Running(current, last, stride));
    assert st.stack[..0] + [go] == [] + [go];
    DoBranch(ops, call, st, 1, State(st.pc + 1, [] + [go], st.frame), [], go, false, exit);
  }

  /** The counter advances by the step, wrapping, and control returns to the test. */
  lemma DoAdvance(ops: seq<VmOp>, call: Dispatch, s0: State, n: nat, s1: State, slot: nat, top: nat, current: i64, stride: i64)
    requires Exec(ops, call, s0, n) == Next(s1) && s1.pc + 1 < |ops| && slot + 2 < |s1.frame|
    requires ops[s1.pc] == ForStep(slot, slot + 2) && ops[s1.pc + 1] == Jump(top)
    requires s1.frame[slot] == I64(current) && s1.frame[slot + 2] == I64(stride)
    ensures Exec(ops, call, s0, n + 2) == Next(State(top, s1.stack, s1.frame[slot := I64(Wrap(current + stride))]))
  {
    hide Exec;
    AndStep(ops, call, s0, n, s1);
    DoJump(ops, call, s0, n + 1, State(s1.pc + 1, s1.stack, s1.frame[slot := I64(Wrap(current + stride))]), top);
  }

  lemma KeptFor(s: Stmt, ctx: Ctx, f: seq<Value>, f': seq<Value>)
    requires s.For? && SlotsOk(ctx) && Kept(ForCtx(s, ctx), f, f') && ctx.next + 2 < |f|
    ensures Kept(ctx, f, f')
    ensures f'[ctx.next + 1] == f[ctx.next + 1] && f'[ctx.next + 2] == f[ctx.next + 2]
  {
    ForCtxOk(s, ctx);
    forall j | Owned(ForCtx(s, ctx).scopes, j) ensures j == ctx.next || Owned(ctx.scopes, j) {
      var k, x :| 0 <= k < |ForCtx(s, ctx).scopes| && x in ForCtx(s, ctx).scopes[k] && ForCtx(s, ctx).scopes[k][x] == j;
      if k < |ctx.scopes| { assert x in ctx.scopes[k]; }
    }
  }

  /** The body leaves the counter alone, so its slot still holds this pass's value. */
  lemma CounterKept(c: Cfg, s: Stmt, ctx: Ctx, env: Env, current: i64, fuel: nat, f: seq<Value>)
    requires s.For? && !c.moves && SlotsOk(ctx) && env != [] && !BlockAssigns(s.body, s.name)
    requires s.name in env[|env| - 1] && env[|env| - 1][s.name] == I64(current)
    requires Match(EvalScoped(c, s.body, env, fuel).env, ForCtx(s, ctx).scopes, f)
    ensures ctx.next < |f| && f[ctx.next] == I64(current)
  {
    var k := |env| - 1;
    ScopedKeeps(c, s.body, env, fuel, k, s.name);
    ForCtxOk(s, ctx);
    assert MatchScope(EvalScoped(c, s.body, env, fuel).env[k], ForCtx(s, ctx).scopes[k], f);
  }

  /** Give the counter its next value, in the scopes and in its slot. */
  lemma NextCounter(s: Stmt, ctx: Ctx, env: Env, f: seq<Value>, v: i64)
    requires s.For? && SlotsOk(ctx) && env != [] && Match(env, ForCtx(s, ctx).scopes, f)
    ensures ctx.next < |f| && Match(Define(env, s.name, I64(v)), ForCtx(s, ctx).scopes, f[ctx.next := I64(v)])
  {
    ForCtxOk(s, ctx);
    var scopes := ForCtx(s, ctx).scopes;
    var top := |env| - 1;
    assert MatchScope(env[top], scopes[top], f);
    NearestIs(scopes, s.name, top);
    MatchUpdate(env, ForCtx(s, ctx), f, s.name, I64(v));
    MatchLookup(env, scopes, f, s.name);
  }

  /** A loop that ends, seen from outside its variable's scope. */
  ghost predicate Passed(r: Run, ops: seq<VmOp>, call: Dispatch, st: State, exit: nat, ctx: Ctx, n: nat, f: seq<Value>)
    requires |r.env| >= |ctx.scopes|
  {
    Ran(Run(r.out, r.env[..|ctx.scopes|]), ops, call, st, exit, false, ctx, ctx.scopes, NoLoop, false, n, f)
  }

  lemma {:induction false} SimPasses(c: Cfg, call: Dispatch, ops: seq<VmOp>, s: Stmt, ctx: Ctx, env: Env, st: State,
                                     current: i64, last: i64, stride: i64, fuel: nat)
    returns (n: nat, f: seq<Value>)
    requires s.For? && Fits(s, false) && !c.moves && Agree(c.call, call) && SlotsOk(ctx) && ctx.scopes != [] && |env| == |ctx.scopes| + 1
    requires st.stack == [] && ForLoaded(ops, s, ctx, st.pc, |st.frame|)
    requires AtTop(s, ctx, Define(env, s.name, I64(current)), last, stride, st.frame)
    ensures Passed(EvalFor(c, s, current, last, stride, env, fuel), ops, call, st, st.pc + BlockLen(s.body, false) + 4, ctx, n, f)
    ensures EvalFor(c, s, current, last, stride, env, fuel).out.NoResult? ==> n >= fuel
    decreases fuel, s, 1, 0
  {
    hide EvalScoped, CompileScoped, BlockLen, Exec, CodeAt, Match, Kept, SlotsOk, Agree, Named, BlockFits, ForCtx, Eval.Running;
    var env1 := Define(env, s.name, I64(current));
    var exit := st.pc + BlockLen(s.body, false) + 4;
    ForCtxOk(s, ctx);
    TopCounter(s, ctx, env, st.frame, current);
    DoTest(ops, call, s, ctx, env1, st, current, last, stride);
    n, f := 2, st.frame;
    if !Eval.Running(current, last, stride) {
      OutOfFor(s, ctx, env1, f);
      assert env1[..|ctx.scopes|] == env[..|ctx.scopes|];
      KeptRefl(ctx, f);
    } else if fuel > 0 {
      var s1 := State(st.pc + 2, [], st.frame);
      SlotsNamed(ForCtx(s, ctx));
      var m, f1 := SimScoped(c, call, ops, s.body, false, ForCtx(s, ctx), InLoop(exit, exit - 2), env1, s1, fuel);
      var r := EvalScoped(c, s.body, env1, fuel);
      ExecThen(ops, call, st, 2, s1, m);
      n, f := 2 + m, f1;
      if r.out.Ok? && !r.out.value.Returned? {
        KeptFor(s, ctx, st.frame, f1);
        if r.out.value.Broke? {
          OutOfFor(s, ctx, r.env, f1);
        } else {
          n, f := SimNextPass(c, call, ops, s, ctx, env1, st, current, last, stride, fuel, n, f1);
        }
      }
    }
  }

  lemma TopCounter(s: Stmt, ctx: Ctx, env: Env, f: seq<Value>, current: i64)
    requires s.For? && SlotsOk(ctx) && env != [] && Match(Define(env, s.name, I64(current)), ForCtx(s, ctx).scopes, f)
    ensures ctx.next < |f| && f[ctx.next] == I64(current)
  {
    ForCtxOk(s, ctx);
    var k := |env| - 1;
    var scopes := ctx.scopes + [map[s.name := ctx.next]];
    assert MatchScope(Define(env, s.name, I64(current))[k], scopes[k], f);
    assert k == |ctx.scopes| && s.name in scopes[k];
  }

  lemma OutOfFor(s: Stmt, ctx: Ctx, env: Env, f: seq<Value>)
    requires s.For? && SlotsOk(ctx) && Match(env, ForCtx(s, ctx).scopes, f)
    ensures |env| == |ctx.scopes| + 1 && Match(env[..|ctx.scopes|], ctx.scopes, f)
  {
    ForCtxOk(s, ctx);
    MatchPop(env, ForCtx(s, ctx).scopes, f, |ctx.scopes|);
    assert (ctx.scopes + [map[s.name := ctx.next]])[..|ctx.scopes|] == ctx.scopes;
  }

  /** After a pass that reached the step: advance and go round again. */
  lemma {:induction false} SimNextPass(c: Cfg, call: Dispatch, ops: seq<VmOp>, s: Stmt, ctx: Ctx, env1: Env, st: State,
                                       current: i64, last: i64, stride: i64, fuel: nat, n: nat, f1: seq<Value>)
    returns (m: nat, f: seq<Value>)
    requires s.For? && Fits(s, false) && !c.moves && Agree(c.call, call) && SlotsOk(ctx) && ctx.scopes != [] && |env1| == |ctx.scopes| + 1
    requires fuel > 0 && st.stack == [] && ForLoaded(ops, s, ctx, st.pc, |st.frame|)
    requires s.name in env1[|env1| - 1] && env1[|env1| - 1][s.name] == I64(current)
    requires Match(EvalScoped(c, s.body, env1, fuel).env, ForCtx(s, ctx).scopes, f1)
    requires ctx.next + 2 < |st.frame| && Kept(ctx, st.frame, f1) && |f1| == |st.frame|
    requires f1[ctx.next + 1] == I64(last) && f1[ctx.next + 2] == I64(stride)
    requires Exec(ops, call, st, n) == Next(State(st.pc + BlockLen(s.body, false) + 2, [], f1))
    ensures Passed(EvalFor(c, s, Wrap(current + stride), last, stride, EvalScoped(c, s.body, env1, fuel).env, fuel - 1),
                   ops, call, st, st.pc + BlockLen(s.body, false) + 4, ctx, m, f)
    ensures EvalFor(c, s, Wrap(current + stride), last, stride, EvalScoped(c, s.body, env1, fuel).env, fuel - 1).out.NoResult? ==> m >= fuel
    decreases fuel, s, 0
  {
    hide EvalScoped, EvalFor, CompileScoped, BlockLen, Exec, CodeAt, Match, Kept, SlotsOk, Agree, Named, BlockFits, ForCtx;
    var exit := st.pc + BlockLen(s.body, false) + 4;
    var r := EvalScoped(c, s.body, env1, fuel);
    var next := Wrap(current + stride);
    CounterKept(c, s, ctx, env1, current, fuel, f1);
    DoAdvance(ops, call, st, n, State(exit - 2, [], f1), ctx.next, st.pc, current, stride);
    var f2 := f1[ctx.next := I64(next)];
    NextCounter(s, ctx, r.env, f1, next);
    var s2 := State(st.pc, [], f2);
    var k, g := SimPasses(c, call, ops, s, ctx, r.env, s2, next, last, stride, fuel - 1);
    KeptNext(ctx, st.frame, f1, I64(next));
    GrowsRefl(ctx);
    var out := EvalFor(c, s, next, last, stride, r.env, fuel - 1);
    RanThen(Run(out.out, out.env[..|ctx.scopes|]), ops, call, st, n + 2, s2, exit, false, ctx, ctx, ctx.scopes, NoLoop, k, g);
    m, f := n + 2 + k, g;
  }

  lemma KeptNext(ctx: Ctx, f: seq<Value>, f1: seq<Value>, v: Value)
    requires Kept(ctx, f, f1) && ctx.next < |f1|
    ensures Kept(ctx, f, f1[ctx.next := v])
  {
  }

  lemma {:induction false} SimFor(c: Cfg, call: Dispatch, ops: seq<VmOp>, s: Stmt, tail: bool, ctx: Ctx, loop: Targets,
                                  env: Env, st: State, fuel: nat)
    returns (n: nat, f: seq<Value>)
    requires s.For? && Fits(s, tail) && Ready(c, call, ctx, env, st)
    requires Loaded(ops, CompileStmt(s, tail, ctx, st.pc, loop), st)
    ensures Ran(EvalStmt(c, s, env, fuel), ops, call, st, st.pc + StmtLen(s, tail), tail,
                ctx, CompileStmt(s, tail, ctx, st.pc, loop).value.ctx.scopes, loop, false, n, f)
    ensures EvalStmt(c, s, env, fuel).out.NoResult? ==> n >= fuel
    decreases fuel, s, 2
  {
    hide EvalBounds, EvalFor, CompileStmt, CompileForHead, ForHeadLen, BlockLen, StmtLen, CodeAt, Match, Kept, Named, SlotsOk,
      Agree, Exec, ForLoaded, ForCtx, Mentions;
    ForCode(ops, s, tail, ctx, loop, st);
    StmtGrows(s, tail, ctx, st.pc, loop);
    ForRoom(ops, s, ctx, st.pc + ForHeadLen(s), |st.frame|);
    n, f := SimHead(c, call, ops, s, ctx, env, st);
    var bounds := EvalBounds(c, s.start, s.end, s.step, env);
    if bounds.Ok? {
      var (first, last, stride) := bounds.value;
      var env1 := env + [map[s.name := I64(first)]];
      var s1 := State(st.pc + ForHeadLen(s), [], f);
      DefineSame(env, s.name, I64(first));
      KeptLen(ctx, st.frame, f);
      ForYieldsVoid(c, s, first, last, stride, env1, fuel);
      assert |env| == |ctx.scopes| by { SettingMatch(c, call, ctx, env, st.frame); MatchDepth(env, ctx.scopes, st.frame); }
      var m, g := SimPasses(c, call, ops, s, ctx, env1, s1, first, last, stride, fuel);
      var r := EvalFor(c, s, first, last, stride, env1, fuel);
      var out := Run(r.out, r.env[..|env|]);
      var exit := st.pc + ForHeadLen(s) + BlockLen(s.body, false) + 4;
      GrowsRefl(ctx);
      RanThen(out, ops, call, st, n, s1, exit, false, ctx, ctx, ctx.scopes, NoLoop, m, g);
      n, f := n + m, g;
      n := RanTail(out, ops, call, st, exit, tail, ctx, NoLoop, loop, n, f);
    } else if bounds.NoResult? {
      n := StillHung(ops, call, st, n, fuel);
    }
  }

  lemma DefineSame(env: Env, x: string, v: Value)
    ensures Define(env + [map[x := v]], x, v) == env + [map[x := v]]
  {
    assert (env + [map[x := v]])[|env|][x := v] == map[x := v];
  }

  lemma KeptLen(ctx: Ctx, f: seq<Value>, f': seq<Value>)
    requires Kept(ctx, f, f')
    ensures |f'| == |f|
  {
  }

  lemma {:induction false} ForYieldsVoid(c: Cfg, s: Stmt, current: i64, end: i64, step: i64, env: Env, fuel: nat)
    requires s.For? && env != []
    ensures var r := EvalFor(c, s, current, end, step, env, fuel); r.out.Ok? && r.out.value.Normal? ==> r.out.value.v == Void
    decreases fuel
  {
    if Eval.Running(current, end, step) && fuel > 0 {
      var r := EvalScoped(c, s.body, Define(env, s.name, I64(current)), fuel);
      ForYieldsVoid(c, s, Wrap(current + step), end, step, r.env, fuel - 1);
    }
  }

  lemma MatchDepth(env: Env, scopes: Scopes<nat>, f: seq<Value>)
    requires Match(env, scopes, f)
    ensures |env| == |scopes|
  {
  }

  lemma ForRoom(ops: seq<VmOp>, s: Stmt, ctx: Ctx, top: nat, frameSize: nat)
    requires s.For? && SlotsOk(ctx) && ctx.scopes != [] && ForLoaded(ops, s, ctx, top, frameSize)
    ensures ctx.next + 2 < frameSize
  {
    hide CodeAt, SlotsOk, CompileScoped;
    ForCtxOk(s, ctx);
    var exit := top + BlockLen(s.body, false) + 4;
    ScopedGrows(s.body, false, ForCtx(s, ctx), top + 2, InLoop(exit, exit - 2));
    GrowsNext(ForCtx(s, ctx), CompileScoped(s.body, false, ForCtx(s, ctx), top + 2, InLoop(exit, exit - 2)).value.ctx);
  }

  /** A loop statement yields `Void`, and so does a region block in value position. */
  lemma RanTail(r: Run, ops: seq<VmOp>, call: Dispatch, st: State, exit: nat, tail: bool, ctx: Ctx, from: Targets, loop: Targets,
                n: nat, f: seq<Value>)
    returns (m: nat)
    requires Ran(r, ops, call, st, exit, false, ctx, ctx.scopes, from, false, n, f) && (from.NoLoop? || from == loop)
    requires r.out.Ok? && r.out.value.Normal? ==> r.out.value.v == Void
    requires CodeAt(ops, exit, Tail(tail))
    ensures Ran(r, ops, call, st, exit + |Tail(tail)|, tail, ctx, ctx.scopes, loop, false, m, f)
    ensures r.out.NoResult? ==> m >= n
  {
    hide Exec, Match, Kept, CodeAt;
    m := n;
    if r.out.Ok? && r.out.value.Normal? {
      m := DoTail(ops, call, st, n, exit, f, tail);
    }
  }
}

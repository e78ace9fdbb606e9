/** Forward simulation of statements and blocks. */
module VmSim {
  import opened Ir
  import opened Eval
  import opened Vm
  import opened VmExprs
  import opened VmStmts

  /** Slots that belong to no visible binding (loop bounds, shadowed names) keep their values. */
  ghost predicate Kept(ctx: Ctx, f: seq<Value>, f': seq<Value>) {
    |f'| == |f| && forall j :: 0 <= j < ctx.next && j < |f| && !Owned(ctx.scopes, j) ==> f'[j] == f[j]
  }

  lemma KeptTrans(a: Ctx, b: Ctx, f: seq<Value>, f1: seq<Value>, f2: seq<Value>)
    requires Grows(a, b) && Kept(a, f, f1) && Kept(b, f1, f2)
    ensures Kept(a, f, f2)
  {
    forall j | 0 <= j < a.next && Owned(b.scopes, j) ensures Owned(a.scopes, j) {
      var k, x :| 0 <= k < |b.scopes| && x in b.scopes[k] && b.scopes[k][x] == j;
      assert x in a.scopes[k] && a.scopes[k][x] == j;
    }
  }

  /** Frames match all scopes but the innermost: what remains known when a jump leaves it. */
  ghost predicate MatchOuter(env: Env, scopes: Scopes<nat>, f: seq<Value>) {
    |env| == |scopes| && env != [] && Match(env[..|env| - 1], scopes[..|env| - 1], f)
  }

  ghost predicate Left(env: Env, scopes: Scopes<nat>, f: seq<Value>, whole: bool) {
    if whole then Match(env, scopes, f) else MatchOuter(env, scopes, f)
  }

  /** Running from `st` does what `r` says: falls through to `goal`, returns, jumps to a loop
      target, fails, or is still running; `n` turns, ending with frame `f`. */
  ghost predicate Ran(r: Run, ops: seq<VmOp>, call: Dispatch, st: State, goal: nat, tail: bool,
                      before: Ctx, after: Scopes<nat>, loop: Targets, whole: bool, n: nat, f: seq<Value>)
  {
    match r.out
    case Ok(Normal(v)) =>
      && Exec(ops, call, st, n) == Next(State(goal, if tail then [v] else [], f))
      && Match(r.env, after, f) && Kept(before, st.frame, f)
    case Ok(Returned(v)) => Exec(ops, call, st, n) == Done(v)
    case Ok(Broke) =>
      && loop.InLoop? && Exec(ops, call, st, n) == Next(State(loop.brk, [], f))
      && Left(r.env, before.scopes, f, whole) && Kept(before, st.frame, f)
    case Ok(Continued) =>
      && loop.InLoop? && n > 0 && Exec(ops, call, st, n) == Next(State(loop.cont, [], f))
      && Left(r.env, before.scopes, f, whole) && Kept(before, st.frame, f)
    case Err(e) => TypeFault(e) || Exec(ops, call, st, n) == Fail(e)
    case NoResult => Unfinished(Exec(ops, call, st, n))
  }

  predicate Unfinished(o: Outcome) { !o.Done? && !o.Fail? }

  /** What hangs goes on hanging. */
  lemma {:induction false} StillHung(ops: seq<VmOp>, call: Dispatch, st: State, n: nat, k: nat) returns (m: nat)
    requires Exec(ops, call, st, n) == Hung
    ensures m >= k && Exec(ops, call, st, m) == Hung
  {
    m := n + k;
    HungStays(ops, call, st, n, k);
  }

  lemma {:induction false} HungStays(ops: seq<VmOp>, call: Dispatch, st: State, n: nat, k: nat)
    requires Exec(ops, call, st, n) == Hung
    ensures Exec(ops, call, st, n + k) == Hung
    decreases n
  {
    hide Step;
    if n > 0 {
      var o := Step(ops, call, st);
      if o.Next? { HungStays(ops, call, o.st, n - 1, k); }
    }
  }

  /** Prefix a run with one that leads to where it starts. */
  lemma RanThen(r: Run, ops: seq<VmOp>, call: Dispatch, s0: State, k: nat, s1: State, goal: nat, tail: bool,
                c0: Ctx, c1: Ctx, after: Scopes<nat>, loop: Targets, n: nat, f: seq<Value>)
    requires Exec(ops, call, s0, k) == Next(s1)
    requires Grows(c0, c1) && Kept(c0, s0.frame, s1.frame)
    requires Ran(r, ops, call, s1, goal, tail, c1, after, loop, false, n, f)
    ensures Ran(r, ops, call, s0, goal, tail, c0, after, loop, false, k + n, f)
  {
    hide Exec, Grows, Kept, Match;
    ExecThen(ops, call, s0, k, s1, n);
    if r.out.Ok? && !r.out.value.Returned? {
      KeptTrans(c0, c1, s0.frame, s1.frame, f);
      assert c0.scopes[..|c0.scopes| - 1] == c1.scopes[..|c1.scopes| - 1] by { GrowsOuter(c0, c1); }
    }
  }

  lemma GrowsOuter(a: Ctx, b: Ctx)
    requires Grows(a, b)
    ensures |a.scopes| == |b.scopes| && a.scopes != [] && a.scopes[..|a.scopes| - 1] == b.scopes[..|b.scopes| - 1]
  {
  }

  lemma WholeIsOuter(env: Env, scopes: Scopes<nat>, f: seq<Value>)
    requires Match(env, scopes, f) && env != []
    ensures MatchOuter(env, scopes, f)
  {
    var inner, outer := env[..|env| - 1], scopes[..|env| - 1];
    forall k | 0 <= k < |inner| ensures MatchScope(inner[k], outer[k], f) {
      assert MatchScope(env[k], scopes[k], f);
    }
  }

  /** The common setting. */
  ghost predicate Ready(c: Cfg, call: Dispatch, ctx: Ctx, env: Env, st: State) {
    !c.moves && ctx.scopes != [] && SlotsOk(ctx) && env != [] && st.stack == [] && Setting(c, call, ctx, env, st.frame)
  }

  // ---- Effects on frames ----

  lemma MatchDeclare(env: Env, ctx: Ctx, f: seq<Value>, x: string, v: Value)
    requires SlotsOk(ctx) && Match(env, ctx.scopes, f) && env != [] && ctx.next < |f|
    ensures Match(Define(env, x, v), Declare(ctx, x).scopes, f[ctx.next := v])
    ensures Kept(ctx, f, f[ctx.next := v])
  {
    hide SlotsOk;
    var env', scopes', f' := Define(env, x, v), Declare(ctx, x).scopes, f[ctx.next := v];
    SlotsBounded(ctx);
    forall k | 0 <= k < |env'| ensures MatchScope(env'[k], scopes'[k], f') {
      assert MatchScope(env[k], ctx.scopes[k], f);
    }
  }

  lemma SlotsBounded(ctx: Ctx)
    requires SlotsOk(ctx)
    ensures ctx.scopes != []
    ensures forall k, x :: 0 <= k < |ctx.scopes| && x in ctx.scopes[k] ==> ctx.scopes[k][x] < ctx.next
  {
  }

  lemma MatchUpdate(env: Env, ctx: Ctx, f: seq<Value>, x: string, v: Value)
    requires SlotsOk(ctx) && Match(env, ctx.scopes, f) && Lookup(ctx.scopes, x).Some?
    ensures Lookup(ctx.scopes, x).value < |f|
    ensures Nearest(env, x).Some?
    ensures Match(Update(env, x, v), ctx.scopes, f[Lookup(ctx.scopes, x).value := v])
    ensures Kept(ctx, f, f[Lookup(ctx.scopes, x).value := v])
  {
    hide SlotsOk, MatchScope;
    MatchLookup(env, ctx.scopes, f, x);
    var slot, owner := Lookup(ctx.scopes, x).value, Nearest(env, x).value;
    var env', f' := Update(env, x, v), f[slot := v];
    assert x in ctx.scopes[owner] && ctx.scopes[owner][x] == slot;
    forall k | 0 <= k < |env'| ensures MatchScope(env'[k], ctx.scopes[k], f') {
      assert MatchScope(env[k], ctx.scopes[k], f);
      OtherSlots(ctx, owner, x, k);
      ScopeUpdate(env[k], ctx.scopes[k], f, x, slot, v, k == owner);
    }
    assert Owned(ctx.scopes, slot);
  }

  lemma ScopeUpdate(scope: map<string, Value>, slots: map<string, nat>, f: seq<Value>, x: string, slot: nat, v: Value, owner: bool)
    requires MatchScope(scope, slots, f) && slot < |f|
    requires forall y :: y in slots && slots[y] == slot ==> owner && y == x
    requires owner ==> x in slots && slots[x] == slot
    ensures MatchScope(if owner then scope[x := v] else scope, slots, f[slot := v])
  {
  }

  lemma OtherSlots(ctx: Ctx, owner: nat, x: string, k: nat)
    requires SlotsOk(ctx) && owner < |ctx.scopes| && x in ctx.scopes[owner] && k < |ctx.scopes|
    ensures forall y :: y in ctx.scopes[k] && ctx.scopes[k][y] == ctx.scopes[owner][x] ==> k == owner && y == x
  {
  }

  lemma MatchOpen(env: Env, scopes: Scopes<nat>, f: seq<Value>)
    requires Match(env, scopes, f)
    ensures Match(env + [map[]], scopes + [map[]], f)
  {
    forall k | 0 <= k < |env| + 1 ensures MatchScope((env + [map[]])[k], (scopes + [map[]])[k], f) {
      if k < |env| { assert MatchScope(env[k], scopes[k], f); }
    }
  }

  lemma MatchPop(env: Env, scopes: Scopes<nat>, f: seq<Value>, depth: nat)
    requires Match(env, scopes, f) && depth <= |env|
    ensures Match(env[..depth], scopes[..depth], f)
  {
    forall k | 0 <= k < depth ensures MatchScope(env[..depth][k], scopes[..depth][k], f) {
      assert MatchScope(env[k], scopes[k], f);
    }
  }

  /** Push `Void` when the statement is in value position. */
  lemma DoTail(ops: seq<VmOp>, call: Dispatch, s0: State, n: nat, pc: nat, f: seq<Value>, tail: bool) returns (m: nat)
    requires Exec(ops, call, s0, n) == Next(State(pc, [], f))
    requires CodeAt(ops, pc, Tail(tail))
    ensures Exec(ops, call, s0, m) == Next(State(pc + |Tail(tail)|, if tail then [Void] else [], f))
  {
    hide Exec;
    m := n;
    if tail {
      CodeLast(ops, pc, [], PushVoid);
      DoPush(ops, call, s0, n, State(pc, [], f), Void);
      m := n + 1;
    }
  }

  /** The code is in place and the frame has room for all its slots. */
  ghost predicate Loaded(ops: seq<VmOp>, code: Option<Code>, st: State) {
    code.Some? && CodeAt(ops, st.pc, code.value.ops) && code.value.ctx.next <= |st.frame|
  }

  // ---- Simple statements ----

  lemma {:induction false} SimLet(c: Cfg, call: Dispatch, ops: seq<VmOp>, s: Stmt, tail: bool, ctx: Ctx, loop: Targets,
                                  env: Env, st: State, fuel: nat)
    returns (n: nat, f: seq<Value>)
    requires s.Let? && Ready(c, call, ctx, env, st)
    requires Loaded(ops, CompileStmt(s, tail, ctx, st.pc, loop), st)
    ensures Ran(EvalStmt(c, s, env, fuel), ops, call, st, st.pc + StmtLen(s, tail), tail,
                ctx, CompileStmt(s, tail, ctx, st.pc, loop).value.ctx.scopes, loop, false, n, f)
    ensures EvalStmt(c, s, env, fuel).out.NoResult? ==> n >= fuel
  {
    hide CompileExpr, CompileStmt, EvalExpr, EvalStmt, StmtLen, Exec, CodeAt, Step, SlotsOk, Match, Kept, Setting;
    LetCode(ops, s, tail, ctx, st, loop);
    LetMeaning(c, s, env, fuel);
    SettingMatch(c, call, ctx, env, st.frame);
    var len := ExprLen(s.value);
    var v := EvalExpr(c, s.value, env);
    f := st.frame;
    n := SimExpr(c, call, ops, s.value, ctx, env, st);
    if v.Ok? {
      DoStore(ops, call, st, n, State(st.pc + len, [] + [v.value], st.frame), [], v.value, ctx.next);
      f := st.frame[ctx.next := v.value];
      n := DoTail(ops, call, st, n + 1, st.pc + len + 1, f, tail);
      MatchDeclare(env, ctx, st.frame, s.name, v.value);
    } else if v.NoResult? {
      n := StillHung(ops, call, st, n, fuel);
    }
  }

  lemma LetCode(ops: seq<VmOp>, s: Stmt, tail: bool, ctx: Ctx, st: State, loop: Targets)
    requires s.Let? && ctx.scopes != []
    requires Loaded(ops, CompileStmt(s, tail, ctx, st.pc, loop), st)
    ensures CompileExpr(s.value, ctx, st.pc).Some? && CodeAt(ops, st.pc, CompileExpr(s.value, ctx, st.pc).value)
    ensures var pc := st.pc + ExprLen(s.value);
            pc < |ops| && ops[pc] == StoreLocal(ctx.next) && CodeAt(ops, pc + 1, Tail(tail))
    ensures StmtLen(s, tail) == ExprLen(s.value) + 1 + |Tail(tail)| && ctx.next < |st.frame|
    ensures CompileStmt(s, tail, ctx, st.pc, loop).value.ctx == Declare(ctx, s.name)
  {
    hide CodeAt;
    var value := CompileExpr(s.value, ctx, st.pc).value;
    SplitOp(ops, st.pc, value, StoreLocal(ctx.next), Tail(tail));
  }

  lemma LetMeaning(c: Cfg, s: Stmt, env: Env, fuel: nat)
    requires s.Let? && env != [] && !c.moves
    ensures var v, r := EvalExpr(c, s.value, env), EvalStmt(c, s, env, fuel);
            && (v.Ok? ==> r == Run(Ok(Normal(Void)), Define(env, s.name, v.value)))
            && (v.Err? ==> r.out == Err(v.error)) && (v.NoResult? ==> r.out == NoResult)
  {
  }

  lemma {:induction false} SimReplace(c: Cfg, call: Dispatch, ops: seq<VmOp>, s: Stmt, tail: bool, ctx: Ctx, loop: Targets,
                                      env: Env, st: State, fuel: nat)
    returns (n: nat, f: seq<Value>)
    requires s.Assign? && s.op == Replace && Ready(c, call, ctx, env, st)
    requires Loaded(ops, CompileStmt(s, tail, ctx, st.pc, loop), st)
    ensures Ran(EvalStmt(c, s, env, fuel), ops, call, st, st.pc + StmtLen(s, tail), tail,
                ctx, CompileStmt(s, tail, ctx, st.pc, loop).value.ctx.scopes, loop, false, n, f)
    ensures EvalStmt(c, s, env, fuel).out.NoResult? ==> n >= fuel
  {
    hide CompileExpr, CompileStmt, EvalExpr, EvalStmt, StmtLen, Exec, CodeAt, Step, SlotsOk, Match, Kept, Setting;
    ReplaceCode(ops, s, tail, ctx, st, loop);
    var slot, len := Lookup(ctx.scopes, s.name).value, ExprLen(s.value);
    var v := EvalExpr(c, s.value, env);
    f := st.frame;
    ReplaceMeaning(c, s, env, fuel);
    n := SimExpr(c, call, ops, s.value, ctx, env, st);
    if v.Ok? {
      UpdateReady(c, call, ctx, env, st.frame, s.name, v.value);
      DoStore(ops, call, st, n, State(st.pc + len, [] + [v.value], st.frame), [], v.value, slot);
      f := st.frame[slot := v.value];
      n := DoTail(ops, call, st, n + 1, st.pc + len + 1, f, tail);
    } else if v.NoResult? {
      n := StillHung(ops, call, st, n, fuel);
    }
  }

  lemma ReplaceCode(ops: seq<VmOp>, s: Stmt, tail: bool, ctx: Ctx, st: State, loop: Targets)
    requires s.Assign? && s.op == Replace && ctx.scopes != []
    requires Loaded(ops, CompileStmt(s, tail, ctx, st.pc, loop), st)
    ensures Lookup(ctx.scopes, s.name).Some? && CompileExpr(s.value, ctx, st.pc).Some?
    ensures CodeAt(ops, st.pc, CompileExpr(s.value, ctx, st.pc).value)
    ensures var pc := st.pc + ExprLen(s.value);
            pc < |ops| && ops[pc] == StoreLocal(Lookup(ctx.scopes, s.name).value) && CodeAt(ops, pc + 1, Tail(tail))
    ensures StmtLen(s, tail) == ExprLen(s.value) + 1 + |Tail(tail)|
    ensures CompileStmt(s, tail, ctx, st.pc, loop).value.ctx == ctx
  {
    hide CodeAt;
    var slot := Lookup(ctx.scopes, s.name).value;
    var value := CompileExpr(s.value, ctx, st.pc).value;
    SplitOp(ops, st.pc, value, StoreLocal(slot), Tail(tail));
  }

  lemma ReplaceMeaning(c: Cfg, s: Stmt, env: Env, fuel: nat)
    requires s.Assign? && s.op == Replace && env != [] && !c.moves
    ensures var v, r := EvalExpr(c, s.value, env), EvalStmt(c, s, env, fuel);
            && (v.Ok? && Nearest(env, s.name).Some? ==> r == Run(Ok(Normal(Void)), Update(env, s.name, v.value)))
            && (v.Err? ==> r.out == Err(v.error)) && (v.NoResult? ==> r.out == NoResult)
  {
  }

  lemma UpdateReady(c: Cfg, call: Dispatch, ctx: Ctx, env: Env, f: seq<Value>, x: string, v: Value)
    requires SlotsOk(ctx) && Setting(c, call, ctx, env, f) && Lookup(ctx.scopes, x).Some?
    ensures Lookup(ctx.scopes, x).value < |f| && Nearest(env, x).Some?
    ensures Lookup(env, x) == Some(f[Lookup(ctx.scopes, x).value])
    ensures Match(Update(env, x, v), ctx.scopes, f[Lookup(ctx.scopes, x).value := v])
    ensures Kept(ctx, f, f[Lookup(ctx.scopes, x).value := v])
  {
    MatchLookup(env, ctx.scopes, f, x);
    MatchUpdate(env, ctx, f, x, v);
  }

  /** Where a compound assignment settles, the binary operator computes the same. */
  lemma CompoundIsBinary(current: Value, op: AssignOp, rhs: Value)
    requires op != Replace
    ensures !ApplyCompound(current, op, rhs).NoResult?
    ensures Settled(ApplyCompound(current, op, rhs)) ==> EvalBinary(current, AssignBinop(op), rhs) == ApplyCompound(current, op, rhs)
  {
  }

  lemma DoBinary(ops: seq<VmOp>, call: Dispatch, s0: State, n: nat, s1: State, l: Value, r: Value, op: BinaryOp)
    requires Exec(ops, call, s0, n) == Next(s1) && s1.stack == [l, r]
    requires s1.pc < |ops| && ops[s1.pc] == VmOp.Binary(op) && op != And && op != Or
    ensures EvalBinary(l, op, r).Ok? ==>
              Exec(ops, call, s0, n + 1) == Next(State(s1.pc + 1, [] + [EvalBinary(l, op, r).value], s1.frame))
    ensures EvalBinary(l, op, r).Err? ==> Exec(ops, call, s0, n + 1) == Fail(EvalBinary(l, op, r).error)
  {
    AndStep(ops, call, s0, n, s1);
    assert s1.stack[..0] == [];
  }

  lemma {:induction false} SimCompound(c: Cfg, call: Dispatch, ops: seq<VmOp>, s: Stmt, tail: bool, ctx: Ctx, loop: Targets,
                                       env: Env, st: State, fuel: nat)
    returns (n: nat, f: seq<Value>)
    requires s.Assign? && s.op != Replace && Ready(c, call, ctx, env, st)
    requires Loaded(ops, CompileStmt(s, tail, ctx, st.pc, loop), st)
    ensures Ran(EvalStmt(c, s, env, fuel), ops, call, st, st.pc + StmtLen(s, tail), tail,
                ctx, CompileStmt(s, tail, ctx, st.pc, loop).value.ctx.scopes, loop, false, n, f)
    ensures EvalStmt(c, s, env, fuel).out.NoResult? ==> n >= fuel
  {
    hide CompileExpr, CompileStmt, EvalExpr, EvalStmt, StmtLen, ExprLen, Exec, CodeAt, Step, SlotsOk, Match, Kept, Setting,
      EvalBinary, ApplyCompound;
    CompoundCode(ops, s, tail, ctx, st, loop);
    var slot, len := Lookup(ctx.scopes, s.name).value, ExprLen(s.value);
    var v := EvalExpr(c, s.value, env);
    f := st.frame;
    UpdateReady(c, call, ctx, env, st.frame, s.name, Void);
    CompoundMeaning(c, s, env, fuel);
    var current := st.frame[slot];
    DoLoad(ops, call, st, slot);
    var s1 := State(st.pc + 1, [current], st.frame);
    var m := SimExpr(c, call, ops, s.value, ctx, env, s1);
    ExecThen(ops, call, st, 1, s1, m);
    n := 1 + m;
    if v.Ok? {
      var s2 := State(st.pc + 1 + len, [current] + [v.value], st.frame);
      n, f := FinishCompound(c, call, ops, s, tail, ctx, loop, env, st, s2, fuel, n, v.value);
    } else if v.NoResult? {
      n := StillHung(ops, call, st, n, fuel);
    }
  }

  /** From both operands of a compound assignment on the stack. */
  lemma FinishCompound(c: Cfg, call: Dispatch, ops: seq<VmOp>, s: Stmt, tail: bool, ctx: Ctx, loop: Targets,
                       env: Env, st: State, s2: State, fuel: nat, k: nat, v: Value)
    returns (n: nat, f: seq<Value>)
    requires s.Assign? && s.op != Replace && Ready(c, call, ctx, env, st) && Lookup(ctx.scopes, s.name).Some?
    requires Lookup(ctx.scopes, s.name).value < |st.frame| && s2.frame == st.frame && Exec(ops, call, st, k) == Next(s2)
    requires s2.stack == [st.frame[Lookup(ctx.scopes, s.name).value]] + [v]
    requires s2.pc + 1 < |ops| && ops[s2.pc] == VmOp.Binary(AssignBinop(s.op)) && CodeAt(ops, s2.pc + 2, Tail(tail))
    requires ops[s2.pc + 1] == StoreLocal(Lookup(ctx.scopes, s.name).value) && EvalExpr(c, s.value, env) == Ok(v)
    ensures Ran(EvalStmt(c, s, env, fuel), ops, call, st, s2.pc + 2 + |Tail(tail)|, tail, ctx, ctx.scopes, loop, false, n, f)
    ensures !EvalStmt(c, s, env, fuel).out.NoResult?
  {
    hide EvalExpr, EvalStmt, Exec, CodeAt, Step, SlotsOk, Match, Kept, Setting, EvalBinary, ApplyCompound;
    var slot := Lookup(ctx.scopes, s.name).value;
    var current, op := st.frame[slot], AssignBinop(s.op);
    var w := ApplyCompound(current, s.op, v);
    f := st.frame;
    UpdateReady(c, call, ctx, env, st.frame, s.name, Void);
    CompoundMeaning(c, s, env, fuel);
    DoBinary(ops, call, st, k, s2, current, v, op);
    n := k + 1;
    CompoundIsBinary(current, s.op, v);
    if Settled(w) {
      if w.Ok? {
        UpdateReady(c, call, ctx, env, st.frame, s.name, w.value);
        DoStore(ops, call, st, n, State(s2.pc + 1, [] + [w.value], st.frame), [], w.value, slot);
        f := st.frame[slot := w.value];
        n := DoTail(ops, call, st, n + 1, s2.pc + 2, f, tail);
      }
    }
  }

  lemma CompoundMeaning(c: Cfg, s: Stmt, env: Env, fuel: nat)
    requires s.Assign? && s.op != Replace && env != [] && !c.moves && Nearest(env, s.name).Some?
    ensures var v, r := EvalExpr(c, s.value, env), EvalStmt(c, s, env, fuel);
            && (v.Ok? ==>
                  var w := ApplyCompound(Lookup(env, s.name).value, s.op, v.value);
                  && (w.Ok? ==> r == Run(Ok(Normal(Void)), Update(env, s.name, w.value)))
                  && (w.Err? ==> r.out == Err(w.error)) && (w.NoResult? ==> r.out == NoResult))
            && (v.Err? ==> r.out == Err(v.error)) && (v.NoResult? ==> r.out == NoResult)
  {
  }

  lemma CompoundCode(ops: seq<VmOp>, s: Stmt, tail: bool, ctx: Ctx, st: State, loop: Targets)
    requires s.Assign? && s.op != Replace && ctx.scopes != []
    requires Loaded(ops, CompileStmt(s, tail, ctx, st.pc, loop), st)
    ensures Lookup(ctx.scopes, s.name).Some? && CompileExpr(s.value, ctx, st.pc + 1).Some?
    ensures CodeAt(ops, st.pc + 1, CompileExpr(s.value, ctx, st.pc + 1).value)
    ensures var slot, pc := Lookup(ctx.scopes, s.name).value, st.pc + 1 + ExprLen(s.value);
            && pc + 1 < |ops| && ops[st.pc] == LoadLocal(slot) && ops[pc] == VmOp.Binary(AssignBinop(s.op))
            && ops[pc + 1] == StoreLocal(slot) && CodeAt(ops, pc + 2, Tail(tail))
    ensures StmtLen(s, tail) == ExprLen(s.value) + 3 + |Tail(tail)|
    ensures CompileStmt(s, tail, ctx, st.pc, loop).value.ctx == ctx
  {
    hide CodeAt;
    var slot, op := Lookup(ctx.scopes, s.name).value, AssignBinop(s.op);
    var value := CompileExpr(s.value, ctx, st.pc + 1).value;
    SplitOp(ops, st.pc, [LoadLocal(slot)] + value + [VmOp.Binary(op)], StoreLocal(slot), Tail(tail));
    CodeLast(ops, st.pc, [LoadLocal(slot)] + value, VmOp.Binary(op));
    CodeSplit(ops, st.pc, [LoadLocal(slot)], value);
    CodeOne(ops, st.pc, LoadLocal(slot));
  }

  lemma DoLoad(ops: seq<VmOp>, call: Dispatch, st: State, slot: nat)
    requires st.pc < |ops| && ops[st.pc] == LoadLocal(slot) && slot < |st.frame|
    ensures st.stack == [] ==> Exec(ops, call, st, 1) == Next(State(st.pc + 1, [st.frame[slot]], st.frame))
  {
    AndStep(ops, call, st, 0, st);
  }

  lemma {:induction false} SimExit(c: Cfg, call: Dispatch, ops: seq<VmOp>, s: Stmt, tail: bool, ctx: Ctx, loop: Targets,
                                     env: Env, st: State, fuel: nat)
    returns (n: nat, f: seq<Value>)
    requires (s.Break? || s.Continue?) && Ready(c, call, ctx, env, st)
    requires Loaded(ops, CompileStmt(s, tail, ctx, st.pc, loop), st)
    ensures Ran(EvalStmt(c, s, env, fuel), ops, call, st, st.pc + StmtLen(s, tail), tail,
                ctx, CompileStmt(s, tail, ctx, st.pc, loop).value.ctx.scopes, loop, false, n, f)
    ensures EvalStmt(c, s, env, fuel).out.NoResult? ==> n >= fuel
  {
    hide Exec, CodeAt, Step, SlotsOk, Match, Setting, CompileStmt, StmtLen, EvalStmt;
    f := st.frame;
    n := 1;
    ExitShape(c, s, tail, ctx, st.pc, loop, env, fuel);
    ExecZero(ops, call, st);
    SettingMatch(c, call, ctx, env, f);
    WholeIsOuter(env, ctx.scopes, f);
    KeptRefl(ctx, f);
    var target := if s.Break? then loop.brk else loop.cont;
    CodeOne(ops, st.pc, Jump(target));
    DoJump(ops, call, st, 0, st, target);
  }

  lemma ExitShape(c: Cfg, s: Stmt, tail: bool, ctx: Ctx, pc: nat, loop: Targets, env: Env, fuel: nat)
    requires (s.Break? || s.Continue?) && ctx.scopes != [] && env != [] && CompileStmt(s, tail, ctx, pc, loop).Some?
    ensures loop.InLoop?
    ensures CompileStmt(s, tail, ctx, pc, loop) == Some(Code([Jump(if s.Break? then loop.brk else loop.cont)], ctx))
    ensures EvalStmt(c, s, env, fuel) == Run(Ok(if s.Break? then Broke else Continued), env)
  {
  }

  lemma SettingMatch(c: Cfg, call: Dispatch, ctx: Ctx, env: Env, f: seq<Value>)
    requires Setting(c, call, ctx, env, f)
    ensures Match(env, ctx.scopes, f)
  {
  }

  lemma {:induction false} SimReturn(c: Cfg, call: Dispatch, ops: seq<VmOp>, s: Stmt, tail: bool, ctx: Ctx, loop: Targets,
                                     env: Env, st: State, fuel: nat)
    returns (n: nat, f: seq<Value>)
    requires s.Return? && Ready(c, call, ctx, env, st)
    requires Loaded(ops, CompileStmt(s, tail, ctx, st.pc, loop), st)
    ensures Ran(EvalStmt(c, s, env, fuel), ops, call, st, st.pc + StmtLen(s, tail), tail,
                ctx, CompileStmt(s, tail, ctx, st.pc, loop).value.ctx.scopes, loop, false, n, f)
    ensures EvalStmt(c, s, env, fuel).out.NoResult? ==> n >= fuel
  {
    hide CompileExpr, CompileStmt, EvalExpr, EvalStmt, StmtLen, ExprLen, Exec, CodeAt, SlotsOk, Match, Setting, Kept;
    f := st.frame;
    ReturnCode(ops, s, tail, ctx, st, loop);
    ReturnMeaning(c, s, env, fuel);
    if s.result.None? {
      ExecZero(ops, call, st);
      DoPush(ops, call, st, 0, st, Void);
      DoReturn(ops, call, st, 1, State(st.pc + 1, [] + [Void], f));
      n := 2;
    } else {
      n := SimExpr(c, call, ops, s.result.value, ctx, env, st);
      var v := EvalExpr(c, s.result.value, env);
      if v.Ok? {
        DoReturn(ops, call, st, n, State(st.pc + ExprLen(s.result.value), [] + [v.value], f));
        n := n + 1;
      } else if v.NoResult? {
        n := StillHung(ops, call, st, n, fuel);
      }
    }
  }

  lemma DoReturn(ops: seq<VmOp>, call: Dispatch, s0: State, n: nat, s1: State)
    requires Exec(ops, call, s0, n) == Next(s1) && s1.pc < |ops| && ops[s1.pc] == VmOp.Return && s1.stack != []
    ensures Exec(ops, call, s0, n + 1) == Done(s1.stack[|s1.stack| - 1])
  {
    hide Exec;
    AndStep(ops, call, s0, n, s1);
  }

  lemma ReturnCode(ops: seq<VmOp>, s: Stmt, tail: bool, ctx: Ctx, st: State, loop: Targets)
    requires s.Return? && ctx.scopes != [] && Loaded(ops, CompileStmt(s, tail, ctx, st.pc, loop), st)
    ensures s.result.None? ==> st.pc + 1 < |ops| && ops[st.pc] == PushVoid && ops[st.pc + 1] == VmOp.Return
    ensures s.result.Some? ==>
              var value := CompileExpr(s.result.value, ctx, st.pc);
              && value.Some? && CodeAt(ops, st.pc, value.value)
              && var p := st.pc + ExprLen(s.result.value); p < |ops| && ops[p] == VmOp.Return
  {
    hide CodeAt;
    if s.result.None? {
      CodeLast(ops, st.pc, [PushVoid], VmOp.Return);
      CodeOne(ops, st.pc, PushVoid);
    } else {
      CodeLast(ops, st.pc, CompileExpr(s.result.value, ctx, st.pc).value, VmOp.Return);
    }
  }

  lemma ReturnMeaning(c: Cfg, s: Stmt, env: Env, fuel: nat)
    requires s.Return? && env != []
    ensures var v, r := (if s.result.Some? then EvalExpr(c, s.result.value, env) else Ok(Void)), EvalStmt(c, s, env, fuel);
            && (v.Ok? ==> r.out == Ok(Returned(v.value))) && (v.Err? ==> r.out == Err(v.error)) && (v.NoResult? ==> r.out == NoResult)
  {
  }

  lemma {:induction false} SimExprStmt(c: Cfg, call: Dispatch, ops: seq<VmOp>, s: Stmt, tail: bool, ctx: Ctx, loop: Targets,
                                     env: Env, st: State, fuel: nat)
    returns (n: nat, f: seq<Value>)
    requires s.ExprStmt? && Ready(c, call, ctx, env, st)
    requires Loaded(ops, CompileStmt(s, tail, ctx, st.pc, loop), st)
    ensures Ran(EvalStmt(c, s, env, fuel), ops, call, st, st.pc + StmtLen(s, tail), tail,
                ctx, CompileStmt(s, tail, ctx, st.pc, loop).value.ctx.scopes, loop, false, n, f)
    ensures EvalStmt(c, s, env, fuel).out.NoResult? ==> n >= fuel
  {
    hide CompileExpr, CompileStmt, EvalExpr, EvalStmt, StmtLen, ExprLen, Exec, CodeAt, SlotsOk, Match, Setting, Kept;
    f := st.frame;
    ExprStmtCode(ops, s, tail, ctx, st, loop);
    ExprStmtMeaning(c, s, env, fuel);
    SettingMatch(c, call, ctx, env, f);
    KeptRefl(ctx, f);
    n := SimExpr(c, call, ops, s.value, ctx, env, st);
    var v := EvalExpr(c, s.value, env);
    if v.Ok? && !tail {
      DoPop(ops, call, st, n, State(st.pc + ExprLen(s.value), [] + [v.value], f), v.value);
      n := n + 1;
    } else if v.NoResult? {
      n := StillHung(ops, call, st, n, fuel);
    }
  }

  lemma KeptRefl(ctx: Ctx, f: seq<Value>)
    ensures Kept(ctx, f, f)
  {
  }

  lemma DoPop(ops: seq<VmOp>, call: Dispatch, s0: State, n: nat, s1: State, v: Value)
    requires Exec(ops, call, s0, n) == Next(s1) && s1.pc < |ops| && ops[s1.pc] == Pop && s1.stack == [] + [v]
    ensures Exec(ops, call, s0, n + 1) == Next(State(s1.pc + 1, [], s1.frame))
  {
    hide Exec;
    AndStep(ops, call, s0, n, s1);
  }

  lemma ExprStmtCode(ops: seq<VmOp>, s: Stmt, tail: bool, ctx: Ctx, st: State, loop: Targets)
    requires s.ExprStmt? && ctx.scopes != [] && Loaded(ops, CompileStmt(s, tail, ctx, st.pc, loop), st)
    ensures var value := CompileExpr(s.value, ctx, st.pc); value.Some? && CodeAt(ops, st.pc, value.value)
    ensures !tail ==> var p := st.pc + ExprLen(s.value); p < |ops| && ops[p] == Pop
    ensures StmtLen(s, tail) == ExprLen(s.value) + (if tail then 0 else 1)
    ensures CompileStmt(s, tail, ctx, st.pc, loop).value.ctx == ctx
  {
    hide CodeAt;
    var value := CompileExpr(s.value, ctx, st.pc).value;
    if tail { assert value + [] == value; } else { CodeLast(ops, st.pc, value, Pop); }
  }

  lemma ExprStmtMeaning(c: Cfg, s: Stmt, env: Env, fuel: nat)
    requires s.ExprStmt? && env != []
    ensures var v, r := EvalExpr(c, s.value, env), EvalStmt(c, s, env, fuel);
            && (v.Ok? ==> r == Run(Ok(Normal(v.value)), env)) && (v.Err? ==> r.out == Err(v.error)) && (v.NoResult? ==> r.out == NoResult)
  {
  }
}

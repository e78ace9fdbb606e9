/** Forward simulation of branches, loops and blocks. */
module A64SimFlow {
  import opened Words
  import opened Ir
  import opened Eval
  import opened A64Isa
  import opened A64Machine
  import opened A64Idioms
  import opened A64Gen
  import opened A64Typing
  import opened A64Exprs
  import opened A64SimExpr
  import opened A64Frame
  import opened A64SimSimple
  import opened A64Loops

  predicate LowerableBlock(w: World, body: seq<Stmt>, ex: Exits) { LowersBlock(w.g.slots.Keys, w.callable, body, ex.InLoop?) }

  ghost predicate BlockReady(w: World, ret: Ty, body: seq<Stmt>, env: Env, ts: Types, c: Cpu, ex: Exits, fuel: nat) {
    && Standing(w, env, ts, c) && BlockTyped(w.sigs, ret, ts, body) && LowerableBlock(w, body, ex) && BlockAt(w, body, ex, c)
    && EvalBlock(w.cfg, body, env, fuel).out.Ok?
  }

  ghost predicate BlockDone(w: World, ret: Ty, body: seq<Stmt>, r: Run, ts: Types, c: Cpu, ex: Exits, n: nat, d: Cpu)
    requires ts != []
  {
    && Does(w, ret, r, c, c.pc + BlockLen(w.g, body), ex, WritesBlock(body), BlockGives(w.sigs, ret, ts, body), n, d)
    && EnvOuter(w, r, ts, d)
  }

  /** A body in its own scope. */
  ghost predicate ScopedReady(w: World, ret: Ty, body: seq<Stmt>, env: Env, ts: Types, c: Cpu, ex: Exits, fuel: nat) {
    && Standing(w, env, ts, c) && BlockTyped(w.sigs, ret, ts + [map[]], body) && LowerableBlock(w, body, ex) && BlockAt(w, body, ex, c)
    && EvalScoped(w.cfg, body, env, fuel).out.Ok?
  }

  ghost predicate ScopedDone(w: World, ret: Ty, body: seq<Stmt>, r: Run, ts: Types, c: Cpu, ex: Exits, n: nat, d: Cpu) {
    && Does(w, ret, r, c, c.pc + BlockLen(w.g, body), ex, WritesBlock(body), BlockGives(w.sigs, ret, ts + [map[]], body), n, d)
    && EnvAfter(w, r, ts, ts, d)
  }

  // ---- Leaving and widening ----

  /** An outcome that leaves the statement list does not depend on where the list ends. */
  lemma DoesAbrupt(w: World, ret: Ty, r: Run, c: Cpu, goal: int, goal': int, ex: Exits, ws: set<string>, us: set<string>,
                   gives: bool, gives': bool, n: nat, d: Cpu)
    requires Does(w, ret, r, c, goal, ex, ws, gives, n, d) && ws <= us && !r.out.value.Normal?
    ensures Does(w, ret, r, c, goal', ex, us, gives', n, d)
  {
    hide Exec, HasType, Word, Above, Load;
  }

  lemma DoesEnv(w: World, ret: Ty, r: Run, env: Env, c: Cpu, goal: int, ex: Exits, ws: set<string>, gives: bool, n: nat, d: Cpu)
    requires Does(w, ret, r, c, goal, ex, ws, gives, n, d)
    ensures Does(w, ret, Run(r.out, env), c, goal, ex, ws, gives, n, d)
  {
    hide Exec, HasType, Word, Above, Load;
  }

  // ---- Statements ----

  lemma {:induction false} SimStmt(w: World, ret: Ty, s: Stmt, env: Env, ts: Types, c: Cpu, ex: Exits, fuel: nat) returns (n: nat, d: Cpu)
    requires StmtReady(w, ret, s, env, ts, c, ex, fuel)
    ensures ts != [] && StmtDone(w, ret, s, EvalStmt(w.cfg, s, env, fuel), ts, c, ex, n, d)
    decreases fuel, s, 2
  {
    hide StmtReady, StmtDone, EvalStmt, Standing;
    StmtSort(w, ret, s, env, ts, c, ex, fuel);
    match s
    case Let(x, e) => n, d := SimLet(w, ret, x, e, env, ts, c, ex, fuel);
    case Assign(_, op, _) =>
      if op == Replace {
        n, d := SimAssign(w, ret, s, env, ts, c, ex, fuel);
      } else {
        n, d := SimCompound(w, ret, s, env, ts, c, ex, fuel);
      }
    case Return(e) => n, d := SimReturn(w, ret, e.value, env, ts, c, ex, fuel);
    case ExprStmt(e) => n, d := SimExprStmt(w, ret, e, env, ts, c, ex, fuel);
    case Break => n, d := SimJump(w, ret, s, env, ts, c, ex, fuel);
    case Continue => n, d := SimJump(w, ret, s, env, ts, c, ex, fuel);
    case If(_, _) => n, d := SimIfStmt(w, ret, s, env, ts, c, ex, fuel);
    case While(_, _) => n, d := SimWhile(w, ret, s, env, ts, c, ex, fuel);
    case Loop(_) => n, d := SimLoop(w, ret, s, env, ts, c, ex, fuel);
    case For(_, _, _, _, _) => n, d := SimRange(w, ret, s, env, ts, c, ex, fuel);
    case Region(body) => n, d := SimRegion(w, ret, body, env, ts, c, ex, fuel);
  }

  lemma StmtSort(w: World, ret: Ty, s: Stmt, env: Env, ts: Types, c: Cpu, ex: Exits, fuel: nat)
    requires StmtReady(w, ret, s, env, ts, c, ex, fuel)
    ensures ts != [] && env != [] && !s.Throw? && !s.Try? && (s.Return? ==> s.result.Some?)
  {
    hide Ready, EvalStmt, TypeOf, Distinct, GenOk;
  }

  // ---- region ----

  lemma RegionMeaning(w: World, ret: Ty, body: seq<Stmt>, env: Env, ts: Types, c: Cpu, ex: Exits, fuel: nat)
    requires StmtReady(w, ret, Region(body), env, ts, c, ex, fuel)
    ensures ScopedReady(w, ret, body, env, ts, c, ex, fuel) && ts != [] && env != []
    ensures EvalStmt(w.cfg, Region(body), env, fuel) == EvalScoped(w.cfg, body, env, fuel)
    ensures StmtLen(w.g, Region(body)) == BlockLen(w.g, body) && Writes(Region(body)) == WritesBlock(body)
    ensures Gives(w.sigs, ret, ts, Region(body)) == BlockGives(w.sigs, ret, ts + [map[]], body) && After(w.sigs, ts, Region(body)) == ts
  {
    hide Ready, EvalScoped, TypeOf, Distinct, GenOk, CodeAt, GenBlock;
  }

  lemma {:induction false} SimRegion(w: World, ret: Ty, body: seq<Stmt>, env: Env, ts: Types, c: Cpu, ex: Exits, fuel: nat) returns (n: nat, d: Cpu)
    requires StmtReady(w, ret, Region(body), env, ts, c, ex, fuel)
    ensures ts != [] && StmtDone(w, ret, Region(body), EvalStmt(w.cfg, Region(body), env, fuel), ts, c, ex, n, d)
    decreases fuel, Region(body), 1
  {
    hide StmtReady, ScopedReady, EvalStmt, EvalScoped, Does, EnvAfter, StmtLen, Writes, Gives, After, Standing, BlockGives, WritesBlock, BlockLen;
    RegionMeaning(w, ret, body, env, ts, c, ex, fuel);
    n, d := SimScoped(w, ret, body, env, ts, c, ex, fuel);
  }

  // ---- Scopes and blocks ----

  lemma ScopedMeaning(w: World, ret: Ty, body: seq<Stmt>, env: Env, ts: Types, c: Cpu, ex: Exits, fuel: nat)
    requires ScopedReady(w, ret, body, env, ts, c, ex, fuel)
    ensures BlockReady(w, ret, body, env + [map[]], ts + [map[]], c, ex, fuel) && env != [] && ts != [] && |env| == |ts|
    ensures var r := EvalBlock(w.cfg, body, env + [map[]], fuel);
            EvalScoped(w.cfg, body, env, fuel) == Run(r.out, r.env[..|env|])
  {
    hide EvalBlock, BlockTyped, LowerableBlock, BlockAt, CallsWork, BuiltinsWork, Match, GenOk, Distinct;
    MatchSize(env, ts, w.g.slots, c.mem, c.x[FP]);
    assert MatchScope(map[], map[], w.g.slots, c.mem, c.x[FP]);
    MatchPush(env, ts, w.g.slots, c.mem, c.x[FP], map[], map[]);
    DistinctPush(ts, map[]);
  }

  lemma {:induction false} SimScoped(w: World, ret: Ty, body: seq<Stmt>, env: Env, ts: Types, c: Cpu, ex: Exits, fuel: nat) returns (n: nat, d: Cpu)
    requires ScopedReady(w, ret, body, env, ts, c, ex, fuel)
    ensures ts != [] && env != [] && ScopedDone(w, ret, body, EvalScoped(w.cfg, body, env, fuel), ts, c, ex, n, d)
    decreases fuel, body, 1
  {
    hide ScopedReady, BlockReady, EvalScoped, EvalBlock, Does, BlockGives, WritesBlock, BlockLen, Match;
    ScopedMeaning(w, ret, body, env, ts, c, ex, fuel);
    n, d := SimBlock(w, ret, body, env + [map[]], ts + [map[]], c, ex, fuel);
    var r := EvalBlock(w.cfg, body, env + [map[]], fuel);
    DoesEnv(w, ret, r, r.env[..|env|], c, c.pc + BlockLen(w.g, body), ex, WritesBlock(body), BlockGives(w.sigs, ret, ts + [map[]], body), n, d);
    assert (ts + [map[]])[..|ts|] == ts;
  }

  lemma BlockHeadAt(w: World, body: seq<Stmt>, ex: Exits, c: Cpu)
    requires BlockAt(w, body, ex, c) && body != []
    ensures w.base <= c.pc && StmtAt(w, body[0], ex, c) && BlockLen(w.g, body) == StmtLen(w.g, body[0]) + BlockLen(w.g, body[1..])
    ensures CodeAt(w.code, c.pc + StmtLen(w.g, body[0]), GenBlock(w.g, body[1..], c.pc - w.base + StmtLen(w.g, body[0]), ex))
  {
    hide CodeAt, GenStmt, StmtLen;
    var first := GenStmt(w.g, body[0], c.pc - w.base, ex);
    CodeSplit(w.code, c.pc, first, GenBlock(w.g, body[1..], c.pc - w.base + |first|, ex));
  }

  lemma BlockMeaning(w: World, ret: Ty, body: seq<Stmt>, env: Env, ts: Types, c: Cpu, ex: Exits, fuel: nat)
    requires BlockReady(w, ret, body, env, ts, c, ex, fuel) && body != []
    ensures env != [] && ts != [] && StmtReady(w, ret, body[0], env, ts, c, ex, fuel) && EvalStmt(w.cfg, body[0], env, fuel).out.Ok?
    ensures EvalBlock(w.cfg, body, env, fuel).out.Ok?
    ensures BlockTyped(w.sigs, ret, After(w.sigs, ts, body[0]), body[1..]) && LowerableBlock(w, body[1..], ex)
    ensures WritesBlock(body) == Writes(body[0]) + WritesBlock(body[1..])
    ensures BlockGives(w.sigs, ret, ts, body) == if |body| == 1 then Gives(w.sigs, ret, ts, body[0]) else BlockGives(w.sigs, ret, After(w.sigs, ts, body[0]), body[1..])
    ensures var r := EvalStmt(w.cfg, body[0], env, fuel);
            if |body| > 1 && r.out.value.Normal? then
              EvalBlock(w.cfg, body, env, fuel) == EvalBlock(w.cfg, body[1..], r.env, fuel) && r.env != []
            else EvalBlock(w.cfg, body, env, fuel) == r
  {
    hide EvalStmt, Standing, StmtTyped, LowersStmt, After, Gives, Writes, BlockAt, StmtAt;
    BlockStanding(w, ret, body, env, ts, c, ex, fuel);
    BlockHeadAt(w, body, ex, c);
  }

  lemma BlockStanding(w: World, ret: Ty, body: seq<Stmt>, env: Env, ts: Types, c: Cpu, ex: Exits, fuel: nat)
    requires BlockReady(w, ret, body, env, ts, c, ex, fuel)
    ensures Standing(w, env, ts, c) && env != [] && ts != [] && |env| == |ts| && BlockAt(w, body, ex, c) && Distinct(ts) && GenOk(w.g)
  {
    hide EvalBlock, BlockTyped, LowerableBlock, BlockAt, Distinct, GenOk;
    StandingFacts(w, env, ts, c);
  }

  lemma AfterKeeps(sigs: map<string, Sig>, ret: Ty, ts: Types, s: Stmt)
    requires ts != [] && StmtTyped(sigs, ret, ts, s) && Distinct(ts)
    ensures |After(sigs, ts, s)| == |ts| && After(sigs, ts, s)[..|ts| - 1] == ts[..|ts| - 1] && Distinct(After(sigs, ts, s))
  {
    if s.Let? { DistinctDefine(ts, s.name, TypeOf(sigs, ts, s.value).value); }
  }

  lemma HeadTyped(w: World, ret: Ty, s: Stmt, env: Env, ts: Types, c: Cpu, ex: Exits, fuel: nat)
    requires StmtReady(w, ret, s, env, ts, c, ex, fuel)
    ensures ts != [] && StmtTyped(w.sigs, ret, ts, s)
  {
    hide StmtTyped, LowerableStmt, StmtAt, EvalStmt, Ready;
  }

  lemma {:induction false} SimBlock(w: World, ret: Ty, body: seq<Stmt>, env: Env, ts: Types, c: Cpu, ex: Exits, fuel: nat) returns (n: nat, d: Cpu)
    requires BlockReady(w, ret, body, env, ts, c, ex, fuel)
    ensures ts != [] && env != [] && BlockDone(w, ret, body, EvalBlock(w.cfg, body, env, fuel), ts, c, ex, n, d)
    decreases fuel, body, 0
  {
    hide BlockReady, StmtReady, Does, EnvAfter, EnvOuter, EvalStmt, EvalBlock, Writes, WritesBlock, Gives, BlockGives, After, Standing, BlockAt, StmtAt, BlockTyped, LowerableBlock, BlockLen, StmtLen, CodeAt, Distinct, GenOk;
    BlockStanding(w, ret, body, env, ts, c, ex, fuel);
    if body == [] {
      n, d := EmptyBlock(w, ret, body, env, ts, c, ex, fuel);
    } else {
      BlockMeaning(w, ret, body, env, ts, c, ex, fuel);
      BlockHeadAt(w, body, ex, c);
      HeadTyped(w, ret, body[0], env, ts, c, ex, fuel);
      AfterKeeps(w.sigs, ret, ts, body[0]);
      var r, us := EvalStmt(w.cfg, body[0], env, fuel), After(w.sigs, ts, body[0]);
      var n1, d1 := SimStmt(w, ret, body[0], env, ts, c, ex, fuel);
      if |body| > 1 && r.out.value.Normal? {
        RestReady(w, ret, body, r, env, ts, us, c, ex, fuel, n1, d1);
        var n2;
        n2, d := SimBlock(w, ret, body[1..], r.env, us, d1, ex, fuel);
        n := n1 + n2;
        RestDone(w, ret, body, r, EvalBlock(w.cfg, body[1..], r.env, fuel), env, ts, us, c, ex, n1, d1, n2, d);
      } else {
        n, d := n1, d1;
        LastDone(w, ret, body, r, env, ts, us, c, ex, n, d);
      }
    }
  }

  lemma EmptyBlock(w: World, ret: Ty, body: seq<Stmt>, env: Env, ts: Types, c: Cpu, ex: Exits, fuel: nat) returns (n: nat, d: Cpu)
    requires body == [] && Standing(w, env, ts, c) && ts != [] && env != []
    ensures BlockDone(w, ret, body, EvalBlock(w.cfg, body, env, fuel), ts, c, ex, n, d)
  {
    StandingFacts(w, env, ts, c);
    hide Standing, Match, CallsWork, BuiltinsWork, GenOk, Distinct;
    WholeOuter(env, ts, w.g.slots, c.mem, c.x[FP]);
    n, d := 0, c;
    ExecNone(w.code, c);
  }

  lemma RestReady(w: World, ret: Ty, body: seq<Stmt>, r: Run, env: Env, ts: Types, us: Types, c: Cpu, ex: Exits, fuel: nat, n1: nat, d1: Cpu)
    requires |body| > 1 && Standing(w, env, ts, c) && ts != [] && us != [] && r.env != [] && Distinct(us)
    requires r.out.Ok? && r.out.value.Normal? && EvalBlock(w.cfg, body[1..], r.env, fuel).out.Ok?
    requires Does(w, ret, r, c, c.pc + StmtLen(w.g, body[0]), ex, Writes(body[0]), Gives(w.sigs, ret, ts, body[0]), n1, d1)
    requires EnvAfter(w, r, ts, us, d1) && BlockTyped(w.sigs, ret, us, body[1..]) && LowerableBlock(w, body[1..], ex) && w.base <= c.pc
    requires CodeAt(w.code, c.pc + StmtLen(w.g, body[0]), GenBlock(w.g, body[1..], c.pc - w.base + StmtLen(w.g, body[0]), ex))
    ensures BlockReady(w, ret, body[1..], r.env, us, d1, ex, fuel)
  {
    hide EvalBlock, Writes, Gives, Standing, BlockAt, BlockTyped, LowerableBlock, StmtLen, CodeAt, Distinct, Kept, Match, Exec;
    StandingAfter(w, env, ts, c, r.env, us, d1, Writes(body[0]));
    BlockAtPosition(w, body[1..], ex, d1, c.pc - w.base + StmtLen(w.g, body[0]));
  }

  lemma RestDone(w: World, ret: Ty, body: seq<Stmt>, r: Run, r2: Run, env: Env, ts: Types, us: Types, c: Cpu, ex: Exits,
                 n1: nat, d1: Cpu, n2: nat, d: Cpu)
    requires |body| > 1 && ts != [] && us != [] && |us| == |ts| && us[..|us| - 1] == ts[..|ts| - 1] && GenOk(w.g)
    requires r.out.Ok? && r.out.value.Normal?
    requires Does(w, ret, r, c, c.pc + StmtLen(w.g, body[0]), ex, Writes(body[0]), Gives(w.sigs, ret, ts, body[0]), n1, d1)
    requires BlockDone(w, ret, body[1..], r2, us, d1, ex, n2, d)
    requires BlockLen(w.g, body) == StmtLen(w.g, body[0]) + BlockLen(w.g, body[1..])
    requires WritesBlock(body) == Writes(body[0]) + WritesBlock(body[1..])
    requires BlockGives(w.sigs, ret, ts, body) == BlockGives(w.sigs, ret, us, body[1..])
    ensures BlockDone(w, ret, body, r2, ts, c, ex, n1 + n2, d)
  {
    hide Writes, WritesBlock, Gives, BlockGives, BlockLen, StmtLen, GenOk, Match, Exec;
    assert Exec(w.code, c, n1) == Ran(d1) && Kept(w, c, d1, Writes(body[0])) && d1.pc == c.pc + StmtLen(w.g, body[0]);
    hide Kept;
    assert EnvOuter(w, r2, us, d) ==> EnvOuter(w, r2, ts, d);
    hide Does, EnvOuter;
    DoesThen(w, ret, r2, c, n1, d1, c.pc + BlockLen(w.g, body), ex, Writes(body[0]), WritesBlock(body[1..]), BlockGives(w.sigs, ret, us, body[1..]), n2, d);
  }

  /** The block ends with its head: the head is all there is, or it did not fall through. */
  lemma LastDone(w: World, ret: Ty, body: seq<Stmt>, r: Run, env: Env, ts: Types, us: Types, c: Cpu, ex: Exits, n: nat, d: Cpu)
    requires body != [] && ts != [] && |us| == |ts| && us[..|us| - 1] == ts[..|ts| - 1] && r.out.Ok? && r.env != [] && |r.env| == |ts|
    requires |body| == 1 || !r.out.value.Normal?
    requires Does(w, ret, r, c, c.pc + StmtLen(w.g, body[0]), ex, Writes(body[0]), Gives(w.sigs, ret, ts, body[0]), n, d)
    requires EnvAfter(w, r, ts, us, d)
    requires BlockLen(w.g, body) == StmtLen(w.g, body[0]) + BlockLen(w.g, body[1..])
    requires WritesBlock(body) == Writes(body[0]) + WritesBlock(body[1..])
    requires |body| == 1 ==> BlockGives(w.sigs, ret, ts, body) == Gives(w.sigs, ret, ts, body[0])
    ensures BlockDone(w, ret, body, r, ts, c, ex, n, d)
  {
    LastEnv(w, r, ts, us, d);
    if r.out.value.Normal? {
      assert body[1..] == [];
      assert BlockLen(w.g, body[1..]) == 0 && WritesBlock(body[1..]) == {};
      assert Writes(body[0]) + {} == Writes(body[0]);
    } else {
      hide Does, Writes, WritesBlock, Gives, BlockGives, BlockLen, StmtLen;
      DoesAbrupt(w, ret, r, c, c.pc + StmtLen(w.g, body[0]), c.pc + BlockLen(w.g, body), ex, Writes(body[0]), WritesBlock(body),
                 Gives(w.sigs, ret, ts, body[0]), BlockGives(w.sigs, ret, ts, body), n, d);
    }
  }

  lemma LastEnv(w: World, r: Run, ts: Types, us: Types, d: Cpu)
    requires EnvAfter(w, r, ts, us, d) && r.env != [] && ts != [] && |us| == |ts| && us[..|us| - 1] == ts[..|ts| - 1]
    ensures EnvOuter(w, r, ts, d)
  {
    hide Match;
    match r.out.value
    case Normal(_) => WholeOuter(r.env, us, w.g.slots, d.mem, d.x[FP]);
    case Returned(_) =>
    case Broke => WholeOuter(r.env, ts, w.g.slots, d.mem, d.x[FP]);
    case Continued => WholeOuter(r.env, ts, w.g.slots, d.mem, d.x[FP]);
  }

  // ---- if chains ----

  predicate LowerableIf(w: World, s: Stmt, i: nat, ex: Exits)
    requires s.If? && i <= |s.branches|
  {
    LowersIf(w.g.slots.Keys, w.callable, s, i, ex.InLoop?) && LowerableBlock(w, s.orelse, ex)
  }

  ghost predicate IfAt(w: World, s: Stmt, i: nat, ex: Exits, c: Cpu)
    requires s.If? && i <= |s.branches|
  {
    w.base <= c.pc && CodeAt(w.code, c.pc, GenIf(w.g, s, i, c.pc - w.base, ex))
  }

  ghost predicate IfReady(w: World, ret: Ty, s: Stmt, i: nat, env: Env, ts: Types, c: Cpu, ex: Exits, fuel: nat) {
    && s.If? && i <= |s.branches|
    && Standing(w, env, ts, c) && IfTyped(w.sigs, ret, ts, s, i) && LowerableIf(w, s, i, ex) && IfAt(w, s, i, ex, c)
    && EvalIf(w.cfg, s, i, env, fuel).out.Ok?
  }

  ghost predicate IfDone(w: World, ret: Ty, s: Stmt, i: nat, r: Run, ts: Types, c: Cpu, ex: Exits, n: nat, d: Cpu)
    requires s.If? && i <= |s.branches| && ts != []
  {
    && Does(w, ret, r, c, c.pc + IfLen(w.g, s, i), ex, WritesIf(s, i), IfGives(w.sigs, ret, ts, s, i), n, d)
    && EnvAfter(w, r, ts, ts, d)
  }

  lemma IfMeaning(w: World, ret: Ty, s: Stmt, env: Env, ts: Types, c: Cpu, ex: Exits, fuel: nat)
    requires s.If? && StmtReady(w, ret, s, env, ts, c, ex, fuel)
    ensures IfReady(w, ret, s, 0, env, ts, c, ex, fuel) && ts != [] && env != []
    ensures EvalStmt(w.cfg, s, env, fuel) == EvalIf(w.cfg, s, 0, env, fuel) && StmtLen(w.g, s) == IfLen(w.g, s, 0)
    ensures Writes(s) == WritesIf(s, 0) && Gives(w.sigs, ret, ts, s) == IfGives(w.sigs, ret, ts, s, 0) && After(w.sigs, ts, s) == ts
  {
    hide Ready, EvalIf, TypeOf, Distinct, GenOk, CodeAt, GenIf, IfTyped, LowersIf, LowersBlock, IfLen, WritesIf, IfGives;
  }

  lemma {:induction false} SimIfStmt(w: World, ret: Ty, s: Stmt, env: Env, ts: Types, c: Cpu, ex: Exits, fuel: nat) returns (n: nat, d: Cpu)
    requires s.If? && StmtReady(w, ret, s, env, ts, c, ex, fuel)
    ensures ts != [] && StmtDone(w, ret, s, EvalStmt(w.cfg, s, env, fuel), ts, c, ex, n, d)
    decreases fuel, s, 1, |s.branches| + 1
  {
    hide StmtReady, IfReady, EvalStmt, EvalIf, Does, EnvAfter, StmtLen, Writes, Gives, After, Standing, IfLen, WritesIf, IfGives;
    IfMeaning(w, ret, s, env, ts, c, ex, fuel);
    n, d := SimIf(w, ret, s, 0, env, ts, c, ex, fuel);
  }

  lemma ElseMeaning(w: World, ret: Ty, s: Stmt, env: Env, ts: Types, c: Cpu, ex: Exits, fuel: nat)
    requires s.If? && IfReady(w, ret, s, |s.branches|, env, ts, c, ex, fuel)
    ensures ScopedReady(w, ret, s.orelse, env, ts, c, ex, fuel) && ts != [] && env != []
    ensures EvalIf(w.cfg, s, |s.branches|, env, fuel) == EvalScoped(w.cfg, s.orelse, env, fuel)
    ensures IfLen(w.g, s, |s.branches|) == BlockLen(w.g, s.orelse) && WritesIf(s, |s.branches|) == WritesBlock(s.orelse)
    ensures IfGives(w.sigs, ret, ts, s, |s.branches|) == BlockGives(w.sigs, ret, ts + [map[]], s.orelse)
  {
    hide Ready, EvalScoped, Distinct, GenOk, CodeAt, GenBlock, BlockTyped, LowersBlock, BlockLen, WritesBlock, BlockGives;
  }

  lemma BranchMeaning(w: World, ret: Ty, s: Stmt, i: nat, env: Env, ts: Types, c: Cpu, ex: Exits, fuel: nat)
    requires s.If? && i < |s.branches| && IfReady(w, ret, s, i, env, ts, c, ex, fuel)
    ensures Standing(w, env, ts, c) && ts != [] && env != [] && IfAt(w, s, i, ex, c)
    ensures TypeOf(w.sigs, ts, s.branches[i].cond) == Some(TBool) && Lowerable(w, s.branches[i].cond)
    ensures BlockTyped(w.sigs, ret, ts + [map[]], s.branches[i].body) && LowerableBlock(w, s.branches[i].body, ex)
    ensures IfTyped(w.sigs, ret, ts, s, i + 1) && LowerableIf(w, s, i + 1, ex)
    ensures WritesIf(s, i) == WritesBlock(s.branches[i].body) + WritesIf(s, i + 1)
    ensures IfGives(w.sigs, ret, ts, s, i) == (BlockGives(w.sigs, ret, ts + [map[]], s.branches[i].body) && IfGives(w.sigs, ret, ts, s, i + 1))
    ensures EvalExpr(w.cfg, s.branches[i].cond, env).Ok? && EvalIf(w.cfg, s, i, env, fuel).out.Ok?
    ensures EvalExpr(w.cfg, s.branches[i].cond, env).value.Bool? ==>
              EvalIf(w.cfg, s, i, env, fuel) == if EvalExpr(w.cfg, s.branches[i].cond, env).value.b
                                                then EvalScoped(w.cfg, s.branches[i].body, env, fuel) else EvalIf(w.cfg, s, i + 1, env, fuel)
  {
    hide Ready, EvalScoped, Distinct, GenOk, CodeAt, GenIf, BlockTyped, LowersBlock, WritesBlock, BlockGives, EvalExpr, TypeOf, LowersExpr;
  }

  lemma BranchAt(w: World, s: Stmt, i: nat, ex: Exits, c: Cpu)
    requires s.If? && i < |s.branches| && IfAt(w, s, i, ex, c)
    ensures var b := s.branches[i]; var pc, cl, bl := c.pc - w.base, ExprLen(b.cond), BlockLen(w.g, b.body);
            && w.base <= c.pc && ExprAt(w, b.cond, c) && CodeAt(w.code, c.pc + cl, [Cbz(0, bl + 2)])
            && CodeAt(w.code, c.pc + cl + 1, GenBlock(w.g, b.body, pc + cl + 1, ex))
            && CodeAt(w.code, c.pc + cl + 1 + bl, [B(IfLen(w.g, s, i + 1) + 1)])
            && CodeAt(w.code, c.pc + cl + 2 + bl, GenIf(w.g, s, i + 1, pc + cl + bl + 2, ex))
            && IfLen(w.g, s, i) == cl + bl + 2 + IfLen(w.g, s, i + 1)
  {
    hide CodeAt, GenIf, GenBlock, GenExpr, ExprLen, BlockLen, IfLen, BranchCode;
    var b := s.branches[i];
    var pc, cl, bl := c.pc - w.base, ExprLen(b.cond), BlockLen(w.g, b.body);
    BranchShape(w.g, s, i, pc, ex);
    BranchParts(w.code, c.pc, GenExpr(w.g, b.cond, pc), GenBlock(w.g, b.body, pc + cl + 1, ex), GenIf(w.g, s, i + 1, pc + cl + bl + 2, ex));
  }

  lemma {:induction false} SimIf(w: World, ret: Ty, s: Stmt, i: nat, env: Env, ts: Types, c: Cpu, ex: Exits, fuel: nat) returns (n: nat, d: Cpu)
    requires s.If? && i <= |s.branches| && IfReady(w, ret, s, i, env, ts, c, ex, fuel)
    ensures ts != [] && env != [] && IfDone(w, ret, s, i, EvalIf(w.cfg, s, i, env, fuel), ts, c, ex, n, d)
    decreases fuel, s, 1, |s.branches| - i
  {
    hide IfReady, ScopedReady, EvalIf, EvalScoped, EvalExpr, TypeOf, Does, EnvAfter, Standing, IfLen, BlockLen, ExprLen, WritesIf, WritesBlock, IfGives, BlockGives;
    hide IfAt, ExprAt, CodeAt, GenIf, GenBlock, IfTyped, BlockTyped, LowerableIf, LowerableBlock, Lowerable, Kept, Exec;
    if i == |s.branches| {
      ElseMeaning(w, ret, s, env, ts, c, ex, fuel);
      n, d := SimScoped(w, ret, s.orelse, env, ts, c, ex, fuel);
    } else {
      var b := s.branches[i];
      var cl, bl := ExprLen(b.cond), BlockLen(w.g, b.body);
      BranchMeaning(w, ret, s, i, env, ts, c, ex, fuel);
      BranchAt(w, s, i, ex, c);
      var k, c1 := TestRuns(w, b.cond, env, ts, c, bl + 2);
      if EvalExpr(w.cfg, b.cond, env).value.b {
        BodyReady(w, ret, b.body, env, ts, c1, c.pc - w.base + cl + 1, ex, fuel);
        var m, c2 := SimScoped(w, ret, b.body, env, ts, c1, ex, fuel);
        n, d := TakenDone(w, ret, s, i, EvalScoped(w.cfg, b.body, env, fuel), env, ts, c, ex, k, c1, m, c2);
      } else {
        NextReady(w, ret, s, i, env, ts, c1, c.pc - w.base + cl + bl + 2, ex, fuel);
        var m;
        m, d := SimIf(w, ret, s, i + 1, env, ts, c1, ex, fuel);
        n := k + m;
        SkippedDone(w, ret, s, i, EvalIf(w.cfg, s, i + 1, env, fuel), env, ts, c, ex, k, c1, m, d);
      }
    }
  }

  lemma BodyReady(w: World, ret: Ty, body: seq<Stmt>, env: Env, ts: Types, c: Cpu, pc: nat, ex: Exits, fuel: nat)
    requires Standing(w, env, ts, c) && ts != [] && env != [] && c.pc == w.base + pc && CodeAt(w.code, c.pc, GenBlock(w.g, body, pc, ex))
    requires BlockTyped(w.sigs, ret, ts + [map[]], body) && LowerableBlock(w, body, ex) && EvalScoped(w.cfg, body, env, fuel).out.Ok?
    ensures ScopedReady(w, ret, body, env, ts, c, ex, fuel)
  {
    hide Standing, CodeAt, GenBlock, BlockTyped, LowerableBlock, EvalScoped;
  }

  lemma NextReady(w: World, ret: Ty, s: Stmt, i: nat, env: Env, ts: Types, c: Cpu, pc: nat, ex: Exits, fuel: nat)
    requires s.If? && i < |s.branches| && Standing(w, env, ts, c) && ts != [] && env != [] && c.pc == w.base + pc
    requires CodeAt(w.code, c.pc, GenIf(w.g, s, i + 1, pc, ex)) && IfTyped(w.sigs, ret, ts, s, i + 1) && LowerableIf(w, s, i + 1, ex)
    requires EvalIf(w.cfg, s, i + 1, env, fuel).out.Ok?
    ensures IfReady(w, ret, s, i + 1, env, ts, c, ex, fuel)
  {
    hide Standing, CodeAt, GenIf, IfTyped, LowerableIf, EvalIf;
  }

  /** The branch ran; if it fell through, it jumps to the end of the chain. */
  lemma TakenDone(w: World, ret: Ty, s: Stmt, i: nat, r: Run, env: Env, ts: Types, c: Cpu, ex: Exits, k: nat, c1: Cpu, m: nat, c2: Cpu)
    returns (n: nat, d: Cpu)
    requires s.If? && i < |s.branches| && ts != [] && Standing(w, env, ts, c)
    requires Exec(w.code, c, k) == Ran(c1) && Kept(w, c, c1, {}) && c1.pc == c.pc + ExprLen(s.branches[i].cond) + 1
    requires ScopedDone(w, ret, s.branches[i].body, r, ts, c1, ex, m, c2)
    requires CodeAt(w.code, c1.pc + BlockLen(w.g, s.branches[i].body), [B(IfLen(w.g, s, i + 1) + 1)])
    requires IfLen(w.g, s, i) == ExprLen(s.branches[i].cond) + BlockLen(w.g, s.branches[i].body) + 2 + IfLen(w.g, s, i + 1)
    requires WritesIf(s, i) == WritesBlock(s.branches[i].body) + WritesIf(s, i + 1)
    requires IfGives(w.sigs, ret, ts, s, i) == (BlockGives(w.sigs, ret, ts + [map[]], s.branches[i].body) && IfGives(w.sigs, ret, ts, s, i + 1))
    ensures IfDone(w, ret, s, i, r, ts, c, ex, n, d)
  {
    hide Standing, IfLen, BlockLen, ExprLen, WritesIf, WritesBlock, IfGives, BlockGives, Kept, Match, CodeAt, Exec;
    assert GenOk(w.g) by { StandingFacts(w, env, ts, c); }
    var ws, gives := WritesBlock(s.branches[i].body), IfGives(w.sigs, ret, ts, s, i);
    if r.out.value.Normal? {
      d := ThenJump(w, c1, m, c2, ws, IfLen(w.g, s, i + 1) + 1);
      n := k + m + 1;
      assert Does(w, ret, r, c1, c.pc + IfLen(w.g, s, i), ex, ws, gives, m + 1, d);
      hide Does;
      DoesThen(w, ret, r, c, k, c1, c.pc + IfLen(w.g, s, i), ex, {}, ws, gives, m + 1, d);
      DoesMore(w, ret, r, c, c.pc + IfLen(w.g, s, i), ex, {} + ws, WritesIf(s, i), gives, n, d);
    } else {
      n, d := k + m, c2;
      hide Does;
      var goal := c1.pc + BlockLen(w.g, s.branches[i].body);
      var g0 := BlockGives(w.sigs, ret, ts + [map[]], s.branches[i].body);
      DoesThen(w, ret, r, c, k, c1, goal, ex, {}, ws, g0, m, d);
      DoesAbrupt(w, ret, r, c, goal, c.pc + IfLen(w.g, s, i), ex, {} + ws, WritesIf(s, i), g0, gives, n, d);
    }
  }

  lemma SkippedDone(w: World, ret: Ty, s: Stmt, i: nat, r: Run, env: Env, ts: Types, c: Cpu, ex: Exits, k: nat, c1: Cpu, m: nat, d: Cpu)
    requires s.If? && i < |s.branches| && ts != [] && Standing(w, env, ts, c)
    requires Exec(w.code, c, k) == Ran(c1) && Kept(w, c, c1, {})
    requires c1.pc == c.pc + ExprLen(s.branches[i].cond) + BlockLen(w.g, s.branches[i].body) + 2
    requires IfDone(w, ret, s, i + 1, r, ts, c1, ex, m, d)
    requires IfLen(w.g, s, i) == ExprLen(s.branches[i].cond) + BlockLen(w.g, s.branches[i].body) + 2 + IfLen(w.g, s, i + 1)
    requires WritesIf(s, i) == WritesBlock(s.branches[i].body) + WritesIf(s, i + 1)
    requires IfGives(w.sigs, ret, ts, s, i) == (BlockGives(w.sigs, ret, ts + [map[]], s.branches[i].body) && IfGives(w.sigs, ret, ts, s, i + 1))
    ensures IfDone(w, ret, s, i, r, ts, c, ex, k + m, d)
  {
    hide Standing, IfLen, BlockLen, ExprLen, WritesIf, WritesBlock, IfGives, BlockGives, Kept, Match, CodeAt, Exec;
    assert GenOk(w.g) by { StandingFacts(w, env, ts, c); }
    var goal, gives := c.pc + IfLen(w.g, s, i), IfGives(w.sigs, ret, ts, s, i);
    assert Does(w, ret, r, c1, goal, ex, WritesIf(s, i + 1), gives, m, d);
    hide Does, EnvAfter;
    DoesThen(w, ret, r, c, k, c1, goal, ex, {}, WritesIf(s, i + 1), gives, m, d);
    DoesMore(w, ret, r, c, goal, ex, {} + WritesIf(s, i + 1), WritesIf(s, i), gives, k + m, d);
  }

  // ---- while and loop ----

  /** What follows one pass through the body. */
  ghost predicate Iterated(w: World, s: Stmt, r: Run, fuel: nat, out: Run)
    requires fuel > 0
  {
    r.out.Ok? && r.env != [] &&
    match r.out.value
    case Returned(_) => out == r
    case Broke => out == Run(Ok(Normal(Void)), r.env)
    case _ => out == EvalStmt(w.cfg, s, r.env, fuel - 1) && out.out.Ok?
  }

  lemma WhileMeaning(w: World, ret: Ty, s: Stmt, env: Env, ts: Types, c: Cpu, ex: Exits, fuel: nat)
    requires s.While? && StmtReady(w, ret, s, env, ts, c, ex, fuel)
    ensures Standing(w, env, ts, c) && StmtAt(w, s, ex, c) && ts != [] && env != []
    ensures Lowerable(w, s.cond) && TypeOf(w.sigs, ts, s.cond) == Some(TBool) && EvalExpr(w.cfg, s.cond, env).Ok?
    ensures BlockTyped(w.sigs, ret, ts + [map[]], s.body) && LowersBlock(w.g.slots.Keys, w.callable, s.body, true)
    ensures Writes(s) == WritesBlock(s.body) && !Gives(w.sigs, ret, ts, s) && After(w.sigs, ts, s) == ts
    ensures var v := EvalExpr(w.cfg, s.cond, env).value;
            v.Bool? ==> if v.b then fuel > 0 && Iterated(w, s, EvalScoped(w.cfg, s.body, env, fuel), fuel, EvalStmt(w.cfg, s, env, fuel))
                        else EvalStmt(w.cfg, s, env, fuel) == Run(Ok(Normal(Void)), env)
  {
    hide Ready, EvalScoped, EvalExpr, TypeOf, Distinct, GenOk, StmtAt, LowersExpr, LowersBlock, BlockTyped, WritesBlock;
  }

  lemma WhileAt(w: World, s: Stmt, ex: Exits, c: Cpu)
    requires s.While? && StmtAt(w, s, ex, c)
    ensures var pc, cl, bl := c.pc - w.base, ExprLen(s.cond), BlockLen(w.g, s.body);
            && w.base <= c.pc && ExprAt(w, s.cond, c) && CodeAt(w.code, c.pc + cl, [Cbz(0, bl + 2)])
            && CodeAt(w.code, c.pc + cl + 1, GenBlock(w.g, s.body, pc + cl + 1, InLoop(pc + cl + bl + 2, pc)))
            && CodeAt(w.code, c.pc + cl + 1 + bl, [B(0 - (cl + 1 + bl))]) && StmtLen(w.g, s) == cl + bl + 2
  {
    hide CodeAt, GenStmt, GenBlock, GenExpr, ExprLen, BlockLen, StmtLen, WhileCode;
    var pc, cl, bl := c.pc - w.base, ExprLen(s.cond), BlockLen(w.g, s.body);
    WhileShape(w.g, s.cond, s.body, pc, ex);
    WhileParts(w.code, c.pc, GenExpr(w.g, s.cond, pc), GenBlock(w.g, s.body, pc + cl + 1, InLoop(pc + cl + bl + 2, pc)));
  }

  /** The loop is left from its body. */
  lemma LeftDone(w: World, ret: Ty, body: seq<Stmt>, r: Run, out: Run, env: Env, ts: Types, c: Cpu, k: nat, c1: Cpu,
                 ex: Exits, ex': Exits, end: int, m: nat, d: Cpu)
    requires Standing(w, env, ts, c) && Exec(w.code, c, k) == Ran(c1) && Kept(w, c, c1, {})
    requires ScopedDone(w, ret, body, r, ts, c1, ex', m, d) && ex'.InLoop? && end == w.base + ex'.brk
    requires (r.out.value.Returned? && out == r) || (r.out.value.Broke? && out == Run(Ok(Normal(Void)), r.env))
    ensures Does(w, ret, out, c, end, ex, WritesBlock(body), false, k + m, d) && EnvAfter(w, out, ts, ts, d)
  {
    hide Standing, BlockLen, WritesBlock, BlockGives, Kept, Match, Exec;
    assert GenOk(w.g) by { StandingFacts(w, env, ts, c); }
    var ws := WritesBlock(body);
    assert Does(w, ret, out, c1, end, ex, ws, false, m, d);
    hide Does;
    DoesThen(w, ret, out, c, k, c1, end, ex, {}, ws, false, m, d);
    DoesMore(w, ret, out, c, end, ex, {} + ws, ws, false, k + m, d);
  }

  /** The body fell through to the jump back, or continued: the machine is at the top again. */
  lemma BackToTop(w: World, ret: Ty, body: seq<Stmt>, r: Run, env: Env, ts: Types, c: Cpu, k: nat, c1: Cpu,
                  ex': Exits, m: nat, c2: Cpu, off: int) returns (n: nat, d: Cpu)
    requires Standing(w, env, ts, c) && Exec(w.code, c, k) == Ran(c1) && Kept(w, c, c1, {})
    requires ScopedDone(w, ret, body, r, ts, c1, ex', m, c2) && ex'.InLoop? && c.pc == w.base + ex'.cont
    requires r.out.value.Normal? || r.out.value.Continued?
    requires CodeAt(w.code, c1.pc + BlockLen(w.g, body), [B(off)]) && c1.pc + BlockLen(w.g, body) + off == c.pc
    ensures Exec(w.code, c, n) == Ran(d) && Kept(w, c, d, WritesBlock(body)) && d.pc == c.pc && Standing(w, r.env, ts, d)
  {
    StandingFacts(w, env, ts, c);
    hide Standing, BlockLen, WritesBlock, BlockGives, Kept, Match, Exec, CodeAt, Distinct, GenOk;
    var ws := WritesBlock(body);
    ExecThen(w.code, c, k, c1, m);
    KeptTrans(w, c, c1, c2, {}, ws);
    assert {} + ws == ws;
    StandingAfter(w, env, ts, c, r.env, ts, c2, ws);
    n, d := k + m, c2;
    if r.out.value.Normal? {
      d := ThenJump(w, c, n, c2, ws, off);
      n := n + 1;
      Moved(w, c, r.env, ts, c2, d, ws);
    }
  }

  lemma AgainReady(w: World, ret: Ty, s: Stmt, env: Env, env': Env, ts: Types, c: Cpu, d: Cpu, ex: Exits, fuel: nat)
    requires StmtReady(w, ret, s, env, ts, c, ex, fuel) && fuel > 0 && Standing(w, env', ts, d) && d.pc == c.pc && env' != []
    requires EvalStmt(w.cfg, s, env', fuel - 1).out.Ok?
    ensures StmtReady(w, ret, s, env', ts, d, ex, fuel - 1)
  {
    hide Ready, StmtTyped, LowerableStmt, GenStmt, CodeAt, EvalStmt, Distinct, GenOk, Match;
    SameGround(w, ret, s, env, ts, c, ex, fuel, d);
  }

  /** What a statement needs of the machine beyond its locals depends on the position only. */
  lemma SameGround(w: World, ret: Ty, s: Stmt, env: Env, ts: Types, c: Cpu, ex: Exits, fuel: nat, d: Cpu)
    requires StmtReady(w, ret, s, env, ts, c, ex, fuel) && d.pc == c.pc
    ensures StmtTyped(w.sigs, ret, ts, s) && LowerableStmt(w, s, ex) && StmtAt(w, s, ex, d)
  {
    hide Standing, StmtTyped, LowerableStmt, GenStmt, CodeAt, EvalStmt;
  }

  /** One pass and then the rest of the loop. */
  lemma AgainDone(w: World, ret: Ty, s: Stmt, r: Run, ts: Types, c: Cpu, k: nat, c1: Cpu, ex: Exits, m: nat, d: Cpu)
    requires ts != [] && Exec(w.code, c, k) == Ran(c1) && Kept(w, c, c1, Writes(s)) && c1.pc == c.pc && GenOk(w.g)
    requires StmtDone(w, ret, s, r, ts, c1, ex, m, d)
    ensures StmtDone(w, ret, s, r, ts, c, ex, k + m, d)
  {
    hide Exec, Kept, Does, Writes, StmtLen, Gives, EnvAfter, GenOk, After;
    DoesThen(w, ret, r, c, k, c1, c.pc + StmtLen(w.g, s), ex, Writes(s), Writes(s), Gives(w.sigs, ret, ts, s), m, d);
    assert Writes(s) + Writes(s) == Writes(s);
  }

  lemma {:induction false} SimWhile(w: World, ret: Ty, s: Stmt, env: Env, ts: Types, c: Cpu, ex: Exits, fuel: nat) returns (n: nat, d: Cpu)
    requires s.While? && StmtReady(w, ret, s, env, ts, c, ex, fuel)
    ensures ts != [] && StmtDone(w, ret, s, EvalStmt(w.cfg, s, env, fuel), ts, c, ex, n, d)
    decreases fuel, s, 1
  {
    hide StmtReady, ScopedReady, EvalStmt, EvalScoped, EvalExpr, TypeOf, Does, EnvAfter, Standing, StmtLen, BlockLen, ExprLen, Writes, WritesBlock, Gives, After;
    hide StmtAt, ExprAt, CodeAt, GenBlock, BlockTyped, LowersBlock, Lowerable, Kept, Exec, StmtDone, ScopedDone;
    WhileMeaning(w, ret, s, env, ts, c, ex, fuel);
    WhileAt(w, s, ex, c);
    var pc, cl, bl := c.pc - w.base, ExprLen(s.cond), BlockLen(w.g, s.body);
    var ex' := InLoop(pc + cl + bl + 2, pc);
    var k, c1 := TestRuns(w, s.cond, env, ts, c, bl + 2);
    if EvalExpr(w.cfg, s.cond, env).value.b {
      BodyReady(w, ret, s.body, env, ts, c1, pc + cl + 1, ex', fuel);
      var r := EvalScoped(w.cfg, s.body, env, fuel);
      var m, c2 := SimScoped(w, ret, s.body, env, ts, c1, ex', fuel);
      n, d := NextPass(w, ret, s, s.body, r, env, ts, c, k, c1, ex, ex', m, c2, 0 - (cl + 1 + bl), fuel);
    } else {
      n, d := k, c1;
      NoPass(w, ret, s, env, ts, c, n, d, ex);
    }
  }

  lemma NoPass(w: World, ret: Ty, s: Stmt, env: Env, ts: Types, c: Cpu, n: nat, d: Cpu, ex: Exits)
    requires ts != [] && Exec(w.code, c, n) == Ran(d) && Kept(w, c, d, {}) && Standing(w, env, ts, d) && d.pc == c.pc + StmtLen(w.g, s)
    requires !Gives(w.sigs, ret, ts, s) && After(w.sigs, ts, s) == ts
    ensures StmtDone(w, ret, s, Run(Ok(Normal(Void)), env), ts, c, ex, n, d)
  {
    StandingFacts(w, env, ts, d);
    hide Exec, Standing, Kept, Writes, StmtLen, Gives, Match, After;
    KeptMore(w, c, d, {}, Writes(s));
  }

  /** After one pass through the body of a `while` or `loop`. */
  lemma {:induction false} NextPass(w: World, ret: Ty, s: Stmt, body: seq<Stmt>, r: Run, env: Env, ts: Types, c: Cpu, k: nat, c1: Cpu,
                                    ex: Exits, ex': Exits, m: nat, c2: Cpu, off: int, fuel: nat) returns (n: nat, d: Cpu)
    requires StmtReady(w, ret, s, env, ts, c, ex, fuel) && fuel > 0 && ts != [] && Standing(w, env, ts, c)
    requires Iterated(w, s, r, fuel, EvalStmt(w.cfg, s, env, fuel)) && Writes(s) == WritesBlock(body) && !Gives(w.sigs, ret, ts, s) && After(w.sigs, ts, s) == ts
    requires Exec(w.code, c, k) == Ran(c1) && Kept(w, c, c1, {}) && ScopedDone(w, ret, body, r, ts, c1, ex', m, c2)
    requires ex'.InLoop? && c.pc == w.base + ex'.cont && w.base + ex'.brk == c.pc + StmtLen(w.g, s)
    requires CodeAt(w.code, c1.pc + BlockLen(w.g, body), [B(off)]) && c1.pc + BlockLen(w.g, body) + off == c.pc
    ensures StmtDone(w, ret, s, EvalStmt(w.cfg, s, env, fuel), ts, c, ex, n, d)
    decreases fuel, s, 0
  {
    hide StmtReady, EvalStmt, Does, EnvAfter, Standing, StmtLen, BlockLen, Writes, WritesBlock, Gives, After, CodeAt, Kept, Exec, ScopedDone, GenOk;
    var out := EvalStmt(w.cfg, s, env, fuel);
    if r.out.value.Returned? || r.out.value.Broke? {
      LeftDone(w, ret, body, r, out, env, ts, c, k, c1, ex, ex', c.pc + StmtLen(w.g, s), m, c2);
      n, d := k + m, c2;
    } else {
      hide StmtDone;
      var k2, top := BackToTop(w, ret, body, r, env, ts, c, k, c1, ex', m, c2, off);
      AgainReady(w, ret, s, env, r.env, ts, c, top, ex, fuel);
      var k3;
      k3, d := SimStmt(w, ret, s, r.env, ts, top, ex, fuel - 1);
      n := k2 + k3;
      assert GenOk(w.g) by { StandingFacts(w, env, ts, c); }
      AgainDone(w, ret, s, out, ts, c, k2, top, ex, k3, d);
    }
  }

  lemma LoopMeaning(w: World, ret: Ty, s: Stmt, env: Env, ts: Types, c: Cpu, ex: Exits, fuel: nat)
    requires s.Loop? && StmtReady(w, ret, s, env, ts, c, ex, fuel)
    ensures Standing(w, env, ts, c) && StmtAt(w, s, ex, c) && ts != [] && env != []
    ensures BlockTyped(w.sigs, ret, ts + [map[]], s.body) && LowersBlock(w.g.slots.Keys, w.callable, s.body, true)
    ensures Writes(s) == WritesBlock(s.body) && !Gives(w.sigs, ret, ts, s) && After(w.sigs, ts, s) == ts
    ensures fuel > 0 && Iterated(w, s, EvalScoped(w.cfg, s.body, env, fuel), fuel, EvalStmt(w.cfg, s, env, fuel))
  {
    hide Ready, EvalScoped, Distinct, GenOk, StmtAt, LowersBlock, BlockTyped, WritesBlock;
  }

  lemma LoopAt(w: World, s: Stmt, ex: Exits, c: Cpu)
    requires s.Loop? && StmtAt(w, s, ex, c)
    ensures var pc, bl := c.pc - w.base, BlockLen(w.g, s.body);
            && w.base <= c.pc && CodeAt(w.code, c.pc, GenBlock(w.g, s.body, pc, InLoop(pc + bl + 1, pc)))
            && CodeAt(w.code, c.pc + bl, [B(0 - bl)]) && StmtLen(w.g, s) == bl + 1
  {
    hide CodeAt, GenStmt, GenBlock, BlockLen, StmtLen, LoopCode;
    var pc, bl := c.pc - w.base, BlockLen(w.g, s.body);
    LoopShape(w.g, s.body, pc, ex);
    LoopParts(w.code, c.pc, GenBlock(w.g, s.body, pc, InLoop(pc + bl + 1, pc)));
  }

  lemma {:induction false} SimLoop(w: World, ret: Ty, s: Stmt, env: Env, ts: Types, c: Cpu, ex: Exits, fuel: nat) returns (n: nat, d: Cpu)
    requires s.Loop? && StmtReady(w, ret, s, env, ts, c, ex, fuel)
    ensures ts != [] && StmtDone(w, ret, s, EvalStmt(w.cfg, s, env, fuel), ts, c, ex, n, d)
    decreases fuel, s, 1
  {
    hide StmtReady, ScopedReady, EvalStmt, EvalScoped, Does, EnvAfter, Standing, StmtLen, BlockLen, Writes, WritesBlock, Gives, After;
    hide StmtAt, CodeAt, GenBlock, BlockTyped, LowersBlock, Kept, Exec, StmtDone, ScopedDone;
    LoopMeaning(w, ret, s, env, ts, c, ex, fuel);
    LoopAt(w, s, ex, c);
    var pc, bl := c.pc - w.base, BlockLen(w.g, s.body);
    var ex' := InLoop(pc + bl + 1, pc);
    BodyReady(w, ret, s.body, env, ts, c, pc, ex', fuel);
    var r := EvalScoped(w.cfg, s.body, env, fuel);
    var m, c2 := SimScoped(w, ret, s.body, env, ts, c, ex', fuel);
    Still(w, c);
    n, d := NextPass(w, ret, s, s.body, r, env, ts, c, 0, c, ex, ex', m, c2, 0 - bl, fuel);
  }

  lemma Still(w: World, c: Cpu)
    ensures Exec(w.code, c, 0) == Ran(c) && Kept(w, c, c, {})
  {
  }

  // ---- for ----

  ghost predicate ForAt(w: World, s: Stmt, c: Cpu)
    requires s.For?
  {
    var pc, len := c.pc - w.base, BlockLen(w.g, s.body);
    w.base <= c.pc && CodeAt(w.code, c.pc, ForCode(w.g, s.name, GenBlock(w.g, s.body, pc + 12, InLoop(pc + len + 17, pc + len + 12))))
  }

  /** At the test of a range loop. */
  ghost predicate ForReady(w: World, ret: Ty, s: Stmt, current: i64, end: i64, step: i64, env: Env, ts: Types, c: Cpu, fuel: nat) {
    && s.For? && env != [] && step != 0
    && Standing(w, Define(env, s.name, I64(current)), ts + [map[s.name := TInt]], c) && Counting(w, s.name, c, current, end, step)
    && BlockTyped(w.sigs, ret, ts + [map[s.name := TInt]] + [map[]], s.body) && LowersBlock(w.g.slots.Keys, w.callable, s.body, true)
    && s.name !in WritesBlock(s.body) && EndName(s.name) !in WritesBlock(s.body) && StepName(s.name) !in WritesBlock(s.body)
    && ForAt(w, s, c) && EvalFor(w.cfg, s, current, end, step, env, fuel).out.Ok?
  }

  ghost predicate ForDone(w: World, ret: Ty, s: Stmt, r: Run, ts: Types, c: Cpu, ex: Exits, n: nat, d: Cpu)
    requires s.For?
  {
    && Does(w, ret, r, c, c.pc + BlockLen(w.g, s.body) + 17, ex, {s.name} + WritesBlock(s.body), false, n, d)
    && |r.env| == |ts| + 1 && EnvAfter(w, Run(r.out, r.env[..|ts|]), ts, ts, d)
  }

  ghost predicate ForIterated(w: World, s: Stmt, current: i64, end: i64, step: i64, r: Run, fuel: nat, out: Run)
    requires s.For? && fuel > 0
  {
    r.out.Ok? && r.env != [] &&
    match r.out.value
    case Returned(_) => out == r
    case Broke => out == Run(Ok(Normal(Void)), r.env)
    case _ => out == EvalFor(w.cfg, s, Wrap(current + step), end, step, r.env, fuel - 1)
  }

  lemma ForMeaning(w: World, ret: Ty, s: Stmt, current: i64, end: i64, step: i64, env: Env, ts: Types, c: Cpu, fuel: nat)
    requires s.For? && env != [] && ForReady(w, ret, s, current, end, step, env, ts, c, fuel)
    ensures if Running(current, end, step) then
              fuel > 0 && ForIterated(w, s, current, end, step, EvalScoped(w.cfg, s.body, Define(env, s.name, I64(current)), fuel), fuel,
                                      EvalFor(w.cfg, s, current, end, step, env, fuel))
            else EvalFor(w.cfg, s, current, end, step, env, fuel) == Run(Ok(Normal(Void)), env)
  {
    hide Standing, Counting, BlockTyped, LowersBlock, WritesBlock, ForAt, EvalScoped, Wrap;
  }

  lemma ForCodeAt(w: World, s: Stmt, c: Cpu)
    requires s.For? && ForAt(w, s, c)
    ensures var pc, len := c.pc - w.base, BlockLen(w.g, s.body);
            && w.base <= c.pc && CodeAt(w.code, c.pc, ForGuard(w.g, s.name, len))
            && CodeAt(w.code, c.pc + 12, GenBlock(w.g, s.body, pc + 12, InLoop(pc + len + 17, pc + len + 12)))
            && CodeAt(w.code, c.pc + 12 + len, ForStep(w.g, s.name)) && CodeAt(w.code, c.pc + 16 + len, [B(0 - (len + 16))])
  {
    hide CodeAt, GenBlock, ForCode, ForGuard, ForStep, BlockLen;
    var pc, len := c.pc - w.base, BlockLen(w.g, s.body);
    ForParts(w.code, c.pc, w.g, s.name, GenBlock(w.g, s.body, pc + 12, InLoop(pc + len + 17, pc + len + 12)));
  }

  lemma ForFacts(w: World, ret: Ty, s: Stmt, current: i64, end: i64, step: i64, env: Env, ts: Types, c: Cpu, fuel: nat)
    requires s.For? && ForReady(w, ret, s, current, end, step, env, ts, c, fuel)
    ensures env != [] && step != 0 && |env| == |ts| + 1 && ForAt(w, s, c) && Counting(w, s.name, c, current, end, step) && GenOk(w.g)
    ensures Standing(w, Define(env, s.name, I64(current)), ts + [map[s.name := TInt]], c)
    ensures BlockTyped(w.sigs, ret, ts + [map[s.name := TInt]] + [map[]], s.body) && LowersBlock(w.g.slots.Keys, w.callable, s.body, true)
    ensures Match(env[..|ts|], ts, w.g.slots, c.mem, c.x[FP]) && s.name in w.g.slots
    ensures EvalFor(w.cfg, s, current, end, step, env, fuel).out.Ok?
    ensures s.name !in WritesBlock(s.body) && EndName(s.name) !in WritesBlock(s.body) && StepName(s.name) !in WritesBlock(s.body)
  {
    hide Standing, BlockTyped, LowersBlock, WritesBlock, ForAt, EvalFor, Match, GenOk, Load;
    var env', ts' := Define(env, s.name, I64(current)), ts + [map[s.name := TInt]];
    StandingFacts(w, env', ts', c);
    MatchPrefix(env', ts', w.g.slots, c.mem, c.x[FP], |ts|);
    assert env'[..|ts|] == env[..|ts|] && ts'[..|ts|] == ts;
  }

  lemma {:induction false} SimFor(w: World, ret: Ty, s: Stmt, current: i64, end: i64, step: i64, env: Env, ts: Types, c: Cpu, ex: Exits, fuel: nat)
    returns (n: nat, d: Cpu)
    requires s.For? && ForReady(w, ret, s, current, end, step, env, ts, c, fuel)
    ensures env != [] && ForDone(w, ret, s, EvalFor(w.cfg, s, current, end, step, env, fuel), ts, c, ex, n, d)
    decreases fuel, s, 0
  {
    hide ForReady, ForDone, ScopedReady, ScopedDone, EvalFor, EvalScoped, Standing, BlockLen, WritesBlock, Counting, Running, ForAt, CodeAt, GenBlock, BlockTyped, LowersBlock, Exec, Match, Define, Wrap, ForGuard, ForStep, GenOk;
    ForFacts(w, ret, s, current, end, step, env, ts, c, fuel);
    ForMeaning(w, ret, s, current, end, step, env, ts, c, fuel);
    ForCodeAt(w, s, c);
    var pc, len := c.pc - w.base, BlockLen(w.g, s.body);
    var ex' := InLoop(pc + len + 17, pc + len + 12);
    var env', ts' := Define(env, s.name, I64(current)), ts + [map[s.name := TInt]];
    var k, c1 := RangeGuardRuns(w, s.name, len, c, current, end, step);
    if Running(current, end, step) {
      GuardKept(w, env', ts', c, c1);
      BodyReady(w, ret, s.body, env', ts', c1, pc + 12, ex', fuel);
      var r := EvalScoped(w.cfg, s.body, env', fuel);
      var m, c2 := SimScoped(w, ret, s.body, env', ts', c1, ex', fuel);
      if r.out.value.Returned? || r.out.value.Broke? {
        n, d := k + m, c2;
        ForLeft(w, ret, s, r, EvalFor(w.cfg, s, current, end, step, env, fuel), env', ts, c, k, c1, ex, ex', m, c2);
      } else {
        var k2, top := NextCount(w, ret, s, r, current, end, step, env, ts, c, k, c1, ex', m, c2, fuel);
        var k3;
        k3, d := SimFor(w, ret, s, Wrap(current + step), end, step, r.env, ts, top, ex, fuel - 1);
        n := k2 + k3;
        ForAgain(w, ret, s, EvalFor(w.cfg, s, Wrap(current + step), end, step, r.env, fuel - 1), ts, c, k2, top, ex, k3, d);
      }
    } else {
      n, d := k, c1;
      ForOver(w, ret, s, env, ts, c, ex, n, d);
    }
  }

  lemma GuardKept(w: World, env: Env, ts: Types, c: Cpu, c1: Cpu)
    requires SameFrame(c, c1) && Standing(w, env, ts, c)
    ensures Standing(w, env, ts, c1) && Kept(w, c, c1, {})
  {
    hide Match, CallsWork, BuiltinsWork, GenOk, Distinct;
  }

  lemma ForOver(w: World, ret: Ty, s: Stmt, env: Env, ts: Types, c: Cpu, ex: Exits, n: nat, d: Cpu)
    requires s.For? && |env| == |ts| + 1 && Match(env[..|ts|], ts, w.g.slots, c.mem, c.x[FP])
    requires Exec(w.code, c, n) == Ran(d) && SameFrame(c, d) && d.pc == c.pc + BlockLen(w.g, s.body) + 17
    ensures ForDone(w, ret, s, Run(Ok(Normal(Void)), env), ts, c, ex, n, d)
  {
    hide Match, Exec, WritesBlock, BlockLen;
  }

  lemma ForLeft(w: World, ret: Ty, s: Stmt, r: Run, out: Run, env: Env, ts: Types, c: Cpu, k: nat, c1: Cpu,
                ex: Exits, ex': Exits, m: nat, d: Cpu)
    requires s.For? && Standing(w, env, ts + [map[s.name := TInt]], c) && Exec(w.code, c, k) == Ran(c1) && Kept(w, c, c1, {})
    requires ScopedDone(w, ret, s.body, r, ts + [map[s.name := TInt]], c1, ex', m, d) && |r.env| == |ts| + 1
    requires ex'.InLoop? && c.pc + BlockLen(w.g, s.body) + 17 == w.base + ex'.brk
    requires (r.out.value.Returned? && out == r) || (r.out.value.Broke? && out == Run(Ok(Normal(Void)), r.env))
    ensures ForDone(w, ret, s, out, ts, c, ex, k + m, d)
  {
    hide Standing, BlockLen, WritesBlock, Kept, Match, Exec, ScopedDone;
    var ts' := ts + [map[s.name := TInt]];
    var end := c.pc + BlockLen(w.g, s.body) + 17;
    LeftDone(w, ret, s.body, r, out, env, ts', c, k, c1, ex, ex', end, m, d);
    DoesMore(w, ret, out, c, end, ex, WritesBlock(s.body), {s.name} + WritesBlock(s.body), false, k + m, d);
    if out.out.value.Normal? {
      MatchPrefix(r.env, ts', w.g.slots, d.mem, d.x[FP], |ts|);
      assert ts'[..|ts|] == ts;
    }
  }

  lemma ForAgain(w: World, ret: Ty, s: Stmt, r: Run, ts: Types, c: Cpu, k: nat, c1: Cpu, ex: Exits, m: nat, d: Cpu)
    requires s.For? && Exec(w.code, c, k) == Ran(c1) && Kept(w, c, c1, {s.name} + WritesBlock(s.body)) && c1.pc == c.pc && GenOk(w.g)
    requires ForDone(w, ret, s, r, ts, c1, ex, m, d)
    ensures ForDone(w, ret, s, r, ts, c, ex, k + m, d)
  {
    hide Exec, Kept, Does, WritesBlock, BlockLen, EnvAfter, GenOk;
    var ws := {s.name} + WritesBlock(s.body);
    DoesThen(w, ret, r, c, k, c1, c.pc + BlockLen(w.g, s.body) + 17, ex, ws, ws, false, m, d);
    assert ws + ws == ws;
  }

  /** From the end of the body, through the step, back to the test. */
  lemma NextCount(w: World, ret: Ty, s: Stmt, r: Run, current: i64, end: i64, step: i64, env: Env, ts: Types, c: Cpu, k: nat, c1: Cpu,
                  ex': Exits, m: nat, c2: Cpu, fuel: nat) returns (n: nat, d: Cpu)
    requires s.For? && fuel > 0 && ForReady(w, ret, s, current, end, step, env, ts, c, fuel)
    requires Exec(w.code, c, k) == Ran(c1) && Kept(w, c, c1, {}) && c1.pc == c.pc + 12
    requires ScopedDone(w, ret, s.body, r, ts + [map[s.name := TInt]], c1, ex', m, c2)
    requires ex' == InLoop(c.pc - w.base + BlockLen(w.g, s.body) + 17, c.pc - w.base + BlockLen(w.g, s.body) + 12)
    requires r.out.Ok? && r.env != [] && (r.out.value.Normal? || r.out.value.Continued?)
    requires EvalFor(w.cfg, s, Wrap(current + step), end, step, r.env, fuel - 1).out.Ok?
    ensures Exec(w.code, c, n) == Ran(d) && Kept(w, c, d, {s.name} + WritesBlock(s.body)) && d.pc == c.pc
    ensures ForReady(w, ret, s, Wrap(current + step), end, step, r.env, ts, d, fuel - 1)
  {
    hide ForReady, ScopedDone, EvalFor, Standing, BlockLen, WritesBlock, Counting, ForAt, CodeAt, GenBlock, BlockTyped, LowersBlock, Exec, Match, Define, Wrap, ForGuard, ForStep, GenOk, Kept;
    ForFacts(w, ret, s, current, end, step, env, ts, c, fuel);
    ForCodeAt(w, s, c);
    var x, ws, ts' := s.name, WritesBlock(s.body), ts + [map[s.name := TInt]];
    BodyEnds(w, ret, s.body, r, ts', c1, ex', m, c2);
    ExecThen(w.code, c, k, c1, m);
    KeptTrans(w, c, c1, c2, {}, ws);
    assert {} + ws == ws;
    StillCounting(w, x, c, c2, ws, current, end, step);
    var e := StepRuns(w, x, c2, current, end, step);
    var c3 := Stored(w, x, e);
    ExecThen(w.code, c, k + m, c2, 4);
    KeptTrans(w, c, c2, c3, ws, {x});
    assert ws + {x} == {x} + ws;
    d := ThenJump(w, c, k + m + 4, c3, {x} + ws, 0 - (BlockLen(w.g, s.body) + 16));
    n := k + m + 5;
    CountedEnv(w, s, r, current, step, env, current, ts, c, c2, e, c3, d, {x} + ws);
    StillAt(w, s, c, c3, d, Wrap(current + step), end, step);
    AssembleFor(w, ret, s, Wrap(current + step), end, step, r.env, ts, d, fuel - 1);
  }

  lemma BodyEnds(w: World, ret: Ty, body: seq<Stmt>, r: Run, ts: Types, c: Cpu, ex: Exits, m: nat, d: Cpu)
    requires ScopedDone(w, ret, body, r, ts, c, ex, m, d) && (r.out.value.Normal? || r.out.value.Continued?)
    requires ex.InLoop? && w.base + ex.cont == c.pc + BlockLen(w.g, body)
    ensures Exec(w.code, c, m) == Ran(d) && Kept(w, c, d, WritesBlock(body)) && d.pc == c.pc + BlockLen(w.g, body)
    ensures Match(r.env, ts, w.g.slots, d.mem, d.x[FP])
  {
    hide Exec, Kept, WritesBlock, BlockLen, Match, HasType, Word;
  }

  /** The next counter is in its slot, so the scopes with the next counter match. */
  lemma CountedEnv(w: World, s: Stmt, r: Run, current: i64, step: i64, env: Env, cur: i64, ts: Types, c: Cpu, c2: Cpu, e: Cpu, c3: Cpu, d: Cpu, ws: set<string>)
    requires s.For? && env != [] && Standing(w, Define(env, s.name, I64(cur)), ts + [map[s.name := TInt]], c)
    requires r.env != [] && Match(r.env, ts + [map[s.name := TInt]], w.g.slots, c2.mem, c2.x[FP]) && s.name in w.g.slots
    requires SameFrame(c2, e) && e.x[0] == Wrap(current + step) && c3 == Stored(w, s.name, e) && d == c3.(pc := d.pc) && Kept(w, c, c3, ws)
    ensures Standing(w, Define(r.env, s.name, I64(Wrap(current + step))), ts + [map[s.name := TInt]], d)
  {
    var x, ts' := s.name, ts + [map[s.name := TInt]];
    var env' := Define(env, x, I64(cur));
    StandingFacts(w, env', ts', c);
    hide Standing, Match, Kept, Wrap, GenOk;
    var v := I64(Wrap(current + step));
    CountedMatch(w, r.env, ts, x, v, c2, e);
    hide Distinct, Define;
    StandingAfter(w, env', ts', c, Define(r.env, x, v), ts', c3, ws);
    Moved(w, c, Define(r.env, x, v), ts', c3, d, ws);
  }

  lemma CountedMatch(w: World, env: Env, ts: Types, x: string, v: Value, c: Cpu, e: Cpu)
    requires env != [] && Match(env, ts + [map[x := TInt]], w.g.slots, c.mem, c.x[FP]) && x in w.g.slots && GenOk(w.g)
    requires Distinct(ts + [map[x := TInt]]) && SameFrame(c, e) && v.I64? && e.x[0] == Word(v)
    ensures Match(Define(env, x, v), ts + [map[x := TInt]], w.g.slots, Stored(w, x, e).mem, e.x[FP])
  {
    var ts' := ts + [map[x := TInt]];
    hide Match, GenOk;
    MatchSize(env, ts', w.g.slots, c.mem, c.x[FP]);
    assert x in ts'[|ts|];
    assert forall j :: 0 <= j < |ts'| && j != |ts| ==> x !in ts'[j];
    MatchStore(w, env, ts', e, |ts|, x, v, TInt);
    assert ts'[|ts|][x := TInt] == ts'[|ts|];
    assert ts'[|ts| := ts'[|ts|]] == ts';
  }

  lemma StillAt(w: World, s: Stmt, c: Cpu, c3: Cpu, d: Cpu, current: i64, end: i64, step: i64)
    requires s.For? && ForAt(w, s, c) && d.pc == c.pc && Counting(w, s.name, c3, current, end, step) && d == c3.(pc := d.pc)
    ensures ForAt(w, s, d) && Counting(w, s.name, d, current, end, step)
  {
    hide CodeAt, GenBlock, ForCode, BlockLen;
  }

  lemma AssembleFor(w: World, ret: Ty, s: Stmt, current: i64, end: i64, step: i64, env: Env, ts: Types, c: Cpu, fuel: nat)
    requires s.For? && env != [] && step != 0
    requires Standing(w, Define(env, s.name, I64(current)), ts + [map[s.name := TInt]], c) && Counting(w, s.name, c, current, end, step)
    requires BlockTyped(w.sigs, ret, ts + [map[s.name := TInt]] + [map[]], s.body) && LowersBlock(w.g.slots.Keys, w.callable, s.body, true)
    requires s.name !in WritesBlock(s.body) && EndName(s.name) !in WritesBlock(s.body) && StepName(s.name) !in WritesBlock(s.body)
    requires ForAt(w, s, c) && EvalFor(w.cfg, s, current, end, step, env, fuel).out.Ok?
    ensures ForReady(w, ret, s, current, end, step, env, ts, c, fuel)
  {
    hide Standing, Counting, BlockTyped, LowersBlock, WritesBlock, ForAt, EvalFor, Define;
  }

  // ---- The set-up of a range loop ----

  lemma RangeMeaning(w: World, ret: Ty, s: Stmt, env: Env, ts: Types, c: Cpu, ex: Exits, fuel: nat) returns (first: i64, last: i64, stride: i64)
    requires s.For? && StmtReady(w, ret, s, env, ts, c, ex, fuel)
    ensures Standing(w, env, ts, c) && StmtAt(w, s, ex, c) && ts != [] && env != []
    ensures Lowerable(w, s.start) && Lowerable(w, s.end) && Lowerable(w, StepExpr(s.step))
    ensures TypeOf(w.sigs, ts, s.start) == Some(TInt) && TypeOf(w.sigs, ts, s.end) == Some(TInt) && TypeOf(w.sigs, ts, StepExpr(s.step)) == Some(TInt)
    ensures EvalExpr(w.cfg, s.start, env) == Ok(I64(first)) && EvalExpr(w.cfg, s.end, env) == Ok(I64(last))
    ensures EvalExpr(w.cfg, StepExpr(s.step), env) == Ok(I64(stride)) && stride != 0
    ensures s.name in w.g.slots && EndName(s.name) in w.g.slots && StepName(s.name) in w.g.slots
    ensures !Bound(ts, s.name) && !Bound(ts, EndName(s.name)) && !Bound(ts, StepName(s.name))
    ensures s.name !in WritesBlock(s.body) && EndName(s.name) !in WritesBlock(s.body) && StepName(s.name) !in WritesBlock(s.body)
    ensures BlockTyped(w.sigs, ret, ts + [map[s.name := TInt]] + [map[]], s.body) && LowersBlock(w.g.slots.Keys, w.callable, s.body, true)
    ensures var r := EvalFor(w.cfg, s, first, last, stride, env + [map[s.name := I64(first)]], fuel);
            r.out.Ok? && EvalStmt(w.cfg, s, env, fuel) == Run(r.out, r.env[..|env|])
    ensures Writes(s) == {s.name, EndName(s.name), StepName(s.name)} + WritesBlock(s.body) && !Gives(w.sigs, ret, ts, s) && After(w.sigs, ts, s) == ts
  {
    hide Ready, EvalFor, EvalExpr, TypeOf, Distinct, GenOk, StmtAt, LowersExpr, LowersBlock, BlockTyped, WritesBlock, StepExpr;
    RangeStep(w.cfg, s.step, env);
    var b := EvalBounds(w.cfg, s.start, s.end, s.step, env).value;
    first, last, stride := b.0, b.1, b.2;
    hide Bound, Nearest;
  }

  lemma RangeStep(c: Cfg, step: Option<Expr>, env: Env)
    ensures EvalStep(c, step, env).Ok? ==> EvalExpr(c, StepExpr(step), env) == Ok(I64(EvalStep(c, step, env).value))
  {
  }

  lemma RangeAt(w: World, s: Stmt, ex: Exits, c: Cpu)
    requires s.For? && StmtAt(w, s, ex, c)
    ensures w.base <= c.pc
    ensures var pc := c.pc - w.base; var a, b, z := ExprLen(s.start) + 1, ExprLen(s.end) + 1, ExprLen(StepExpr(s.step)) + 1;
            && CodeAt(w.code, c.pc, GenExpr(w.g, s.start, pc)) && CodeAt(w.code, c.pc + a - 1, [StoreVar(w.g, s.name)])
            && CodeAt(w.code, c.pc + a, GenExpr(w.g, s.end, pc + a)) && CodeAt(w.code, c.pc + a + b - 1, [StoreVar(w.g, EndName(s.name))])
            && CodeAt(w.code, c.pc + a + b, GenExpr(w.g, StepExpr(s.step), pc + a + b))
            && CodeAt(w.code, c.pc + a + b + z - 1, [StoreVar(w.g, StepName(s.name))])
            && (forall d: Cpu :: d.pc == c.pc + a + b + z ==> ForAt(w, s, d)) && StmtLen(w.g, s) == a + b + z + BlockLen(w.g, s.body) + 17
  {
    hide CodeAt, GenStmt, GenBlock, GenExpr, ExprLen, BlockLen, StmtLen, ForCode, StepExpr;
    var pc := c.pc - w.base;
    ForShape(w.g, s, pc, ex);
    var x, a, b := s.name, ExprLen(s.start) + 1, ExprLen(s.end) + 1;
    var p := GenExpr(w.g, s.start, pc) + [StoreVar(w.g, x)];
    var q := GenExpr(w.g, s.end, pc + a) + [StoreVar(w.g, EndName(x))];
    var r := GenExpr(w.g, StepExpr(s.step), pc + a + b) + [StoreVar(w.g, StepName(x))];
    assert |p| == a && |q| == b;
    assert ForSetup(w.g, x, s.start, s.end, s.step, pc) == p + q + r;
    var top, len := pc + |p + q + r|, BlockLen(w.g, s.body);
    hide ForSetup;
    CodeSplit(w.code, c.pc, p + q + r, ForCode(w.g, x, GenBlock(w.g, s.body, top + 12, InLoop(top + len + 17, top + len + 12))));
    CodeSplit(w.code, c.pc, p + q, r);
    CodeSplit(w.code, c.pc, p, q);
    CodeSplit(w.code, c.pc, GenExpr(w.g, s.start, pc), [StoreVar(w.g, x)]);
    CodeSplit(w.code, c.pc + a, GenExpr(w.g, s.end, pc + a), [StoreVar(w.g, EndName(x))]);
    CodeSplit(w.code, c.pc + a + b, GenExpr(w.g, StepExpr(s.step), pc + a + b), [StoreVar(w.g, StepName(x))]);
  }

  /** A loop bound goes to a slot no binding uses. */
  lemma BoundRuns(w: World, e: Expr, x: string, k: i64, env: Env, ts: Types, c: Cpu, pc: nat) returns (n: nat, d: Cpu)
    requires Standing(w, env, ts, c) && Lowerable(w, e) && TypeOf(w.sigs, ts, e) == Some(TInt) && EvalExpr(w.cfg, e, env) == Ok(I64(k))
    requires x in w.g.slots && !Bound(ts, x) && c.pc == w.base + pc
    requires CodeAt(w.code, c.pc, GenExpr(w.g, e, pc)) && CodeAt(w.code, c.pc + ExprLen(e), [StoreVar(w.g, x)])
    ensures Exec(w.code, c, n) == Ran(d) && d.pc == c.pc + ExprLen(e) + 1 && Kept(w, c, d, {x})
    ensures Standing(w, env, ts, d) && Load(d.mem, SlotAddr(w, c, x)) == k
  {
    hide Standing, CodeAt, Exec, Match, EvalExpr, TypeOf, ExprLen, Lowerable, Ready, Kept, GenOk, GenExpr, Distinct, Computes, Bound, ExprAt;
    StandingFacts(w, env, ts, c);
    AtPosition(w, e, c, pc);
    var m, c1 := SimExpr(w, e, env, ts, TInt, c);
    ThenStore(w, env, ts, x, c, ExprLen(e), I64(k), m, c1);
    MatchHidden(w, env, ts, c1, x);
    n, d := m + 1, Stored(w, x, c1);
    StandingAfter(w, env, ts, c, env, ts, d, {x});
    assert Load(d.mem, SlotAddr(w, c1, x)) == c1.x[0];
  }

  lemma SetupRuns(w: World, s: Stmt, first: i64, last: i64, stride: i64, env: Env, ts: Types, c: Cpu, ex: Exits) returns (n: nat, d: Cpu)
    requires s.For? && Standing(w, env, ts, c) && StmtAt(w, s, ex, c)
    requires Lowerable(w, s.start) && Lowerable(w, s.end) && Lowerable(w, StepExpr(s.step))
    requires TypeOf(w.sigs, ts, s.start) == Some(TInt) && TypeOf(w.sigs, ts, s.end) == Some(TInt) && TypeOf(w.sigs, ts, StepExpr(s.step)) == Some(TInt)
    requires EvalExpr(w.cfg, s.start, env) == Ok(I64(first)) && EvalExpr(w.cfg, s.end, env) == Ok(I64(last))
    requires EvalExpr(w.cfg, StepExpr(s.step), env) == Ok(I64(stride))
    requires s.name in w.g.slots && EndName(s.name) in w.g.slots && StepName(s.name) in w.g.slots
    requires !Bound(ts, s.name) && !Bound(ts, EndName(s.name)) && !Bound(ts, StepName(s.name))
    ensures Exec(w.code, c, n) == Ran(d) && Kept(w, c, d, {s.name, EndName(s.name), StepName(s.name)})
    ensures Standing(w, env, ts, d) && Counting(w, s.name, d, first, last, stride)
    ensures d.pc == c.pc + ExprLen(s.start) + ExprLen(s.end) + ExprLen(StepExpr(s.step)) + 3
  {
    hide Standing, CodeAt, Exec, EvalExpr, TypeOf, ExprLen, Lowerable, Kept, GenExpr, Bound, StmtAt, ForAt, StepExpr, Load;
    var x := s.name;
    RangeAt(w, s, ex, c);
    var pc, a, b := c.pc - w.base, ExprLen(s.start) + 1, ExprLen(s.end) + 1;
    var n1, c1 := BoundRuns(w, s.start, x, first, env, ts, c, pc);
    var n2, c2 := BoundRuns(w, s.end, EndName(x), last, env, ts, c1, pc + a);
    var n3;
    n3, d := BoundRuns(w, StepExpr(s.step), StepName(x), stride, env, ts, c2, pc + a + b);
    ExecThen(w.code, c, n1, c1, n2);
    ExecThen(w.code, c, n1 + n2, c2, n3);
    n := n1 + n2 + n3;
    KeptTrans(w, c, c1, c2, {x}, {EndName(x)});
    KeptTrans(w, c, c2, d, {x} + {EndName(x)}, {StepName(x)});
    assert {x} + {EndName(x)} + {StepName(x)} == {x, EndName(x), StepName(x)};
    StandingFacts(w, env, ts, d);
    SetupCounts(w, x, first, last, stride, c, c1, c2, d);
  }

  lemma SetupCounts(w: World, x: string, first: i64, last: i64, stride: i64, c: Cpu, c1: Cpu, c2: Cpu, d: Cpu)
    requires x in w.g.slots && EndName(x) in w.g.slots && StepName(x) in w.g.slots && d.x[FP] % 16 == 0
    requires Kept(w, c, c1, {x}) && Kept(w, c1, c2, {EndName(x)}) && Kept(w, c2, d, {StepName(x)})
    requires Load(c1.mem, SlotAddr(w, c, x)) == first && Load(c2.mem, SlotAddr(w, c1, EndName(x))) == last
    requires Load(d.mem, SlotAddr(w, c2, StepName(x))) == stride
    ensures Counting(w, x, d, first, last, stride)
  {
    hide Load, Above;
    NamesApart(x);
    assert SlotAddr(w, d, x) == SlotAddr(w, c, x) == SlotAddr(w, c1, x) == SlotAddr(w, c2, x);
    assert x !in {EndName(x)} && x !in {StepName(x)} && EndName(x) !in {StepName(x)};
    assert Load(c2.mem, SlotAddr(w, c1, x)) == first;
    assert SlotAddr(w, d, EndName(x)) == SlotAddr(w, c1, EndName(x)) == SlotAddr(w, c2, EndName(x));
  }

  /** The loop variable's own scope. */
  lemma CounterScope(w: World, s: Stmt, first: i64, last: i64, stride: i64, env: Env, ts: Types, c: Cpu)
    requires s.For? && Standing(w, env, ts, c) && Counting(w, s.name, c, first, last, stride) && !Bound(ts, s.name)
    ensures Standing(w, Define(env + [map[s.name := I64(first)]], s.name, I64(first)), ts + [map[s.name := TInt]], c)
  {
    var x := s.name;
    StandingFacts(w, env, ts, c);
    hide Standing, Match, GenOk;
    var scope, tscope := map[x := I64(first)], map[x := TInt];
    assert MatchScope(scope, tscope, w.g.slots, c.mem, c.x[FP]);
    MatchPush(env, ts, w.g.slots, c.mem, c.x[FP], scope, tscope);
    DistinctPush(ts, tscope);
    hide Distinct;
    var env' := env + [scope];
    assert scope[x := I64(first)] == scope;
    assert Define(env', x, I64(first)) == env';
    Unmoved(w, c);
    StandingAfter(w, env, ts, c, env', ts + [tscope], c, {});
  }

  lemma Unmoved(w: World, c: Cpu)
    ensures Kept(w, c, c, {})
  {
  }

  lemma {:induction false} SimRange(w: World, ret: Ty, s: Stmt, env: Env, ts: Types, c: Cpu, ex: Exits, fuel: nat) returns (n: nat, d: Cpu)
    requires s.For? && StmtReady(w, ret, s, env, ts, c, ex, fuel)
    ensures ts != [] && StmtDone(w, ret, s, EvalStmt(w.cfg, s, env, fuel), ts, c, ex, n, d)
    decreases fuel, s, 1
  {
    hide StmtReady, StmtDone, EvalStmt, EvalFor, EvalExpr, TypeOf, Standing, StmtLen, BlockLen, ExprLen, Writes, WritesBlock, Gives, After;
    hide StmtAt, ExprAt, CodeAt, BlockTyped, LowersBlock, Lowerable, Kept, Exec, ForReady, ForDone, ForAt, Counting, Bound, StepExpr, Define;
    var first, last, stride := RangeMeaning(w, ret, s, env, ts, c, ex, fuel);
    RangeAt(w, s, ex, c);
    var k, c1 := SetupRuns(w, s, first, last, stride, env, ts, c, ex);
    CounterScope(w, s, first, last, stride, env, ts, c1);
    var env' := env + [map[s.name := I64(first)]];
    AssembleFor(w, ret, s, first, last, stride, env', ts, c1, fuel);
    var m;
    m, d := SimFor(w, ret, s, first, last, stride, env', ts, c1, ex, fuel);
    n := k + m;
    RangeDone(w, ret, s, EvalFor(w.cfg, s, first, last, stride, env', fuel), env, ts, c, ex, k, c1, m, d);
  }

  lemma RangeDone(w: World, ret: Ty, s: Stmt, r: Run, env: Env, ts: Types, c: Cpu, ex: Exits, k: nat, c1: Cpu, m: nat, d: Cpu)
    requires s.For? && Standing(w, env, ts, c) && ts != [] && Exec(w.code, c, k) == Ran(c1)
    requires Kept(w, c, c1, {s.name, EndName(s.name), StepName(s.name)}) && ForDone(w, ret, s, r, ts, c1, ex, m, d)
    requires c1.pc + BlockLen(w.g, s.body) + 17 == c.pc + StmtLen(w.g, s)
    requires Writes(s) == {s.name, EndName(s.name), StepName(s.name)} + WritesBlock(s.body) && !Gives(w.sigs, ret, ts, s) && After(w.sigs, ts, s) == ts
    ensures |r.env| > |env| && StmtDone(w, ret, s, Run(r.out, r.env[..|env|]), ts, c, ex, k + m, d)
  {
    hide Standing, Exec, Kept, Does, WritesBlock, BlockLen, EnvAfter, GenOk, Writes, Gives, After, StmtLen, Ready, Distinct, Match;
    StandingFacts(w, env, ts, c);
    var goal := c.pc + StmtLen(w.g, s);
    var ws, us := {s.name, EndName(s.name), StepName(s.name)}, {s.name} + WritesBlock(s.body);
    DoesThen(w, ret, r, c, k, c1, goal, ex, ws, us, false, m, d);
    DoesMore(w, ret, r, c, goal, ex, ws + us, Writes(s), false, k + m, d);
    DoesEnv(w, ret, r, r.env[..|env|], c, goal, ex, Writes(s), false, k + m, d);
  }
}

/** Forward simulation of the statements without bodies. */
module A64SimSimple {
  import opened Words
  import opened Ir
  import opened Eval
  import opened A64Isa
  import opened A64Machine
  import opened A64Idioms
  import opened A64Gen
  import opened A64Typing
  import opened A64Exprs
  import opened A64SimExpr
  import opened A64Frame

  ghost predicate StmtAt(w: World, s: Stmt, ex: Exits, c: Cpu) {
    w.base <= c.pc && CodeAt(w.code, c.pc, GenStmt(w.g, s, c.pc - w.base, ex))
  }

  predicate LowerableStmt(w: World, s: Stmt, ex: Exits) { LowersStmt(w.g.slots.Keys, w.callable, s, ex.InLoop?) }

  ghost predicate StmtReady(w: World, ret: Ty, s: Stmt, env: Env, ts: Types, c: Cpu, ex: Exits, fuel: nat) {
    && Standing(w, env, ts, c) && StmtTyped(w.sigs, ret, ts, s) && LowerableStmt(w, s, ex) && StmtAt(w, s, ex, c)
    && EvalStmt(w.cfg, s, env, fuel).out.Ok?
  }

  ghost predicate StmtDone(w: World, ret: Ty, s: Stmt, r: Run, ts: Types, c: Cpu, ex: Exits, n: nat, d: Cpu)
    requires ts != []
  {
    && Does(w, ret, r, c, c.pc + StmtLen(w.g, s), ex, Writes(s), Gives(w.sigs, ret, ts, s), n, d)
    && EnvAfter(w, r, ts, After(w.sigs, ts, s), d)
  }

  lemma StandingFacts(w: World, env: Env, ts: Types, c: Cpu)
    requires Standing(w, env, ts, c)
    ensures ts != [] && env != [] && |env| == |ts| && GenOk(w.g) && Distinct(ts) && !w.cfg.moves
    ensures Ready(w, env, ts, c) && c.sp == c.x[FP] && c.x[FP] % 16 == 0 && w.g.size % 16 == 0
    ensures Match(env, ts, w.g.slots, c.mem, c.x[FP])
  {
  }

  // ---- let and plain assignment ----

  lemma StoreAt(w: World, s: Stmt, ex: Exits, c: Cpu)
    requires StmtAt(w, s, ex, c) && (s.Let? || (s.Assign? && s.op == Replace))
    ensures ExprAt(w, s.value, c) && CodeAt(w.code, c.pc + ExprLen(s.value), [StoreVar(w.g, s.name)])
    ensures StmtLen(w.g, s) == ExprLen(s.value) + 1
  {
    hide CodeAt, GenStmt, GenExpr, ExprLen, StmtLen, StoreVar;
    StoreShape(w.g, s, c.pc - w.base, ex);
    CodeSplit(w.code, c.pc, GenExpr(w.g, s.value, c.pc - w.base), [StoreVar(w.g, s.name)]);
  }

  /** A computed value is stored. */
  lemma ThenStore(w: World, env: Env, ts: Types, x: string, c: Cpu, len: nat, v: Value, k: nat, c1: Cpu)
    requires Standing(w, env, ts, c) && Computes(w.code, c, len, v, k, c1) && x in w.g.slots
    requires CodeAt(w.code, c.pc + len, [StoreVar(w.g, x)])
    ensures Exec(w.code, c, k + 1) == Ran(Stored(w, x, c1)) && Kept(w, c, Stored(w, x, c1), {x})
    ensures Match(env, ts, w.g.slots, c1.mem, c1.x[FP]) && Stored(w, x, c1).pc == c.pc + len + 1
    ensures c1.x[FP] == c.x[FP] && c1.x[0] == Word(v)
  {
    hide Standing, CodeAt, Exec, Match, Kept, GenOk, Above, Word, Ready;
    ComputesKept(w, env, ts, c, len, v, k, c1);
    StandingFacts(w, env, ts, c1);
    StoreRuns(w, x, c1);
    ExecThen(w.code, c, k, c1, 1);
    KeptTrans(w, c, c1, Stored(w, x, c1), {}, {x});
    assert {} + {x} == {x};
  }

  /** The value is computed and stored. */
  lemma ComputeStore(w: World, s: Stmt, env: Env, ts: Types, t: Ty, c: Cpu, ex: Exits) returns (n: nat, c1: Cpu)
    requires Standing(w, env, ts, c) && StmtAt(w, s, ex, c) && (s.Let? || (s.Assign? && s.op == Replace))
    requires Lowerable(w, s.value) && s.name in w.g.slots
    requires TypeOf(w.sigs, ts, s.value) == Some(t) && EvalExpr(w.cfg, s.value, env).Ok?
    ensures Exec(w.code, c, n) == Ran(Stored(w, s.name, c1)) && Kept(w, c, Stored(w, s.name, c1), {s.name})
    ensures c1.x[0] == Word(EvalExpr(w.cfg, s.value, env).value) && HasType(EvalExpr(w.cfg, s.value, env).value, t)
    ensures Match(env, ts, w.g.slots, c1.mem, c1.x[FP]) && Stored(w, s.name, c1).pc == c.pc + StmtLen(w.g, s)
    ensures c1.x[FP] == c.x[FP]
  {
    hide Standing, CodeAt, Exec, StmtAt, ExprAt, Match, EvalExpr, TypeOf, HasType, Ready, StmtLen, ExprLen, Kept, Lowerable, GenOk, Computes;
    StandingFacts(w, env, ts, c);
    StoreAt(w, s, ex, c);
    var k;
    k, c1 := SimExpr(w, s.value, env, ts, t, c);
    ThenStore(w, env, ts, s.name, c, ExprLen(s.value), EvalExpr(w.cfg, s.value, env).value, k, c1);
    n := k + 1;
  }

  lemma LetMeaning(w: World, ret: Ty, x: string, e: Expr, env: Env, ts: Types, c: Cpu, ex: Exits, fuel: nat)
    requires StmtReady(w, ret, Let(x, e), env, ts, c, ex, fuel)
    ensures Standing(w, env, ts, c) && StmtAt(w, Let(x, e), ex, c) && Lowerable(w, e) && x in w.g.slots && ts != [] && env != []
    ensures TypeOf(w.sigs, ts, e).Some? && !Bound(ts[..|ts| - 1], x) && EvalExpr(w.cfg, e, env).Ok?
    ensures EvalStmt(w.cfg, Let(x, e), env, fuel) == Run(Ok(Normal(Void)), Define(env, x, EvalExpr(w.cfg, e, env).value))
    ensures After(w.sigs, ts, Let(x, e)) == Define(ts, x, TypeOf(w.sigs, ts, e).value) && Writes(Let(x, e)) == {x}
    ensures !Gives(w.sigs, ret, ts, Let(x, e))
  {
    hide Ready, StmtAt, EvalExpr, TypeOf, GenOk, Distinct;
  }

  lemma SimLet(w: World, ret: Ty, x: string, e: Expr, env: Env, ts: Types, c: Cpu, ex: Exits, fuel: nat) returns (n: nat, d: Cpu)
    requires StmtReady(w, ret, Let(x, e), env, ts, c, ex, fuel)
    ensures ts != [] && StmtDone(w, ret, Let(x, e), EvalStmt(w.cfg, Let(x, e), env, fuel), ts, c, ex, n, d)
  {
    hide Standing, Exec, StmtAt, Match, EvalExpr, TypeOf, HasType, StmtLen, Kept, Lowerable, GenOk, EvalStmt, StmtReady, After, Writes, Gives, Word, Distinct, Bound;
    LetMeaning(w, ret, x, e, env, ts, c, ex, fuel);
    StandingFacts(w, env, ts, c);
    var t, v := TypeOf(w.sigs, ts, e).value, EvalExpr(w.cfg, e, env).value;
    var c1;
    n, c1 := ComputeStore(w, Let(x, e), env, ts, t, c, ex);
    d := Stored(w, x, c1);
    DistinctDefine(ts, x, t);
    MatchStore(w, env, ts, c1, |ts| - 1, x, v, t);
  }

  lemma AssignMeaning(w: World, ret: Ty, s: Stmt, env: Env, ts: Types, c: Cpu, ex: Exits, fuel: nat)
    requires s.Assign? && s.op == Replace && StmtReady(w, ret, s, env, ts, c, ex, fuel)
    ensures Standing(w, env, ts, c) && StmtAt(w, s, ex, c) && Lowerable(w, s.value) && s.name in w.g.slots && ts != [] && env != []
    ensures Lookup(ts, s.name).Some? && TypeOf(w.sigs, ts, s.value) == Lookup(ts, s.name) && EvalExpr(w.cfg, s.value, env).Ok?
    ensures EvalStmt(w.cfg, s, env, fuel) == StoreTo(s.name, EvalExpr(w.cfg, s.value, env).value, env)
    ensures After(w.sigs, ts, s) == ts && Writes(s) == {s.name} && !Gives(w.sigs, ret, ts, s)
  {
    hide Ready, StmtAt, EvalExpr, TypeOf, GenOk, Distinct, StoreTo;
  }

  /** The new value in the nearest scope that binds `x`. */
  lemma MatchAssign(w: World, env: Env, ts: Types, c: Cpu, x: string, v: Value)
    requires GenOk(w.g) && Distinct(ts) && Match(env, ts, w.g.slots, c.mem, c.x[FP]) && Lookup(ts, x).Some?
    requires HasType(v, Lookup(ts, x).value) && c.x[0] == Word(v)
    ensures x in w.g.slots && StoreTo(x, v, env) == Run(Ok(Normal(Void)), Update(env, x, v))
    ensures Match(Update(env, x, v), ts, w.g.slots, Stored(w, x, c).mem, c.x[FP])
  {
    hide Match, GenOk, HasType, Word;
    MatchLookup(env, ts, w.g.slots, c.mem, c.x[FP], x);
    MatchSize(env, ts, w.g.slots, c.mem, c.x[FP]);
    var k := Nearest(env, x).value;
    assert x in ts[k];
    assert forall j :: 0 <= j < |ts| && j != k ==> x !in ts[j];
    MatchStore(w, env, ts, c, k, x, v, Lookup(ts, x).value);
    assert Lookup(ts, x).value == ts[k][x];
    assert ts[k][x := ts[k][x]] == ts[k];
    assert ts[k := ts[k]] == ts;
  }

  lemma SimAssign(w: World, ret: Ty, s: Stmt, env: Env, ts: Types, c: Cpu, ex: Exits, fuel: nat) returns (n: nat, d: Cpu)
    requires s.Assign? && s.op == Replace && StmtReady(w, ret, s, env, ts, c, ex, fuel)
    ensures ts != [] && StmtDone(w, ret, s, EvalStmt(w.cfg, s, env, fuel), ts, c, ex, n, d)
  {
    hide Standing, Exec, StmtAt, Match, EvalExpr, TypeOf, HasType, StmtLen, Kept, Lowerable, GenOk, EvalStmt, StmtReady, After, Writes, Gives, Word, StoreTo, Lookup, Distinct;
    AssignMeaning(w, ret, s, env, ts, c, ex, fuel);
    StandingFacts(w, env, ts, c);
    var t, v := TypeOf(w.sigs, ts, s.value).value, EvalExpr(w.cfg, s.value, env).value;
    var c1;
    n, c1 := ComputeStore(w, s, env, ts, t, c, ex);
    d := Stored(w, s.name, c1);
    MatchAssign(w, env, ts, c1, s.name, v);
  }

  // ---- Compound assignment ----

  lemma CompoundAt(w: World, x: string, op: AssignOp, e: Expr, ex: Exits, c: Cpu)
    requires op != Replace && StmtAt(w, Assign(x, op, e), ex, c)
    ensures w.base <= c.pc
    ensures CodeAt(w.code, c.pc, StrictCode(AssignBinop(op), [LoadVar(w.g, 0, x)], GenExpr(w.g, e, c.pc - w.base + 2)))
    ensures CodeAt(w.code, c.pc, [LoadVar(w.g, 0, x)]) && CodeAt(w.code, c.pc + 2, GenExpr(w.g, e, c.pc - w.base + 2))
    ensures CodeAt(w.code, c.pc + ExprLen(e) + 4 + |OpCode(AssignBinop(op))|, [StoreVar(w.g, x)])
    ensures StmtLen(w.g, Assign(x, op, e)) == ExprLen(e) + 5 + |OpCode(AssignBinop(op))|
  {
    hide CodeAt, GenStmt, GenExpr, ExprLen, StmtLen, StoreVar, LoadVar, StrictCode, OpCode;
    var lc, rc := [LoadVar(w.g, 0, x)], GenExpr(w.g, e, c.pc - w.base + 2);
    CompoundShape(w.g, x, op, e, c.pc - w.base, ex);
    CodeSplit(w.code, c.pc, StrictCode(AssignBinop(op), lc, rc), [StoreVar(w.g, x)]);
    StrictParts(w.code, c.pc, AssignBinop(op), lc, rc);
  }

  lemma CompoundMeaning(w: World, ret: Ty, s: Stmt, env: Env, ts: Types, c: Cpu, ex: Exits, fuel: nat)
    requires s.Assign? && s.op != Replace && StmtReady(w, ret, s, env, ts, c, ex, fuel)
    ensures Standing(w, env, ts, c) && StmtAt(w, s, ex, c) && Lowerable(w, s.value) && s.name in w.g.slots && ts != [] && env != []
    ensures Lookup(ts, s.name) == Some(TInt) && TypeOf(w.sigs, ts, s.value) == Some(TInt) && EvalExpr(w.cfg, s.value, env).Ok?
    ensures Lookup(env, s.name).Some?
    ensures var w' := ApplyCompound(Lookup(env, s.name).value, s.op, EvalExpr(w.cfg, s.value, env).value);
            w'.Ok? && EvalStmt(w.cfg, s, env, fuel) == StoreTo(s.name, w'.value, env)
    ensures After(w.sigs, ts, s) == ts && Writes(s) == {s.name} && !Gives(w.sigs, ret, ts, s)
  {
    hide Ready, StmtAt, EvalExpr, TypeOf, GenOk, Distinct, StoreTo, ApplyCompound;
  }

  lemma CompoundIs(cur: Value, op: AssignOp, rhs: Value)
    requires op != Replace && cur.I64? && rhs.I64? && ApplyCompound(cur, op, rhs).Ok?
    ensures EvalBinary(cur, AssignBinop(op), rhs) == ApplyCompound(cur, op, rhs) && ApplyCompound(cur, op, rhs).value.I64?
    ensures SameType(cur, rhs) && AssignBinop(op) != And && AssignBinop(op) != Or
  {
    hide Wrap, WrappingDiv, WrappingRem;
  }

  /** Load, push, compute, combine: the updated value in `x0`. */
  lemma CompoundRuns(w: World, x: string, op: AssignOp, e: Expr, env: Env, ts: Types, c: Cpu, ex: Exits) returns (n: nat, d: Cpu)
    requires op != Replace && Standing(w, env, ts, c) && StmtAt(w, Assign(x, op, e), ex, c) && Lowerable(w, e) && x in w.g.slots
    requires Lookup(ts, x) == Some(TInt) && TypeOf(w.sigs, ts, e) == Some(TInt) && EvalExpr(w.cfg, e, env).Ok? && Lookup(env, x).Some?
    requires ApplyCompound(Lookup(env, x).value, op, EvalExpr(w.cfg, e, env).value).Ok?
    ensures Computes(w.code, c, ExprLen(e) + 4 + |OpCode(AssignBinop(op))|,
                     ApplyCompound(Lookup(env, x).value, op, EvalExpr(w.cfg, e, env).value).value, n, d)
    ensures ApplyCompound(Lookup(env, x).value, op, EvalExpr(w.cfg, e, env).value).value.I64?
  {
    hide Standing, CodeAt, Exec, StmtAt, ExprAt, Match, EvalExpr, TypeOf, Ready, ExprLen, Lowerable, GenOk, Above, EvalBinary, ApplyCompound, StrictCode, OpCode, GenExpr, AssignBinop;
    StandingFacts(w, env, ts, c);
    CompoundAt(w, x, op, e, ex, c);
    var cur, rhs := Lookup(env, x).value, EvalExpr(w.cfg, e, env).value;
    MatchLookup(env, ts, w.g.slots, c.mem, c.x[FP], x);
    var c1 := LoadRuns(w.code, w.g, 0, x, c);
    LoadComputes(w, env, x, c, c1);
    PushedReady(w, env, ts, c, 1, cur, 1, c1);
    AtPosition(w, e, Pushed(c1), c.pc - w.base + 2);
    var n2, c3 := SimExpr(w, e, env, ts, TInt, Pushed(c1));
    CompoundIs(cur, op, rhs);
    n, d := StrictRuns(w.code, AssignBinop(op), cur, rhs, [LoadVar(w.g, 0, x)], GenExpr(w.g, e, c.pc - w.base + 2), c, 1, c1, n2, c3);
  }

  lemma LoadComputes(w: World, env: Env, x: string, c: Cpu, c1: Cpu)
    requires x in w.g.slots && Lookup(env, x).Some? && Load(c.mem, c.x[FP] + 8 * w.g.slots[x]) == Word(Lookup(env, x).value)
    requires Exec(w.code, c, 1) == Ran(c1) && c1 == Regs3(c, c.x[0 := Load(c.mem, c.x[FP] + 8 * w.g.slots[x])], 1)
    ensures Computes(w.code, c, 1, Lookup(env, x).value, 1, c1)
  {
    hide Exec, Word, Load, Lookup;
  }

  /** Then the store, and the variable holds it. */
  lemma CombineStore(w: World, x: string, op: AssignOp, e: Expr, env: Env, ts: Types, c: Cpu, ex: Exits) returns (n: nat, c1: Cpu)
    requires op != Replace && Standing(w, env, ts, c) && StmtAt(w, Assign(x, op, e), ex, c) && Lowerable(w, e) && x in w.g.slots
    requires Lookup(ts, x) == Some(TInt) && TypeOf(w.sigs, ts, e) == Some(TInt) && EvalExpr(w.cfg, e, env).Ok? && Lookup(env, x).Some?
    requires ApplyCompound(Lookup(env, x).value, op, EvalExpr(w.cfg, e, env).value).Ok?
    ensures Exec(w.code, c, n) == Ran(Stored(w, x, c1)) && Kept(w, c, Stored(w, x, c1), {x})
    ensures Stored(w, x, c1).pc == c.pc + StmtLen(w.g, Assign(x, op, e))
    ensures var v := ApplyCompound(Lookup(env, x).value, op, EvalExpr(w.cfg, e, env).value).value;
            StoreTo(x, v, env) == Run(Ok(Normal(Void)), Update(env, x, v)) && Match(Update(env, x, v), ts, w.g.slots, Stored(w, x, c1).mem, c1.x[FP])
  {
    hide Standing, Exec, StmtAt, Match, EvalExpr, TypeOf, StmtLen, ExprLen, Kept, Lowerable, GenOk, StoreTo, Lookup, ApplyCompound, CodeAt,
      OpCode, Above, Distinct, Computes, Word, Update, GenExpr, StrictCode, LoadVar, StoreVar, Ready, Stored;
    StandingFacts(w, env, ts, c);
    CompoundAt(w, x, op, e, ex, c);
    var v := ApplyCompound(Lookup(env, x).value, op, EvalExpr(w.cfg, e, env).value).value;
    var k;
    k, c1 := CompoundRuns(w, x, op, e, env, ts, c, ex);
    ThenStore(w, env, ts, x, c, ExprLen(e) + 4 + |OpCode(AssignBinop(op))|, v, k, c1);
    n := k + 1;
    MatchAssign(w, env, ts, c1, x, v);
  }

  lemma SimCompound(w: World, ret: Ty, s: Stmt, env: Env, ts: Types, c: Cpu, ex: Exits, fuel: nat) returns (n: nat, d: Cpu)
    requires s.Assign? && s.op != Replace && StmtReady(w, ret, s, env, ts, c, ex, fuel)
    ensures ts != [] && StmtDone(w, ret, s, EvalStmt(w.cfg, s, env, fuel), ts, c, ex, n, d)
  {
    hide Standing, Exec, StmtAt, Match, EvalExpr, TypeOf, StmtLen, ExprLen, Kept, Lowerable, GenOk, EvalStmt, StmtReady, After, Writes, Gives,
      StoreTo, Lookup, ApplyCompound, Update;
    CompoundMeaning(w, ret, s, env, ts, c, ex, fuel);
    var c1;
    n, c1 := CombineStore(w, s.name, s.op, s.value, env, ts, c, ex);
    d := Stored(w, s.name, c1);
  }

  // ---- return, expression statements, break, continue ----

  lemma ReturnAt(w: World, e: Expr, ex: Exits, c: Cpu)
    requires StmtAt(w, Return(Some(e)), ex, c)
    ensures ExprAt(w, e, c) && CodeAt(w.code, c.pc + ExprLen(e), Epilogue(w.g))
  {
    hide CodeAt, GenStmt, GenExpr, ExprLen, Epilogue;
    ReturnShape(w.g, e, c.pc - w.base, ex);
    CodeSplit(w.code, c.pc, GenExpr(w.g, e, c.pc - w.base), Epilogue(w.g));
  }

  lemma ValueMeaning(w: World, ret: Ty, s: Stmt, e: Expr, env: Env, ts: Types, c: Cpu, ex: Exits, fuel: nat)
    requires (s == Return(Some(e)) || s == ExprStmt(e)) && StmtReady(w, ret, s, env, ts, c, ex, fuel)
    ensures Standing(w, env, ts, c) && StmtAt(w, s, ex, c) && Lowerable(w, e) && ts != [] && env != []
    ensures TypeOf(w.sigs, ts, e).Some? && EvalExpr(w.cfg, e, env).Ok? && (s.Return? ==> TypeOf(w.sigs, ts, e) == Some(ret))
    ensures EvalStmt(w.cfg, s, env, fuel)
         == Run(Ok(if s.Return? then Returned(EvalExpr(w.cfg, e, env).value) else Normal(EvalExpr(w.cfg, e, env).value)), env)
    ensures After(w.sigs, ts, s) == ts && Writes(s) == {} && (s.ExprStmt? ==> Gives(w.sigs, ret, ts, s) == (TypeOf(w.sigs, ts, e) == Some(ret)))
  {
    hide Ready, StmtAt, EvalExpr, TypeOf, GenOk, Distinct;
  }

  lemma SimReturn(w: World, ret: Ty, e: Expr, env: Env, ts: Types, c: Cpu, ex: Exits, fuel: nat) returns (n: nat, d: Cpu)
    requires StmtReady(w, ret, Return(Some(e)), env, ts, c, ex, fuel)
    ensures ts != [] && StmtDone(w, ret, Return(Some(e)), EvalStmt(w.cfg, Return(Some(e)), env, fuel), ts, c, ex, n, d)
  {
    hide Standing, Exec, StmtAt, Match, EvalExpr, TypeOf, StmtLen, ExprLen, Lowerable, GenOk, EvalStmt, StmtReady, After, Writes, Gives, CodeAt, Word, Ready, HasType, Epilogue, ExprAt, Distinct;
    ValueMeaning(w, ret, Return(Some(e)), e, env, ts, c, ex, fuel);
    StandingFacts(w, env, ts, c);
    ReturnAt(w, e, ex, c);
    var v := EvalExpr(w.cfg, e, env).value;
    var k, c1 := SimExpr(w, e, env, ts, ret, c);
    var m;
    m, d := EpilogueRuns(w, c1);
    ExecThen(w.code, c, k, c1, m);
    n := k + m;
    var a := c.x[FP] + w.g.size;
    AboveLess(c.mem, c1.mem, c.sp, a);
    AboveAt(c.mem, c1.mem, a, a);
    AboveAt(c.mem, c1.mem, a, a + 8);
  }

  lemma ExprStmtAt(w: World, e: Expr, ex: Exits, c: Cpu)
    requires StmtAt(w, ExprStmt(e), ex, c)
    ensures ExprAt(w, e, c) && StmtLen(w.g, ExprStmt(e)) == ExprLen(e)
  {
    hide CodeAt, GenExpr, ExprLen;
  }

  lemma SimExprStmt(w: World, ret: Ty, e: Expr, env: Env, ts: Types, c: Cpu, ex: Exits, fuel: nat) returns (n: nat, d: Cpu)
    requires StmtReady(w, ret, ExprStmt(e), env, ts, c, ex, fuel)
    ensures ts != [] && StmtDone(w, ret, ExprStmt(e), EvalStmt(w.cfg, ExprStmt(e), env, fuel), ts, c, ex, n, d)
  {
    hide Standing, Exec, StmtAt, Match, EvalExpr, TypeOf, StmtLen, ExprLen, Lowerable, GenOk, EvalStmt, StmtReady, After, Writes, Gives, CodeAt, Word, Ready, HasType, ExprAt, Kept, Above, Distinct;
    ValueMeaning(w, ret, ExprStmt(e), e, env, ts, c, ex, fuel);
    StandingFacts(w, env, ts, c);
    ExprStmtAt(w, e, ex, c);
    var v := EvalExpr(w.cfg, e, env).value;
    n, d := SimExpr(w, e, env, ts, TypeOf(w.sigs, ts, e).value, c);
    ComputesKept(w, env, ts, c, ExprLen(e), v, n, d);
    StandingFacts(w, env, ts, d);
  }

  lemma JumpAt(w: World, s: Stmt, ex: Exits, c: Cpu)
    requires StmtAt(w, s, ex, c) && ex.InLoop? && (s.Break? || s.Continue?)
    ensures CodeAt(w.code, c.pc, [B((if s.Break? then ex.brk else ex.cont) - (c.pc - w.base))])
  {
    hide CodeAt;
  }

  lemma SimJump(w: World, ret: Ty, s: Stmt, env: Env, ts: Types, c: Cpu, ex: Exits, fuel: nat) returns (n: nat, d: Cpu)
    requires (s.Break? || s.Continue?) && StmtReady(w, ret, s, env, ts, c, ex, fuel)
    ensures ts != [] && StmtDone(w, ret, s, EvalStmt(w.cfg, s, env, fuel), ts, c, ex, n, d)
  {
    StandingFacts(w, env, ts, c);
    JumpAt(w, s, ex, c);
    hide Standing, StmtAt, Match, GenOk, CodeAt, Ready, Distinct, Exec;
    var off := (if s.Break? then ex.brk else ex.cont) - (c.pc - w.base);
    d := c.(pc := c.pc + off);
    One(w.code, c, B(off), d);
    n := 1;
  }
}

/** What a statement's code may do to the machine, and the effect of storing a local. */
module A64Frame {
  import opened Ir
  import opened Eval
  import opened A64Isa
  import opened A64Machine
  import opened A64Idioms
  import opened A64Gen
  import opened A64Typing
  import opened A64Exprs

  /** Slots are distinct words of a locals region that keeps the stack aligned. */
  ghost predicate GenOk(g: Gen) {
    && g.size % 16 == 0 && (forall x :: x in g.slots ==> 8 * g.slots[x] + 8 <= g.size)
    && forall x, y :: x in g.slots && y in g.slots && x != y ==> g.slots[x] != g.slots[y]
  }

  /** Between statements: nothing is pushed, and every binding is in its slot. */
  ghost predicate Standing(w: World, env: Env, ts: Types, c: Cpu) {
    && Ready(w, env, ts, c) && c.sp == c.x[FP] && GenOk(w.g) && Distinct(ts) && ts != [] && env != [] && !w.cfg.moves
  }

  function SlotAddr(w: World, c: Cpu, x: string): int { c.x[FP] + 8 * Slot(w.g, x) }

  /** The frame is where it was, the caller's memory is untouched, and of the locals only those
      in `ws` may have changed. */
  ghost predicate Kept(w: World, c: Cpu, d: Cpu, ws: set<string>) {
    && d.sp == c.sp && d.x[FP] == c.x[FP] && Above(c.mem, d.mem, c.x[FP] + w.g.size)
    && forall x :: x in w.g.slots && x !in ws ==> Load(d.mem, SlotAddr(w, c, x)) == Load(c.mem, SlotAddr(w, c, x))
  }

  lemma KeptTrans(w: World, c: Cpu, c1: Cpu, d: Cpu, ws: set<string>, us: set<string>)
    requires Kept(w, c, c1, ws) && Kept(w, c1, d, us)
    ensures Kept(w, c, d, ws + us)
  {
    AboveTrans(c.mem, c1.mem, d.mem, c.x[FP] + w.g.size, c.x[FP] + w.g.size);
    hide Above;
    forall x | x in w.g.slots && x !in ws + us ensures Load(d.mem, SlotAddr(w, c, x)) == Load(c.mem, SlotAddr(w, c, x)) {
      assert Load(c1.mem, SlotAddr(w, c, x)) == Load(c.mem, SlotAddr(w, c, x));
      assert SlotAddr(w, c1, x) == SlotAddr(w, c, x);
    }
  }

  lemma KeptMore(w: World, c: Cpu, d: Cpu, ws: set<string>, us: set<string>)
    requires Kept(w, c, d, ws) && ws <= us
    ensures Kept(w, c, d, us)
  {
    hide Above;
  }

  lemma ComputesKept(w: World, env: Env, ts: Types, c: Cpu, len: nat, v: Value, n: nat, d: Cpu)
    requires Standing(w, env, ts, c) && Computes(w.code, c, len, v, n, d)
    ensures Kept(w, c, d, {}) && Standing(w, env, ts, d)
  {
    hide Exec, Match, CallsWork, BuiltinsWork, Distinct, GenOk;
    ReadyAfter(w, env, ts, c, d);
    forall x | x in w.g.slots ensures Load(d.mem, SlotAddr(w, c, x)) == Load(c.mem, SlotAddr(w, c, x)) {
      AboveAt(c.mem, d.mem, c.sp, SlotAddr(w, c, x));
    }
  }

  lemma StandingAfter(w: World, env: Env, ts: Types, c: Cpu, env': Env, ts': Types, d: Cpu, ws: set<string>)
    requires Standing(w, env, ts, c) && Kept(w, c, d, ws)
    requires Match(env', ts', w.g.slots, d.mem, d.x[FP]) && Distinct(ts') && ts' != []
    ensures Standing(w, env', ts', d)
  {
    hide Match, CallsWork, BuiltinsWork, Distinct, GenOk, Above;
    assert |env'| == |ts'| by { MatchSize(env', ts', w.g.slots, d.mem, d.x[FP]); }
  }

  lemma MatchSize(env: Env, ts: Types, slots: map<string, nat>, m: map<int, int>, fp: int)
    requires Match(env, ts, slots, m, fp)
    ensures |env| == |ts|
  {
  }

  // ---- Storing locals ----

  function Stored(w: World, x: string, c: Cpu): Cpu { c.(mem := c.mem[SlotAddr(w, c, x) := c.x[0]], pc := c.pc + 1) }

  lemma StoreRuns(w: World, x: string, c: Cpu)
    requires GenOk(w.g) && x in w.g.slots && CodeAt(w.code, c.pc, [StoreVar(w.g, x)]) && c.x[FP] % 16 == 0
    ensures Exec(w.code, c, 1) == Ran(Stored(w, x, c)) && Kept(w, c, Stored(w, x, c), {x})
    ensures Load(Stored(w, x, c).mem, SlotAddr(w, c, x)) == c.x[0]
  {
    hide CodeAt, Do;
    StoreDoes(w, x, c);
    One(w.code, c, StoreVar(w.g, x), Stored(w, x, c));
    hide Exec;
    var d := Stored(w, x, c);
    forall y | y in w.g.slots && y !in {x} ensures Load(d.mem, SlotAddr(w, c, y)) == Load(c.mem, SlotAddr(w, c, y)) {
      assert w.g.slots[y] != w.g.slots[x];
    }
  }

  lemma StoreDoes(w: World, x: string, c: Cpu)
    requires x in w.g.slots && c.x[FP] % 16 == 0
    ensures Do(StoreVar(w.g, x), c) == Ran(Stored(w, x, c))
  {
  }

  /** Binding `x` in scope `k` while no other scope has it. */
  lemma MatchStore(w: World, env: Env, ts: Types, c: Cpu, k: nat, x: string, v: Value, t: Ty)
    requires GenOk(w.g) && Match(env, ts, w.g.slots, c.mem, c.x[FP]) && k < |env| && x in w.g.slots
    requires HasType(v, t) && c.x[0] == Word(v) && forall j :: 0 <= j < |ts| && j != k ==> x !in ts[j]
    ensures Match(env[k := env[k][x := v]], ts[k := ts[k][x := t]], w.g.slots, Stored(w, x, c).mem, c.x[FP])
  {
    var env', ts', m := env[k := env[k][x := v]], ts[k := ts[k][x := t]], Stored(w, x, c).mem;
    forall j | 0 <= j < |env'| ensures MatchScope(env'[j], ts'[j], w.g.slots, m, c.x[FP]) {
      assert MatchScope(env[j], ts[j], w.g.slots, c.mem, c.x[FP]);
      StoreScope(w, env[j], ts[j], c, x, v, t, j == k);
    }
  }

  lemma StoreScope(w: World, scope: map<string, Value>, ts: map<string, Ty>, c: Cpu, x: string, v: Value, t: Ty, owner: bool)
    requires GenOk(w.g) && MatchScope(scope, ts, w.g.slots, c.mem, c.x[FP]) && x in w.g.slots
    requires HasType(v, t) && c.x[0] == Word(v) && (!owner ==> x !in ts)
    ensures MatchScope(if owner then scope[x := v] else scope, if owner then ts[x := t] else ts, w.g.slots, Stored(w, x, c).mem, c.x[FP])
  {
    var scope', m := if owner then scope[x := v] else scope, Stored(w, x, c).mem;
    forall y | y in scope' ensures y in w.g.slots && Load(m, c.x[FP] + 8 * w.g.slots[y]) == Word(scope'[y]) {
      if y != x {
        assert y in scope;
        assert w.g.slots[y] != w.g.slots[x];
      }
    }
  }

  /** Storing a name that no scope has. */
  lemma MatchHidden(w: World, env: Env, ts: Types, c: Cpu, x: string)
    requires GenOk(w.g) && Match(env, ts, w.g.slots, c.mem, c.x[FP]) && x in w.g.slots && !Bound(ts, x)
    ensures Match(env, ts, w.g.slots, Stored(w, x, c).mem, c.x[FP])
  {
    var m := Stored(w, x, c).mem;
    forall j | 0 <= j < |env| ensures MatchScope(env[j], ts[j], w.g.slots, m, c.x[FP]) {
      assert MatchScope(env[j], ts[j], w.g.slots, c.mem, c.x[FP]);
      assert x !in ts[j];
      forall y | y in env[j] ensures Load(m, c.x[FP] + 8 * w.g.slots[y]) == Word(env[j][y]) {
        assert w.g.slots[y] != w.g.slots[x];
      }
    }
  }

  // ---- Scopes ----

  lemma MatchPush(env: Env, ts: Types, slots: map<string, nat>, m: map<int, int>, fp: int, scope: map<string, Value>, tscope: map<string, Ty>)
    requires Match(env, ts, slots, m, fp) && MatchScope(scope, tscope, slots, m, fp)
    ensures Match(env + [scope], ts + [tscope], slots, m, fp)
  {
    hide MatchScope;
    var env', ts' := env + [scope], ts + [tscope];
    forall k | 0 <= k < |env'| ensures MatchScope(env'[k], ts'[k], slots, m, fp) {
      if k < |env| { assert MatchScope(env[k], ts[k], slots, m, fp); }
    }
  }

  lemma MatchPrefix(env: Env, ts: Types, slots: map<string, nat>, m: map<int, int>, fp: int, n: nat)
    requires Match(env, ts, slots, m, fp) && n <= |env|
    ensures Match(env[..n], ts[..n], slots, m, fp)
  {
    hide MatchScope;
    forall k | 0 <= k < n ensures MatchScope(env[..n][k], ts[..n][k], slots, m, fp) {
      assert MatchScope(env[k], ts[k], slots, m, fp);
    }
  }

  lemma DistinctPush(ts: Types, scope: map<string, Ty>)
    requires Distinct(ts) && forall x :: x in scope ==> !Bound(ts, x)
    ensures Distinct(ts + [scope])
  {
  }

  lemma DistinctDefine(ts: Types, x: string, t: Ty)
    requires Distinct(ts) && ts != [] && !Bound(ts[..|ts| - 1], x)
    ensures Distinct(Define(ts, x, t))
    ensures forall j :: 0 <= j < |ts| && j != |ts| - 1 ==> x !in ts[j]
  {
    forall j | 0 <= j < |ts| && j != |ts| - 1 ensures x !in ts[j] {
      assert ts[..|ts| - 1][j] == ts[j];
    }
  }

  /** All scopes but the innermost. */
  ghost predicate MatchOuter(env: Env, ts: Types, slots: map<string, nat>, m: map<int, int>, fp: int) {
    |env| == |ts| && env != [] && Match(env[..|env| - 1], ts[..|ts| - 1], slots, m, fp)
  }

  lemma WholeOuter(env: Env, ts: Types, slots: map<string, nat>, m: map<int, int>, fp: int)
    requires Match(env, ts, slots, m, fp) && env != []
    ensures MatchOuter(env, ts, slots, m, fp)
  {
    MatchPrefix(env, ts, slots, m, fp, |env| - 1);
  }

  // ---- Outcomes ----

  /** What a return leaves: the frame is gone, the caller's frame pointer and return address
      are the saved ones. */
  ghost predicate Gone(w: World, c: Cpu, d: Cpu, v: Value) {
    && d.x[0] == Word(v) && d.sp == c.x[FP] + w.g.size + 16
    && d.x[FP] == Load(c.mem, c.x[FP] + w.g.size) && d.pc == d.x[LR] == Load(c.mem, c.x[FP] + w.g.size + 8)
    && Above(c.mem, d.mem, c.x[FP] + w.g.size)
  }

  /** The machine's side of a statement's outcome. */
  ghost predicate Does(w: World, ret: Ty, r: Run, c: Cpu, goal: int, ex: Exits, ws: set<string>, gives: bool, n: nat, d: Cpu) {
    r.out.Ok? && Exec(w.code, c, n) == Ran(d) &&
    match r.out.value
    case Normal(v) =>
      && d.pc == goal && Kept(w, c, d, ws)
      && (v == Void || d.x[0] == Word(v)) && (gives ==> HasType(v, ret))
    case Returned(v) => HasType(v, ret) && Gone(w, c, d, v)
    case Broke => ex.InLoop? && d.pc == w.base + ex.brk && Kept(w, c, d, ws)
    case Continued => ex.InLoop? && d.pc == w.base + ex.cont && Kept(w, c, d, ws)
  }

  /** The environment's side, after a statement and after a block. */
  ghost predicate EnvAfter(w: World, r: Run, ts: Types, after: Types, d: Cpu) {
    r.out.Ok? && match r.out.value
    case Normal(_) => Match(r.env, after, w.g.slots, d.mem, d.x[FP])
    case Returned(_) => true
    case _ => Match(r.env, ts, w.g.slots, d.mem, d.x[FP])
  }

  ghost predicate EnvOuter(w: World, r: Run, ts: Types, d: Cpu) {
    r.out.Ok? && (!r.out.value.Returned? ==> MatchOuter(r.env, ts, w.g.slots, d.mem, d.x[FP]))
  }

  lemma DoesThen(w: World, ret: Ty, r: Run, c: Cpu, k: nat, c1: Cpu, goal: int, ex: Exits, ws: set<string>, us: set<string>,
                 gives: bool, n: nat, d: Cpu)
    requires Exec(w.code, c, k) == Ran(c1) && Kept(w, c, c1, ws) && GenOk(w.g)
    requires Does(w, ret, r, c1, goal, ex, us, gives, n, d)
    ensures Does(w, ret, r, c, goal, ex, ws + us, gives, k + n, d)
  {
    ExecThen(w.code, c, k, c1, n);
    hide Exec, HasType, Word;
    if r.out.value.Returned? {
      hide Kept;
      assert Kept(w, c, c1, ws);
      GoneThen(w, c, c1, d, r.out.value.v, ws);
    } else {
      KeptTrans(w, c, c1, d, ws, us);
    }
  }

  lemma GoneThen(w: World, c: Cpu, c1: Cpu, d: Cpu, v: Value, ws: set<string>)
    requires Kept(w, c, c1, ws) && Gone(w, c1, d, v)
    ensures Gone(w, c, d, v)
  {
    var a := c.x[FP] + w.g.size;
    AboveTrans(c.mem, c1.mem, d.mem, a, a);
    AboveAt(c.mem, c1.mem, a, a);
    AboveAt(c.mem, c1.mem, a, a + 8);
  }

  lemma DoesMore(w: World, ret: Ty, r: Run, c: Cpu, goal: int, ex: Exits, ws: set<string>, us: set<string>, gives: bool, n: nat, d: Cpu)
    requires Does(w, ret, r, c, goal, ex, ws, gives, n, d) && ws <= us
    ensures Does(w, ret, r, c, goal, ex, us, gives, n, d)
  {
    hide Exec, HasType, Word, Above, Load;
  }

  // ---- Leaving the function ----

  lemma EpilogueParts(code: seq<Instr>, pc: int, g: Gen)
    requires CodeAt(code, pc, Epilogue(g))
    ensures CodeAt(code, pc, [MovSpFp]) && (g.size > 0 ==> CodeAt(code, pc + 1, [AddSp(g.size)]))
    ensures var p := pc + if g.size > 0 then 2 else 1; CodeAt(code, p, [LdpPost]) && CodeAt(code, p + 1, [Ret])
  {
    hide CodeAt;
    var add := if g.size > 0 then [AddSp(g.size)] else [];
    CodeSplit(code, pc, [MovSpFp] + add + [LdpPost], [Ret]);
    CodeSplit(code, pc, [MovSpFp] + add, [LdpPost]);
    CodeSplit(code, pc, [MovSpFp], add);
  }

  lemma LeaveRuns(w: World, c: Cpu) returns (d: Cpu)
    requires CodeAt(w.code, c.pc, [LdpPost]) && CodeAt(w.code, c.pc + 1, [Ret]) && c.sp % 16 == 0
    ensures Exec(w.code, c, 2) == Ran(d) && d.mem == c.mem && d.x[0] == c.x[0] && d.sp == c.sp + 16
    ensures d.x[FP] == Load(c.mem, c.sp) && d.pc == d.x[LR] == Load(c.mem, c.sp + 8)
  {
    hide CodeAt, Exec;
    var e := Do(LdpPost, c).c;
    One(w.code, c, LdpPost, e);
    d := e.(pc := e.x[LR]);
    One(w.code, e, Ret, d);
    ExecThen(w.code, c, 1, e, 1);
  }

  lemma EpilogueRuns(w: World, c: Cpu) returns (n: nat, d: Cpu)
    requires CodeAt(w.code, c.pc, Epilogue(w.g)) && c.x[FP] % 16 == 0 && w.g.size % 16 == 0
    ensures Exec(w.code, c, n) == Ran(d) && d.mem == c.mem && d.x[0] == c.x[0] && d.sp == c.x[FP] + w.g.size + 16
    ensures d.x[FP] == Load(c.mem, c.x[FP] + w.g.size) && d.pc == d.x[LR] == Load(c.mem, c.x[FP] + w.g.size + 8)
  {
    hide CodeAt, Exec, Epilogue;
    EpilogueParts(w.code, c.pc, w.g);
    var c1 := c.(sp := c.x[FP], pc := c.pc + 1);
    One(w.code, c, MovSpFp, c1);
    var k, c2 := 1, c1;
    if w.g.size > 0 {
      c2 := c1.(sp := c1.sp + w.g.size, pc := c1.pc + 1);
      One(w.code, c1, AddSp(w.g.size), c2);
      ExecThen(w.code, c, 1, c1, 1);
      k := 2;
    }
    d := LeaveRuns(w, c2);
    ExecThen(w.code, c, k, c2, 2);
    n := k + 2;
  }
}

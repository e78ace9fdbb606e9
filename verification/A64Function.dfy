/** A whole function: called with its arguments in registers, it returns the interpreter's value
    under the calling convention. */
module A64Function {
  import opened Words
  import opened Ir
  import opened Eval
  import opened A64Isa
  import opened A64Machine
  import opened A64Idioms
  import opened A64Gen
  import opened A64Typing
  import opened A64Exprs
  import opened A64Frame
  import opened A64Loops
  import opened A64SimFlow

  // ---- Slots ----

  lemma {:induction false} SlotMapFacts(names: seq<string>)
    ensures forall x :: x in SlotMap(names) ==> SlotMap(names)[x] < |names| && names[SlotMap(names)[x]] == x
    ensures forall x :: x in names ==> x in SlotMap(names)
  {
    if names != [] {
      var n := |names| - 1;
      SlotMapFacts(names[..n]);
      forall x | x in names ensures x in SlotMap(names) {
        if x != names[n] { assert x in names[..n]; }
      }
    }
  }

  lemma RoundedUp(n: nat)
    ensures var size := (n * 8 + 15) / 16 * 16; size % 16 == 0 && 8 * n <= size
  {
    var q := (n * 8 + 15) / 16;
    ModIs(q * 16, 16, q, 0);
  }

  /** The generator gives every local its own word in an aligned region. */
  lemma GenOfOk(f: Function, entries: map<string, int>)
    ensures GenOk(GenOf(f, entries))
  {
    var names, g := Locals(f), GenOf(f, entries);
    SlotMapFacts(names);
    RoundedUp(|names|);
    hide Locals, SlotMap;
    assert g.size % 16 == 0 && 8 * |names| <= g.size;
    hide FrameSize;
    forall x | x in g.slots ensures 8 * g.slots[x] + 8 <= g.size { assert g.slots[x] + 1 <= |names|; }
  }

  predicate Includes(more: seq<string>, names: seq<string>) { forall x :: x in names ==> x in more }

  lemma {:induction false} AddNamesKeeps(names: seq<string>, xs: seq<string>)
    ensures Includes(AddNames(names, xs), names) && Includes(AddNames(names, xs), xs)
    decreases xs
  {
    if xs != [] {
      var first := AddName(names, xs[0]);
      assert xs[0] in first && Includes(first, names);
      AddNamesKeeps(first, xs[1..]);
      forall x | x in xs ensures x in AddNames(names, xs) {
        if x != xs[0] { assert x in xs[1..]; }
      }
    }
  }

  lemma {:induction false} CollectKeeps(s: Stmt, names: seq<string>)
    ensures Includes(Collect(s, names), names)
    decreases s, 1
  {
    match s
    case For(x, _, _, _, body) =>
      AddNamesKeeps(names, [x, EndName(x), StepName(x)]);
      BlockCollectKeeps(body, AddNames(names, [x, EndName(x), StepName(x)]));
    case If(_, orelse) =>
      IfCollectKeeps(s, 0, names);
      BlockCollectKeeps(orelse, CollectIf(s, 0, names));
    case While(_, body) => BlockCollectKeeps(body, names);
    case Loop(body) => BlockCollectKeeps(body, names);
    case _ =>
  }

  lemma {:induction false} IfCollectKeeps(s: Stmt, i: nat, names: seq<string>)
    requires s.If? && i <= |s.branches|
    ensures Includes(CollectIf(s, i, names), names)
    decreases s, 0, |s.branches| - i
  {
    if i < |s.branches| {
      BlockCollectKeeps(s.branches[i].body, names);
      IfCollectKeeps(s, i + 1, CollectBlock(s.branches[i].body, names));
    }
  }

  lemma {:induction false} BlockCollectKeeps(body: seq<Stmt>, names: seq<string>)
    ensures Includes(CollectBlock(body, names), names)
    decreases body, 0
  {
    if body != [] {
      CollectKeeps(body[0], names);
      BlockCollectKeeps(body[1..], Collect(body[0], names));
    }
  }

  lemma ParamsHaveSlots(f: Function, entries: map<string, int>)
    ensures forall x :: x in f.params ==> x in GenOf(f, entries).slots
  {
    hide CollectBlock, AddNames, SlotMap;
    AddNamesKeeps([], f.params);
    BlockCollectKeeps(f.body, AddNames([], f.params));
    SlotMapFacts(Locals(f));
  }

  // ---- Entry ----

  lemma PrologueParts(code: seq<Instr>, pc: int, g: Gen)
    requires CodeAt(code, pc, Prologue(g))
    ensures CodeAt(code, pc, [StpPre]) && (g.size > 0 ==> CodeAt(code, pc + 1, [SubSp(g.size)]))
    ensures CodeAt(code, pc + if g.size > 0 then 2 else 1, [MovFpSp])
  {
    hide CodeAt;
    var sub := if g.size > 0 then [SubSp(g.size)] else [];
    CodeSplit(code, pc, [StpPre] + sub, [MovFpSp]);
    CodeSplit(code, pc, [StpPre], sub);
  }

  lemma SaveRuns(code: seq<Instr>, c: Cpu) returns (d: Cpu)
    requires CodeAt(code, c.pc, [StpPre]) && c.sp % 16 == 0
    ensures Exec(code, c, 1) == Ran(d) && d == c.(mem := d.mem, sp := c.sp - 16, pc := c.pc + 1)
    ensures Above(c.mem, d.mem, c.sp) && Load(d.mem, c.sp - 16) == c.x[FP] && Load(d.mem, c.sp - 8) == c.x[LR]
  {
    hide CodeAt, Exec;
    d := Do(StpPre, c).c;
    One(code, c, StpPre, d);
  }

  /** The caller's frame pointer and return address are saved above the locals region. */
  lemma PrologueRuns(w: World, c: Cpu) returns (n: nat, d: Cpu)
    requires CodeAt(w.code, c.pc, Prologue(w.g)) && c.sp % 16 == 0 && w.g.size % 16 == 0
    ensures Exec(w.code, c, n) == Ran(d) && d.pc == c.pc + |Prologue(w.g)| && d.sp == d.x[FP] == c.sp - 16 - w.g.size
    ensures (forall r :: 0 <= r < 29 ==> d.x[r] == c.x[r]) && d.x[LR] == c.x[LR]
    ensures Above(c.mem, d.mem, c.sp) && Load(d.mem, c.sp - 16) == c.x[FP] && Load(d.mem, c.sp - 8) == c.x[LR]
  {
    hide CodeAt, Exec, Above, Load;
    PrologueParts(w.code, c.pc, w.g);
    var c1 := SaveRuns(w.code, c);
    var k, c2 := 1, c1;
    if w.g.size > 0 {
      c2 := c1.(sp := c1.sp - w.g.size, pc := c1.pc + 1);
      One(w.code, c1, SubSp(w.g.size), c2);
      ExecThen(w.code, c, 1, c1, 1);
      k := 2;
    }
    d := Regs3(c2, c2.x[FP := c2.sp], 1);
    One(w.code, c2, MovFpSp, d);
    ExecThen(w.code, c, k, c2, 1);
    n := k + 1;
  }

  /** Each register is stored to its parameter's slot. */
  lemma {:induction false} SpillsRun(w: World, params: seq<string>, ts: seq<Ty>, args: seq<Value>, c: Cpu) returns (d: Cpu)
    requires |params| == |args| <= 8 && AllTyped(args, ts) && GenOk(w.g) && c.x[FP] % 16 == 0
    requires ArgsIn(c, args) && CodeAt(w.code, c.pc, Spills(w.g, params)) && forall x :: x in params ==> x in w.g.slots
    ensures Exec(w.code, c, |params|) == Ran(d) && d.pc == c.pc + |params| && d.x == c.x && d.sp == c.sp
    ensures Above(c.mem, d.mem, c.x[FP] + w.g.size)
    ensures Match([BindParams(params, args)], [BindTypes(params, ts)], w.g.slots, d.mem, c.x[FP])
    decreases |params|
  {
    hide Match, GenOk, CodeAt, Exec;
    if params == [] {
      d := c;
      ExecNone(w.code, c);
      assert MatchScope(map[], map[], w.g.slots, c.mem, c.x[FP]);
      assert Match([map[]], [map[]], w.g.slots, c.mem, c.x[FP]) by { EmptyMatch(w, c); }
    } else {
      var n := |params| - 1;
      var x := params[n];
      var i := Instr.Str(n, FP, Slot(w.g, x));
      assert SpillsLen(w.g, params[..n]) by { SpillsLenIs(w.g, params[..n]); }
      CodeSplit(w.code, c.pc, Spills(w.g, params[..n]), [i]);
      var e := SpillsRun(w, params[..n], ts[..n], args[..n], c);
      d := Stored(w, x, e.(x := e.x[0 := Word(args[n])])).(x := e.x);
      assert x in params;
      assert Do(i, e) == Ran(d);
      One(w.code, e, i, d);
      ExecThen(w.code, c, n, e, 1);
      SpillMatch(w, params, ts, args, c, e, d);
    }
  }

  lemma EmptyMatch(w: World, c: Cpu)
    ensures Match([map[]], [map[]], w.g.slots, c.mem, c.x[FP])
  {
    assert MatchScope(map[], map[], w.g.slots, c.mem, c.x[FP]);
  }

  predicate SpillsLen(g: Gen, params: seq<string>)
    requires |params| <= 31
  {
    |Spills(g, params)| == |params|
  }

  lemma {:induction false} SpillsLenIs(g: Gen, params: seq<string>)
    requires |params| <= 31
    ensures SpillsLen(g, params)
  {
    if params != [] { SpillsLenIs(g, params[..|params| - 1]); }
  }

  lemma SpillMatch(w: World, params: seq<string>, ts: seq<Ty>, args: seq<Value>, c: Cpu, e: Cpu, d: Cpu)
    requires 0 < |params| == |args| && AllTyped(args, ts) && GenOk(w.g) && params[|params| - 1] in w.g.slots && e.x == c.x
    requires d == Stored(w, params[|params| - 1], e.(x := e.x[0 := Word(args[|params| - 1])])).(x := e.x)
    requires Above(c.mem, e.mem, c.x[FP] + w.g.size)
    requires Match([BindParams(params[..|params| - 1], args[..|params| - 1])], [BindTypes(params[..|params| - 1], ts[..|params| - 1])],
                   w.g.slots, e.mem, c.x[FP])
    ensures Above(c.mem, d.mem, c.x[FP] + w.g.size)
    ensures Match([BindParams(params, args)], [BindTypes(params, ts)], w.g.slots, d.mem, c.x[FP])
  {
    hide Match;
    var n := |params| - 1;
    var env, us := [BindParams(params[..n], args[..n])], [BindTypes(params[..n], ts[..n])];
    var e' := e.(x := e.x[0 := Word(args[n])]);
    MatchStore(w, env, us, e', 0, params[n], args[n], ts[n]);
    assert env[0 := env[0][params[n] := args[n]]] == [BindParams(params, args)];
    assert us[0 := us[0][params[n] := ts[n]]] == [BindTypes(params, ts)];
  }

  // ---- The function ----

  ghost predicate FunctionReady(w: World, f: Function, args: seq<Value>, fuel: nat) {
    && w.g == GenOf(f, w.g.entries) && CallsWork(w) && BuiltinsWork(w.cfg) && !w.cfg.moves
    && FunctionTyped(w.sigs, f) && LowersFunction(f, w.callable) && |f.params| == |args| <= 8
    && AllTyped(args, w.sigs[f.name].params) && EvalBody(w.cfg, f, args, fuel).Ok?
    && CodeAt(w.code, w.base, GenFunction(w.g, f))
  }

  lemma FunctionParts(w: World, f: Function)
    requires |f.params| <= 8 && CodeAt(w.code, w.base, GenFunction(w.g, f))
    ensures var p, n := |Prologue(w.g)|, |f.params|; var len := BlockLen(w.g, f.body);
            && CodeAt(w.code, w.base, Prologue(w.g)) && CodeAt(w.code, w.base + p, Spills(w.g, f.params))
            && CodeAt(w.code, w.base + p + n, GenBlock(w.g, f.body, p + n, NoLoop))
            && CodeAt(w.code, w.base + p + n + len, Epilogue(w.g))
  {
    SpillsLenIs(w.g, f.params);
    hide CodeAt, Prologue, Spills, GenBlock, Epilogue, BlockLen;
    var head := Prologue(w.g) + Spills(w.g, f.params);
    var body := GenBlock(w.g, f.body, |head|, NoLoop);
    CodeSplit(w.code, w.base, head + body, Epilogue(w.g));
    CodeSplit(w.code, w.base, head, body);
    CodeSplit(w.code, w.base, Prologue(w.g), Spills(w.g, f.params));
  }

  /** In front of the body, with the parameters in their slots. */
  lemma EntryRuns(w: World, f: Function, args: seq<Value>, fuel: nat, c: Cpu) returns (n: nat, d: Cpu)
    requires FunctionReady(w, f, args, fuel) && c.pc == w.base && c.sp % 16 == 0 && ArgsIn(c, args)
    ensures Exec(w.code, c, n) == Ran(d) && d.x[FP] == c.sp - 16 - w.g.size && Above(c.mem, d.mem, c.sp)
    ensures Load(d.mem, c.sp - 16) == c.x[FP] && Load(d.mem, c.sp - 8) == c.x[LR]
    ensures d.pc == w.base + |Prologue(w.g)| + |f.params|
    ensures var env, ts := [BindParams(f.params, args)], [BindTypes(f.params, w.sigs[f.name].params)];
            BlockReady(w, w.sigs[f.name].result, f.body, env, ts, d, NoLoop, fuel)
  {
    hide GenBlock, Spills, Prologue, Epilogue, BlockLen, Exec, EvalBlock, CodeAt, CallsWork, BuiltinsWork, Match, BlockTyped, BlockGives, LowersBlock, Above, GenFunction;
    hide CollectBlock, AddNames, SlotMap;
    FunctionParts(w, f);
    GenOfOk(f, w.g.entries);
    ParamsHaveSlots(f, w.g.entries);
    var k, c1 := PrologueRuns(w, c);
    assert ArgsIn(c1, args);
    assert c1.x[FP] % 16 == 0;
    hide GenOk;
    d := SpillsRun(w, f.params, w.sigs[f.name].params, args, c1);
    ExecThen(w.code, c, k, c1, |f.params|);
    n := k + |f.params|;
    EntryMemory(w, c, c1, d);
    assert BlockAt(w, f.body, NoLoop, d) by { BlockAtPosition(w, f.body, NoLoop, d, |Prologue(w.g)| + |f.params|); }
    hide BlockAt, BindParams, BindTypes;
    assert Distinct([BindTypes(f.params, w.sigs[f.name].params)]);
    assert LowerableBlock(w, f.body, NoLoop);
  }

  lemma EntryMemory(w: World, c: Cpu, c1: Cpu, d: Cpu)
    requires Above(c.mem, c1.mem, c.sp) && Above(c1.mem, d.mem, c.sp - 16)
    requires Load(c1.mem, c.sp - 16) == c.x[FP] && Load(c1.mem, c.sp - 8) == c.x[LR]
    ensures Above(c.mem, d.mem, c.sp) && Load(d.mem, c.sp - 16) == c.x[FP] && Load(d.mem, c.sp - 8) == c.x[LR]
  {
    AboveLess(c1.mem, d.mem, c.sp - 16, c.sp);
    AboveTrans(c.mem, c1.mem, d.mem, c.sp, c.sp);
    AboveAt(c1.mem, d.mem, c.sp - 16, c.sp - 16);
    AboveAt(c1.mem, d.mem, c.sp - 16, c.sp - 8);
  }

  /** Called with its arguments in registers and an aligned stack, a generated function returns
      whatever value the interpreter gets, and leaves the caller's stack, stack pointer and
      frame pointer as they were. */
  lemma FunctionRuns(w: World, f: Function, args: seq<Value>, fuel: nat, c: Cpu) returns (n: nat, d: Cpu)
    requires FunctionReady(w, f, args, fuel) && c.pc == w.base && c.sp % 16 == 0 && ArgsIn(c, args)
    ensures Exec(w.code, c, n) == Ran(d) && Answered(c, d, EvalBody(w.cfg, f, args, fuel).value)
    ensures HasType(EvalBody(w.cfg, f, args, fuel).value, w.sigs[f.name].result)
  {
    hide GenBlock, Spills, Prologue, Epilogue, BlockLen, Exec, EvalBlock, CodeAt, CallsWork, BuiltinsWork, Match, BlockTyped, BlockGives, LowersBlock, GenFunction;
    hide CollectBlock, AddNames, SlotMap, BlockReady, WritesBlock, BindParams, BindTypes, Above, Load, EnvOuter;
    var ret := w.sigs[f.name].result;
    var env, ts := [BindParams(f.params, args)], [BindTypes(f.params, w.sigs[f.name].params)];
    FunctionParts(w, f);
    GenOfOk(f, w.g.entries);
    assert w.g.size % 16 == 0 && c.sp - 16 - w.g.size + w.g.size == c.sp - 16;
    hide GenOk;
    var k, c1 := EntryRuns(w, f, args, fuel, c);
    var m, c2 := SimBlock(w, ret, f.body, env, ts, c1, NoLoop, fuel);
    var r := EvalBlock(w.cfg, f.body, env, fuel);
    ExecThen(w.code, c, k, c1, m);
    if r.out.value.Normal? {
      var j;
      j, d := EpilogueRuns(w, c2);
      ExecThen(w.code, c, k + m, c2, j);
      n := k + m + j;
      GoneAnswered(w, c, c1, c2, d, r.out.value.v, WritesBlock(f.body));
    } else {
      n, d := k + m, c2;
      LeftAnswered(w, c, c1, d, r.out.value.v);
    }
  }

  lemma LeftAnswered(w: World, c: Cpu, c1: Cpu, d: Cpu, v: Value)
    requires Gone(w, c1, d, v) && c1.x[FP] == c.sp - 16 - w.g.size && Above(c.mem, c1.mem, c.sp)
    requires Load(c1.mem, c.sp - 16) == c.x[FP] && Load(c1.mem, c.sp - 8) == c.x[LR]
    ensures Answered(c, d, v)
  {
    AboveLess(c1.mem, d.mem, c.sp - 16, c.sp);
    AboveTrans(c.mem, c1.mem, d.mem, c.sp, c.sp);
  }

  /** Falling off the end of the body. */
  lemma GoneAnswered(w: World, c: Cpu, c1: Cpu, c2: Cpu, d: Cpu, v: Value, ws: set<string>)
    requires Kept(w, c1, c2, ws) && c1.x[FP] == c.sp - 16 - w.g.size && Above(c.mem, c1.mem, c.sp) && c2.x[0] == Word(v)
    requires Load(c1.mem, c.sp - 16) == c.x[FP] && Load(c1.mem, c.sp - 8) == c.x[LR]
    requires d.mem == c2.mem && d.x[0] == c2.x[0] && d.sp == c2.x[FP] + w.g.size + 16
    requires d.x[FP] == Load(c2.mem, c2.x[FP] + w.g.size) && d.pc == d.x[LR] == Load(c2.mem, c2.x[FP] + w.g.size + 8)
    ensures Answered(c, d, v)
  {
    AboveAt(c1.mem, c2.mem, c.sp - 16, c.sp - 16);
    AboveAt(c1.mem, c2.mem, c.sp - 16, c.sp - 8);
    AboveLess(c1.mem, c2.mem, c.sp - 16, c.sp);
    AboveTrans(c.mem, c1.mem, c2.mem, c.sp, c.sp);
  }
}

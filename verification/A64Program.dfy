/** A whole program in one text section: where its functions begin, and what calling them does. */
module A64Program {
  import opened Words
  import opened Ir
  import opened Eval
  import opened ScalarMath
  import opened A64Isa
  import opened A64Machine
  import opened A64Idioms
  import opened A64Gen
  import opened A64Typing
  import opened A64Exprs
  import opened A64Function
  import Programs

  type Module = Programs.Module

  // ---- Layout ----

  /** Functions start on 16-byte boundaries. */
  function Padding(at: nat): nat { (4 - at % 4) % 4 }

  /** `_start`: call `main`, then exit with its result. */
  const STUB: nat := 4

  function Stub(main: int): seq<Instr> { [Bl(main), MovZ(8, 93, 0), Svc, Brk] }

  /** Where each function of `order` begins, the first one no earlier than `at`. */
  function Starts(m: Module, order: seq<string>, at: nat): map<string, int>
    requires forall f :: f in order ==> f in m.functions
    decreases order
  {
    if order == [] then map[]
    else
      var start := at + Padding(at);
      Starts(m, order[1..], start + FunctionLen(m.functions[order[0]]))[order[0] := start]
  }

  /** Starts counted from `base`. */
  function Relative(starts: map<string, int>, base: int): map<string, int> { map f | f in starts :: starts[f] - base }

  function GenAt(f: Function, starts: map<string, int>, base: int): Gen { GenOf(f, Relative(starts, base)) }

  predicate Placeable(m: Module, order: seq<string>) {
    forall f :: f in order ==> f in m.functions && m.functions[f].name == f && |m.functions[f].params| <= 8
  }

  function Nops(n: nat): (code: seq<Instr>)
    ensures |code| == n
  {
    seq(n, _ => Nop)
  }

  /** The functions one after the other, each with its calls resolved against `starts`. */
  function Text(m: Module, order: seq<string>, at: nat, starts: map<string, int>): seq<Instr>
    requires Placeable(m, order)
    decreases order
  {
    if order == [] then []
    else
      var start := at + Padding(at);
      var f := m.functions[order[0]];
      Nops(Padding(at)) + GenFunction(GenAt(f, starts, start), f) + Text(m, order[1..], start + FunctionLen(f), starts)
  }

  /** The linked text section, with the entry stub in front when there is a `main`. */
  function Image(m: Module, order: seq<string>): seq<Instr>
    requires Placeable(m, order)
  {
    var at := if "main" in order then STUB else 0;
    var starts := Starts(m, order, at);
    (if "main" in order then Stub(if "main" in starts then starts["main"] else 0) else []) + Text(m, order, at, starts)
  }

  predicate NoRepeats(order: seq<string>) { forall i, j :: 0 <= i < j < |order| ==> order[i] != order[j] }

  lemma LengthIs(f: Function, entries: map<string, int>)
    requires |f.params| <= 8
    ensures |GenFunction(GenOf(f, entries), f)| == FunctionLen(f)
  {
    var g, h := GenOf(f, entries), GenOf(f, map[]);
    SpillsLenIs(g, f.params);
    SameLength(g, h, f.body);
    hide GenBlock, BlockLen, SlotMap, CollectBlock, AddNames;
  }

  lemma {:induction false} SameLength(g: Gen, h: Gen, body: seq<Stmt>)
    requires g.size == h.size
    ensures BlockLen(g, body) == BlockLen(h, body)
    decreases body, 0
  {
    hide ExprLen;
    if body != [] {
      SameLengthStmt(g, h, body[0]);
      SameLength(g, h, body[1..]);
    }
  }

  lemma {:induction false} SameLengthStmt(g: Gen, h: Gen, s: Stmt)
    requires g.size == h.size
    ensures StmtLen(g, s) == StmtLen(h, s)
    decreases s, 1
  {
    hide ExprLen, OpCode;
    match s
    case If(_, _) => SameLengthIf(g, h, s, 0);
    case While(_, body) => SameLength(g, h, body);
    case For(_, _, _, _, body) => SameLength(g, h, body);
    case Loop(body) => SameLength(g, h, body);
    case Region(body) => SameLength(g, h, body);
    case _ =>
  }

  lemma {:induction false} SameLengthIf(g: Gen, h: Gen, s: Stmt, i: nat)
    requires g.size == h.size && s.If? && i <= |s.branches|
    ensures IfLen(g, s, i) == IfLen(h, s, i)
    decreases s, 0, |s.branches| - i
  {
    hide ExprLen;
    if i == |s.branches| {
      SameLength(g, h, s.orelse);
    } else {
      SameLength(g, h, s.branches[i].body);
      SameLengthIf(g, h, s, i + 1);
    }
  }

  /** Every function's code is where its start says. */
  lemma {:induction false} TextAt(m: Module, order: seq<string>, at: nat, starts: map<string, int>, code: seq<Instr>, f: string)
    requires Placeable(m, order) && NoRepeats(order) && CodeAt(code, at, Text(m, order, at, starts)) && f in order
    ensures f in Starts(m, order, at) && CodeAt(code, Starts(m, order, at)[f], GenFunction(GenAt(m.functions[f], starts, Starts(m, order, at)[f]), m.functions[f]))
    decreases order
  {
    hide CodeAt, GenFunction, GenAt, FunctionLen;
    var start := at + Padding(at);
    var g := m.functions[order[0]];
    var pad, head := Nops(Padding(at)), GenFunction(GenAt(g, starts, start), g);
    var rest := Text(m, order[1..], start + FunctionLen(g), starts);
    assert |head| == FunctionLen(g) by { HeadLength(g, starts, start); }
    CodeSplit(code, at, pad + head, rest);
    CodeSplit(code, at, pad, head);
    if f != order[0] {
      assert f in order[1..];
      TextAt(m, order[1..], start + FunctionLen(g), starts, code, f);
    } else if order[1..] != [] {
      assert f !in order[1..];
    }
  }

  lemma HeadLength(f: Function, starts: map<string, int>, base: int)
    requires |f.params| <= 8
    ensures |GenFunction(GenAt(f, starts, base), f)| == FunctionLen(f)
  {
    hide GenFunction, FunctionLen;
    LengthIs(f, Relative(starts, base));
  }

  lemma {:induction false} StartsKeys(m: Module, order: seq<string>, at: nat)
    requires forall f :: f in order ==> f in m.functions
    ensures forall f :: f in Starts(m, order, at) <==> f in order
    decreases order
  {
    hide FunctionLen;
    if order != [] { StartsKeys(m, order[1..], at + Padding(at) + FunctionLen(m.functions[order[0]])); }
  }

  // ---- Running a program ----

  /** The names that mean the same in a call on both sides: compiled, and not another thing to the
      interpreter's dispatcher. The six inlined builtins are that on both sides, whatever the
      program declares under their names. */
  function Callable(m: Module, order: seq<string>): set<string> {
    set g | g in order && (g !in m.taken || Arity(g).Some?)
  }

  /** What the front end and the eligibility fixpoint guarantee of the functions compiled; and
      that none calls a function under a name the dispatcher takes for something else. */
  ghost predicate Compiled(m: Module, sigs: map<string, Sig>, order: seq<string>) {
    && Placeable(m, order) && NoRepeats(order)
    && (forall f :: f in order ==> FunctionTyped(sigs, m.functions[f]) && LowersFunction(m.functions[f], Callable(m, order)))
    && forall f :: Arity(f).Some? ==> f in m.taken && forall vs :: m.prim(f, vs) == Builtin(f, vs)
  }

  /** The code of every compiled function is in memory, calls resolved. */
  ghost predicate Loaded(m: Module, order: seq<string>, starts: map<string, int>, code: seq<Instr>)
    requires Placeable(m, order)
  {
    && (forall f :: f in starts <==> f in order)
    && forall f :: f in order ==> CodeAt(code, starts[f], GenFunction(GenAt(m.functions[f], starts, starts[f]), m.functions[f]))
  }

  /** Any call of `name` from a machine with an aligned stack returns `v`. */
  ghost predicate Serves(code: seq<Instr>, start: int, args: seq<Value>, v: Value) {
    forall c: Cpu :: c.pc == start && c.sp % 16 == 0 && ArgsIn(c, args) ==> Returns(code, c, v)
  }

  /** Whenever the tree-walking interpreter finishes a function with a value, the native code of
      that function returns that value. */
  lemma {:induction false} NativeAgrees(m: Module, sigs: map<string, Sig>, order: seq<string>, starts: map<string, int>, code: seq<Instr>,
                                        depth: nat, name: string, args: seq<Value>)
    requires Compiled(m, sigs, order) && Loaded(m, order, starts, code) && name in order
    requires name in m.functions && AllTyped(args, sigs[name].params) && Programs.Enter(Programs.Tier(false, false), m, depth, name, args).Ok?
    ensures var v := Programs.Enter(Programs.Tier(false, false), m, depth, name, args).value;
            HasType(v, sigs[name].result) && Serves(code, starts[name], args, v)
    decreases Programs.RECURSION_LIMIT - depth
  {
    hide Compiled, Loaded, Serves, FunctionReady, EvalBody, GenFunction, FunctionTyped, LowersFunction, CodeAt, Returns;
    CompiledFacts(m, sigs, order, name);
    LoadedKeys(m, order, starts, code);
    var t, f := Programs.Tier(false, false), m.functions[name];
    var c := Programs.CfgAt(t, m, depth + 1);
    Builtins(m, sigs, order, depth + 1);
    var w := World(code, starts[name], GenAt(f, starts, starts[name]), Callable(m, order), sigs, c);
    forall g, vs ensures CallWorks(w, g, vs) {
      if g in order && g !in m.taken && g in sigs && AllTyped(vs, sigs[g].params) && c.call(g, vs).Ok? {
        CompiledFacts(m, sigs, order, g);
        assert c.call(g, vs) == Programs.Enter(t, m, depth + 1, g, vs) by { CallEnters(m, depth + 1, g, vs); }
        NativeAgrees(m, sigs, order, starts, code, depth + 1, g, vs);
        CallServed(w, m, order, starts, g, vs);
      } else {
        NotServed(w, m, order, g, vs);
      }
    }
    var fuel := RunIs(m, depth, name, args);
    FunctionSet(m, sigs, order, starts, code, name, args, fuel, w);
    var v := EvalBody(c, f, args, fuel).value;
    forall d: Cpu | d.pc == starts[name] && d.sp % 16 == 0 && ArgsIn(d, args) ensures Returns(code, d, v) {
      ReturnsIt(w, f, args, fuel, d);
    }
    ServesIs(code, starts[name], args, v);
    TypedResult(w, f, args, fuel);
  }

  lemma LoadedKeys(m: Module, order: seq<string>, starts: map<string, int>, code: seq<Instr>)
    requires Placeable(m, order) && Loaded(m, order, starts, code)
    ensures forall f :: f in starts <==> f in order
  {
    hide CodeAt, GenFunction;
  }

  lemma LoadedOne(m: Module, order: seq<string>, starts: map<string, int>, code: seq<Instr>, name: string)
    requires Placeable(m, order) && Loaded(m, order, starts, code) && name in order
    ensures name in starts && CodeAt(code, starts[name], GenFunction(GenAt(m.functions[name], starts, starts[name]), m.functions[name]))
  {
    hide CodeAt, GenFunction, GenAt;
  }

  lemma RelativeKeys(order: seq<string>, starts: map<string, int>, base: int)
    requires forall f :: f in starts <==> f in order
    ensures Relative(starts, base).Keys == set f | f in order
  {
  }

  lemma ServesIs(code: seq<Instr>, start: int, args: seq<Value>, v: Value)
    requires forall c: Cpu :: c.pc == start && c.sp % 16 == 0 && ArgsIn(c, args) ==> Returns(code, c, v)
    ensures Serves(code, start, args, v)
  {
    hide Returns, ArgsIn;
  }

  lemma CompiledFacts(m: Module, sigs: map<string, Sig>, order: seq<string>, name: string)
    requires Compiled(m, sigs, order) && name in order
    ensures Placeable(m, order) && name in m.functions && m.functions[name].name == name && name in sigs
    ensures |m.functions[name].params| == |sigs[name].params| && |m.functions[name].params| <= 8
    ensures FunctionTyped(sigs, m.functions[name]) && LowersFunction(m.functions[name], Callable(m, order))
  {
    hide BlockTyped, BlockGives, LowersFunction;
  }

  lemma CallServed(w: World, m: Module, order: seq<string>, starts: map<string, int>, g: string, vs: seq<Value>)
    requires g in starts && g in w.sigs && w.g.entries == Relative(starts, w.base) && w.cfg.call(g, vs).Ok?
    requires HasType(w.cfg.call(g, vs).value, w.sigs[g].result) && Serves(w.code, starts[g], vs, w.cfg.call(g, vs).value)
    ensures CallWorks(w, g, vs)
  {
    hide Returns, ArgsIn;
  }

  lemma NotServed(w: World, m: Module, order: seq<string>, g: string, vs: seq<Value>)
    requires w.callable == Callable(m, order) && BuiltinsWork(w.cfg)
    requires !(g in order && g !in m.taken && g in w.sigs && AllTyped(vs, w.sigs[g].params) && w.cfg.call(g, vs).Ok?)
    ensures CallWorks(w, g, vs)
  {
    hide Returns, ArgsIn, AllTyped, Scalar;
  }

  lemma CallEnters(m: Module, depth: nat, g: string, vs: seq<Value>)
    requires g in m.functions && g !in m.taken
    ensures Programs.CfgAt(Programs.Tier(false, false), m, depth).call(g, vs) == Programs.Enter(Programs.Tier(false, false), m, depth, g, vs)
  {
    hide Programs.Enter;
    assert Programs.CfgAt(Programs.Tier(false, false), m, depth).call(g, vs) == Programs.Invoke(Programs.Tier(false, false), m, depth, g, vs);
  }

  /** A finished call of a user function is a finished run of its body. */
  lemma RunIs(m: Module, depth: nat, name: string, args: seq<Value>) returns (fuel: nat)
    requires name in m.functions && |m.functions[name].params| == |args|
    requires Programs.Enter(Programs.Tier(false, false), m, depth, name, args).Ok?
    ensures depth < Programs.RECURSION_LIMIT
    ensures EvalBody(Programs.CfgAt(Programs.Tier(false, false), m, depth + 1), m.functions[name], args, fuel)
         == Programs.Enter(Programs.Tier(false, false), m, depth, name, args)
  {
    hide EvalBody;
    var t, f := Programs.Tier(false, false), m.functions[name];
    var c := Programs.CfgAt(t, m, depth + 1);
    assert Programs.Enter(t, m, depth, name, args) == Programs.TreeResult(c, f, args);
    fuel :| EvalBody(c, f, args, fuel) != NoResult && Programs.TreeResult(c, f, args) == EvalBody(c, f, args, fuel);
  }

  lemma Builtins(m: Module, sigs: map<string, Sig>, order: seq<string>, depth: nat)
    requires Compiled(m, sigs, order)
    ensures BuiltinsWork(Programs.CfgAt(Programs.Tier(false, false), m, depth))
  {
    hide Placeable, NoRepeats, FunctionTyped, LowersFunction, Builtin;
    var c := Programs.CfgAt(Programs.Tier(false, false), m, depth);
    forall f, vs | Arity(f).Some? ensures c.call(f, vs) == Builtin(f, vs) {
      assert c.call(f, vs) == Programs.Invoke(Programs.Tier(false, false), m, depth, f, vs);
    }
  }

  lemma FunctionSet(m: Module, sigs: map<string, Sig>, order: seq<string>, starts: map<string, int>, code: seq<Instr>,
                    name: string, args: seq<Value>, fuel: nat, w: World)
    requires Placeable(m, order) && Loaded(m, order, starts, code) && name in order && name in sigs
    requires w.code == code && w.base == starts[name] && w.g == GenAt(m.functions[name], starts, starts[name]) && w.sigs == sigs
    requires CallsWork(w) && BuiltinsWork(w.cfg) && !w.cfg.moves && AllTyped(args, sigs[name].params) && m.functions[name].name == name
    requires FunctionTyped(sigs, m.functions[name]) && LowersFunction(m.functions[name], w.callable)
    requires |m.functions[name].params| == |args| <= 8 && EvalBody(w.cfg, m.functions[name], args, fuel).Ok?
    ensures FunctionReady(w, m.functions[name], args, fuel)
  {
    hide CallsWork, BuiltinsWork, FunctionTyped, LowersFunction, EvalBody, CodeAt, GenFunction, AllTyped, GenOf, Loaded, Relative;
    LoadedKeys(m, order, starts, code);
    LoadedOne(m, order, starts, code, name);
  }

  lemma ReturnsIt(w: World, f: Function, args: seq<Value>, fuel: nat, c: Cpu)
    requires FunctionReady(w, f, args, fuel) && c.pc == w.base && c.sp % 16 == 0 && ArgsIn(c, args)
    ensures EvalBody(w.cfg, f, args, fuel).Ok? && Returns(w.code, c, EvalBody(w.cfg, f, args, fuel).value)
  {
    hide EvalBody, ArgsIn, GenFunction, CodeAt, FunctionTyped, LowersFunction, CallsWork, BuiltinsWork, Exec, Answered, GenOf;
    var n, d := FunctionRuns(w, f, args, fuel, c);
  }

  /** Some machine state calls the function, so its result is typed. */
  lemma TypedResult(w: World, f: Function, args: seq<Value>, fuel: nat)
    requires FunctionReady(w, f, args, fuel)
    ensures EvalBody(w.cfg, f, args, fuel).Ok? && f.name in w.sigs
    ensures HasType(EvalBody(w.cfg, f, args, fuel).value, w.sigs[f.name].result)
  {
    hide EvalBody, GenFunction, CodeAt, LowersFunction, CallsWork, BuiltinsWork, GenOf, BlockTyped, BlockGives, HasType;
    var regs: seq<int> := seq(31, i requires 0 <= i < 31 => if i < |args| then Word(args[i]) else 0);
    var c := Cpu(regs, 0, w.base, false, false, false, map[]);
    assert ArgsIn(c, args);
    hide ArgsIn;
    var n, d := FunctionRuns(w, f, args, fuel, c);
  }

  /** The linked image serves every compiled function. */
  lemma ImageLoaded(m: Module, order: seq<string>)
    requires Placeable(m, order) && NoRepeats(order)
    ensures Loaded(m, order, Starts(m, order, if "main" in order then STUB else 0), Image(m, order))
  {
    hide Text, Starts, GenFunction, GenAt, Stub;
    var at := if "main" in order then STUB else 0;
    var starts := Starts(m, order, at);
    var code := Image(m, order);
    StartsKeys(m, order, at);
    assert |Stub(0)| == STUB by { StubLength(); }
    assert CodeAt(code, at, Text(m, order, at, starts)) by { ImageText(m, order); }
    hide CodeAt, Placeable, NoRepeats;
    forall f | f in order ensures CodeAt(code, starts[f], GenFunction(GenAt(m.functions[f], starts, starts[f]), m.functions[f])) {
      TextAt(m, order, at, starts, code, f);
    }
  }

  lemma StubLength()
    ensures forall main: int :: |Stub(main)| == STUB
  {
  }

  lemma ImageText(m: Module, order: seq<string>)
    requires Placeable(m, order)
    ensures var at := if "main" in order then STUB else 0; CodeAt(Image(m, order), at, Text(m, order, at, Starts(m, order, at)))
  {
    hide Text, Starts, CodeAt, Stub;
    var at := if "main" in order then STUB else 0;
    var starts := Starts(m, order, at);
    StubLength();
    var head := if "main" in order then Stub(if "main" in starts then starts["main"] else 0) else [];
    CodeAll(Image(m, order));
    assert Image(m, order) == head + Text(m, order, at, starts);
    CodeSplit(Image(m, order), 0, head, Text(m, order, at, starts));
  }

  lemma CodeAll(code: seq<Instr>)
    ensures CodeAt(code, 0, code)
  {
  }

  /** The entry stub, in front of a loaded program. */
  ghost predicate Stubbed(starts: map<string, int>, code: seq<Instr>) {
    "main" in starts && CodeAt(code, 0, [Bl(starts["main"])]) && CodeAt(code, 1, [MovZ(8, 93, 0)]) && |code| >= 4 && code[2] == Svc
  }

  /** The exit call, with the word of `v` as its argument and `exit`'s number in `x8`. */
  ghost predicate AtExit(code: seq<Instr>, v: Value, c: Cpu, n: nat, d: Cpu) {
    Exec(code, c, n) == Ran(d) && 0 <= d.pc < |code| && code[d.pc] == Svc && d.x[8] == 93 && d.x[0] == Word(v)
  }

  lemma EntryExits(m: Module, sigs: map<string, Sig>, order: seq<string>, starts: map<string, int>, code: seq<Instr>,
                   depth: nat, v: Value, c: Cpu) returns (n: nat, d: Cpu)
    requires Compiled(m, sigs, order) && Loaded(m, order, starts, code) && Stubbed(starts, code)
    requires "main" in order && "main" in sigs && sigs["main"].params == [] && "main" in m.functions
    requires Programs.Enter(Programs.Tier(false, false), m, depth, "main", []) == Ok(v) && c.pc == 0 && c.sp % 16 == 0
    ensures AtExit(code, v, c, n, d)
  {
    hide Compiled, Loaded, Programs.Enter, Exec, Word, Above, CodeAt;
    NativeAgrees(m, sigs, order, starts, code, depth, "main", []);
    var c1 := c.(x := c.x[LR := 1], pc := starts["main"]);
    assert Do(Bl(starts["main"]), c) == Ran(c1);
    One(code, c, Bl(starts["main"]), c1);
    assert Returns(code, c1, v) by { assert ArgsIn(c1, []); }
    var k: nat, c2: Cpu :| Exec(code, c1, k) == Ran(c2) && Answered(c1, c2, v);
    d := Regs3(c2, c2.x[8 := 93], 1);
    assert Do(MovZ(8, 93, 0), c2) == Ran(d) by { assert Pow2(0) == 1; }
    One(code, c2, MovZ(8, 93, 0), d);
    ExecThen(code, c, 1, c1, k);
    ExecThen(code, c, 1 + k, c2, 1);
    n := k + 2;
  }

  /** Started at its entry point, a program whose `main` the interpreter finishes with a value
      reaches the exit call with that value as its argument. */
  lemma ProgramExits(m: Module, sigs: map<string, Sig>, order: seq<string>, depth: nat, v: Value, c: Cpu)
    returns (n: nat, d: Cpu)
    requires Compiled(m, sigs, order) && "main" in order && "main" in sigs && sigs["main"].params == [] && "main" !in m.taken
    requires Programs.Invoke(Programs.Tier(false, false), m, depth, "main", []) == Ok(v) && c.pc == 0 && c.sp % 16 == 0
    ensures AtExit(Image(m, order), v, c, n, d)
  {
    hide Compiled, Loaded, Stubbed, Image, Starts, Programs.Enter, AtExit;
    CompiledFacts(m, sigs, order, "main");
    LoadedImage(m, sigs, order);
    StubAt(m, order);
    n, d := EntryExits(m, sigs, order, Starts(m, order, STUB), Image(m, order), depth, v, c);
  }

  lemma LoadedImage(m: Module, sigs: map<string, Sig>, order: seq<string>)
    requires Compiled(m, sigs, order) && "main" in order
    ensures Placeable(m, order) && Loaded(m, order, Starts(m, order, STUB), Image(m, order))
  {
    hide Loaded, Image, Starts, FunctionTyped, LowersFunction, Builtin;
    ImageLoaded(m, order);
  }

  lemma StubAt(m: Module, order: seq<string>)
    requires Placeable(m, order) && "main" in order
    ensures Stubbed(Starts(m, order, STUB), Image(m, order))
  {
    hide Text, Starts;
    var starts, code := Starts(m, order, STUB), Image(m, order);
    StartsKeys(m, order, STUB);
    assert code == Stub(starts["main"]) + Text(m, order, STUB, starts);
    assert code[0] == Stub(starts["main"])[0] && code[1] == Stub(starts["main"])[1] && code[2] == Stub(starts["main"])[2];
  }
}

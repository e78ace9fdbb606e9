/** A call by name means one thing to the interpreter, whose dispatcher asks builtins first, and
    another to the native compiler, which asks the functions it compiles first. */
module A64Dispatch {
  import opened Ir
  import opened ScalarMath
  import opened A64Isa
  import opened A64Machine
  import opened A64Idioms
  import opened A64Gen
  import opened A64Typing
  import opened A64Exprs
  import opened A64Program
  import opened Programs

  const TREE: Tier := Tier(false, false)

  /** The program as the native compiler reads it: only the inlined builtins come first. */
  function UserFirst(m: Module): Module { m.(taken := set f | f in m.taken && Arity(f).Some?) }

  lemma LoadedEither(m: Module, order: seq<string>, starts: map<string, int>, code: seq<Instr>)
    requires Placeable(m, order) && Loaded(m, order, starts, code)
    ensures Placeable(UserFirst(m), order) && Loaded(UserFirst(m), order, starts, code)
  {
    hide CodeAt, GenFunction, GenAt;
  }

  // ---- One call ----

  lemma Stops(code: seq<Instr>, c: Cpu, n: nat, d: Cpu, n': nat, d': Cpu)
    requires Exec(code, c, n) == Ran(d) && Exec(code, c, n') == Ran(d') && Step(code, d).Fault? && Step(code, d').Fault?
    ensures d == d'
  {
    hide Step;
    if n < n' { ExecThen(code, c, n, d, n' - n); }
    if n' < n { ExecThen(code, c, n', d', n - n'); }
  }

  /** A call that returns out of the program returns one value. */
  lemma OneAnswer(code: seq<Instr>, c: Cpu, u: Value, v: Value)
    requires Returns(code, c, u) && Returns(code, c, v) && c.x[LR] < 0
    ensures Word(u) == Word(v)
  {
    hide Exec, Word, Above;
    var n, d :| Exec(code, c, n) == Ran(d) && Answered(c, d, u);
    var n', d' :| Exec(code, c, n') == Ran(d') && Answered(c, d', v);
    Stops(code, c, n, d, n', d');
  }

  /** A function compiled under a name the dispatcher takes for itself: a call by that name gives
      the interpreter what `prim` answers, and native code what the function's body does. They
      agree exactly when these are equal. */
  lemma ShadowDecides(m: Module, sigs: map<string, Sig>, order: seq<string>, starts: map<string, int>, code: seq<Instr>,
                      depth: nat, name: string, args: seq<Value>, u: Value)
    requires Compiled(UserFirst(m), sigs, order) && Placeable(m, order) && Loaded(m, order, starts, code)
    requires name in order && name in m.taken && name in sigs && AllTyped(args, sigs[name].params) && name in m.functions
    requires Enter(TREE, UserFirst(m), depth, name, args).Ok? && m.prim(name, args) == Ok(u) && HasType(u, sigs[name].result)
    ensures Invoke(TREE, m, depth, name, args) == Ok(u)
    ensures Serves(code, starts[name], args, Enter(TREE, UserFirst(m), depth, name, args).value)
    ensures Serves(code, starts[name], args, u) <==> u == Enter(TREE, UserFirst(m), depth, name, args).value
  {
    hide Compiled, Loaded, Enter, Returns;
    var v := Enter(TREE, UserFirst(m), depth, name, args).value;
    LoadedEither(m, order, starts, code);
    LoadedKeys(m, order, starts, code);
    CompiledFacts(UserFirst(m), sigs, order, name);
    NativeAgrees(UserFirst(m), sigs, order, starts, code, depth, name, args);
    if Serves(code, starts[name], args, u) {
      var c := Caller(starts[name], args);
      OneAnswer(code, c, u, v);
    }
  }

  /** A machine calling with these arguments from outside the program. */
  function Caller(start: int, args: seq<Value>): (c: Cpu)
    requires |args| <= 8
    ensures c.pc == start && c.sp % 16 == 0 && c.x[LR] < 0 && ArgsIn(c, args)
  {
    Cpu(seq(31, i requires 0 <= i < 31 => if i < |args| then Word(args[i]) else -1), 0, start, false, false, false, map[])
  }

  // ---- A whole program ----

  /** What every compiled program does, whatever its functions are called. */
  lemma ProgramFollows(m: Module, sigs: map<string, Sig>, order: seq<string>, depth: nat, v: Value, c: Cpu) returns (n: nat, d: Cpu)
    requires Compiled(UserFirst(m), sigs, order) && Placeable(m, order) && NoRepeats(order)
    requires "main" in order && "main" in sigs && sigs["main"].params == [] && "main" in m.functions
    requires Enter(TREE, UserFirst(m), depth, "main", []) == Ok(v) && c.pc == 0 && c.sp % 16 == 0
    ensures AtExit(Image(m, order), v, c, n, d)
  {
    hide Compiled, Loaded, Stubbed, Image, Starts, Enter, AtExit;
    ImageLoaded(m, order);
    LoadedEither(m, order, Starts(m, order, STUB), Image(m, order));
    StubAt(m, order);
    n, d := EntryExits(UserFirst(m), sigs, order, Starts(m, order, STUB), Image(m, order), depth, v, c);
  }
}

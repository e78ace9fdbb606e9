/** Whole programs: what a call by name does on each tier, `depth` user calls deep. */
module Programs {
  import opened Ir
  import opened Eval
  import opened EvalMono
  import opened Vm

  // ---- Results of bodies ----

  predicate Finished(o: Outcome) { o.Done? || o.Fail? }

  function Result(o: Outcome): Res<Value> {
    match o
    case Done(v) => Ok(v)
    case Fail(e) => Err(e)
    case _ => NoResult
  }

  /** `prim` stands for builtins, constructors and trait dispatch. A call by name asks it first for
      the names in `taken`: trait methods, constructors and every builtin but the four that give
      way to a user function (`words`, `count`, `checked_div`, `checked_rem`, when the program
      defines one); and last for what is no user function either. */
  datatype Module = Module(functions: map<string, Function>, prim: Dispatch, taken: set<string>, barred: set<string>)

  /** `vm` runs eligible functions on the dispatch loop; `moves` is the tree-walker's fast path. */
  datatype Tier = Tier(vm: bool, moves: bool)

  const RECURSION_LIMIT: nat := 20_000

  /** What a body evaluates to with enough fuel, if anything. */
  ghost function TreeResult(c: Cfg, f: Function, args: seq<Value>): Res<Value>
    requires |f.params| == |args|
  {
    if exists fuel :: EvalBody(c, f, args, fuel) != NoResult then
      var fuel :| EvalBody(c, f, args, fuel) != NoResult; EvalBody(c, f, args, fuel)
    else NoResult
  }

  /** What the dispatch loop ends with, if it ends. */
  ghost function VmResult(p: Program, call: Dispatch, args: seq<Value>): Res<Value> {
    var st := State(0, [], InitialFrame(args, p.frameSize));
    if exists n :: Finished(Exec(p.ops, call, st, n)) then
      var n :| Finished(Exec(p.ops, call, st, n)); Result(Exec(p.ops, call, st, n))
    else NoResult
  }

  ghost function CfgAt(t: Tier, m: Module, depth: nat): Cfg
    decreases RECURSION_LIMIT - depth, 2
  {
    Cfg((g, vs) => Invoke(t, m, depth, g, vs), m.functions.Keys, m.barred, t.moves)
  }

  /** A call by name, `depth` user calls deep. */
  ghost function Invoke(t: Tier, m: Module, depth: nat, name: string, args: seq<Value>): Res<Value>
    decreases RECURSION_LIMIT - depth, 1
  {
    if name in m.taken || name !in m.functions then m.prim(name, args) else Enter(t, m, depth, name, args)
  }

  /** The user function of that name, whatever the name stands for in a call. */
  ghost function Enter(t: Tier, m: Module, depth: nat, name: string, args: seq<Value>): Res<Value>
    requires name in m.functions
    decreases RECURSION_LIMIT - depth, 0
  {
    var f := m.functions[name];
    if |f.params| != |args| then Fault("L0402", "function called with the wrong number of arguments")
    else if depth >= RECURSION_LIMIT then Fault("L0466", "recursion limit exceeded")
    else
      var c := CfgAt(t, m, depth + 1);
      var compiled := CompileFunction(f);
      if t.vm && compiled.Some? then VmResult(compiled.value, c.call, args) else TreeResult(c, f, args)
  }

  // ---- Results do not depend on how far one looks ----

  lemma {:induction false} FinishedStays(ops: seq<VmOp>, call: Dispatch, st: State, n: nat, m: nat)
    requires n <= m && Finished(Exec(ops, call, st, n))
    ensures Exec(ops, call, st, m) == Exec(ops, call, st, n)
    decreases n
  {
    if n > 0 {
      var o := Step(ops, call, st);
      if o.Next? {
        FinishedStays(ops, call, o.st, n - 1, m - 1);
      }
    }
  }

  lemma VmResultIs(p: Program, call: Dispatch, args: seq<Value>, n: nat)
    requires Finished(Exec(p.ops, call, State(0, [], InitialFrame(args, p.frameSize)), n))
    ensures VmResult(p, call, args) == Result(Exec(p.ops, call, State(0, [], InitialFrame(args, p.frameSize)), n))
  {
    var st := State(0, [], InitialFrame(args, p.frameSize));
    var m :| Finished(Exec(p.ops, call, st, m)) && VmResult(p, call, args) == Result(Exec(p.ops, call, st, m));
    if n <= m { FinishedStays(p.ops, call, st, n, m); } else { FinishedStays(p.ops, call, st, m, n); }
  }

  lemma TreeResultIs(c: Cfg, f: Function, args: seq<Value>, fuel: nat)
    requires |f.params| == |args| && EvalBody(c, f, args, fuel) != NoResult
    ensures TreeResult(c, f, args) == EvalBody(c, f, args, fuel)
  {
    var other :| EvalBody(c, f, args, other) != NoResult && TreeResult(c, f, args) == EvalBody(c, f, args, other);
    if fuel <= other { BodyMono(Finishing, c, c, f, args, fuel, other); } else { BodyMono(Finishing, c, c, f, args, other, fuel); }
  }
}

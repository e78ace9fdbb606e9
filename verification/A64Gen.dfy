/** The AArch64 code generator for the scalar subset: which instructions stand for a function,
    with every branch already carrying its distance. */
module A64Gen {
  import opened Ir
  import opened ScalarMath
  import opened A64Isa
  import opened A64Idioms

  /** What one function is generated against: slot numbers of its locals, the size of the locals
      region in bytes, and where the functions it may call begin, counted from its own start. */
  datatype Gen = Gen(slots: map<string, nat>, size: nat, entries: map<string, int>)

  /** Where `break` and `continue` go, as positions in the function. */
  datatype Exits = NoLoop | InLoop(brk: int, cont: int)

  function EndName(x: string): string { x + "__end" }

  function StepName(x: string): string { x + "__step" }

  // ---- Local names ----

  function AddName(names: seq<string>, x: string): seq<string> {
    if x in names then names else names + [x]
  }

  function AddNames(names: seq<string>, xs: seq<string>): seq<string>
    decreases xs
  {
    if xs == [] then names else AddNames(AddName(names, xs[0]), xs[1..])
  }

  /** The locals in first-seen order. A `region` block's body is not walked. */
  function CollectBlock(body: seq<Stmt>, names: seq<string>): seq<string>
    decreases body, 0
  {
    if body == [] then names else CollectBlock(body[1..], Collect(body[0], names))
  }

  function Collect(s: Stmt, names: seq<string>): seq<string>
    decreases s, 1
  {
    match s
    case Let(x, _) => AddName(names, x)
    case For(x, _, _, _, body) => CollectBlock(body, AddNames(names, [x, EndName(x), StepName(x)]))
    case If(_, orelse) => CollectBlock(orelse, CollectIf(s, 0, names))
    case While(_, body) => CollectBlock(body, names)
    case Loop(body) => CollectBlock(body, names)
    case _ => names
  }

  function CollectIf(s: Stmt, i: nat, names: seq<string>): seq<string>
    requires s.If? && i <= |s.branches|
    decreases s, 0, |s.branches| - i
  {
    if i == |s.branches| then names else CollectIf(s, i + 1, CollectBlock(s.branches[i].body, names))
  }

  function Locals(f: Function): seq<string> { CollectBlock(f.body, AddNames([], f.params)) }

  /** Each name's position. */
  function SlotMap(names: seq<string>): map<string, nat> {
    if names == [] then map[]
    else
      var rest := SlotMap(names[..|names| - 1]);
      rest[names[|names| - 1] := |names| - 1]
  }

  /** The locals region, rounded up to 16 bytes. */
  function FrameSize(f: Function): nat { (|Locals(f)| * 8 + 15) / 16 * 16 }

  function GenOf(f: Function, entries: map<string, int>): (g: Gen)
    ensures g.entries == entries
  {
    Gen(SlotMap(Locals(f)), FrameSize(f), entries)
  }

  // ---- Expressions ----

  function Slot(g: Gen, x: string): nat { if x in g.slots then g.slots[x] else 0 }

  function Entry(g: Gen, f: string): int { if f in g.entries then g.entries[f] else 0 }

  function LoadVar(g: Gen, r: Reg, x: string): Instr { Ldr(r, FP, Slot(g, x)) }

  function StoreVar(g: Gen, x: string): Instr { Instr.Str(0, FP, Slot(g, x)) }

  /** Inlined builtins; their arguments are `i64`. */
  predicate Inlined(name: string, args: nat) { Arity(name) == Some(args) }

  /** The last argument is in `x0`, the others are on the stack. */
  function BuiltinTail(name: string): seq<Instr> {
    if name == "abs" then AbsCode(0, 1)
    else if name == "sign" then SignCode()
    else if name == "min" then [Pop(1)] + PickCode(CLt)
    else if name == "max" then [Pop(1)] + PickCode(CGt)
    else if name == "gcd" then [Pop(1)] + GcdCode()
    else [Pop(1), Pop(2)] + ClampCode()
  }

  function Pops(n: nat): (code: seq<Instr>)
    requires n <= 8
    ensures |code| == n
  {
    if n == 0 then [] else [Pop(n - 1)] + Pops(n - 1)
  }

  function ExprLen(e: Expr): nat
    decreases e, 1
  {
    match e
    case Int(n) => |LoadImm(n)|
    case BoolLit(b) => |LoadImm(if b then 1 else 0)|
    case Var(_) => 1
    case Unary(op, a) => ExprLen(a) + |UnaryCode(op)|
    case Binary(l, op, r) =>
      if op == And || op == Or then ExprLen(l) + ExprLen(r) + 5 else ExprLen(l) + ExprLen(r) + 3 + |OpCode(op)|
    case Call(f, args) =>
      if Inlined(f, |args|) then ArgsLen(args, true) + |BuiltinTail(f)| else ArgsLen(args, false) + |args| + 1
    case _ => 0
  }

  function ArgsLen(es: seq<Expr>, keep: bool): nat
    decreases es, 0
  {
    if es == [] then 0
    else if keep && |es| == 1 then ExprLen(es[0])
    else ExprLen(es[0]) + 1 + ArgsLen(es[1..], keep)
  }

  /** `and` and `or` skip the right operand when the left one decides. */
  function LogicCode(conj: bool, lc: seq<Instr>, rc: seq<Instr>): (code: seq<Instr>)
    ensures |code| == |lc| + |rc| + 5
  {
    lc + [if conj then Cbz(0, |rc| + 4) else Cbnz(0, |rc| + 4)] + rc + TruthCode() + [B(2)]
    + [MovZ(0, if conj then 0 else 1, 0)]
  }

  /** The left operand waits on the stack. */
  function StrictCode(op: BinaryOp, lc: seq<Instr>, rc: seq<Instr>): (code: seq<Instr>)
    requires op != And && op != Or
    ensures |code| == |lc| + |rc| + 3 + |OpCode(op)|
  {
    lc + [Push(0)] + rc + [Mov(1, 0), Pop(0)] + OpCode(op)
  }

  /** The pushed arguments moved to their registers, then the call. */
  function CallCode(args: seq<Instr>, n: nat, off: int): (code: seq<Instr>)
    requires n <= 8
    ensures |code| == |args| + n + 1
  {
    args + Pops(n) + [Bl(off)]
  }

  /** An expression's code at position `pc`: its value ends up in `x0`. */
  function GenExpr(g: Gen, e: Expr, pc: nat): (code: seq<Instr>)
    ensures |code| == ExprLen(e)
    decreases e, 1
  {
    match e
    case Int(n) => LoadImm(n)
    case BoolLit(b) => LoadImm(if b then 1 else 0)
    case Var(x) => [LoadVar(g, 0, x)]
    case Unary(op, a) => GenExpr(g, a, pc) + UnaryCode(op)
    case Binary(l, op, r) =>
      var lc := GenExpr(g, l, pc);
      var rc := GenExpr(g, r, pc + |lc| + 1);
      if op == And || op == Or then LogicCode(op == And, lc, rc) else StrictCode(op, lc, rc)
    case Call(f, args) =>
      if Inlined(f, |args|) then GenArgs(g, args, pc, true) + BuiltinTail(f)
      else if |args| <= 8 then CallCode(GenArgs(g, args, pc, false), |args|, Entry(g, f) - (pc + ExprLen(e) - 1))
      else seq(ExprLen(e), _ => Brk)
    case _ => []
  }

  /** Arguments left to right, each pushed; with `keep` the last one stays in `x0`. */
  function GenArgs(g: Gen, es: seq<Expr>, pc: nat, keep: bool): (code: seq<Instr>)
    ensures |code| == ArgsLen(es, keep)
    decreases es, 0
  {
    if es == [] then []
    else if keep && |es| == 1 then GenExpr(g, es[0], pc)
    else
      var first := GenExpr(g, es[0], pc);
      first + [Push(0)] + GenArgs(g, es[1..], pc + |first| + 1, keep)
  }

  lemma UnaryShape(g: Gen, op: UnaryOp, a: Expr, pc: nat)
    ensures GenExpr(g, Unary(op, a), pc) == GenExpr(g, a, pc) + UnaryCode(op)
    ensures ExprLen(Unary(op, a)) == ExprLen(a) + |UnaryCode(op)|
  {
    hide UnaryCode, LoadImm;
  }

  lemma BinaryShape(g: Gen, l: Expr, op: BinaryOp, r: Expr, pc: nat)
    ensures var lc, rc := GenExpr(g, l, pc), GenExpr(g, r, pc + ExprLen(l) + 1);
            if op == And || op == Or then
              GenExpr(g, Binary(l, op, r), pc) == LogicCode(op == And, lc, rc) && ExprLen(Binary(l, op, r)) == |lc| + |rc| + 5
            else
              GenExpr(g, Binary(l, op, r), pc) == StrictCode(op, lc, rc) && ExprLen(Binary(l, op, r)) == |lc| + |rc| + 3 + |OpCode(op)|
  {
    hide LogicCode, StrictCode, OpCode, LoadImm;
  }

  lemma CallShape(g: Gen, f: string, args: seq<Expr>, pc: nat)
    ensures Inlined(f, |args|) ==>
              && GenExpr(g, Call(f, args), pc) == GenArgs(g, args, pc, true) + BuiltinTail(f)
              && ExprLen(Call(f, args)) == ArgsLen(args, true) + |BuiltinTail(f)|
    ensures !Inlined(f, |args|) && |args| <= 8 ==>
              && GenExpr(g, Call(f, args), pc)
                 == CallCode(GenArgs(g, args, pc, false), |args|, Entry(g, f) - (pc + ArgsLen(args, false) + |args|))
              && ExprLen(Call(f, args)) == ArgsLen(args, false) + |args| + 1
  {
    hide BuiltinTail, CallCode, LoadImm, Inlined, Entry, GenArgs;
  }

  /** What the generator accepts of an expression. */
  predicate LowersExpr(locals: set<string>, callable: set<string>, e: Expr)
    decreases e, 1
  {
    match e
    case Int(_) => true
    case BoolLit(_) => true
    case Var(x) => x in locals
    case Unary(_, a) => LowersExpr(locals, callable, a)
    case Binary(l, _, r) => LowersExpr(locals, callable, l) && LowersExpr(locals, callable, r)
    case Call(f, args) =>
      && LowersArgs(locals, callable, args)
      && (Inlined(f, |args|) || (f in callable && |args| <= 8))
    case _ => false
  }

  predicate LowersArgs(locals: set<string>, callable: set<string>, es: seq<Expr>)
    decreases es, 0
  {
    es != [] ==> LowersExpr(locals, callable, es[0]) && LowersArgs(locals, callable, es[1..])
  }

  // ---- Statements ----

  function Prologue(g: Gen): seq<Instr> {
    [StpPre] + (if g.size > 0 then [SubSp(g.size)] else []) + [MovFpSp]
  }

  function Epilogue(g: Gen): seq<Instr> {
    [MovSpFp] + (if g.size > 0 then [AddSp(g.size)] else []) + [LdpPost] + [Ret]
  }

  function StepExpr(step: Option<Expr>): Expr { if step.Some? then step.value else Int(1) }

  /** The test of a range loop whose body has `len` instructions: the comparison is picked by
      the sign of the step. */
  function ForGuard(g: Gen, x: string, len: nat): seq<Instr> {
    [LoadVar(g, 0, StepName(x)), CmpZero(0)] + [BCond(CLt, 6)]
    + [LoadVar(g, 0, x), LoadVar(g, 1, EndName(x)), Cmp(0, 1)] + [BCond(CGt, len + 11)] + [B(5)]
    + [LoadVar(g, 0, x), LoadVar(g, 1, EndName(x)), Cmp(0, 1)] + [BCond(CLt, len + 6)]
  }

  function ForStep(g: Gen, x: string): seq<Instr> {
    [LoadVar(g, 0, x), LoadVar(g, 1, StepName(x))] + [Alu(AAdd, 0, 0, 1), StoreVar(g, x)]
  }

  function ForSetup(g: Gen, x: string, start: Expr, end: Expr, step: Option<Expr>, pc: nat): seq<Instr> {
    var a := GenExpr(g, start, pc) + [StoreVar(g, x)];
    var b := GenExpr(g, end, pc + |a|) + [StoreVar(g, EndName(x))];
    a + b + (GenExpr(g, StepExpr(step), pc + |a| + |b|) + [StoreVar(g, StepName(x))])
  }

  function WhileCode(c: seq<Instr>, body: seq<Instr>): (code: seq<Instr>)
    ensures |code| == |c| + |body| + 2
  {
    c + [Cbz(0, |body| + 2)] + body + [B(0 - (|c| + 1 + |body|))]
  }

  function LoopCode(body: seq<Instr>): (code: seq<Instr>)
    ensures |code| == |body| + 1
  {
    body + [B(0 - |body|)]
  }

  /** The test, the body, the step, and back to the test. */
  function ForCode(g: Gen, x: string, body: seq<Instr>): (code: seq<Instr>)
    ensures |code| == |body| + 17
  {
    ForGuard(g, x, |body|) + body + ForStep(g, x) + [B(0 - (|body| + 16))]
  }

  /** One branch of a chain and what follows it. */
  function BranchCode(c: seq<Instr>, body: seq<Instr>, rest: seq<Instr>): (code: seq<Instr>)
    ensures |code| == |c| + |body| + |rest| + 2
  {
    c + [Cbz(0, |body| + 2)] + body + [B(|rest| + 1)] + rest
  }

  function StmtLen(g: Gen, s: Stmt): nat
    decreases s, 1
  {
    match s
    case Let(_, e) => ExprLen(e) + 1
    case Assign(_, op, e) => if op == Replace then ExprLen(e) + 1 else ExprLen(e) + 5 + |OpCode(AssignBinop(op))|
    case Return(Some(e)) => ExprLen(e) + |Epilogue(g)|
    case ExprStmt(e) => ExprLen(e)
    case Break => 1
    case Continue => 1
    case If(_, orelse) => IfLen(g, s, 0)
    case While(cond, body) => ExprLen(cond) + BlockLen(g, body) + 2
    case For(_, start, end, step, body) =>
      ExprLen(start) + ExprLen(end) + ExprLen(StepExpr(step)) + 3 + 12 + BlockLen(g, body) + 5
    case Loop(body) => BlockLen(g, body) + 1
    case Region(body) => BlockLen(g, body)
    case _ => 0
  }

  function IfLen(g: Gen, s: Stmt, i: nat): nat
    requires s.If? && i <= |s.branches|
    decreases s, 0, |s.branches| - i
  {
    if i == |s.branches| then BlockLen(g, s.orelse)
    else ExprLen(s.branches[i].cond) + 1 + BlockLen(g, s.branches[i].body) + 1 + IfLen(g, s, i + 1)
  }

  function BlockLen(g: Gen, body: seq<Stmt>): nat
    decreases body, 0
  {
    if body == [] then 0 else StmtLen(g, body[0]) + BlockLen(g, body[1..])
  }

  function GenStmt(g: Gen, s: Stmt, pc: nat, ex: Exits): (code: seq<Instr>)
    ensures |code| == StmtLen(g, s)
    decreases s, 1
  {
    match s
    case Let(x, e) => GenExpr(g, e, pc) + [StoreVar(g, x)]
    case Assign(x, op, e) =>
      if op == Replace then GenExpr(g, e, pc) + [StoreVar(g, x)]
      else StrictCode(AssignBinop(op), [LoadVar(g, 0, x)], GenExpr(g, e, pc + 2)) + [StoreVar(g, x)]
    case Return(Some(e)) => GenExpr(g, e, pc) + Epilogue(g)
    case ExprStmt(e) => GenExpr(g, e, pc)
    case Break => if ex.InLoop? then [B(ex.brk - pc)] else [Brk]
    case Continue => if ex.InLoop? then [B(ex.cont - pc)] else [Brk]
    case If(_, _) => GenIf(g, s, 0, pc, ex)
    case While(cond, body) =>
      var c := GenExpr(g, cond, pc);
      WhileCode(c, GenBlock(g, body, pc + |c| + 1, InLoop(pc + |c| + BlockLen(g, body) + 2, pc)))
    case For(x, start, end, step, body) =>
      var setup := ForSetup(g, x, start, end, step, pc);
      var top, len := pc + |setup|, BlockLen(g, body);
      setup + ForCode(g, x, GenBlock(g, body, top + 12, InLoop(top + len + 17, top + len + 12)))
    case Loop(body) =>
      LoopCode(GenBlock(g, body, pc, InLoop(pc + BlockLen(g, body) + 1, pc)))
    case Region(body) => GenBlock(g, body, pc, ex)
    case _ => []
  }

  /** The branches from `i` on; each taken one jumps to the end of the chain. */
  function GenIf(g: Gen, s: Stmt, i: nat, pc: nat, ex: Exits): (code: seq<Instr>)
    requires s.If? && i <= |s.branches|
    ensures |code| == IfLen(g, s, i)
    decreases s, 0, |s.branches| - i
  {
    if i == |s.branches| then GenBlock(g, s.orelse, pc, ex)
    else
      var c := GenExpr(g, s.branches[i].cond, pc);
      var body := GenBlock(g, s.branches[i].body, pc + |c| + 1, ex);
      BranchCode(c, body, GenIf(g, s, i + 1, pc + |c| + |body| + 2, ex))
  }

  function GenBlock(g: Gen, body: seq<Stmt>, pc: nat, ex: Exits): (code: seq<Instr>)
    ensures |code| == BlockLen(g, body)
    decreases body, 0
  {
    if body == [] then []
    else
      var first := GenStmt(g, body[0], pc, ex);
      first + GenBlock(g, body[1..], pc + |first|, ex)
  }

  /** Parameter registers stored to their slots. */
  function Spills(g: Gen, params: seq<string>): seq<Instr>
    requires |params| <= 31
  {
    if params == [] then []
    else Spills(g, params[..|params| - 1]) + [Instr.Str(|params| - 1, FP, Slot(g, params[|params| - 1]))]
  }

  function GenFunction(g: Gen, f: Function): seq<Instr>
    requires |f.params| <= 8
  {
    var head := Prologue(g) + Spills(g, f.params);
    head + GenBlock(g, f.body, |head|, NoLoop) + Epilogue(g)
  }

  function FunctionLen(f: Function): nat {
    var g := GenOf(f, map[]);
    |Prologue(g)| + |f.params| + BlockLen(g, f.body) + |Epilogue(g)|
  }

  lemma StoreShape(g: Gen, s: Stmt, pc: nat, ex: Exits)
    requires s.Let? || (s.Assign? && s.op == Replace)
    ensures GenStmt(g, s, pc, ex) == GenExpr(g, s.value, pc) + [StoreVar(g, s.name)] && StmtLen(g, s) == ExprLen(s.value) + 1
  {
    hide GenExpr, ExprLen;
  }

  lemma CompoundShape(g: Gen, x: string, op: AssignOp, e: Expr, pc: nat, ex: Exits)
    requires op != Replace
    ensures GenStmt(g, Assign(x, op, e), pc, ex)
         == StrictCode(AssignBinop(op), [LoadVar(g, 0, x)], GenExpr(g, e, pc + 2)) + [StoreVar(g, x)]
    ensures StmtLen(g, Assign(x, op, e)) == ExprLen(e) + 5 + |OpCode(AssignBinop(op))|
  {
    hide GenExpr, ExprLen, StrictCode, OpCode;
  }

  lemma ReturnShape(g: Gen, e: Expr, pc: nat, ex: Exits)
    ensures GenStmt(g, Return(Some(e)), pc, ex) == GenExpr(g, e, pc) + Epilogue(g)
  {
    hide GenExpr, ExprLen, Epilogue;
  }

  lemma WhileShape(g: Gen, cond: Expr, body: seq<Stmt>, pc: nat, ex: Exits)
    ensures GenStmt(g, While(cond, body), pc, ex)
         == WhileCode(GenExpr(g, cond, pc),
                      GenBlock(g, body, pc + ExprLen(cond) + 1, InLoop(pc + ExprLen(cond) + BlockLen(g, body) + 2, pc)))
    ensures StmtLen(g, While(cond, body)) == ExprLen(cond) + BlockLen(g, body) + 2
  {
    hide GenExpr, ExprLen, WhileCode;
  }

  lemma LoopShape(g: Gen, body: seq<Stmt>, pc: nat, ex: Exits)
    ensures GenStmt(g, Loop(body), pc, ex) == LoopCode(GenBlock(g, body, pc, InLoop(pc + BlockLen(g, body) + 1, pc)))
    ensures StmtLen(g, Loop(body)) == BlockLen(g, body) + 1
  {
    hide LoopCode;
  }

  lemma ForShape(g: Gen, s: Stmt, pc: nat, ex: Exits)
    requires s.For?
    ensures var top, len := pc + |ForSetup(g, s.name, s.start, s.end, s.step, pc)|, BlockLen(g, s.body);
            && GenStmt(g, s, pc, ex)
               == ForSetup(g, s.name, s.start, s.end, s.step, pc)
                  + ForCode(g, s.name, GenBlock(g, s.body, top + 12, InLoop(top + len + 17, top + len + 12)))
            && StmtLen(g, s) == |ForSetup(g, s.name, s.start, s.end, s.step, pc)| + len + 17
  {
    hide ForCode, GenExpr, ExprLen;
  }

  lemma BranchShape(g: Gen, s: Stmt, i: nat, pc: nat, ex: Exits)
    requires s.If? && i < |s.branches|
    ensures var b := s.branches[i];
            && GenIf(g, s, i, pc, ex)
               == BranchCode(GenExpr(g, b.cond, pc), GenBlock(g, b.body, pc + ExprLen(b.cond) + 1, ex),
                             GenIf(g, s, i + 1, pc + ExprLen(b.cond) + BlockLen(g, b.body) + 2, ex))
            && IfLen(g, s, i) == ExprLen(b.cond) + BlockLen(g, b.body) + 2 + IfLen(g, s, i + 1)
  {
    hide GenExpr, ExprLen, BranchCode;
  }

  // ---- What the generator accepts ----

  predicate LowersStmt(locals: set<string>, callable: set<string>, s: Stmt, inLoop: bool)
    decreases s, 1
  {
    match s
    case Let(x, e) => x in locals && LowersExpr(locals, callable, e)
    case Assign(x, _, e) => x in locals && LowersExpr(locals, callable, e)
    case Return(Some(e)) => LowersExpr(locals, callable, e)
    case ExprStmt(e) => LowersExpr(locals, callable, e)
    case Break => inLoop
    case Continue => inLoop
    case If(_, orelse) => LowersIf(locals, callable, s, 0, inLoop) && LowersBlock(locals, callable, orelse, inLoop)
    case While(cond, body) => LowersExpr(locals, callable, cond) && LowersBlock(locals, callable, body, true)
    case For(x, start, end, step, body) =>
      && x in locals && EndName(x) in locals && StepName(x) in locals
      && LowersExpr(locals, callable, start) && LowersExpr(locals, callable, end) && LowersExpr(locals, callable, StepExpr(step))
      && LowersBlock(locals, callable, body, true)
    case Loop(body) => LowersBlock(locals, callable, body, true)
    case Region(body) => LowersBlock(locals, callable, body, inLoop)
    case _ => false
  }

  predicate LowersIf(locals: set<string>, callable: set<string>, s: Stmt, i: nat, inLoop: bool)
    requires s.If? && i <= |s.branches|
    decreases s, 0, |s.branches| - i
  {
    i < |s.branches| ==>
      && LowersExpr(locals, callable, s.branches[i].cond)
      && LowersBlock(locals, callable, s.branches[i].body, inLoop)
      && LowersIf(locals, callable, s, i + 1, inLoop)
  }

  predicate LowersBlock(locals: set<string>, callable: set<string>, body: seq<Stmt>, inLoop: bool)
    decreases body, 0
  {
    body != [] ==> LowersStmt(locals, callable, body[0], inLoop) && LowersBlock(locals, callable, body[1..], inLoop)
  }

  /** A frame too large for its immediate, or a body outside the subset, is refused. */
  predicate LowersFunction(f: Function, callable: set<string>) {
    FrameSize(f) <= 0xFFF && LowersBlock(SlotMap(Locals(f)).Keys, callable, f.body, false)
  }
}

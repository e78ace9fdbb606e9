/** The flat bytecode: its instruction set, the dispatch loop's meaning, and the code the
    compiler emits for each construct, as functions of the position it is emitted at. */
module Vm {
  import opened Words
  import opened Ir

  datatype VmOp =
    | PushConst(v: Value)
    | PushVoid
    | LoadLocal(slot: nat)
    | StoreLocal(slot: nat)
    | Binary(op: BinaryOp)
    | Unary(uop: UnaryOp)
    | Index
    | IndexLocal(slot: nat)
    | Field(field: string)
    | FieldLocal(slot: nat, field: string)
    | Call(callee: string, argc: nat)
    | MakeArray(count: nat)
    | Jump(target: nat)
    | JumpIfFalse(target: nat)
    | JumpIfTrue(target: nat)
    | Pop
    | CheckStepNonzero(slot: nat)
    | ForCheck(counter: nat, end: nat, step: nat)
    | ForStep(counter: nat, step: nat)
    | Return

  // ---- The machine ----

  type Dispatch = (string, seq<Value>) -> Res<Value>

  datatype State = State(pc: nat, stack: seq<Value>, frame: seq<Value>)

  /** `Stuck` is a panic of the dispatch loop: operand underflow, a slot or program
      counter out of range. `Hung` is a callee without a result. */
  datatype Outcome = Next(st: State) | Done(v: Value) | Fail(error: Error) | Hung | Stuck

  function Push(r: Res<Value>, st: State, below: nat): Outcome
    requires below <= |st.stack|
  {
    match r
    case Ok(v) => Next(State(st.pc + 1, st.stack[..below] + [v], st.frame))
    case Err(e) => Fail(e)
    case NoResult => Hung
  }

  function Branch(r: Res<bool>, taken: bool, target: nat, st: State): Outcome
    requires |st.stack| > 0
  {
    match r
    case Ok(b) => Next(State(if b == taken then target else st.pc + 1, st.stack[..|st.stack| - 1], st.frame))
    case Err(e) => Fail(e)
    case NoResult => Hung
  }

  function LoopTest(frame: seq<Value>, counter: nat, end: nat, step: nat): Res<Value>
    requires counter < |frame| && end < |frame| && step < |frame|
  {
    var i :- AsI64(frame[counter]);
    var last :- AsI64(frame[end]);
    var stride :- AsI64(frame[step]);
    Ok(Bool(if stride > 0 then i <= last else i >= last))
  }

  function LoopStep(frame: seq<Value>, counter: nat, step: nat): Res<Value>
    requires counter < |frame| && step < |frame|
  {
    var i :- AsI64(frame[counter]);
    var stride :- AsI64(frame[step]);
    Ok(I64(Wrap(i + stride)))
  }

  function IndexOp(target: Value, index: Value): Res<Value> {
    var i :- AsI64(index);
    IndexInto(target, i)
  }

  function Step(ops: seq<VmOp>, call: Dispatch, st: State): Outcome {
    var State(pc, stack, frame) := st;
    var top := |stack| - 1;
    if pc >= |ops| then Stuck
    else match ops[pc]
      case PushConst(v) => Push(Ok(v), st, |stack|)
      case PushVoid => Push(Ok(Void), st, |stack|)
      case LoadLocal(slot) => if slot < |frame| then Push(Ok(frame[slot]), st, |stack|) else Stuck
      case StoreLocal(slot) =>
        if slot < |frame| && top >= 0 then Next(State(pc + 1, stack[..top], frame[slot := stack[top]])) else Stuck
      case Binary(op) =>
        if top >= 1 && op != And && op != Or then Push(EvalBinary(stack[top - 1], op, stack[top]), st, top - 1) else Stuck
      case Unary(op) => if top >= 0 then Push(EvalUnary(op, stack[top]), st, top) else Stuck
      case Index => if top >= 1 then Push(IndexOp(stack[top - 1], stack[top]), st, top - 1) else Stuck
      case IndexLocal(slot) =>
        if slot < |frame| && top >= 0 then Push(IndexOp(frame[slot], stack[top]), st, top) else Stuck
      case Field(field) => if top >= 0 then Push(FieldOf(stack[top], field), st, top) else Stuck
      case FieldLocal(slot, field) =>
        if slot < |frame| then Push(FieldOf(frame[slot], field), st, |stack|) else Stuck
      case Call(name, argc) =>
        if argc <= |stack| then Push(call(name, stack[|stack| - argc..]), st, |stack| - argc) else Stuck
      case MakeArray(count) =>
        if count <= |stack| then Push(Ok(Array(stack[|stack| - count..])), st, |stack| - count) else Stuck
      case Jump(target) => Next(st.(pc := target))
      case JumpIfFalse(target) => if top >= 0 then Branch(AsBool(stack[top]), false, target, st) else Stuck
      case JumpIfTrue(target) => if top >= 0 then Branch(AsBool(stack[top]), true, target, st) else Stuck
      case Pop => Next(State(pc + 1, if top >= 0 then stack[..top] else stack, frame))
      case CheckStepNonzero(slot) =>
        if slot >= |frame| then Stuck
        else (match AsI64(frame[slot])
              case Ok(n) => if n == 0 then Fail(Error("L0411", "for loop step cannot be zero")) else Next(st.(pc := pc + 1))
              case Err(e) => Fail(e)
              case NoResult => Hung)
      case ForCheck(counter, end, step) =>
        if counter < |frame| && end < |frame| && step < |frame|
        then Push(LoopTest(frame, counter, end, step), st, |stack|) else Stuck
      case ForStep(counter, step) =>
        if counter < |frame| && step < |frame| then
          (match LoopStep(frame, counter, step)
           case Ok(v) => Next(State(pc + 1, stack, frame[counter := v]))
           case Err(e) => Fail(e)
           case NoResult => Hung)
        else Stuck
      case Return => Done(if top >= 0 then stack[top] else Void)
  }

  /** At most `n` turns of the dispatch loop. */
  function Exec(ops: seq<VmOp>, call: Dispatch, st: State, n: nat): Outcome
    decreases n
  {
    if n == 0 then Next(st)
    else
      var r := Step(ops, call, st);
      if r.Next? then Exec(ops, call, r.st, n - 1) else r
  }

  lemma {:induction false} ExecThen(ops: seq<VmOp>, call: Dispatch, s0: State, n: nat, s1: State, m: nat)
    requires Exec(ops, call, s0, n) == Next(s1)
    ensures Exec(ops, call, s0, n + m) == Exec(ops, call, s1, m)
    decreases n
  {
    hide Step;
    if n > 0 {
      ExecThen(ops, call, Step(ops, call, s0).st, n - 1, s1, m);
    }
  }

  // ---- The emitted code ----

  datatype Ctx = Ctx(scopes: Scopes<nat>, next: nat, locals: set<string>)

  datatype Targets = NoLoop | InLoop(brk: nat, cont: nat)

  datatype Code = Code(ops: seq<VmOp>, ctx: Ctx)

  function Declare(ctx: Ctx, x: string): Ctx
    requires ctx.scopes != []
  {
    Ctx(Ir.Define(ctx.scopes, x, ctx.next), ctx.next + 1, ctx.locals + {x})
  }

  function Open(ctx: Ctx): Ctx { ctx.(scopes := ctx.scopes + [map[]]) }

  function Close(ctx: Ctx, depth: nat): Ctx
    requires depth <= |ctx.scopes|
  {
    ctx.(scopes := ctx.scopes[..depth])
  }

  /** Call names the compiler refuses because they need the place or region operand itself. */
  predicate NeedsPlace(f: string) {
    f == "addr_of" || f == "arena_region" || f == "arena_alloc"
  }

  function ExprLen(e: Expr): nat
    decreases e, 1
  {
    match e
    case ArrayLit(es) => ExprsLen(es) + 1
    case Index(t, i) => if t.Var? then ExprLen(i) + 1 else ExprLen(t) + ExprLen(i) + 1
    case Field(t, _) => if t.Var? then 1 else ExprLen(t) + 1
    case Unary(_, a) => ExprLen(a) + 1
    case Binary(l, op, r) => ExprLen(l) + ExprLen(r) + (if op == And || op == Or then 3 else 1)
    case Call(_, args) => ExprsLen(args) + 1
    case _ => 1
  }

  function ExprsLen(es: seq<Expr>): nat
    decreases es, 0
  {
    if es == [] then 0 else ExprLen(es[0]) + ExprsLen(es[1..])
  }

  /** The conditional jump of a short-circuit operator. */
  function ShortJump(op: BinaryOp, target: nat): VmOp { if op == And then JumpIfFalse(target) else JumpIfTrue(target) }

  function CompileExpr(e: Expr, ctx: Ctx, pc: nat): (r: Option<seq<VmOp>>)
    ensures r.Some? ==> |r.value| == ExprLen(e)
    decreases e, 1
  {
    match e
    case Int(n) => Some([PushConst(I64(n))])
    case BoolLit(b) => Some([PushConst(Bool(b))])
    case StrLit(s) => Some([PushConst(Str(s))])
    case ArrayLit(es) => var code :- CompileExprs(es, ctx, pc); Some(code + [MakeArray(|es|)])
    case Var(x) => var slot :- Lookup(ctx.scopes, x); Some([LoadLocal(slot)])
    case Index(t, i) =>
      if t.Var? then
        var slot :- Lookup(ctx.scopes, t.name);
        var code :- CompileExpr(i, ctx, pc);
        Some(code + [IndexLocal(slot)])
      else
        var target :- CompileExpr(t, ctx, pc);
        var index :- CompileExpr(i, ctx, pc + |target|);
        Some(target + index + [VmOp.Index])
    case Field(t, field) =>
      if t.Var? then var slot :- Lookup(ctx.scopes, t.name); Some([FieldLocal(slot, field)])
      else var target :- CompileExpr(t, ctx, pc); Some(target + [VmOp.Field(field)])
    case Unary(op, a) => var code :- CompileExpr(a, ctx, pc); Some(code + [VmOp.Unary(op)])
    case Binary(l, op, r) =>
      var left :- CompileExpr(l, ctx, pc);
      if op == And || op == Or then
        var right :- CompileExpr(r, ctx, pc + |left| + 1);
        var short := pc + |left| + |right| + 2;
        Some(left + [ShortJump(op, short)]
             + right + [Jump(short + 1)] + [PushConst(Bool(op == Or))])
      else
        var right :- CompileExpr(r, ctx, pc + |left|);
        Some(left + right + [VmOp.Binary(op)])
    case Call(f, args) =>
      if f in ctx.locals || NeedsPlace(f) then None
      else var code :- CompileExprs(args, ctx, pc); Some(code + [VmOp.Call(f, |args|)])
    case Cond(_, _, _) => None
  }

  function CompileExprs(es: seq<Expr>, ctx: Ctx, pc: nat): (r: Option<seq<VmOp>>)
    ensures r.Some? ==> |r.value| == ExprsLen(es)
    decreases es, 0
  {
    if es == [] then Some([])
    else
      var first :- CompileExpr(es[0], ctx, pc);
      var rest :- CompileExprs(es[1..], ctx, pc + |first|);
      Some(first + rest)
  }

  lemma LogicShape(e: Expr, ctx: Ctx, pc: nat)
    requires e.Binary? && (e.op == And || e.op == Or) && CompileExpr(e, ctx, pc).Some?
    ensures ExprLen(e) == ExprLen(e.left) + ExprLen(e.right) + 3
    ensures CompileExpr(e.left, ctx, pc).Some? && CompileExpr(e.right, ctx, pc + ExprLen(e.left) + 1).Some?
    ensures var short := pc + ExprLen(e.left) + ExprLen(e.right) + 2;
            CompileExpr(e, ctx, pc).value ==
            CompileExpr(e.left, ctx, pc).value + [ShortJump(e.op, short)] + CompileExpr(e.right, ctx, pc + ExprLen(e.left) + 1).value
            + [Jump(short + 1)] + [PushConst(Bool(e.op == Or))]
  {
  }

  function StmtLen(s: Stmt, tail: bool): nat
    decreases s, 2
  {
    var t := if tail then 1 else 0;
    match s
    case Let(_, v) => ExprLen(v) + 1 + t
    case Assign(_, op, v) => ExprLen(v) + (if op == Replace then 1 else 3) + t
    case Return(e) => (if e.Some? then ExprLen(e.value) else 1) + 1
    case ExprStmt(e) => ExprLen(e) + 1 - t
    case If(_, _) => IfLen(s, tail, 0)
    case While(c, body) => ExprLen(c) + BlockLen(body, false) + 2 + t
    case For(_, start, end, step, body) => ForHeadLen(s) + BlockLen(body, false) + 4 + t
    case Loop(body) => BlockLen(body, false) + 1 + t
    case Region(body) => BlockLen(body, false) + t
    case _ => 1
  }

  /** Everything a range-`for` emits before its loop test. */
  function ForHeadLen(s: Stmt): nat
    requires s.For?
  {
    ExprLen(s.start) + 1 + ExprLen(s.end) + 1 + (if s.step.Some? then ExprLen(s.step.value) else 1) + 2
  }

  function IfLen(s: Stmt, tail: bool, i: nat): nat
    requires s.If? && i <= |s.branches|
    decreases s, 1, |s.branches| - i
  {
    if i == |s.branches| then BlockLen(s.orelse, tail)
    else ExprLen(s.branches[i].cond) + 1 + BlockLen(s.branches[i].body, tail) + 1 + IfLen(s, tail, i + 1)
  }

  function BlockLen(body: seq<Stmt>, tail: bool): nat
    decreases body, 0
  {
    if body == [] then (if tail then 1 else 0)
    else if |body| == 1 then StmtLen(body[0], tail)
    else StmtLen(body[0], false) + BlockLen(body[1..], tail)
  }

  function Tail(tail: bool): seq<VmOp> { if tail then [PushVoid] else [] }

  function CompileStep(step: Option<Expr>, ctx: Ctx, pc: nat): Option<seq<VmOp>> {
    match step
    case Some(e) => CompileExpr(e, ctx, pc)
    case None => Some([PushConst(I64(1))])
  }

  function CompileAssign(s: Stmt, tail: bool, ctx: Ctx, pc: nat): (r: Option<seq<VmOp>>)
    requires s.Assign?
    ensures r.Some? ==> |r.value| == StmtLen(s, tail)
  {
    var slot :- Lookup(ctx.scopes, s.name);
    if s.op == Replace then
      var value :- CompileExpr(s.value, ctx, pc);
      Some(value + [StoreLocal(slot)] + Tail(tail))
    else
      var value :- CompileExpr(s.value, ctx, pc + 1);
      Some([LoadLocal(slot)] + value + [VmOp.Binary(AssignBinop(s.op))] + [StoreLocal(slot)] + Tail(tail))
  }

  function CompileStmt(s: Stmt, tail: bool, ctx: Ctx, pc: nat, loop: Targets): (r: Option<Code>)
    requires ctx.scopes != []
    ensures r.Some? ==> |r.value.ops| == StmtLen(s, tail) && |r.value.ctx.scopes| == |ctx.scopes|
    decreases s, 2
  {
    match s
    case Let(x, e) =>
      var value :- CompileExpr(e, ctx, pc);
      Some(Code(value + [StoreLocal(ctx.next)] + Tail(tail), Declare(ctx, x)))
    case Assign(_, _, _) => var code :- CompileAssign(s, tail, ctx, pc); Some(Code(code, ctx))
    case Return(None) => Some(Code([PushVoid] + [VmOp.Return], ctx))
    case Return(Some(e)) => var value :- CompileExpr(e, ctx, pc); Some(Code(value + [VmOp.Return], ctx))
    case ExprStmt(e) =>
      var value :- CompileExpr(e, ctx, pc);
      Some(Code(value + (if tail then [] else [Pop]), ctx))
    case If(_, _) => CompileIf(s, tail, ctx, pc, loop, 0, pc + IfLen(s, tail, 0))
    case While(c, body) =>
      var test :- CompileExpr(c, ctx, pc);
      var end := pc + |test| + BlockLen(body, false) + 2;
      var inner :- CompileScoped(body, false, ctx, pc + |test| + 1, InLoop(end, pc));
      Some(Code(test + [JumpIfFalse(end)] + inner.ops + [Jump(pc)] + Tail(tail), inner.ctx))
    case For(_, _, _, _, _) => CompileFor(s, tail, ctx, pc)
    case Loop(body) =>
      var end := pc + BlockLen(body, false) + 1;
      var inner :- CompileScoped(body, false, ctx, pc, InLoop(end, pc));
      Some(Code(inner.ops + [Jump(pc)] + Tail(tail), inner.ctx))
    case Region(body) =>
      var inner :- CompileScoped(body, false, ctx, pc, loop);
      Some(Code(inner.ops + Tail(tail), inner.ctx))
    case Break => if loop.NoLoop? then None else Some(Code([Jump(loop.brk)], ctx))
    case Continue => if loop.NoLoop? then None else Some(Code([Jump(loop.cont)], ctx))
    case Throw(_) => None
    case Try(_, _, _) => None
  }

  /** Bounds into three fresh slots (counter, end, step) and the zero-step check. The
      loop variable is declared before the end and the step are compiled. */
  function CompileForHead(s: Stmt, ctx: Ctx, pc: nat): (r: Option<seq<VmOp>>)
    requires s.For? && ctx.scopes != []
    ensures r.Some? ==> |r.value| == ForHeadLen(s)
  {
    var inside := Declare(Open(ctx), s.name);
    var slot := ctx.next;
    var first :- CompileExpr(s.start, Open(ctx), pc);
    var last :- CompileExpr(s.end, inside, pc + |first| + 1);
    var stride :- CompileStep(s.step, inside, pc + |first| + |last| + 2);
    Some(first + [StoreLocal(slot)] + last + [StoreLocal(slot + 1)] + stride
         + [StoreLocal(slot + 2)] + [CheckStepNonzero(slot + 2)])
  }

  /** The scope a range-`for` body runs in: the loop variable, and the two unnamed slots taken. */
  function ForCtx(s: Stmt, ctx: Ctx): (inside: Ctx)
    requires s.For? && ctx.scopes != []
    ensures |inside.scopes| == |ctx.scopes| + 1
  {
    Declare(Open(ctx), s.name).(next := ctx.next + 3)
  }

  function CompileFor(s: Stmt, tail: bool, ctx: Ctx, pc: nat): (r: Option<Code>)
    requires s.For? && ctx.scopes != []
    ensures r.Some? ==> |r.value.ops| == StmtLen(s, tail) && |r.value.ctx.scopes| == |ctx.scopes|
    decreases s, 1, 0
  {
    var slot := ctx.next;
    var head :- CompileForHead(s, ctx, pc);
    var top := pc + |head|;
    var exit := top + BlockLen(s.body, false) + 4;
    var inner :- CompileScoped(s.body, false, ForCtx(s, ctx), top + 2, InLoop(exit, exit - 2));
    Some(Code(head + [ForCheck(slot, slot + 1, slot + 2)] + [JumpIfFalse(exit)] + inner.ops
              + [ForStep(slot, slot + 2)] + [Jump(top)] + Tail(tail), Close(inner.ctx, |ctx.scopes|)))
  }

  function CompileIf(s: Stmt, tail: bool, ctx: Ctx, pc: nat, loop: Targets, i: nat, end: nat): (r: Option<Code>)
    requires s.If? && i <= |s.branches| && ctx.scopes != []
    ensures r.Some? ==> |r.value.ops| == IfLen(s, tail, i) && |r.value.ctx.scopes| == |ctx.scopes|
    decreases s, 1, |s.branches| - i
  {
    if i == |s.branches| then CompileScoped(s.orelse, tail, ctx, pc, loop)
    else
      var test :- CompileExpr(s.branches[i].cond, ctx, pc);
      var inner :- CompileScoped(s.branches[i].body, tail, ctx, pc + |test| + 1, loop);
      var next := pc + |test| + |inner.ops| + 2;
      var rest :- CompileIf(s, tail, inner.ctx, next, loop, i + 1, end);
      Some(Code(test + [JumpIfFalse(next)] + inner.ops + [Jump(end)] + rest.ops, rest.ctx))
  }

  function CompileScoped(body: seq<Stmt>, tail: bool, ctx: Ctx, pc: nat, loop: Targets): (r: Option<Code>)
    requires ctx.scopes != []
    ensures r.Some? ==> |r.value.ops| == BlockLen(body, tail) && |r.value.ctx.scopes| == |ctx.scopes|
    decreases body, 1
  {
    var inner :- CompileBlock(body, tail, Open(ctx), pc, loop);
    Some(Code(inner.ops, Close(inner.ctx, |ctx.scopes|)))
  }

  function CompileBlock(body: seq<Stmt>, tail: bool, ctx: Ctx, pc: nat, loop: Targets): (r: Option<Code>)
    requires ctx.scopes != []
    ensures r.Some? ==> |r.value.ops| == BlockLen(body, tail) && |r.value.ctx.scopes| == |ctx.scopes|
    decreases body, 0
  {
    if body == [] then Some(Code(Tail(tail), ctx))
    else if |body| == 1 then CompileStmt(body[0], tail, ctx, pc, loop)
    else
      var first :- CompileStmt(body[0], false, ctx, pc, loop);
      var rest :- CompileBlock(body[1..], tail, first.ctx, pc + |first.ops|, loop);
      Some(Code(first.ops + rest.ops, rest.ctx))
  }

  datatype Program = Program(ops: seq<VmOp>, frameSize: nat)

  function DeclareAll(ctx: Ctx, params: seq<string>): (r: Ctx)
    requires ctx.scopes != []
    ensures |r.scopes| == |ctx.scopes| && r.next == ctx.next + |params|
  {
    if params == [] then ctx else Declare(DeclareAll(ctx, params[..|params| - 1]), params[|params| - 1])
  }

  /** `None` sends the function back to the tree-walker. */
  function CompileFunction(f: Function): Option<Program> {
    var body :- CompileBlock(f.body, true, DeclareAll(Ctx([map[]], 0, {}), f.params), 0, NoLoop);
    Some(Program(body.ops + [VmOp.Return], body.ctx.next))
  }

  /** The frame a call starts with: its arguments, then `Void` up to the frame size. */
  function InitialFrame(args: seq<Value>, size: nat): (frame: seq<Value>)
    ensures |frame| == size
  {
    if |args| >= size then args[..size] else args + seq(size - |args|, _ => Void)
  }
}

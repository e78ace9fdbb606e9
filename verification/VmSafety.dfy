/** Compiled code never gets stuck: a depth for every instruction, fixed at compile time,
    is the height of the operand stack whenever that instruction is reached. */
module VmSafety {
  import opened Ir
  import opened Vm
  import opened VmExprs
  import opened VmStmts

  // ---- Depths ----

  function ExprDepths(e: Expr, d: nat): (ds: seq<nat>)
    ensures |ds| == ExprLen(e) && |ds| > 0
    decreases e, 1
  {
    match e
    case ArrayLit(es) => ExprsDepths(es, d) + [d + |es|]
    case Index(t, i) => if t.Var? then ExprDepths(i, d) + [d + 1] else ExprDepths(t, d) + ExprDepths(i, d + 1) + [d + 2]
    case Field(t, _) => if t.Var? then [d] else ExprDepths(t, d) + [d + 1]
    case Unary(_, a) => ExprDepths(a, d) + [d + 1]
    case Binary(l, op, r) =>
      if op == And || op == Or then ExprDepths(l, d) + [d + 1] + ExprDepths(r, d) + [d + 1] + [d]
      else ExprDepths(l, d) + ExprDepths(r, d + 1) + [d + 2]
    case Call(_, args) => ExprsDepths(args, d) + [d + |args|]
    case _ => [d]
  }

  function ExprsDepths(es: seq<Expr>, d: nat): (ds: seq<nat>)
    ensures |ds| == ExprsLen(es)
    decreases es, 0
  {
    if es == [] then [] else ExprDepths(es[0], d) + ExprsDepths(es[1..], d + 1)
  }

  function TailDepth(tail: bool): seq<nat> { if tail then [0] else [] }

  /** Every statement starts on an empty operand stack. */
  function StmtDepths(s: Stmt, tail: bool): (ds: seq<nat>)
    ensures |ds| == StmtLen(s, tail)
    decreases s, 2
  {
    match s
    case Let(_, v) => ExprDepths(v, 0) + [1] + TailDepth(tail)
    case Assign(_, op, v) =>
      if op == Replace then ExprDepths(v, 0) + [1] + TailDepth(tail)
      else [0] + ExprDepths(v, 1) + [2] + [1] + TailDepth(tail)
    case Return(e) => (if e.Some? then ExprDepths(e.value, 0) else [0]) + [1]
    case ExprStmt(e) => ExprDepths(e, 0) + (if tail then [] else [1])
    case If(_, _) => IfDepths(s, tail, 0)
    case While(c, body) => ExprDepths(c, 0) + [1] + BlockDepths(body, false) + [0] + TailDepth(tail)
    case For(_, _, _, _, body) => HeadDepths(s) + [0] + [1] + BlockDepths(body, false) + [0] + [0] + TailDepth(tail)
    case Loop(body) => BlockDepths(body, false) + [0] + TailDepth(tail)
    case Region(body) => BlockDepths(body, false) + TailDepth(tail)
    case _ => [0]
  }

  function HeadDepths(s: Stmt): (ds: seq<nat>)
    requires s.For?
    ensures |ds| == ForHeadLen(s)
  {
    ExprDepths(s.start, 0) + [1] + ExprDepths(s.end, 0) + [1]
    + (if s.step.Some? then ExprDepths(s.step.value, 0) else [0]) + [1] + [0]
  }

  function IfDepths(s: Stmt, tail: bool, i: nat): (ds: seq<nat>)
    requires s.If? && i <= |s.branches|
    ensures |ds| == IfLen(s, tail, i)
    decreases s, 1, |s.branches| - i
  {
    if i == |s.branches| then BlockDepths(s.orelse, tail)
    else
      ExprDepths(s.branches[i].cond, 0) + [1] + BlockDepths(s.branches[i].body, tail) + [if tail then 1 else 0]
      + IfDepths(s, tail, i + 1)
  }

  function BlockDepths(body: seq<Stmt>, tail: bool): (ds: seq<nat>)
    ensures |ds| == BlockLen(body, tail)
    decreases body, 0
  {
    if body == [] then TailDepth(tail)
    else if |body| == 1 then StmtDepths(body[0], tail)
    else StmtDepths(body[0], false) + BlockDepths(body[1..], tail)
  }

  /** A statement other than an empty block begins at depth zero. */
  lemma {:induction false} StartsEmpty(s: Stmt, tail: bool)
    ensures StmtDepths(s, tail) != [] ==> StmtDepths(s, tail)[0] == 0
    decreases s, 2
  {
    match s
    case Let(_, v) => FirstDepth(v, 0);
    case Assign(_, _, v) => FirstDepth(v, 0);
    case Return(e) => if e.Some? { FirstDepth(e.value, 0); }
    case ExprStmt(e) => FirstDepth(e, 0);
    case If(_, _) => if s.branches != [] { FirstDepth(s.branches[0].cond, 0); } else { BlockStartsEmpty(s.orelse, tail); }
    case While(c, _) => FirstDepth(c, 0);
    case For(_, start, _, _, _) => FirstDepth(start, 0);
    case Loop(body) => BlockStartsEmpty(body, false);
    case Region(body) => BlockStartsEmpty(body, false);
    case _ =>
  }

  lemma {:induction false} BlockStartsEmpty(body: seq<Stmt>, tail: bool)
    ensures BlockDepths(body, tail) != [] ==> BlockDepths(body, tail)[0] == 0
    decreases body, 0
  {
    if body != [] {
      StartsEmpty(body[0], tail);
      StartsEmpty(body[0], false);
      if |body| > 1 { BlockStartsEmpty(body[1..], tail); }
    }
  }

  lemma {:induction false} FirstDepth(e: Expr, d: nat)
    ensures ExprDepths(e, d)[0] == d
    decreases e, 1
  {
    match e
    case ArrayLit(es) => if es != [] { FirstDepth(es[0], d); }
    case Index(t, i) => if t.Var? { FirstDepth(i, d); } else { FirstDepth(t, d); }
    case Field(t, _) => if !t.Var? { FirstDepth(t, d); }
    case Unary(_, a) => FirstDepth(a, d);
    case Binary(l, _, _) => FirstDepth(l, d);
    case Call(_, args) => if args != [] { FirstDepth(args[0], d); }
    case _ =>
  }

  // ---- The certificate ----

  /** Code with a depth for each instruction, and the size of the frame it runs in. */
  datatype Cert = Cert(ops: seq<VmOp>, depths: seq<nat>, frame: nat)

  predicate Reaches(z: Cert, target: nat, d: int) {
    target < |z.depths| && z.depths[target] == d
  }

  /** From instruction `pc` at its depth: enough operands, slots inside the frame, and every
      place it can go to exists and expects the depth it is reached with. */
  predicate Flow(z: Cert, pc: nat)
    requires pc < |z.ops| && pc < |z.depths|
  {
    var d := z.depths[pc];
    match z.ops[pc]
    case PushConst(_) => Reaches(z, pc + 1, d + 1)
    case PushVoid => Reaches(z, pc + 1, d + 1)
    case LoadLocal(slot) => slot < z.frame && Reaches(z, pc + 1, d + 1)
    case StoreLocal(slot) => slot < z.frame && d >= 1 && Reaches(z, pc + 1, d - 1)
    case Binary(op) => op != And && op != Or && d >= 2 && Reaches(z, pc + 1, d - 1)
    case Unary(_) => d >= 1 && Reaches(z, pc + 1, d)
    case Index => d >= 2 && Reaches(z, pc + 1, d - 1)
    case IndexLocal(slot) => slot < z.frame && d >= 1 && Reaches(z, pc + 1, d)
    case Field(_) => d >= 1 && Reaches(z, pc + 1, d)
    case FieldLocal(slot, _) => slot < z.frame && Reaches(z, pc + 1, d + 1)
    case Call(_, argc) => d >= argc && Reaches(z, pc + 1, d - argc + 1)
    case MakeArray(count) => d >= count && Reaches(z, pc + 1, d - count + 1)
    case Jump(target) => Reaches(z, target, d)
    case JumpIfFalse(target) => d >= 1 && Reaches(z, target, d - 1) && Reaches(z, pc + 1, d - 1)
    case JumpIfTrue(target) => d >= 1 && Reaches(z, target, d - 1) && Reaches(z, pc + 1, d - 1)
    case Pop => d >= 1 && Reaches(z, pc + 1, d - 1)
    case CheckStepNonzero(slot) => slot < z.frame && Reaches(z, pc + 1, d)
    case ForCheck(counter, end, step) =>
      counter < z.frame && end < z.frame && step < z.frame && Reaches(z, pc + 1, d + 1)
    case ForStep(counter, step) => counter < z.frame && step < z.frame && Reaches(z, pc + 1, d)
    case Return => d >= 1
  }

  /** The span `[lo, hi)` is entered at depth `d`, and flow is right throughout. */
  ghost predicate Safe(z: Cert, lo: nat, hi: nat, d: nat) {
    && lo <= hi <= |z.ops| == |z.depths| && Reaches(z, lo, d)
    && forall pc :: lo <= pc < hi ==> Flow(z, pc)
  }

  lemma Join(z: Cert, lo: nat, mid: nat, hi: nat, d: nat, e: nat)
    requires Safe(z, lo, mid, d) && Safe(z, mid, hi, e)
    ensures Safe(z, lo, hi, d)
  {
  }

  lemma SafeStart(z: Cert, lo: nat, hi: nat, d: nat)
    requires Safe(z, lo, hi, d)
    ensures Reaches(z, lo, d) && lo <= hi <= |z.ops|
  {
  }

  // ---- What a certificate is good for ----

  ghost predicate Certified(z: Cert) { Safe(z, 0, |z.ops|, 0) }

  /** A machine state whose stack has the certified height. */
  ghost predicate Good(z: Cert, st: State) {
    Reaches(z, st.pc, |st.stack|) && |st.frame| == z.frame
  }

  predicate Plain(op: VmOp) {
    op.PushConst? || op.PushVoid? || op.LoadLocal? || op.StoreLocal? || op.Binary? || op.Unary? || op.Index? || op.IndexLocal? || op.Field?
  }

  lemma PlainStep(z: Cert, call: Dispatch, st: State)
    requires st.pc < |z.ops| == |z.depths| && Flow(z, st.pc) && Good(z, st) && Plain(z.ops[st.pc])
    ensures var o := Step(z.ops, call, st); !o.Stuck? && (o.Next? ==> Good(z, o.st))
  {
    hide EvalBinary, EvalUnary, IndexOp, FieldOf;
  }

  lemma OtherStep(z: Cert, call: Dispatch, st: State)
    requires st.pc < |z.ops| == |z.depths| && Flow(z, st.pc) && Good(z, st) && !Plain(z.ops[st.pc])
    ensures var o := Step(z.ops, call, st); !o.Stuck? && (o.Next? ==> Good(z, o.st))
  {
    hide FieldOf, LoopTest, LoopStep, AsBool;
  }

  /** In a certified program the operand stack always has the certified height, and the loop
      never panics, whatever the arguments, callees and values are. */
  lemma {:induction false} CertifiedRun(z: Cert, call: Dispatch, st: State, n: nat)
    requires Certified(z) && Good(z, st)
    ensures var o := Exec(z.ops, call, st, n); !o.Stuck? && (o.Next? ==> Good(z, o.st))
    decreases n
  {
    hide Step, Flow;
    if n > 0 {
      if Plain(z.ops[st.pc]) { PlainStep(z, call, st); } else { OtherStep(z, call, st); }
      var o := Step(z.ops, call, st);
      if o.Next? {
        CertifiedRun(z, call, o.st, n - 1);
      }
    }
  }

  // ---- Where code and depths sit ----

  /** `code` sits at `pc`, with the depths `ds`. */
  ghost predicate Placed(z: Cert, pc: nat, code: seq<VmOp>, ds: seq<nat>) {
    && |code| == |ds| && CodeAt(z.ops, pc, code) && |z.ops| == |z.depths|
    && forall i :: 0 <= i < |ds| ==> z.depths[pc + i] == ds[i]
  }

  lemma PlacedSplit(z: Cert, pc: nat, a: seq<VmOp>, b: seq<VmOp>, da: seq<nat>, db: seq<nat>)
    requires Placed(z, pc, a + b, da + db) && |a| == |da|
    ensures Placed(z, pc, a, da) && Placed(z, pc + |a|, b, db)
  {
    CodeSplit(z.ops, pc, a, b);
    forall i | 0 <= i < |da| ensures z.depths[pc + i] == da[i] {
      assert (da + db)[i] == da[i];
    }
    forall i | 0 <= i < |db| ensures z.depths[pc + |a| + i] == db[i] {
      assert (da + db)[|da| + i] == db[i];
    }
  }

  /** An instruction at its depth. */
  ghost predicate OpAt(z: Cert, pc: nat, op: VmOp, d: nat) {
    pc < |z.ops| == |z.depths| && z.ops[pc] == op && Reaches(z, pc, d)
  }

  lemma PlacedOne(z: Cert, pc: nat, op: VmOp, d: nat)
    requires Placed(z, pc, [op], [d])
    ensures OpAt(z, pc, op, d)
  {
    assert z.ops[pc + 0] == [op][0] && z.depths[pc + 0] == [d][0];
  }

  lemma PlacedLast(z: Cert, pc: nat, a: seq<VmOp>, op: VmOp, da: seq<nat>, d: nat)
    requires Placed(z, pc, a + [op], da + [d]) && |a| == |da|
    ensures Placed(z, pc, a, da) && OpAt(z, pc + |a|, op, d)
  {
    hide Placed;
    PlacedSplit(z, pc, a, [op], da, [d]);
    PlacedOne(z, pc + |a|, op, d);
  }

  lemma PlacedOp(z: Cert, pc: nat, a: seq<VmOp>, op: VmOp, b: seq<VmOp>, da: seq<nat>, d: nat, db: seq<nat>)
    requires Placed(z, pc, a + [op] + b, da + [d] + db) && |a| == |da|
    ensures Placed(z, pc, a, da) && OpAt(z, pc + |a|, op, d) && Placed(z, pc + |a| + 1, b, db)
  {
    hide Placed;
    PlacedSplit(z, pc, a + [op], b, da + [d], db);
    PlacedLast(z, pc, a, op, da, d);
  }

  lemma PlacedBranch(z: Cert, pc: nat, a: seq<VmOp>, op: VmOp, b: seq<VmOp>, jump: VmOp, c: seq<VmOp>,
                     da: seq<nat>, d: nat, db: seq<nat>, e: nat, dc: seq<nat>)
    requires Placed(z, pc, a + [op] + b + [jump] + c, da + [d] + db + [e] + dc) && |a| == |da| && |b| == |db|
    ensures Placed(z, pc, a, da) && OpAt(z, pc + |a|, op, d) && Placed(z, pc + |a| + 1, b, db)
    ensures OpAt(z, pc + |a| + 1 + |b|, jump, e) && Placed(z, pc + |a| + |b| + 2, c, dc)
  {
    hide Placed;
    PlacedOp(z, pc, a + [op] + b, jump, c, da + [d] + db, e, dc);
    PlacedOp(z, pc, a, op, b, da, d, db);
  }

  lemma PlacedFirst(z: Cert, pc: nat, code: seq<VmOp>, ds: seq<nat>)
    requires Placed(z, pc, code, ds) && ds != []
    ensures Reaches(z, pc, ds[0])
  {
    assert z.depths[pc + 0] == ds[0];
  }

  // ---- Single instructions ----

  ghost predicate SlotsBelow(ctx: Ctx, n: nat) {
    forall k, x :: 0 <= k < |ctx.scopes| && x in ctx.scopes[k] ==> ctx.scopes[k][x] < n
  }

  lemma SlotBelow(ctx: Ctx, n: nat, x: string)
    requires SlotsBelow(ctx, n) && Lookup(ctx.scopes, x).Some?
    ensures Lookup(ctx.scopes, x).value < n
  {
  }

  lemma SlotsOkBelow(ctx: Ctx, n: nat)
    requires SlotsOk(ctx) && ctx.next <= n
    ensures SlotsBelow(ctx, n)
  {
  }

  /** The net effect on the stack of an instruction that always goes on to the next one. */
  predicate Falls(op: VmOp, z: Cert, d: int, after: int) {
    match op
    case PushConst(_) => after == d + 1
    case PushVoid => after == d + 1
    case LoadLocal(slot) => slot < z.frame && after == d + 1
    case StoreLocal(slot) => slot < z.frame && after == d - 1
    case Binary(b) => b != And && b != Or && d >= 2 && after == d - 1
    case Unary(_) => d >= 1 && after == d
    case Index => d >= 2 && after == d - 1
    case IndexLocal(slot) => slot < z.frame && d >= 1 && after == d
    case Field(_) => d >= 1 && after == d
    case FieldLocal(slot, _) => slot < z.frame && after == d + 1
    case Call(_, argc) => d >= argc && after == d - argc + 1
    case MakeArray(count) => d >= count && after == d - count + 1
    case Pop => d >= 1 && after == d - 1
    case CheckStepNonzero(slot) => slot < z.frame && after == d
    case ForCheck(counter, end, step) => counter < z.frame && end < z.frame && step < z.frame && after == d + 1
    case ForStep(counter, step) => counter < z.frame && step < z.frame && after == d
    case _ => false
  }

  lemma SafeFalls(z: Cert, pc: nat, op: VmOp, d: nat, after: nat)
    requires OpAt(z, pc, op, d) && Falls(op, z, d, after) && Reaches(z, pc + 1, after)
    ensures Safe(z, pc, pc + 1, d)
  {
  }

  lemma SafeJump(z: Cert, pc: nat, target: nat, d: nat)
    requires OpAt(z, pc, Jump(target), d) && Reaches(z, target, d)
    ensures Safe(z, pc, pc + 1, d)
  {
  }

  lemma SafeBranch(z: Cert, pc: nat, op: VmOp, target: nat, d: nat)
    requires (op == JumpIfFalse(target) || op == JumpIfTrue(target)) && OpAt(z, pc, op, d + 1)
    requires Reaches(z, target, d) && Reaches(z, pc + 1, d)
    ensures Safe(z, pc, pc + 1, d + 1)
  {
  }

  lemma SafeReturn(z: Cert, pc: nat, d: nat)
    requires OpAt(z, pc, VmOp.Return, d) && d >= 1
    ensures Safe(z, pc, pc + 1, d)
  {
  }

  // ---- Expressions ----

  ghost predicate ExprPlaced(z: Cert, e: Expr, ctx: Ctx, pc: nat, d: nat) {
    && CompileExpr(e, ctx, pc).Some? && Placed(z, pc, CompileExpr(e, ctx, pc).value, ExprDepths(e, d)) && SlotsBelow(ctx, z.frame)
  }

  /** An expression's code leaves one value more, wherever it is entered with `d`. */
  lemma {:induction false} SafeExpr(z: Cert, e: Expr, ctx: Ctx, pc: nat, d: nat)
    requires ExprPlaced(z, e, ctx, pc, d) && Reaches(z, pc + ExprLen(e), d + 1)
    ensures Safe(z, pc, pc + ExprLen(e), d)
    decreases e, 1
  {
    hide Safe, ExprDepths, ExprLen, ExprPlaced, CompileExpr;
    match e
    case ArrayLit(es) => ArrayParts(z, e, ctx, pc, d); SafeArgs(z, e, es, MakeArray(|es|), ctx, pc, d);
    case Call(f, es) => CallParts(z, e, ctx, pc, d); SafeArgs(z, e, es, VmOp.Call(f, |es|), ctx, pc, d);
    case Index(_, _) => SafeIndex(z, e, ctx, pc, d);
    case Field(_, _) => SafeUnary(z, e, ctx, pc, d);
    case Unary(_, _) => SafeUnary(z, e, ctx, pc, d);
    case Binary(_, op, _) => if op == And || op == Or { SafeLogic(z, e, ctx, pc, d); } else { SafeStrict(z, e, ctx, pc, d); }
    case _ => SafeLeaf(z, e, ctx, pc, d);
  }

  lemma SafeLeaf(z: Cert, e: Expr, ctx: Ctx, pc: nat, d: nat)
    requires !e.ArrayLit? && !e.Call? && !e.Index? && !e.Field? && !e.Unary? && !e.Binary?
    requires ExprPlaced(z, e, ctx, pc, d) && Reaches(z, pc + ExprLen(e), d + 1)
    ensures Safe(z, pc, pc + ExprLen(e), d)
  {
    hide Safe, Placed, SlotsBelow;
    if e.Var? { SlotBelow(ctx, z.frame, e.name); }
    var op := CompileExpr(e, ctx, pc).value[0];
    PlacedOne(z, pc, op, d);
    SafeFalls(z, pc, op, d, d + 1);
  }

  lemma ArrayParts(z: Cert, e: Expr, ctx: Ctx, pc: nat, d: nat)
    requires e.ArrayLit? && ExprPlaced(z, e, ctx, pc, d)
    ensures ArgsPlaced(z, e.elems, MakeArray(|e.elems|), ctx, pc, d) && ExprLen(e) == ExprsLen(e.elems) + 1
  {
    hide Placed, SlotsBelow;
  }

  lemma CallParts(z: Cert, e: Expr, ctx: Ctx, pc: nat, d: nat)
    requires e.Call? && ExprPlaced(z, e, ctx, pc, d)
    ensures ArgsPlaced(z, e.args, VmOp.Call(e.callee, |e.args|), ctx, pc, d) && ExprLen(e) == ExprsLen(e.args) + 1
  {
    hide Placed, SlotsBelow;
  }

  /** Operands in order, then the instruction that consumes them all. */
  ghost predicate ArgsPlaced(z: Cert, es: seq<Expr>, op: VmOp, ctx: Ctx, pc: nat, d: nat) {
    && CompileExprs(es, ctx, pc).Some? && SlotsBelow(ctx, z.frame)
    && Placed(z, pc, CompileExprs(es, ctx, pc).value + [op], ExprsDepths(es, d) + [d + |es|])
  }

  lemma {:induction false} SafeArgs(z: Cert, parent: Expr, es: seq<Expr>, op: VmOp, ctx: Ctx, pc: nat, d: nat)
    requires (parent.ArrayLit? && es == parent.elems) || (parent.Call? && es == parent.args)
    requires ArgsPlaced(z, es, op, ctx, pc, d) && Falls(op, z, d + |es|, d + 1)
    requires Reaches(z, pc + ExprsLen(es) + 1, d + 1)
    ensures Safe(z, pc, pc + ExprsLen(es) + 1, d)
    decreases parent, 0
  {
    hide Safe, Placed, SlotsBelow, Falls, CompileExpr, ExprLen, ExprDepths;
    PlacedLast(z, pc, CompileExprs(es, ctx, pc).value, op, ExprsDepths(es, d), d + |es|);
    SafeFalls(z, pc + ExprsLen(es), op, d + |es|, d + 1);
    SafeExprs(z, es, ctx, pc, d);
    Join(z, pc, pc + ExprsLen(es), pc + ExprsLen(es) + 1, d, d + |es|);
  }

  lemma {:induction false} SafeUnary(z: Cert, e: Expr, ctx: Ctx, pc: nat, d: nat)
    requires e.Field? || e.Unary?
    requires ExprPlaced(z, e, ctx, pc, d) && Reaches(z, pc + ExprLen(e), d + 1)
    ensures Safe(z, pc, pc + ExprLen(e), d)
    decreases e, 0
  {
    hide Safe, Placed, SlotsBelow;
    if e.Field? && e.target.Var? {
      SlotBelow(ctx, z.frame, e.target.name);
      var op := CompileExpr(e, ctx, pc).value[0];
      PlacedOne(z, pc, op, d);
      SafeFalls(z, pc, op, d, d + 1);
    } else {
      var a := if e.Field? then e.target else e.operand;
      var op := if e.Field? then VmOp.Field(e.field) else VmOp.Unary(e.uop);
      SafeThen(z, e, a, ctx, pc, d, op);
    }
  }

  /** One operand, then an instruction that replaces it. */
  lemma {:induction false} SafeThen(z: Cert, parent: Expr, a: Expr, ctx: Ctx, pc: nat, d: nat, op: VmOp)
    requires a < parent && CompileExpr(a, ctx, pc).Some? && SlotsBelow(ctx, z.frame)
    requires Placed(z, pc, CompileExpr(a, ctx, pc).value + [op], ExprDepths(a, d) + [d + 1])
    requires Falls(op, z, d + 1, d + 1) && Reaches(z, pc + ExprLen(a) + 1, d + 1)
    ensures Safe(z, pc, pc + ExprLen(a) + 1, d)
    decreases parent, 0, 0
  {
    hide Safe, Placed, SlotsBelow, CompileExpr, ExprDepths, ExprLen;
    PlacedLast(z, pc, CompileExpr(a, ctx, pc).value, op, ExprDepths(a, d), d + 1);
    SafeFalls(z, pc + ExprLen(a), op, d + 1, d + 1);
    SafeExpr(z, a, ctx, pc, d);
    Join(z, pc, pc + ExprLen(a), pc + ExprLen(a) + 1, d, d + 1);
  }

  /** Two operands, then an instruction that combines them. */
  lemma {:induction false} SafePair(z: Cert, parent: Expr, a: Expr, b: Expr, ctx: Ctx, pc: nat, d: nat, op: VmOp)
    requires a < parent && b < parent && SlotsBelow(ctx, z.frame)
    requires CompileExpr(a, ctx, pc).Some? && CompileExpr(b, ctx, pc + ExprLen(a)).Some?
    requires Placed(z, pc, CompileExpr(a, ctx, pc).value + CompileExpr(b, ctx, pc + ExprLen(a)).value + [op],
                    ExprDepths(a, d) + ExprDepths(b, d + 1) + [d + 2])
    requires Falls(op, z, d + 2, d + 1) && Reaches(z, pc + ExprLen(a) + ExprLen(b) + 1, d + 1)
    ensures Safe(z, pc, pc + ExprLen(a) + ExprLen(b) + 1, d)
    decreases parent, 0, 0
  {
    hide Safe, Placed, SlotsBelow, CompileExpr, ExprDepths, ExprLen;
    var p1, p2 := pc + ExprLen(a), pc + ExprLen(a) + ExprLen(b);
    var ca, cb := CompileExpr(a, ctx, pc).value, CompileExpr(b, ctx, p1).value;
    PlacedLast(z, pc, ca + cb, op, ExprDepths(a, d) + ExprDepths(b, d + 1), d + 2);
    PlacedSplit(z, pc, ca, cb, ExprDepths(a, d), ExprDepths(b, d + 1));
    SafeFalls(z, p2, op, d + 2, d + 1);
    SafeExpr(z, b, ctx, p1, d + 1);
    SafeStart(z, p1, p2, d + 1);
    SafeExpr(z, a, ctx, pc, d);
    Join(z, pc, p1, p2, d, d + 1);
    Join(z, pc, p2, p2 + 1, d, d + 2);
  }

  lemma {:induction false} SafeIndex(z: Cert, e: Expr, ctx: Ctx, pc: nat, d: nat)
    requires e.Index?
    requires ExprPlaced(z, e, ctx, pc, d) && Reaches(z, pc + ExprLen(e), d + 1)
    ensures Safe(z, pc, pc + ExprLen(e), d)
    decreases e, 0
  {
    hide Safe, Placed, SlotsBelow;
    if e.target.Var? {
      SlotBelow(ctx, z.frame, e.target.name);
      SafeThen(z, e, e.index, ctx, pc, d, IndexLocal(Lookup(ctx.scopes, e.target.name).value));
    } else {
      SafePair(z, e, e.target, e.index, ctx, pc, d, VmOp.Index);
    }
  }

  lemma {:induction false} SafeStrict(z: Cert, e: Expr, ctx: Ctx, pc: nat, d: nat)
    requires e.Binary? && e.op != And && e.op != Or
    requires ExprPlaced(z, e, ctx, pc, d) && Reaches(z, pc + ExprLen(e), d + 1)
    ensures Safe(z, pc, pc + ExprLen(e), d)
    decreases e, 0
  {
    hide Safe, Placed, SlotsBelow;
    SafePair(z, e, e.left, e.right, ctx, pc, d, VmOp.Binary(e.op));
  }

  lemma LogicPlaced(z: Cert, e: Expr, ctx: Ctx, pc: nat, d: nat)
    requires e.Binary? && (e.op == And || e.op == Or) && ExprPlaced(z, e, ctx, pc, d)
    ensures ExprLen(e) == ExprLen(e.left) + ExprLen(e.right) + 3
    ensures var p1, short := pc + ExprLen(e.left), pc + ExprLen(e.left) + ExprLen(e.right) + 2;
            && ExprPlaced(z, e.left, ctx, pc, d) && ExprPlaced(z, e.right, ctx, p1 + 1, d)
            && OpAt(z, p1, ShortJump(e.op, short), d + 1)
            && OpAt(z, short - 1, Jump(short + 1), d + 1) && OpAt(z, short, PushConst(Bool(e.op == Or)), d)
  {
    hide Placed, SlotsBelow, OpAt, CompileExpr, ExprDepths, ExprLen;
    LogicShape(e, ctx, pc);
    LogicDepths(e, d);
    var a := CompileExpr(e.left, ctx, pc).value;
    var b := CompileExpr(e.right, ctx, pc + |a| + 1).value;
    var short := pc + |a| + |b| + 2;
    PlacedBranch(z, pc, a, ShortJump(e.op, short), b, Jump(short + 1), [PushConst(Bool(e.op == Or))], ExprDepths(e.left, d), d + 1, ExprDepths(e.right, d), d + 1, [d]);
    PlacedOne(z, short, PushConst(Bool(e.op == Or)), d);
  }

  lemma LogicDepths(e: Expr, d: nat)
    requires e.Binary? && (e.op == And || e.op == Or)
    ensures ExprDepths(e, d) == ExprDepths(e.left, d) + [d + 1] + ExprDepths(e.right, d) + [d + 1] + [d]
  {
  }

  lemma {:induction false} SafeLogic(z: Cert, e: Expr, ctx: Ctx, pc: nat, d: nat)
    requires e.Binary? && (e.op == And || e.op == Or)
    requires ExprPlaced(z, e, ctx, pc, d) && Reaches(z, pc + ExprLen(e), d + 1)
    ensures Safe(z, pc, pc + ExprLen(e), d)
    decreases e, 0
  {
    hide Safe, ExprPlaced, ExprLen;
    LogicPlaced(z, e, ctx, pc, d);
    var p1, short := pc + ExprLen(e.left), pc + ExprLen(e.left) + ExprLen(e.right) + 2;
    SafeFalls(z, short, PushConst(Bool(e.op == Or)), d, d + 1);
    SafeJump(z, short - 1, short + 1, d + 1);
    SafeExpr(z, e.right, ctx, p1 + 1, d);
    SafeStart(z, p1 + 1, short - 1, d);
    SafeBranch(z, p1, ShortJump(e.op, short), short, d);
    SafeExpr(z, e.left, ctx, pc, d);
    Join(z, pc, p1, p1 + 1, d, d + 1);
    Join(z, pc, p1 + 1, short - 1, d, d);
    Join(z, pc, short - 1, short, d, d + 1);
    Join(z, pc, short, short + 1, d, d);
  }

  lemma {:induction false} SafeExprs(z: Cert, es: seq<Expr>, ctx: Ctx, pc: nat, d: nat)
    requires CompileExprs(es, ctx, pc).Some? && Placed(z, pc, CompileExprs(es, ctx, pc).value, ExprsDepths(es, d))
    requires Reaches(z, pc + ExprsLen(es), d + |es|) && SlotsBelow(ctx, z.frame)
    ensures Safe(z, pc, pc + ExprsLen(es), d)
    decreases es, 0
  {
    hide SlotsBelow, Flow, CompileExpr, ExprLen, ExprDepths;
    if es != [] {
      var a := CompileExpr(es[0], ctx, pc).value;
      PlacedSplit(z, pc, a, CompileExprs(es[1..], ctx, pc + |a|).value, ExprDepths(es[0], d), ExprsDepths(es[1..], d + 1));
      SafeExprs(z, es[1..], ctx, pc + |a|, d + 1);
      SafeExpr(z, es[0], ctx, pc, d);
      Join(z, pc, pc + |a|, pc + ExprsLen(es), d, d + 1);
    }
  }

  // ---- Statements ----

  ghost predicate TargetsOk(z: Cert, loop: Targets) {
    loop.InLoop? ==> Reaches(z, loop.brk, 0) && Reaches(z, loop.cont, 0)
  }

  function Exit(tail: bool): nat { if tail then 1 else 0 }

  /** Code for a statement or block, placed where the rest of the program expects it. */
  ghost predicate StmtPlaced(z: Cert, code: Option<Code>, ds: seq<nat>, ctx: Ctx, pc: nat) {
    SlotsOk(ctx) && ctx.scopes != [] && code.Some? && code.value.ctx.next <= z.frame && Placed(z, pc, code.value.ops, ds)
  }

  ghost predicate Around(z: Cert, end: nat, tail: bool, loop: Targets) {
    Reaches(z, end, Exit(tail)) && TargetsOk(z, loop)
  }

  lemma SafeTail(z: Cert, pc: nat, tail: bool)
    requires Placed(z, pc, Tail(tail), TailDepth(tail)) && Reaches(z, pc + |Tail(tail)|, Exit(tail))
    ensures Safe(z, pc, pc + |Tail(tail)|, 0)
  {
    hide Flow;
    if tail {
      PlacedOne(z, pc, PushVoid, 0);
      SafeFalls(z, pc, PushVoid, 0, 1);
    }
  }

  lemma {:induction false} SafeStmt(z: Cert, s: Stmt, tail: bool, ctx: Ctx, pc: nat, loop: Targets)
    requires ctx.scopes != [] && StmtPlaced(z, CompileStmt(s, tail, ctx, pc, loop), StmtDepths(s, tail), ctx, pc)
    requires Around(z, pc + StmtLen(s, tail), tail, loop)
    ensures Safe(z, pc, pc + StmtLen(s, tail), 0)
    decreases s, 2
  {
    hide Safe, StmtPlaced, Around, StmtDepths, StmtLen, CompileStmt;
    match s
    case Let(_, _) => SafeLet(z, s, tail, ctx, pc, loop);
    case Assign(_, _, _) => SafeAssign(z, s, tail, ctx, pc, loop);
    case If(_, _) => SafeIfStmt(z, s, tail, ctx, pc, loop);
    case While(_, _) => SafeWhile(z, s, tail, ctx, pc, loop);
    case For(_, _, _, _, _) => SafeFor(z, s, tail, ctx, pc, loop);
    case Loop(_) => SafeLoop(z, s, tail, ctx, pc, loop);
    case Region(_) => SafeRegion(z, s, tail, ctx, pc, loop);
    case Return(_) => SafeReturnStmt(z, s, tail, ctx, pc, loop);
    case _ => SafeSimple(z, s, tail, ctx, pc, loop);
  }

  /** A value, the instruction that stores it, and the statement's own value if wanted. */
  lemma SafeValue(z: Cert, e: Expr, store: VmOp, tail: bool, ctx: Ctx, pc: nat, d: nat, rest: seq<VmOp>, dr: seq<nat>, end: nat)
    requires CompileExpr(e, ctx, pc).Some? && SlotsBelow(ctx, z.frame)
    requires Placed(z, pc, CompileExpr(e, ctx, pc).value + [store] + rest, ExprDepths(e, d) + [d + 1] + dr)
    requires Falls(store, z, d + 1, d) && end >= pc + ExprLen(e) + 1 && Safe(z, pc + ExprLen(e) + 1, end, d)
    ensures Safe(z, pc, end, d)
  {
    hide Safe, Placed, SlotsBelow, CompileExpr, ExprDepths, ExprLen;
    var p := pc + ExprLen(e);
    PlacedOp(z, pc, CompileExpr(e, ctx, pc).value, store, rest, ExprDepths(e, d), d + 1, dr);
    SafeStart(z, p + 1, end, d);
    SafeFalls(z, p, store, d + 1, d);
    SafeExpr(z, e, ctx, pc, d);
    Join(z, pc, p, p + 1, d, d + 1);
    Join(z, pc, p + 1, end, d, d);
  }

  lemma SafeLet(z: Cert, s: Stmt, tail: bool, ctx: Ctx, pc: nat, loop: Targets)
    requires s.Let?
    requires ctx.scopes != [] && StmtPlaced(z, CompileStmt(s, tail, ctx, pc, loop), StmtDepths(s, tail), ctx, pc)
    requires Around(z, pc + StmtLen(s, tail), tail, loop)
    ensures Safe(z, pc, pc + StmtLen(s, tail), 0)
  {
    hide Safe, Placed, SlotsOk, SlotsBelow, CompileExpr, ExprLen, ExprDepths;
    SlotsOkBelow(ctx, z.frame);
    SafeSet(z, s.value, ctx.next, tail, ctx, pc);
  }

  lemma SafeAssign(z: Cert, s: Stmt, tail: bool, ctx: Ctx, pc: nat, loop: Targets)
    requires s.Assign?
    requires ctx.scopes != [] && StmtPlaced(z, CompileStmt(s, tail, ctx, pc, loop), StmtDepths(s, tail), ctx, pc)
    requires Around(z, pc + StmtLen(s, tail), tail, loop)
    ensures Safe(z, pc, pc + StmtLen(s, tail), 0)
  {
    hide Safe, Placed, SlotsOk, SlotsBelow, CompileExpr, ExprLen, ExprDepths;
    SlotsOkBelow(ctx, z.frame);
    SlotBelow(ctx, z.frame, s.name);
    var slot := Lookup(ctx.scopes, s.name).value;
    if s.op == Replace {
      SafeSet(z, s.value, slot, tail, ctx, pc);
    } else {
      SafeCompound(z, s.value, slot, AssignBinop(s.op), tail, ctx, pc);
    }
  }

  lemma SafeSet(z: Cert, e: Expr, slot: nat, tail: bool, ctx: Ctx, pc: nat)
    requires CompileExpr(e, ctx, pc).Some? && slot < z.frame && SlotsBelow(ctx, z.frame)
    requires Placed(z, pc, CompileExpr(e, ctx, pc).value + [StoreLocal(slot)] + Tail(tail), ExprDepths(e, 0) + [1] + TailDepth(tail))
    requires Reaches(z, pc + ExprLen(e) + 1 + |Tail(tail)|, Exit(tail))
    ensures Safe(z, pc, pc + ExprLen(e) + 1 + |Tail(tail)|, 0)
  {
    hide Safe, Placed, SlotsBelow, CompileExpr, ExprLen, ExprDepths;
    var p := pc + ExprLen(e) + 1;
    PlacedOp(z, pc, CompileExpr(e, ctx, pc).value, StoreLocal(slot), Tail(tail), ExprDepths(e, 0), 1, TailDepth(tail));
    SafeTail(z, p, tail);
    SafeValue(z, e, StoreLocal(slot), tail, ctx, pc, 0, Tail(tail), TailDepth(tail), p + |Tail(tail)|);
  }

  lemma SafeCompound(z: Cert, e: Expr, slot: nat, op: BinaryOp, tail: bool, ctx: Ctx, pc: nat)
    requires CompileExpr(e, ctx, pc + 1).Some? && slot < z.frame && op != And && op != Or && SlotsBelow(ctx, z.frame)
    requires Placed(z, pc, [LoadLocal(slot)] + CompileExpr(e, ctx, pc + 1).value + [VmOp.Binary(op)] + [StoreLocal(slot)] + Tail(tail),
                    [0] + ExprDepths(e, 1) + [2] + [1] + TailDepth(tail))
    requires Reaches(z, pc + ExprLen(e) + 3 + |Tail(tail)|, Exit(tail))
    ensures Safe(z, pc, pc + ExprLen(e) + 3 + |Tail(tail)|, 0)
  {
    hide Safe, Placed, SlotsBelow, CompileExpr, ExprLen, ExprDepths;
    var code := CompileExpr(e, ctx, pc + 1).value;
    var p := pc + 1 + ExprLen(e);
    PlacedOp(z, pc, [LoadLocal(slot)] + code + [VmOp.Binary(op)], StoreLocal(slot), Tail(tail), [0] + ExprDepths(e, 1) + [2], 1, TailDepth(tail));
    PlacedLast(z, pc, [LoadLocal(slot)] + code, VmOp.Binary(op), [0] + ExprDepths(e, 1), 2);
    PlacedSplit(z, pc, [LoadLocal(slot)], code, [0], ExprDepths(e, 1));
    PlacedOne(z, pc, LoadLocal(slot), 0);
    SafeTail(z, p + 2, tail);
    SafeStart(z, p + 2, p + 2 + |Tail(tail)|, 0);
    SafeFalls(z, p + 1, StoreLocal(slot), 1, 0);
    SafeFalls(z, p, VmOp.Binary(op), 2, 1);
    SafeExpr(z, e, ctx, pc + 1, 1);
    SafeStart(z, pc + 1, p, 1);
    SafeFalls(z, pc, LoadLocal(slot), 0, 1);
    Join(z, pc, pc + 1, p, 0, 1);
    Join(z, pc, p, p + 1, 0, 2);
    Join(z, pc, p + 1, p + 2, 0, 1);
    Join(z, pc, p + 2, p + 2 + |Tail(tail)|, 0, 0);
  }

  lemma SafeReturnStmt(z: Cert, s: Stmt, tail: bool, ctx: Ctx, pc: nat, loop: Targets)
    requires s.Return?
    requires ctx.scopes != [] && StmtPlaced(z, CompileStmt(s, tail, ctx, pc, loop), StmtDepths(s, tail), ctx, pc)
    ensures Safe(z, pc, pc + StmtLen(s, tail), 0)
  {
    hide Safe, Placed, SlotsOk, SlotsBelow, CompileExpr, ExprLen, ExprDepths, Flow;
    SlotsOkBelow(ctx, z.frame);
    if s.result.Some? {
      var e := s.result.value;
      PlacedLast(z, pc, CompileExpr(e, ctx, pc).value, VmOp.Return, ExprDepths(e, 0), 1);
      SafeReturn(z, pc + ExprLen(e), 1);
      SafeExpr(z, e, ctx, pc, 0);
      Join(z, pc, pc + ExprLen(e), pc + ExprLen(e) + 1, 0, 1);
    } else {
      PlacedLast(z, pc, [PushVoid], VmOp.Return, [0], 1);
      PlacedOne(z, pc, PushVoid, 0);
      SafeReturn(z, pc + 1, 1);
      SafeFalls(z, pc, PushVoid, 0, 1);
      Join(z, pc, pc + 1, pc + 2, 0, 1);
    }
  }

  lemma SafeSimple(z: Cert, s: Stmt, tail: bool, ctx: Ctx, pc: nat, loop: Targets)
    requires s.ExprStmt? || s.Break? || s.Continue? || s.Throw? || s.Try?
    requires ctx.scopes != [] && StmtPlaced(z, CompileStmt(s, tail, ctx, pc, loop), StmtDepths(s, tail), ctx, pc)
    requires Around(z, pc + StmtLen(s, tail), tail, loop)
    ensures Safe(z, pc, pc + StmtLen(s, tail), 0)
  {
    hide Safe, Placed, SlotsOk, SlotsBelow, CompileExpr, ExprLen, ExprDepths, Flow;
    if s.ExprStmt? {
      SlotsOkBelow(ctx, z.frame);
      var code := CompileExpr(s.value, ctx, pc).value;
      var p := pc + ExprLen(s.value);
      if tail {
        assert code + [] == code && ExprDepths(s.value, 0) + [] == ExprDepths(s.value, 0);
        SafeExpr(z, s.value, ctx, pc, 0);
      } else {
        PlacedLast(z, pc, code, Pop, ExprDepths(s.value, 0), 1);
        SafeFalls(z, p, Pop, 1, 0);
        SafeExpr(z, s.value, ctx, pc, 0);
        Join(z, pc, p, p + 1, 0, 1);
      }
    } else {
      var target := if s.Break? then loop.brk else loop.cont;
      PlacedOne(z, pc, Jump(target), 0);
      SafeJump(z, pc, target, 0);
    }
  }

  lemma {:induction false} SafeRegion(z: Cert, s: Stmt, tail: bool, ctx: Ctx, pc: nat, loop: Targets)
    requires s.Region?
    requires ctx.scopes != [] && StmtPlaced(z, CompileStmt(s, tail, ctx, pc, loop), StmtDepths(s, tail), ctx, pc)
    requires Around(z, pc + StmtLen(s, tail), tail, loop)
    ensures Safe(z, pc, pc + StmtLen(s, tail), 0)
    decreases s, 1, 0
  {
    hide Safe, Placed, SlotsOk, BlockLen, BlockDepths, CompileScoped;
    var inner := CompileScoped(s.body, false, ctx, pc, loop).value;
    var end := pc + |inner.ops|;
    PlacedSplit(z, pc, inner.ops, Tail(tail), BlockDepths(s.body, false), TailDepth(tail));
    SafeTail(z, end, tail);
    SafeStart(z, end, end + |Tail(tail)|, 0);
    SafeScoped(z, s.body, false, ctx, pc, loop);
    Join(z, pc, end, end + |Tail(tail)|, 0, 0);
  }

  lemma {:induction false} SafeLoop(z: Cert, s: Stmt, tail: bool, ctx: Ctx, pc: nat, loop: Targets)
    requires s.Loop?
    requires ctx.scopes != [] && StmtPlaced(z, CompileStmt(s, tail, ctx, pc, loop), StmtDepths(s, tail), ctx, pc)
    requires Around(z, pc + StmtLen(s, tail), tail, loop)
    ensures Safe(z, pc, pc + StmtLen(s, tail), 0)
    decreases s, 1, 0
  {
    hide Safe, Placed, SlotsOk, BlockLen, BlockDepths, CompileScoped;
    var end := pc + BlockLen(s.body, false) + 1;
    var inner := CompileScoped(s.body, false, ctx, pc, InLoop(end, pc)).value;
    PlacedOp(z, pc, inner.ops, Jump(pc), Tail(tail), BlockDepths(s.body, false), 0, TailDepth(tail));
    SafeTail(z, end, tail);
    SafeStart(z, end, end + |Tail(tail)|, 0);
    PlacedStart(z, pc, inner.ops, s.body, false);
    SafeJump(z, end - 1, pc, 0);
    SafeScoped(z, s.body, false, ctx, pc, InLoop(end, pc));
    Join(z, pc, end - 1, end, 0, 0);
    Join(z, pc, end, end + |Tail(tail)|, 0, 0);
  }

  /** A block's first instruction, or what follows an empty one, is at depth zero. */
  lemma PlacedStart(z: Cert, pc: nat, code: seq<VmOp>, body: seq<Stmt>, tail: bool)
    requires Placed(z, pc, code, BlockDepths(body, tail))
    requires BlockDepths(body, tail) == [] ==> Reaches(z, pc, 0)
    ensures Reaches(z, pc, 0)
  {
    BlockStartsEmpty(body, tail);
    if BlockDepths(body, tail) != [] { PlacedFirst(z, pc, code, BlockDepths(body, tail)); }
  }

  lemma FirstOf(z: Cert, e: Expr, ctx: Ctx, pc: nat, d: nat)
    requires ExprPlaced(z, e, ctx, pc, d)
    ensures Reaches(z, pc, d)
  {
    FirstDepth(e, d);
    PlacedFirst(z, pc, CompileExpr(e, ctx, pc).value, ExprDepths(e, d));
  }

  lemma WhileParts(z: Cert, s: Stmt, tail: bool, ctx: Ctx, pc: nat, loop: Targets)
    requires s.While? && ctx.scopes != [] && StmtPlaced(z, CompileStmt(s, tail, ctx, pc, loop), StmtDepths(s, tail), ctx, pc)
    ensures SlotsBelow(ctx, z.frame)
    ensures var p1 := pc + ExprLen(s.cond);
            var end := p1 + BlockLen(s.body, false) + 2;
            && ExprPlaced(z, s.cond, ctx, pc, 0) && OpAt(z, p1, JumpIfFalse(end), 1)
            && StmtPlaced(z, CompileScoped(s.body, false, ctx, p1 + 1, InLoop(end, pc)), BlockDepths(s.body, false), ctx, p1 + 1)
            && OpAt(z, end - 1, Jump(pc), 0)
            && Placed(z, end, Tail(tail), TailDepth(tail)) && end + |Tail(tail)| == pc + StmtLen(s, tail)
  {
    hide Placed, SlotsOk, OpAt, CompileExpr, ExprLen, ExprDepths, CompileScoped, BlockLen, BlockDepths, Grows, SlotsBelow;
    var test := CompileExpr(s.cond, ctx, pc).value;
    var end := pc + |test| + BlockLen(s.body, false) + 2;
    var inner := CompileScoped(s.body, false, ctx, pc + |test| + 1, InLoop(end, pc)).value;
    PlacedBranch(z, pc, test, JumpIfFalse(end), inner.ops, Jump(pc), Tail(tail), ExprDepths(s.cond, 0), 1, BlockDepths(s.body, false), 0, TailDepth(tail));
    ScopedGrows(s.body, false, ctx, pc + |test| + 1, InLoop(end, pc));
    GrowsNext(ctx, inner.ctx);
    SlotsOkBelow(ctx, z.frame);
  }

  lemma {:induction false} SafeWhile(z: Cert, s: Stmt, tail: bool, ctx: Ctx, pc: nat, loop: Targets)
    requires s.While?
    requires ctx.scopes != [] && StmtPlaced(z, CompileStmt(s, tail, ctx, pc, loop), StmtDepths(s, tail), ctx, pc)
    requires Around(z, pc + StmtLen(s, tail), tail, loop)
    ensures Safe(z, pc, pc + StmtLen(s, tail), 0)
    decreases s, 1, 0
  {
    hide Safe, StmtPlaced, ExprPlaced, CompileStmt, StmtDepths, StmtLen, ExprLen, BlockLen, BlockDepths, CompileScoped, Placed, SlotsBelow;
    WhileParts(z, s, tail, ctx, pc, loop);
    var p1 := pc + ExprLen(s.cond);
    var end := p1 + BlockLen(s.body, false) + 2;
    FirstOf(z, s.cond, ctx, pc, 0);
    SafeTail(z, end, tail);
    SafeStart(z, end, end + |Tail(tail)|, 0);
    SafeJump(z, end - 1, pc, 0);
    SafeScoped(z, s.body, false, ctx, p1 + 1, InLoop(end, pc));
    SafeStart(z, p1 + 1, end - 1, 0);
    SafeBranch(z, p1, JumpIfFalse(end), end, 0);
    SafeExpr(z, s.cond, ctx, pc, 0);
    Join(z, pc, p1, p1 + 1, 0, 1);
    Join(z, pc, p1 + 1, end - 1, 0, 0);
    Join(z, pc, end - 1, end, 0, 0);
    Join(z, pc, end, end + |Tail(tail)|, 0, 0);
  }

  lemma {:induction false} SafeIfStmt(z: Cert, s: Stmt, tail: bool, ctx: Ctx, pc: nat, loop: Targets)
    requires s.If?
    requires ctx.scopes != [] && StmtPlaced(z, CompileStmt(s, tail, ctx, pc, loop), StmtDepths(s, tail), ctx, pc)
    requires Around(z, pc + StmtLen(s, tail), tail, loop)
    ensures Safe(z, pc, pc + StmtLen(s, tail), 0)
    decreases s, 1, |s.branches| + 1
  {
    hide Safe, CompileIf, IfDepths, IfLen, Placed, SlotsOk, Around;
    SafeIf(z, s, tail, ctx, pc, loop, 0, pc + IfLen(s, tail, 0));
  }

  lemma {:induction false} SafeIf(z: Cert, s: Stmt, tail: bool, ctx: Ctx, pc: nat, loop: Targets, i: nat, end: nat)
    requires s.If? && i <= |s.branches| && ctx.scopes != [] && end == pc + IfLen(s, tail, i)
    requires StmtPlaced(z, CompileIf(s, tail, ctx, pc, loop, i, end), IfDepths(s, tail, i), ctx, pc)
    requires Around(z, end, tail, loop)
    ensures Safe(z, pc, end, 0)
    decreases s, 1, |s.branches| - i, 1
  {
    hide Safe, Placed, SlotsOk, Around, CompileScoped, BlockDepths;
    if i == |s.branches| {
      SafeScoped(z, s.orelse, tail, ctx, pc, loop);
    } else {
      SafeChoice(z, s, tail, ctx, pc, loop, i, end);
    }
  }

  /** The pieces of one branch, each placed. */
  ghost predicate ChoicePlaced(z: Cert, s: Stmt, tail: bool, ctx: Ctx, pc: nat, loop: Targets, i: nat, end: nat, next: nat, inner: Option<Code>)
    requires s.If? && i < |s.branches| && ctx.scopes != []
  {
    var p1 := pc + ExprLen(s.branches[i].cond);
    && next == p1 + BlockLen(s.branches[i].body, tail) + 2
    && ExprPlaced(z, s.branches[i].cond, ctx, pc, 0) && OpAt(z, p1, JumpIfFalse(next), 1)
    && inner == CompileScoped(s.branches[i].body, tail, ctx, p1 + 1, loop)
    && StmtPlaced(z, inner, BlockDepths(s.branches[i].body, tail), ctx, p1 + 1)
    && OpAt(z, next - 1, Jump(end), Exit(tail))
    && inner.value.ctx.scopes != []
    && StmtPlaced(z, CompileIf(s, tail, inner.value.ctx, next, loop, i + 1, end), IfDepths(s, tail, i + 1), inner.value.ctx, next)
    && next + IfLen(s, tail, i + 1) == pc + IfLen(s, tail, i)
  }

  lemma ChoiceParts(z: Cert, s: Stmt, tail: bool, ctx: Ctx, pc: nat, loop: Targets, i: nat, end: nat) returns (next: nat, inner: Option<Code>)
    requires s.If? && i < |s.branches| && ctx.scopes != []
    requires StmtPlaced(z, CompileIf(s, tail, ctx, pc, loop, i, end), IfDepths(s, tail, i), ctx, pc)
    ensures ChoicePlaced(z, s, tail, ctx, pc, loop, i, end, next, inner) && inner.Some?
  {
    hide Placed, SlotsOk, OpAt, CompileExpr, ExprLen, ExprDepths, CompileScoped, BlockLen, BlockDepths, Grows, SlotsBelow;
    var body := s.branches[i].body;
    var test := CompileExpr(s.branches[i].cond, ctx, pc).value;
    inner := CompileScoped(body, tail, ctx, pc + |test| + 1, loop);
    next := pc + |test| + |inner.value.ops| + 2;
    var rest := CompileIf(s, tail, inner.value.ctx, next, loop, i + 1, end).value;
    PlacedBranch(z, pc, test, JumpIfFalse(next), inner.value.ops, Jump(end), rest.ops,
                 ExprDepths(s.branches[i].cond, 0), 1, BlockDepths(body, tail), Exit(tail), IfDepths(s, tail, i + 1));
    ScopedGrows(body, tail, ctx, pc + |test| + 1, loop);
    GrowsNext(ctx, inner.value.ctx);
    IfGrows(s, tail, inner.value.ctx, next, loop, i + 1, end);
    GrowsNext(inner.value.ctx, rest.ctx);
    SlotsOkBelow(ctx, z.frame);
  }

  lemma {:induction false} SafeChoice(z: Cert, s: Stmt, tail: bool, ctx: Ctx, pc: nat, loop: Targets, i: nat, end: nat)
    requires s.If? && i < |s.branches| && ctx.scopes != [] && end == pc + IfLen(s, tail, i)
    requires StmtPlaced(z, CompileIf(s, tail, ctx, pc, loop, i, end), IfDepths(s, tail, i), ctx, pc)
    requires Around(z, end, tail, loop)
    ensures Safe(z, pc, end, 0)
    decreases s, 1, |s.branches| - i, 0
  {
    hide Safe, StmtPlaced, ExprPlaced, CompileIf, IfDepths, IfLen, ExprLen, BlockLen, BlockDepths, CompileScoped;
    var next, inner := ChoiceParts(z, s, tail, ctx, pc, loop, i, end);
    var p1 := pc + ExprLen(s.branches[i].cond);
    SafeIf(z, s, tail, inner.value.ctx, next, loop, i + 1, end);
    SafeStart(z, next, end, 0);
    SafeJump(z, next - 1, end, Exit(tail));
    SafeScoped(z, s.branches[i].body, tail, ctx, p1 + 1, loop);
    SafeStart(z, p1 + 1, next - 1, 0);
    SafeBranch(z, p1, JumpIfFalse(next), next, 0);
    SafeExpr(z, s.branches[i].cond, ctx, pc, 0);
    Join(z, pc, p1, p1 + 1, 0, 1);
    Join(z, pc, p1 + 1, next - 1, 0, 0);
    Join(z, pc, next - 1, next, 0, Exit(tail));
    Join(z, pc, next, end, 0, 0);
  }

  lemma {:induction false} SafeScoped(z: Cert, body: seq<Stmt>, tail: bool, ctx: Ctx, pc: nat, loop: Targets)
    requires ctx.scopes != [] && StmtPlaced(z, CompileScoped(body, tail, ctx, pc, loop), BlockDepths(body, tail), ctx, pc)
    requires Around(z, pc + BlockLen(body, tail), tail, loop)
    ensures Safe(z, pc, pc + BlockLen(body, tail), 0)
    decreases body, 1
  {
    hide Safe, Placed, SlotsOk, Around, CompileBlock, BlockLen, BlockDepths;
    OpenOk(ctx);
    SafeBlock(z, body, tail, Open(ctx), pc, loop);
  }

  lemma {:induction false} SafeBlock(z: Cert, body: seq<Stmt>, tail: bool, ctx: Ctx, pc: nat, loop: Targets)
    requires ctx.scopes != [] && StmtPlaced(z, CompileBlock(body, tail, ctx, pc, loop), BlockDepths(body, tail), ctx, pc)
    requires Around(z, pc + BlockLen(body, tail), tail, loop)
    ensures Safe(z, pc, pc + BlockLen(body, tail), 0)
    decreases body, 0
  {
    hide Safe, Placed, SlotsOk, CompileStmt, StmtLen, StmtDepths, Grows;
    if body == [] {
      SafeTail(z, pc, tail);
    } else if |body| == 1 {
      SafeStmt(z, body[0], tail, ctx, pc, loop);
    } else {
      var first := CompileStmt(body[0], false, ctx, pc, loop).value;
      var mid := pc + |first.ops|;
      var rest := CompileBlock(body[1..], tail, first.ctx, mid, loop).value;
      PlacedSplit(z, pc, first.ops, rest.ops, StmtDepths(body[0], false), BlockDepths(body[1..], tail));
      StmtGrows(body[0], false, ctx, pc, loop);
      BlockGrows(body[1..], tail, first.ctx, mid, loop);
      GrowsNext(first.ctx, rest.ctx);
      SafeBlock(z, body[1..], tail, first.ctx, mid, loop);
      SafeStart(z, mid, pc + BlockLen(body, tail), 0);
      SafeStmt(z, body[0], false, ctx, pc, loop);
      Join(z, pc, mid, pc + BlockLen(body, tail), 0, 0);
    }
  }

  // ---- range-for ----

  ghost predicate ForPlaced(z: Cert, s: Stmt, tail: bool, ctx: Ctx, pc: nat, top: nat, exit: nat)
    requires s.For? && ctx.scopes != []
  {
    && top == pc + ForHeadLen(s) && exit == top + BlockLen(s.body, false) + 4
    && CompileForHead(s, ctx, pc).Some? && Placed(z, pc, CompileForHead(s, ctx, pc).value, HeadDepths(s))
    && OpAt(z, top, ForCheck(ctx.next, ctx.next + 1, ctx.next + 2), 0) && OpAt(z, top + 1, JumpIfFalse(exit), 1)
    && ForCtx(s, ctx).scopes != []
    && StmtPlaced(z, CompileScoped(s.body, false, ForCtx(s, ctx), top + 2, InLoop(exit, exit - 2)), BlockDepths(s.body, false), ForCtx(s, ctx), top + 2)
    && OpAt(z, exit - 2, ForStep(ctx.next, ctx.next + 2), 0) && OpAt(z, exit - 1, Jump(top), 0)
    && Placed(z, exit, Tail(tail), TailDepth(tail)) && exit + |Tail(tail)| == pc + StmtLen(s, tail)
    && ctx.next + 3 <= z.frame
  }

  lemma ForParts(z: Cert, s: Stmt, tail: bool, ctx: Ctx, pc: nat, loop: Targets) returns (top: nat, exit: nat)
    requires s.For? && ctx.scopes != [] && StmtPlaced(z, CompileStmt(s, tail, ctx, pc, loop), StmtDepths(s, tail), ctx, pc)
    ensures ForPlaced(z, s, tail, ctx, pc, top, exit)
  {
    hide Placed, SlotsOk, OpAt, CompileForHead, HeadDepths, CompileScoped, BlockLen, BlockDepths, ForHeadLen, Grows;
    var slot := ctx.next;
    var head := CompileForHead(s, ctx, pc).value;
    top := pc + |head|;
    exit := top + BlockLen(s.body, false) + 4;
    var inner := CompileScoped(s.body, false, ForCtx(s, ctx), top + 2, InLoop(exit, exit - 2)).value;
    var test, step := ForCheck(slot, slot + 1, slot + 2), ForStep(slot, slot + 2);
    var d0, d1 := HeadDepths(s), BlockDepths(s.body, false);
    PlacedOp(z, pc, head + [test] + [JumpIfFalse(exit)] + inner.ops + [step], Jump(top), Tail(tail), d0 + [0] + [1] + d1 + [0], 0, TailDepth(tail));
    PlacedLast(z, pc, head + [test] + [JumpIfFalse(exit)] + inner.ops, step, d0 + [0] + [1] + d1, 0);
    PlacedOp(z, pc, head + [test], JumpIfFalse(exit), inner.ops, d0 + [0], 1, d1);
    PlacedLast(z, pc, head, test, d0, 0);
    ForCtxOk(s, ctx);
    ScopedGrows(s.body, false, ForCtx(s, ctx), top + 2, InLoop(exit, exit - 2));
    GrowsNext(ForCtx(s, ctx), inner.ctx);
  }

  lemma {:induction false} SafeFor(z: Cert, s: Stmt, tail: bool, ctx: Ctx, pc: nat, loop: Targets)
    requires s.For?
    requires ctx.scopes != [] && StmtPlaced(z, CompileStmt(s, tail, ctx, pc, loop), StmtDepths(s, tail), ctx, pc)
    requires Around(z, pc + StmtLen(s, tail), tail, loop)
    ensures Safe(z, pc, pc + StmtLen(s, tail), 0)
    decreases s, 1, 0
  {
    hide Safe, StmtPlaced, Placed, CompileStmt, StmtDepths, StmtLen, CompileForHead, HeadDepths, ForHeadLen, BlockLen, BlockDepths, CompileScoped, ForCtx;
    var top, exit := ForParts(z, s, tail, ctx, pc, loop);
    SafeTail(z, exit, tail);
    SafeStart(z, exit, exit + |Tail(tail)|, 0);
    SafeJump(z, exit - 1, top, 0);
    SafeFalls(z, exit - 2, ForStep(ctx.next, ctx.next + 2), 0, 0);
    SafeScoped(z, s.body, false, ForCtx(s, ctx), top + 2, InLoop(exit, exit - 2));
    SafeStart(z, top + 2, exit - 2, 0);
    SafeBranch(z, top + 1, JumpIfFalse(exit), exit, 0);
    SafeFalls(z, top, ForCheck(ctx.next, ctx.next + 1, ctx.next + 2), 0, 1);
    assert SlotsOk(ctx) by { PlacedSlots(z, CompileStmt(s, tail, ctx, pc, loop), StmtDepths(s, tail), ctx, pc); }
    SafeHead(z, s, ctx, pc);
    Join(z, pc, top, top + 1, 0, 0);
    Join(z, pc, top + 1, top + 2, 0, 1);
    Join(z, pc, top + 2, exit - 2, 0, 0);
    Join(z, pc, exit - 2, exit - 1, 0, 0);
    Join(z, pc, exit - 1, exit, 0, 0);
    Join(z, pc, exit, exit + |Tail(tail)|, 0, 0);
  }

  lemma PlacedSlots(z: Cert, code: Option<Code>, ds: seq<nat>, ctx: Ctx, pc: nat)
    requires StmtPlaced(z, code, ds, ctx, pc)
    ensures SlotsOk(ctx)
  {
  }

  ghost predicate StepPlaced(z: Cert, step: Option<Expr>, ctx: Ctx, pc: nat, end: nat) {
    && CompileStep(step, ctx, pc).Some? && SlotsBelow(ctx, z.frame) && end == pc + |CompileStep(step, ctx, pc).value|
    && Placed(z, pc, CompileStep(step, ctx, pc).value, if step.Some? then ExprDepths(step.value, 0) else [0])
  }

  lemma HeadParts(z: Cert, s: Stmt, ctx: Ctx, pc: nat) returns (p1: nat, p2: nat, p3: nat)
    requires s.For? && ctx.scopes != [] && CompileForHead(s, ctx, pc).Some? && SlotsOk(ctx) && ctx.next + 3 <= z.frame
    requires Placed(z, pc, CompileForHead(s, ctx, pc).value, HeadDepths(s))
    ensures p1 == pc + ExprLen(s.start) && p2 == p1 + 1 + ExprLen(s.end) && p3 == pc + ForHeadLen(s) - 2
    ensures ExprPlaced(z, s.start, Open(ctx), pc, 0) && OpAt(z, p1, StoreLocal(ctx.next), 1)
    ensures ExprPlaced(z, s.end, Declare(Open(ctx), s.name), p1 + 1, 0) && OpAt(z, p2, StoreLocal(ctx.next + 1), 1)
    ensures StepPlaced(z, s.step, Declare(Open(ctx), s.name), p2 + 1, p3) && OpAt(z, p3, StoreLocal(ctx.next + 2), 1)
    ensures OpAt(z, p3 + 1, CheckStepNonzero(ctx.next + 2), 0)
  {
    hide Placed, OpAt, CompileExpr, ExprLen, ExprDepths, SlotsOk, SlotsBelow;
    var slot, inside := ctx.next, Declare(Open(ctx), s.name);
    var a := CompileExpr(s.start, Open(ctx), pc).value;
    var b := CompileExpr(s.end, inside, pc + |a| + 1).value;
    var d := CompileStep(s.step, inside, pc + |a| + |b| + 2).value;
    var da, db := ExprDepths(s.start, 0), ExprDepths(s.end, 0);
    var dd := if s.step.Some? then ExprDepths(s.step.value, 0) else [0];
    p1, p2, p3 := pc + |a|, pc + |a| + |b| + 1, pc + |a| + |b| + |d| + 2;
    PlacedLast(z, pc, a + [StoreLocal(slot)] + b + [StoreLocal(slot + 1)] + d + [StoreLocal(slot + 2)], CheckStepNonzero(slot + 2),
               da + [1] + db + [1] + dd + [1], 0);
    PlacedLast(z, pc, a + [StoreLocal(slot)] + b + [StoreLocal(slot + 1)] + d, StoreLocal(slot + 2), da + [1] + db + [1] + dd, 1);
    PlacedBranch(z, pc, a, StoreLocal(slot), b, StoreLocal(slot + 1), d, da, 1, db, 1, dd);
    OpenOk(ctx);
    DeclareOk(Open(ctx), s.name);
    SlotsOkBelow(Open(ctx), z.frame);
    SlotsOkBelow(inside, z.frame);
  }

  lemma SafeHead(z: Cert, s: Stmt, ctx: Ctx, pc: nat)
    requires s.For? && ctx.scopes != [] && CompileForHead(s, ctx, pc).Some? && SlotsOk(ctx) && ctx.next + 3 <= z.frame
    requires Placed(z, pc, CompileForHead(s, ctx, pc).value, HeadDepths(s)) && Reaches(z, pc + ForHeadLen(s), 0)
    ensures Safe(z, pc, pc + ForHeadLen(s), 0)
  {
    hide Safe, Placed, ExprPlaced, StepPlaced, CompileForHead, HeadDepths, ForHeadLen, ExprLen, SlotsOk;
    var inside := Declare(Open(ctx), s.name);
    var p1, p2, p3 := HeadParts(z, s, ctx, pc);
    SafeFalls(z, p3 + 1, CheckStepNonzero(ctx.next + 2), 0, 0);
    SafeFalls(z, p3, StoreLocal(ctx.next + 2), 1, 0);
    SafeStep(z, s.step, inside, p2 + 1, p3);
    SafeStart(z, p2 + 1, p3, 0);
    SafeFalls(z, p2, StoreLocal(ctx.next + 1), 1, 0);
    SafeExpr(z, s.end, inside, p1 + 1, 0);
    SafeStart(z, p1 + 1, p2, 0);
    SafeFalls(z, p1, StoreLocal(ctx.next), 1, 0);
    SafeExpr(z, s.start, Open(ctx), pc, 0);
    Join(z, pc, p1, p1 + 1, 0, 1);
    Join(z, pc, p1 + 1, p2, 0, 0);
    Join(z, pc, p2, p2 + 1, 0, 1);
    Join(z, pc, p2 + 1, p3, 0, 0);
    Join(z, pc, p3, p3 + 1, 0, 1);
    Join(z, pc, p3 + 1, p3 + 2, 0, 0);
  }

  lemma SafeStep(z: Cert, step: Option<Expr>, ctx: Ctx, pc: nat, end: nat)
    requires StepPlaced(z, step, ctx, pc, end) && Reaches(z, end, 1)
    ensures Safe(z, pc, end, 0)
  {
    hide Safe, Placed, CompileExpr, ExprLen, ExprDepths, SlotsBelow;
    if step.Some? {
      SafeExpr(z, step.value, ctx, pc, 0);
    } else {
      PlacedOne(z, pc, PushConst(I64(1)), 0);
      SafeFalls(z, pc, PushConst(I64(1)), 0, 1);
    }
  }

  // ---- Functions ----

  /** Every compiled function carries a certificate: no run of it, on any arguments and with
      any callees, underflows the operand stack, reads outside the frame or the code, or
      jumps to a place that expects another stack height. */
  lemma CompiledNeverStuck(f: Function, call: Dispatch, args: seq<Value>, n: nat)
    requires CompileFunction(f).Some?
    ensures var p := CompileFunction(f).value;
            var depths := BlockDepths(f.body, true) + [1];
            var o := Exec(p.ops, call, State(0, [], InitialFrame(args, p.frameSize)), n);
            && !o.Stuck?
            && (o.Next? ==> o.st.pc < |p.ops| == |depths| && |o.st.stack| == depths[o.st.pc] && |o.st.frame| == p.frameSize)
  {
    hide CompileBlock, BlockDepths, BlockLen, SlotsOk, Flow, Exec, Safe;
    var p := CompileFunction(f).value;
    var ctx := EntryCtx(f.params);
    var body := CompileBlock(f.body, true, ctx, 0, NoLoop).value;
    var ds := BlockDepths(f.body, true);
    var z := Cert(p.ops, ds + [1], p.frameSize);
    EntrySlots(f.params);
    assert Placed(z, 0, body.ops, ds) && OpAt(z, |ds|, VmOp.Return, 1);
    SafeBlock(z, f.body, true, ctx, 0, NoLoop);
    SafeReturn(z, |ds|, 1);
    Join(z, 0, |ds|, |ds| + 1, 0, 1);
    SafeStart(z, 0, |ds| + 1, 0);
    CertifiedRun(z, call, State(0, [], InitialFrame(args, p.frameSize)), n);
  }
}

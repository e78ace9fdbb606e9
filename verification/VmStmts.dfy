/** Simulation of statements: the compiled code of a statement takes the dispatch loop to
    where, and with the frame with which, the tree-walker's outcome says it should be. */
module VmStmts {
  import opened Ir
  import opened Eval
  import opened EvalFacts
  import opened Vm
  import opened VmExprs

  // ---- What the two tiers need of a body to agree ----

  /** In value position no region block with a value of its own; in a range-`for` neither bound mentions the loop
      variable and the body does not assign it. */
  predicate Fits(s: Stmt, tail: bool)
    decreases s, 2
  {
    match s
    case If(_, _) => IfFits(s, tail, 0)
    case While(_, body) => BlockFits(body, false)
    case For(x, _, end, step, body) =>
      !Mentions(end, x) && !(step.Some? && Mentions(step.value, x)) && !BlockAssigns(body, x) && BlockFits(body, false)
    case Loop(body) => BlockFits(body, false)
    case Region(body) => (tail ==> BlockVoid(body)) && BlockFits(body, false)
    case _ => true
  }

  /** Does the statement yield `Void` whenever it falls through? A region block yields what its
      last statement does, and the compiled code drops that. */
  predicate StmtVoid(s: Stmt)
    decreases s, 1
  {
    match s
    case ExprStmt(_) => false
    case If(branches, orelse) => (forall i :: 0 <= i < |branches| ==> BlockVoid(branches[i].body)) && BlockVoid(orelse)
    case Region(body) => BlockVoid(body)
    case Try(body, _, handler) => BlockVoid(body) && BlockVoid(handler)
    case _ => true
  }

  predicate BlockVoid(body: seq<Stmt>)
    decreases body, 0
  {
    body == [] || (if |body| == 1 then StmtVoid(body[0]) else BlockVoid(body[1..]))
  }

  predicate IfFits(s: Stmt, tail: bool, i: nat)
    requires s.If? && i <= |s.branches|
    decreases s, 1, |s.branches| - i
  {
    if i == |s.branches| then BlockFits(s.orelse, tail)
    else BlockFits(s.branches[i].body, tail) && IfFits(s, tail, i + 1)
  }

  predicate BlockFits(body: seq<Stmt>, tail: bool)
    decreases body, 0
  {
    body == [] || (Fits(body[0], tail && |body| == 1) && BlockFits(body[1..], tail))
  }

  // ---- Slot allocation ----

  ghost predicate Owned(scopes: Scopes<nat>, j: int) {
    exists k, x :: 0 <= k < |scopes| && x in scopes[k] && scopes[k][x] == j
  }

  /** Slots in use are below the next free one, and no two bindings share one. */
  ghost predicate SlotsOk(ctx: Ctx) {
    && ctx.scopes != []
    && Named(ctx)
    && (forall k, x :: 0 <= k < |ctx.scopes| && x in ctx.scopes[k] ==> ctx.scopes[k][x] < ctx.next)
    && (forall k, x, m, y ::
          (0 <= k < |ctx.scopes| && x in ctx.scopes[k] && 0 <= m < |ctx.scopes| && y in ctx.scopes[m]
           && ctx.scopes[k][x] == ctx.scopes[m][y]) ==> k == m && x == y)
  }

  /** What compiling code does to the context: outer scopes untouched, fresh slots only. */
  ghost predicate Grows(ctx: Ctx, ctx': Ctx) {
    && |ctx'.scopes| == |ctx.scopes| && ctx.scopes != []
    && ctx.next <= ctx'.next && ctx.locals <= ctx'.locals
    && (forall k :: 0 <= k < |ctx.scopes| - 1 ==> ctx'.scopes[k] == ctx.scopes[k])
    && (var last, last' := ctx.scopes[|ctx.scopes| - 1], ctx'.scopes[|ctx.scopes| - 1];
        last.Keys <= last'.Keys && forall x :: x in last' ==> (x in last && last'[x] == last[x]) || last'[x] >= ctx.next)
  }

  lemma GrowsTrans(a: Ctx, b: Ctx, c: Ctx)
    requires Grows(a, b) && Grows(b, c)
    ensures Grows(a, c)
  {
  }

  lemma GrowsNext(a: Ctx, b: Ctx)
    requires Grows(a, b)
    ensures a.next <= b.next && a.scopes != [] && |a.scopes| == |b.scopes|
  {
  }

  lemma DeclareOk(ctx: Ctx, x: string)
    requires SlotsOk(ctx)
    ensures SlotsOk(Declare(ctx, x)) && Grows(ctx, Declare(ctx, x))
  {
  }

  lemma OpenOk(ctx: Ctx)
    requires SlotsOk(ctx)
    ensures SlotsOk(Open(ctx))
  {
    forall k, x | 0 <= k < |Open(ctx).scopes| && x in Open(ctx).scopes[k]
      ensures k < |ctx.scopes| && x in ctx.scopes[k]
    {
    }
  }

  /** Whatever was compiled in a pushed scope, popping it gives back the scopes pushed onto. */
  lemma CloseOk(ctx: Ctx, pushed: Ctx, inner: Ctx)
    requires SlotsOk(ctx) && SlotsOk(inner) && Grows(pushed, inner)
    requires |pushed.scopes| == |ctx.scopes| + 1 && pushed.scopes[..|ctx.scopes|] == ctx.scopes
    requires ctx.next <= pushed.next && ctx.locals <= pushed.locals
    ensures Close(inner, |ctx.scopes|).scopes == ctx.scopes
    ensures SlotsOk(Close(inner, |ctx.scopes|)) && Grows(ctx, Close(inner, |ctx.scopes|))
  {
    var closed := Close(inner, |ctx.scopes|);
    forall k | 0 <= k < |ctx.scopes| ensures closed.scopes[k] == ctx.scopes[k] {
      assert pushed.scopes[..|ctx.scopes|][k] == pushed.scopes[k];
    }
  }

  lemma ForCtxOk(s: Stmt, ctx: Ctx)
    requires s.For? && SlotsOk(ctx)
    ensures SlotsOk(ForCtx(s, ctx)) && |ForCtx(s, ctx).scopes| == |ctx.scopes| + 1
    ensures ForCtx(s, ctx).scopes == ctx.scopes + [map[s.name := ctx.next]]
  {
    OpenOk(ctx);
    DeclareOk(Open(ctx), s.name);
  }

  lemma {:induction false} StmtGrows(s: Stmt, tail: bool, ctx: Ctx, pc: nat, loop: Targets)
    requires SlotsOk(ctx) && CompileStmt(s, tail, ctx, pc, loop).Some?
    ensures var ctx' := CompileStmt(s, tail, ctx, pc, loop).value.ctx;
            SlotsOk(ctx') && Grows(ctx, ctx') && (!s.Let? ==> ctx'.scopes == ctx.scopes)
    decreases s, 2
  {
    hide SlotsOk, Grows, CompileExpr, CompileForHead, CompileScoped, CompileIf, StmtLen, BlockLen, IfLen, ExprLen, ForHeadLen;
    GrowsRefl(ctx);
    match s
    case Let(x, _) => DeclareOk(ctx, x);
    case If(_, _) => IfGrows(s, tail, ctx, pc, loop, 0, pc + IfLen(s, tail, 0));
    case While(cond, body) =>
      var test := CompileExpr(cond, ctx, pc).value;
      ScopedGrows(body, false, ctx, pc + |test| + 1, InLoop(pc + |test| + BlockLen(body, false) + 2, pc));
    case For(_, _, _, _, body) =>
      ForCtxOk(s, ctx);
      var top := pc + |CompileForHead(s, ctx, pc).value|;
      var exit := top + BlockLen(body, false) + 4;
      ScopedGrows(body, false, ForCtx(s, ctx), top + 2, InLoop(exit, exit - 2));
      CloseOk(ctx, ForCtx(s, ctx), CompileScoped(body, false, ForCtx(s, ctx), top + 2, InLoop(exit, exit - 2)).value.ctx);
    case Loop(body) => ScopedGrows(body, false, ctx, pc, InLoop(pc + BlockLen(body, false) + 1, pc));
    case Region(body) => ScopedGrows(body, false, ctx, pc, loop);
    case _ =>
  }

  lemma GrowsRefl(ctx: Ctx)
    requires SlotsOk(ctx)
    ensures Grows(ctx, ctx)
  {
  }

  lemma {:induction false} IfGrows(s: Stmt, tail: bool, ctx: Ctx, pc: nat, loop: Targets, i: nat, end: nat)
    requires s.If? && i <= |s.branches| && SlotsOk(ctx) && CompileIf(s, tail, ctx, pc, loop, i, end).Some?
    ensures var ctx' := CompileIf(s, tail, ctx, pc, loop, i, end).value.ctx;
            SlotsOk(ctx') && Grows(ctx, ctx') && ctx'.scopes == ctx.scopes
    decreases s, 1, |s.branches| - i
  {
    assert ctx.scopes != [];
    hide SlotsOk, Grows, CompileExpr;
    if i == |s.branches| {
      ScopedGrows(s.orelse, tail, ctx, pc, loop);
    } else {
      var test := CompileExpr(s.branches[i].cond, ctx, pc).value;
      var inner := CompileScoped(s.branches[i].body, tail, ctx, pc + |test| + 1, loop).value;
      ScopedGrows(s.branches[i].body, tail, ctx, pc + |test| + 1, loop);
      var next := pc + |test| + |inner.ops| + 2;
      IfGrows(s, tail, inner.ctx, next, loop, i + 1, end);
      GrowsTrans(ctx, inner.ctx, CompileIf(s, tail, inner.ctx, next, loop, i + 1, end).value.ctx);
    }
  }

  lemma {:induction false} ScopedGrows(body: seq<Stmt>, tail: bool, ctx: Ctx, pc: nat, loop: Targets)
    requires SlotsOk(ctx) && CompileScoped(body, tail, ctx, pc, loop).Some?
    ensures var ctx' := CompileScoped(body, tail, ctx, pc, loop).value.ctx;
            SlotsOk(ctx') && Grows(ctx, ctx') && ctx'.scopes == ctx.scopes
    decreases body, 1
  {
    OpenOk(ctx);
    BlockGrows(body, tail, Open(ctx), pc, loop);
    CloseOk(ctx, Open(ctx), CompileBlock(body, tail, Open(ctx), pc, loop).value.ctx);
  }

  lemma {:induction false} BlockGrows(body: seq<Stmt>, tail: bool, ctx: Ctx, pc: nat, loop: Targets)
    requires SlotsOk(ctx) && CompileBlock(body, tail, ctx, pc, loop).Some?
    ensures var ctx' := CompileBlock(body, tail, ctx, pc, loop).value.ctx; SlotsOk(ctx') && Grows(ctx, ctx')
    decreases body, 0
  {
    hide SlotsOk, Grows, CompileStmt;
    GrowsRefl(ctx);
    if |body| == 1 {
      StmtGrows(body[0], tail, ctx, pc, loop);
    } else if |body| > 1 {
      var first := CompileStmt(body[0], false, ctx, pc, loop).value;
      StmtGrows(body[0], false, ctx, pc, loop);
      BlockGrows(body[1..], tail, first.ctx, pc + |first.ops|, loop);
      GrowsTrans(ctx, first.ctx, CompileBlock(body[1..], tail, first.ctx, pc + |first.ops|, loop).value.ctx);
    }
  }

  // ---- Function entry ----

  function EntryCtx(params: seq<string>): Ctx { DeclareAll(Ctx([map[]], 0, {}), params) }

  lemma {:induction false} EntrySlots(params: seq<string>)
    ensures SlotsOk(EntryCtx(params)) && EntryCtx(params).next == |params|
  {
    if params != [] {
      EntrySlots(params[..|params| - 1]);
      DeclareOk(EntryCtx(params[..|params| - 1]), params[|params| - 1]);
    }
  }
}

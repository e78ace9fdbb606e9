/** The bytecode compiler as it runs: one pass that appends instructions, emits jumps before
    their targets are known, and patches them once the code they skip has been emitted. */
module VmCompile {
  import opened Ir
  import opened Vm

  // ---- State ----

  datatype Binding = Binding(name: string, slot: nat)

  /** A loop being compiled. `while` and `loop` continue to a place already emitted; the
      `continue` jumps of a range-`for` wait for its step. */
  datatype VmLoop = VmLoop(continueTarget: Option<nat>, continueSites: seq<nat>, breakSites: seq<nat>)

  /** What a scope's list of bindings means: the newest binding of a name wins. */
  function Bindings(scope: seq<Binding>): map<string, nat> {
    if scope == [] then map[]
    else Bindings(scope[..|scope| - 1])[scope[|scope| - 1].name := scope[|scope| - 1].slot]
  }

  function ScopeMaps(scopes: seq<seq<Binding>>): (maps: Scopes<nat>)
    ensures |maps| == |scopes|
  {
    seq(|scopes|, i requires 0 <= i < |scopes| => Bindings(scopes[i]))
  }

  predicate IsJump(op: VmOp) { op.Jump? || op.JumpIfFalse? || op.JumpIfTrue? }

  function Aim(op: VmOp, target: nat): VmOp {
    match op
    case Jump(_) => Jump(target)
    case JumpIfFalse(_) => JumpIfFalse(target)
    case JumpIfTrue(_) => JumpIfTrue(target)
    case other => other
  }

  // ---- What the emitted code means while jumps are still open ----

  /** The pieces the compiler is asked for. */
  datatype Work = WStmt(s: Stmt, tail: bool) | WBlock(body: seq<Stmt>, tail: bool) | WScoped(body: seq<Stmt>, tail: bool)

  function Spec(w: Work, ctx: Ctx, pc: nat, t: Targets): Option<Code>
    requires ctx.scopes != []
  {
    match w
    case WStmt(s, tail) => CompileStmt(s, tail, ctx, pc, t)
    case WBlock(body, tail) => CompileBlock(body, tail, ctx, pc, t)
    case WScoped(body, tail) => CompileScoped(body, tail, ctx, pc, t)
  }

  /** The jump targets that the loops being compiled allow for. */
  predicate Allows(loops: seq<VmLoop>, t: Targets) {
    if loops == [] then t.NoLoop?
    else
      var known := loops[|loops| - 1].continueTarget;
      t.InLoop? && (known.Some? ==> t.cont == known.value)
  }

  datatype Sites = Sites(brk: seq<nat>, cont: seq<nat>)

  const NONE: Sites := Sites([], [])

  function Both(a: Sites, b: Sites): Sites { Sites(a.brk + b.brk, a.cont + b.cont) }

  function Note(loops: seq<VmLoop>, sites: Sites): (r: seq<VmLoop>)
    ensures |r| == |loops|
  {
    if loops == [] then []
    else
      var top := loops[|loops| - 1];
      loops[|loops| - 1 := VmLoop(top.continueTarget, top.continueSites + sites.cont, top.breakSites + sites.brk)]
  }

  function FillOp(op: VmOp, at: nat, sites: Sites, t: Targets): VmOp {
    if t.InLoop? && at in sites.brk then Jump(t.brk)
    else if t.InLoop? && at in sites.cont then Jump(t.cont)
    else op
  }

  /** The code with the jumps at `sites` sent to their loop's targets. */
  function Fill(code: seq<VmOp>, base: nat, sites: Sites, t: Targets): (r: seq<VmOp>)
    ensures |r| == |code|
  {
    seq(|code|, i requires 0 <= i < |code| => FillOp(code[i], base + i, sites, t))
  }

  /** Sites lie in the code, hold open jumps, and are there only when there is a loop to wait for. */
  ghost predicate SitesOk(code: seq<VmOp>, base: nat, sites: Sites, loops: seq<VmLoop>) {
    && (forall i :: i in sites.brk || i in sites.cont ==> base <= i < base + |code| && code[i - base] == Jump(0))
    && (forall i :: i in sites.brk ==> i !in sites.cont)
    && (loops == [] ==> sites == NONE)
    && (loops != [] && loops[|loops| - 1].continueTarget.Some? ==> sites.cont == [])
  }

  /** `code`, once its sites are filled in, is what the specification asks for, whichever
      targets they are filled with. */
  ghost predicate Built(w: Work, ctx: Ctx, pc: nat, loops: seq<VmLoop>, code: seq<VmOp>, ctx': Ctx, sites: Sites)
    requires ctx.scopes != []
  {
    && SitesOk(code, pc, sites, loops)
    && forall t :: Allows(loops, t) ==> Spec(w, ctx, pc, t) == Some(Code(Fill(code, pc, sites, t), ctx'))
  }

  ghost predicate Refused(w: Work, ctx: Ctx, pc: nat, loops: seq<VmLoop>)
    requires ctx.scopes != []
  {
    forall t :: Allows(loops, t) ==> Spec(w, ctx, pc, t) == None
  }

  // ---- Facts about filling ----

  lemma FillNone(code: seq<VmOp>, base: nat, t: Targets)
    ensures Fill(code, base, NONE, t) == code
  {
  }

  lemma FillSplit(a: seq<VmOp>, b: seq<VmOp>, base: nat, sa: Sites, sb: Sites, loops: seq<VmLoop>, t: Targets)
    requires SitesOk(a, base, sa, loops) && SitesOk(b, base + |a|, sb, loops)
    ensures SitesOk(a + b, base, Both(sa, sb), loops)
    ensures Fill(a + b, base, Both(sa, sb), t) == Fill(a, base, sa, t) + Fill(b, base + |a|, sb, t)
  {
    var s := Both(sa, sb);
    forall i | i in s.brk || i in s.cont ensures base <= i < base + |a + b| && (a + b)[i - base] == Jump(0) {
      if i in sa.brk || i in sa.cont { assert (a + b)[i - base] == a[i - base]; }
      else { assert (a + b)[i - base] == b[i - base - |a|]; }
    }
    forall i | 0 <= i < |a + b| ensures Fill(a + b, base, s, t)[i] == (Fill(a, base, sa, t) + Fill(b, base + |a|, sb, t))[i] {
    }
  }

  /** Code without sites around code with sites. */
  lemma FillInside(a: seq<VmOp>, b: seq<VmOp>, c: seq<VmOp>, base: nat, sites: Sites, loops: seq<VmLoop>, t: Targets)
    requires SitesOk(b, base + |a|, sites, loops)
    ensures SitesOk(a + b + c, base, sites, loops)
    ensures Fill(a + b + c, base, sites, t) == a + Fill(b, base + |a|, sites, t) + c
  {
    FillSplit(a, b, base, NONE, sites, loops, t);
    FillNone(a, base, t);
    FillSplit(a + b, c, base, sites, NONE, loops, t);
    FillNone(c, base + |a + b|, t);
    assert Both(NONE, sites) == sites == Both(sites, NONE);
  }

  // ---- Patching ----

  /** The code with every jump at one of `sites` sent to `target`. */
  ghost predicate Aimed(before: seq<VmOp>, after: seq<VmOp>, sites: seq<nat>, target: nat) {
    && |after| == |before|
    && forall i :: 0 <= i < |before| ==> after[i] == if i in sites then Aim(before[i], target) else before[i]
  }

  /** Patching the break sites, and then the continue sites, of a finished loop body fills it in. */
  lemma PatchedIsFilled(pre: seq<VmOp>, code: seq<VmOp>, post: seq<VmOp>, ops1: seq<VmOp>, ops2: seq<VmOp>,
                        sites: Sites, loops: seq<VmLoop>, t: Targets)
    requires t.InLoop? && SitesOk(code, |pre|, sites, loops)
    requires Aimed(pre + code + post, ops1, sites.brk, t.brk) && Aimed(ops1, ops2, sites.cont, t.cont)
    ensures ops2 == pre + Fill(code, |pre|, sites, t) + post
  {
    var all := pre + code + post;
    forall i | 0 <= i < |all| ensures ops2[i] == (pre + Fill(code, |pre|, sites, t) + post)[i] {
      if |pre| <= i < |pre| + |code| {
        assert all[i] == code[i - |pre|];
      }
    }
  }

  lemma PatchOne(a: seq<VmOp>, op: VmOp, b: seq<VmOp>, op': VmOp)
    ensures (a + [op] + b)[|a|] == op
    ensures (a + [op] + b)[|a| := op'] == a + [op'] + b
  {
  }

  lemma PatchOneThen(a: seq<VmOp>, op: VmOp, b: seq<VmOp>, c: seq<VmOp>, op': VmOp)
    ensures (a + [op] + b + c)[|a|] == op
    ensures (a + [op] + b + c)[|a| := op'] == a + [op'] + b + c
  {
  }

  lemma ScopeMapsPush(scopes: seq<seq<Binding>>, scope: seq<Binding>)
    ensures ScopeMaps(scopes + [scope]) == ScopeMaps(scopes) + [Bindings(scope)]
  {
  }

  lemma ScopeMapsTake(scopes: seq<seq<Binding>>, n: nat)
    requires n <= |scopes|
    ensures ScopeMaps(scopes[..n]) == ScopeMaps(scopes)[..n]
  {
  }

  lemma ScopeMapsBind(scopes: seq<seq<Binding>>, name: string, slot: nat)
    requires scopes != []
    ensures ScopeMaps(scopes[|scopes| - 1 := scopes[|scopes| - 1] + [Binding(name, slot)]]) == Ir.Define(ScopeMaps(scopes), name, slot)
  {
    var last := scopes[|scopes| - 1] + [Binding(name, slot)];
    assert last[..|last| - 1] == scopes[|scopes| - 1];
  }

  // ---- Statements from their pieces ----

  lemma BuiltPlain(w: Work, ctx: Ctx, pc: nat, loops: seq<VmLoop>, code: seq<VmOp>, ctx': Ctx)
    requires ctx.scopes != [] && forall t :: Allows(loops, t) ==> Spec(w, ctx, pc, t) == Some(Code(code, ctx'))
    ensures Built(w, ctx, pc, loops, code, ctx', NONE)
  {
    forall t | Allows(loops, t) ensures Fill(code, pc, NONE, t) == code {
      FillNone(code, pc, t);
    }
  }

  predicate Simple(s: Stmt) { s.Let? || s.Assign? || s.Return? || s.ExprStmt? || s.Throw? || s.Try? }

  /** Statements that jump nowhere compile alike wherever they stand. */
  lemma SimpleSame(s: Stmt, tail: bool, ctx: Ctx, pc: nat, t: Targets)
    requires ctx.scopes != [] && Simple(s)
    ensures CompileStmt(s, tail, ctx, pc, t) == CompileStmt(s, tail, ctx, pc, NoLoop)
  {
  }

  lemma BuiltSimple(s: Stmt, tail: bool, ctx: Ctx, pc: nat, loops: seq<VmLoop>, code: seq<VmOp>, ctx': Ctx)
    requires ctx.scopes != [] && Simple(s) && CompileStmt(s, tail, ctx, pc, NoLoop) == Some(Code(code, ctx'))
    ensures Built(WStmt(s, tail), ctx, pc, loops, code, ctx', NONE)
  {
    hide CompileStmt;
    forall t ensures Spec(WStmt(s, tail), ctx, pc, t) == Some(Code(code, ctx')) {
      SimpleSame(s, tail, ctx, pc, t);
    }
    BuiltPlain(WStmt(s, tail), ctx, pc, loops, code, ctx');
  }

  lemma RefusedSimple(s: Stmt, tail: bool, ctx: Ctx, pc: nat, loops: seq<VmLoop>)
    requires ctx.scopes != [] && Simple(s) && CompileStmt(s, tail, ctx, pc, NoLoop) == None
    ensures Refused(WStmt(s, tail), ctx, pc, loops)
  {
    hide CompileStmt;
    forall t ensures Spec(WStmt(s, tail), ctx, pc, t) == None {
      SimpleSame(s, tail, ctx, pc, t);
    }
  }

  lemma NotLowered(s: Stmt, tail: bool, ctx: Ctx, pc: nat)
    requires ctx.scopes != [] && (s.Throw? || s.Try?)
    ensures CompileStmt(s, tail, ctx, pc, NoLoop) == None
  {
  }

  lemma EmptyBuilt(tail: bool, ctx: Ctx, pc: nat, loops: seq<VmLoop>)
    requires ctx.scopes != []
    ensures Built(WBlock([], tail), ctx, pc, loops, Tail(tail), ctx, NONE)
  {
    BuiltPlain(WBlock([], tail), ctx, pc, loops, Tail(tail), ctx);
  }

  lemma NoteNone(loops: seq<VmLoop>)
    ensures Note(loops, NONE) == loops
  {
    if loops != [] {
      var top := loops[|loops| - 1];
      assert top.continueSites + [] == top.continueSites && top.breakSites + [] == top.breakSites;
    }
  }

  /** Noting a site changes neither which targets are allowed nor where sites may be. */
  lemma NoteAllows(loops: seq<VmLoop>, sites: Sites)
    ensures forall t :: Allows(Note(loops, sites), t) == Allows(loops, t)
    ensures forall more :: Note(Note(loops, sites), more) == Note(loops, Both(sites, more))
  {
    forall more ensures Note(Note(loops, sites), more) == Note(loops, Both(sites, more)) {
      if loops != [] {
        var top := loops[|loops| - 1];
        assert (top.continueSites + sites.cont) + more.cont == top.continueSites + (sites.cont + more.cont);
        assert (top.breakSites + sites.brk) + more.brk == top.breakSites + (sites.brk + more.brk);
      }
    }
  }

  lemma BuiltNoted(w: Work, ctx: Ctx, pc: nat, loops: seq<VmLoop>, sites: Sites, code: seq<VmOp>, ctx': Ctx, more: Sites)
    requires ctx.scopes != [] && Built(w, ctx, pc, Note(loops, sites), code, ctx', more)
    ensures Built(w, ctx, pc, loops, code, ctx', more)
    ensures Note(Note(loops, sites), more) == Note(loops, Both(sites, more))
  {
    hide Spec, Fill, Allows;
    NoteAllows(loops, sites);
  }

  lemma RefusedNoted(w: Work, ctx: Ctx, pc: nat, loops: seq<VmLoop>, sites: Sites)
    requires ctx.scopes != [] && Refused(w, ctx, pc, Note(loops, sites))
    ensures Refused(w, ctx, pc, loops)
  {
    hide Spec, Allows;
    NoteAllows(loops, sites);
  }

  lemma BuiltSites(w: Work, ctx: Ctx, pc: nat, loops: seq<VmLoop>, code: seq<VmOp>, ctx': Ctx, sites: Sites)
    requires ctx.scopes != [] && Built(w, ctx, pc, loops, code, ctx', sites)
    ensures SitesOk(code, pc, sites, loops)
  {
  }

  lemma SitesInPlace(pre: seq<VmOp>, code: seq<VmOp>, post: seq<VmOp>, sites: Sites, loops: seq<VmLoop>)
    requires SitesOk(code, |pre|, sites, loops)
    ensures forall i :: i in sites.brk || i in sites.cont ==> i < |pre + code + post| && (pre + code + post)[i] == Jump(0)
    ensures forall i :: i in sites.cont ==> i !in sites.brk
  {
    forall i | i in sites.brk || i in sites.cont ensures i < |pre + code + post| && (pre + code + post)[i] == Jump(0) {
      assert (pre + code + post)[i] == code[i - |pre|];
    }
  }

  lemma BuiltBreak(tail: bool, ctx: Ctx, pc: nat, loops: seq<VmLoop>)
    requires ctx.scopes != [] && loops != []
    ensures Built(WStmt(Break, tail), ctx, pc, loops, [Jump(0)], ctx, Sites([pc], []))
  {
    forall t | Allows(loops, t) ensures Fill([Jump(0)], pc, Sites([pc], []), t) == [Jump(t.brk)] {
    }
  }

  lemma BuiltContinue(tail: bool, ctx: Ctx, pc: nat, loops: seq<VmLoop>)
    requires ctx.scopes != [] && loops != []
    ensures var known := loops[|loops| - 1].continueTarget;
            if known.Some? then Built(WStmt(Continue, tail), ctx, pc, loops, [Jump(known.value)], ctx, NONE)
            else Built(WStmt(Continue, tail), ctx, pc, loops, [Jump(0)], ctx, Sites([], [pc]))
  {
    var known := loops[|loops| - 1].continueTarget;
    if known.Some? {
      BuiltPlain(WStmt(Continue, tail), ctx, pc, loops, [Jump(known.value)], ctx);
    } else {
      forall t | Allows(loops, t) ensures Fill([Jump(0)], pc, Sites([], [pc]), t) == [Jump(t.cont)] {
      }
    }
  }

  lemma RefusedExit(s: Stmt, tail: bool, ctx: Ctx, pc: nat)
    requires ctx.scopes != [] && (s.Break? || s.Continue?)
    ensures Refused(WStmt(s, tail), ctx, pc, [])
  {
  }

  /** A pushed scope, its statements, and the scope popped. */
  lemma BuiltScoped(body: seq<Stmt>, tail: bool, ctx: Ctx, pc: nat, loops: seq<VmLoop>, code: seq<VmOp>, inner: Ctx, sites: Sites)
    requires ctx.scopes != [] && |inner.scopes| == |ctx.scopes| + 1
    requires Built(WBlock(body, tail), Open(ctx), pc, loops, code, inner, sites)
    ensures Built(WScoped(body, tail), ctx, pc, loops, code, Close(inner, |ctx.scopes|), sites)
  {
    hide CompileBlock;
    forall t | Allows(loops, t)
      ensures Spec(WScoped(body, tail), ctx, pc, t) == Some(Code(Fill(code, pc, sites, t), Close(inner, |ctx.scopes|)))
    {
      assert Spec(WBlock(body, tail), Open(ctx), pc, t) == Some(Code(Fill(code, pc, sites, t), inner));
    }
  }

  lemma RefusedScoped(body: seq<Stmt>, tail: bool, ctx: Ctx, pc: nat, loops: seq<VmLoop>)
    requires ctx.scopes != [] && Refused(WBlock(body, tail), Open(ctx), pc, loops)
    ensures Refused(WScoped(body, tail), ctx, pc, loops)
  {
    hide CompileBlock;
    forall t | Allows(loops, t) ensures Spec(WScoped(body, tail), ctx, pc, t) == None {
      assert Spec(WBlock(body, tail), Open(ctx), pc, t) == None;
    }
  }

  lemma BuiltRegion(s: Stmt, tail: bool, ctx: Ctx, pc: nat, loops: seq<VmLoop>, code: seq<VmOp>, ctx': Ctx, sites: Sites)
    requires ctx.scopes != [] && s.Region? && Built(WScoped(s.body, false), ctx, pc, loops, code, ctx', sites)
    ensures Built(WStmt(s, tail), ctx, pc, loops, code + Tail(tail), ctx', sites)
  {
    hide CompileScoped;
    FillInside([], code, Tail(tail), pc, sites, loops, NoLoop);
    assert [] + code + Tail(tail) == code + Tail(tail);
    forall t | Allows(loops, t)
      ensures Spec(WStmt(s, tail), ctx, pc, t) == Some(Code(Fill(code + Tail(tail), pc, sites, t), ctx'))
    {
      assert Spec(WScoped(s.body, false), ctx, pc, t) == Some(Code(Fill(code, pc, sites, t), ctx'));
      FillInside([], code, Tail(tail), pc, sites, loops, t);
      assert [] + Fill(code, pc, sites, t) + Tail(tail) == Fill(code, pc, sites, t) + Tail(tail);
    }
  }

  lemma RefusedRegion(s: Stmt, tail: bool, ctx: Ctx, pc: nat, loops: seq<VmLoop>)
    requires ctx.scopes != [] && s.Region? && Refused(WScoped(s.body, false), ctx, pc, loops)
    ensures Refused(WStmt(s, tail), ctx, pc, loops)
  {
    hide CompileScoped;
    forall t | Allows(loops, t) ensures Spec(WStmt(s, tail), ctx, pc, t) == None {
      assert Spec(WScoped(s.body, false), ctx, pc, t) == None;
    }
  }

  /** The entry the compiler pushes for a loop whose `continue` target is already known. */
  function KnownLoop(top: nat): VmLoop { VmLoop(Some(top), [], []) }

  const WAITING: VmLoop := VmLoop(None, [], [])

  lemma BuiltWhile(s: Stmt, tail: bool, ctx: Ctx, pc: nat, loops: seq<VmLoop>, test: seq<VmOp>, code: seq<VmOp>, ctx': Ctx, sites: Sites)
    requires ctx.scopes != [] && s.While? && CompileExpr(s.cond, ctx, pc) == Some(test)
    requires Built(WScoped(s.body, false), ctx, pc + |test| + 1, loops + [KnownLoop(pc)], code, ctx', sites)
    ensures var end := pc + |test| + |code| + 2;
            Built(WStmt(s, tail), ctx, pc, loops,
                  test + [JumpIfFalse(end)] + Fill(code, pc + |test| + 1, sites, InLoop(end, pc)) + [Jump(pc)] + Tail(tail), ctx', NONE)
  {
    hide CompileScoped, CompileExpr, BlockLen, Fill;
    var p, end := pc + |test| + 1, pc + |test| + |code| + 2;
    assert Allows(loops + [KnownLoop(pc)], InLoop(end, pc));
    assert Spec(WScoped(s.body, false), ctx, p, InLoop(end, pc)) == Some(Code(Fill(code, p, sites, InLoop(end, pc)), ctx'));
    BuiltPlain(WStmt(s, tail), ctx, pc, loops,
               test + [JumpIfFalse(end)] + Fill(code, p, sites, InLoop(end, pc)) + [Jump(pc)] + Tail(tail), ctx');
  }

  lemma RefusedWhile(s: Stmt, tail: bool, ctx: Ctx, pc: nat, loops: seq<VmLoop>)
    requires ctx.scopes != [] && s.While?
    requires CompileExpr(s.cond, ctx, pc).Some? ==>
               Refused(WScoped(s.body, false), ctx, pc + |CompileExpr(s.cond, ctx, pc).value| + 1, loops + [KnownLoop(pc)])
    ensures Refused(WStmt(s, tail), ctx, pc, loops)
  {
    hide CompileScoped, CompileExpr, BlockLen;
    if CompileExpr(s.cond, ctx, pc).Some? {
      var p := pc + |CompileExpr(s.cond, ctx, pc).value| + 1;
      var end := p + BlockLen(s.body, false) + 1;
      assert Spec(WScoped(s.body, false), ctx, p, InLoop(end, pc)) == None;
    }
  }

  lemma BuiltLoop(s: Stmt, tail: bool, ctx: Ctx, pc: nat, loops: seq<VmLoop>, code: seq<VmOp>, ctx': Ctx, sites: Sites)
    requires ctx.scopes != [] && s.Loop? && Built(WScoped(s.body, false), ctx, pc, loops + [KnownLoop(pc)], code, ctx', sites)
    ensures var end := pc + |code| + 1;
            Built(WStmt(s, tail), ctx, pc, loops, Fill(code, pc, sites, InLoop(end, pc)) + [Jump(pc)] + Tail(tail), ctx', NONE)
  {
    hide CompileScoped, BlockLen, Fill;
    var end := pc + |code| + 1;
    assert Spec(WScoped(s.body, false), ctx, pc, InLoop(end, pc)) == Some(Code(Fill(code, pc, sites, InLoop(end, pc)), ctx'));
    BuiltPlain(WStmt(s, tail), ctx, pc, loops, Fill(code, pc, sites, InLoop(end, pc)) + [Jump(pc)] + Tail(tail), ctx');
  }

  lemma RefusedLoop(s: Stmt, tail: bool, ctx: Ctx, pc: nat, loops: seq<VmLoop>)
    requires ctx.scopes != [] && s.Loop? && Refused(WScoped(s.body, false), ctx, pc, loops + [KnownLoop(pc)])
    ensures Refused(WStmt(s, tail), ctx, pc, loops)
  {
    hide CompileScoped, BlockLen;
    assert Spec(WScoped(s.body, false), ctx, pc, InLoop(pc + BlockLen(s.body, false) + 1, pc)) == None;
  }

  /** A range-`for` once its jumps are patched. */
  function ForOps(s: Stmt, tail: bool, slot: nat, head: seq<VmOp>, body: seq<VmOp>, top: nat): seq<VmOp> {
    var exit := top + |body| + 4;
    head + [ForCheck(slot, slot + 1, slot + 2)] + [JumpIfFalse(exit)] + body + [ForStep(slot, slot + 2)] + [Jump(top)] + Tail(tail)
  }

  lemma BuiltFor(s: Stmt, tail: bool, ctx: Ctx, pc: nat, loops: seq<VmLoop>, head: seq<VmOp>, code: seq<VmOp>, ctx': Ctx, sites: Sites)
    requires ctx.scopes != [] && s.For? && CompileForHead(s, ctx, pc) == Some(head) && |ctx'.scopes| >= |ctx.scopes|
    requires Built(WScoped(s.body, false), ForCtx(s, ctx), pc + |head| + 2, loops + [WAITING], code, ctx', sites)
    ensures var top := pc + |head|;
            var exit := top + |code| + 4;
            Built(WStmt(s, tail), ctx, pc, loops,
                  ForOps(s, tail, ctx.next, head, Fill(code, top + 2, sites, InLoop(exit, exit - 2)), top), Close(ctx', |ctx.scopes|), NONE)
  {
    hide CompileScoped, CompileForHead, BlockLen, Fill, ForCtx;
    var top := pc + |head|;
    var exit := top + |code| + 4;
    assert Spec(WScoped(s.body, false), ForCtx(s, ctx), top + 2, InLoop(exit, exit - 2)) ==
           Some(Code(Fill(code, top + 2, sites, InLoop(exit, exit - 2)), ctx'));
    forall t ensures CompileStmt(s, tail, ctx, pc, t) == CompileFor(s, tail, ctx, pc) { ForStmtIs(s, tail, ctx, pc, t); }
    BuiltPlain(WStmt(s, tail), ctx, pc, loops, ForOps(s, tail, ctx.next, head, Fill(code, top + 2, sites, InLoop(exit, exit - 2)), top),
               Close(ctx', |ctx.scopes|));
  }

  lemma ForStmtIs(s: Stmt, tail: bool, ctx: Ctx, pc: nat, t: Targets)
    requires ctx.scopes != [] && s.For?
    ensures CompileStmt(s, tail, ctx, pc, t) == CompileFor(s, tail, ctx, pc)
  {
  }

  lemma RefusedFor(s: Stmt, tail: bool, ctx: Ctx, pc: nat, loops: seq<VmLoop>)
    requires ctx.scopes != [] && s.For?
    requires CompileForHead(s, ctx, pc).Some? ==>
               Refused(WScoped(s.body, false), ForCtx(s, ctx), pc + |CompileForHead(s, ctx, pc).value| + 2, loops + [WAITING])
    ensures Refused(WStmt(s, tail), ctx, pc, loops)
  {
    hide CompileScoped, CompileForHead, BlockLen, ForCtx;
    forall t ensures CompileStmt(s, tail, ctx, pc, t) == CompileFor(s, tail, ctx, pc) { ForStmtIs(s, tail, ctx, pc, t); }
    if CompileForHead(s, ctx, pc).Some? {
      var top := pc + |CompileForHead(s, ctx, pc).value|;
      var exit := top + BlockLen(s.body, false) + 4;
      assert Spec(WScoped(s.body, false), ForCtx(s, ctx), top + 2, InLoop(exit, exit - 2)) == None;
    }
  }

  /** Both jumps of a short-circuit operator patched, in the order the compiler does it. */
  lemma LogicPatched(before: seq<VmOp>, op: BinaryOp, right: seq<VmOp>)
    ensures var short := |before| + |right| + 2;
            (((before + [ShortJump(op, 0)] + right + [Jump(0)])[|before| := ShortJump(op, short)]) + [PushConst(Bool(op == Or))])[short - 1 := Jump(short + 1)]
            == before + [ShortJump(op, short)] + right + [Jump(short + 1)] + [PushConst(Bool(op == Or))]
  {
  }

  lemma Joined6(a: seq<VmOp>, b: seq<VmOp>, c: seq<VmOp>, d: seq<VmOp>, e: seq<VmOp>, f: seq<VmOp>)
    ensures a + b + c + d + e + f == a + (b + c + d + e + f)
  {
  }

  lemma LogicWhole(a: seq<VmOp>, left: seq<VmOp>, op: BinaryOp, right: seq<VmOp>)
    ensures var short := |a + left| + |right| + 2;
            (((a + left + [ShortJump(op, 0)] + right + [Jump(0)])[|a + left| := ShortJump(op, short)]) + [PushConst(Bool(op == Or))])[short - 1 := Jump(short + 1)]
            == a + (left + [ShortJump(op, short)] + right + [Jump(short + 1)] + [PushConst(Bool(op == Or))])
  {
    var short := |a + left| + |right| + 2;
    LogicPatched(a + left, op, right);
    Joined6(a, left, [ShortJump(op, short)], right, [Jump(short + 1)], [PushConst(Bool(op == Or))]);
  }

  lemma Joined4(a: seq<VmOp>, b: seq<VmOp>, c: seq<VmOp>, d: seq<VmOp>)
    ensures a + b + c + d == a + (b + c + d)
  {
  }

  lemma Joined3(a: seq<VmOp>, b: seq<VmOp>, c: seq<VmOp>)
    ensures a + b + c == a + (b + c)
  {
  }

  lemma ForPatched(pre: seq<VmOp>, body: seq<VmOp>, step: seq<VmOp>, jump: seq<VmOp>, end: nat)
    ensures (pre + [JumpIfFalse(0)] + body + step + jump)[|pre|] == JumpIfFalse(0)
    ensures (pre + [JumpIfFalse(0)] + body + step + jump)[|pre| := JumpIfFalse(end)] == pre + [JumpIfFalse(end)] + body + (step + jump)
  {
  }

  lemma ForJoined(base: seq<VmOp>, s: Stmt, tail: bool, slot: nat, head: seq<VmOp>, body: seq<VmOp>, top: nat)
    ensures base + head + [ForCheck(slot, slot + 1, slot + 2)] + [JumpIfFalse(top + |body| + 4)] + body
            + ([ForStep(slot, slot + 2)] + [Jump(top)]) + Tail(tail)
            == base + ForOps(s, tail, slot, head, body, top)
  {
  }

  lemma ForCtxIs(s: Stmt, ctx: Ctx, inside: Ctx)
    requires s.For? && ctx.scopes != [] && inside == Vm.Declare(Open(ctx), s.name)
    ensures ForCtx(s, ctx) == inside.(next := inside.next + 2) && inside.next == ctx.next + 1
  {
  }

  lemma HeadJoined(a: seq<VmOp>, b: seq<VmOp>, c: seq<VmOp>, d: seq<VmOp>, e: seq<VmOp>, f: seq<VmOp>, g: seq<VmOp>, h: seq<VmOp>)
    ensures a + b + c + d + e + f + g + h == a + (b + c + d + e + f + g + h)
  {
  }

  /** The code of an expression depends on the visible names only. */
  lemma {:induction false} SlotsUnseen(e: Expr, a: Ctx, b: Ctx, pc: nat)
    requires a.scopes == b.scopes && a.locals == b.locals
    ensures Vm.CompileExpr(e, a, pc) == Vm.CompileExpr(e, b, pc)
    decreases e, 2
  {
    hide Vm.CompileExpr;
    match e
    case ArrayLit(es) => SlotsUnseenAll(es, a, b, pc); UnseenOne(e, a, b, pc);
    case Index(_, _) => UnseenIndex(e, a, b, pc);
    case Field(t, _) => SlotsUnseen(t, a, b, pc); UnseenOne(e, a, b, pc);
    case Unary(_, x) => SlotsUnseen(x, a, b, pc); UnseenOne(e, a, b, pc);
    case Binary(_, _, _) => UnseenBinary(e, a, b, pc);
    case Call(_, args) => SlotsUnseenAll(args, a, b, pc); UnseenOne(e, a, b, pc);
    case _ => UnseenOne(e, a, b, pc);
  }

  lemma UnseenOne(e: Expr, a: Ctx, b: Ctx, pc: nat)
    requires a.scopes == b.scopes && a.locals == b.locals && !e.Index? && !e.Binary?
    requires e.ArrayLit? ==> CompileExprs(e.elems, a, pc) == CompileExprs(e.elems, b, pc)
    requires e.Call? ==> CompileExprs(e.args, a, pc) == CompileExprs(e.args, b, pc)
    requires e.Field? ==> Vm.CompileExpr(e.target, a, pc) == Vm.CompileExpr(e.target, b, pc)
    requires e.Unary? ==> Vm.CompileExpr(e.operand, a, pc) == Vm.CompileExpr(e.operand, b, pc)
    ensures Vm.CompileExpr(e, a, pc) == Vm.CompileExpr(e, b, pc)
  {
    hide Lookup, CompileExprs;
  }

  lemma {:induction false} UnseenIndex(e: Expr, a: Ctx, b: Ctx, pc: nat)
    requires a.scopes == b.scopes && a.locals == b.locals && e.Index?
    ensures Vm.CompileExpr(e, a, pc) == Vm.CompileExpr(e, b, pc)
    decreases e, 1
  {
    hide Lookup, CompileExprs;
    SlotsUnseen(e.index, a, b, pc);
    SlotsUnseen(e.target, a, b, pc);
    if Vm.CompileExpr(e.target, a, pc).Some? { SlotsUnseen(e.index, a, b, pc + |Vm.CompileExpr(e.target, a, pc).value|); }
  }

  lemma {:induction false} UnseenBinary(e: Expr, a: Ctx, b: Ctx, pc: nat)
    requires a.scopes == b.scopes && a.locals == b.locals && e.Binary?
    ensures Vm.CompileExpr(e, a, pc) == Vm.CompileExpr(e, b, pc)
    decreases e, 1
  {
    hide Vm.CompileExpr;
    SlotsUnseen(e.left, a, b, pc);
    var left := Vm.CompileExpr(e.left, a, pc);
    if left.Some? {
      SlotsUnseen(e.right, a, b, pc + |left.value|);
      SlotsUnseen(e.right, a, b, pc + |left.value| + 1);
    }
    if e.op == And || e.op == Or {
      LogicOk(e, a, pc);
      LogicOk(e, b, pc);
      if Vm.CompileExpr(e, a, pc).Some? { LogicShape(e, a, pc); LogicShape(e, b, pc); }
    } else {
      StrictIs(e, a, pc);
      StrictIs(e, b, pc);
    }
  }

  lemma {:induction false} SlotsUnseenAll(es: seq<Expr>, a: Ctx, b: Ctx, pc: nat)
    requires a.scopes == b.scopes && a.locals == b.locals
    ensures Vm.CompileExprs(es, a, pc) == Vm.CompileExprs(es, b, pc)
    decreases es, 0
  {
    if es != [] {
      SlotsUnseen(es[0], a, b, pc);
      if Vm.CompileExpr(es[0], a, pc).Some? { SlotsUnseenAll(es[1..], a, b, pc + |Vm.CompileExpr(es[0], a, pc).value|); }
    }
  }

  /** A range-`for` head's code in terms of its bounds' codes. */
  lemma HeadIs(s: Stmt, ctx: Ctx, pc: nat)
    requires s.For? && ctx.scopes != []
    ensures var slot, inside := ctx.next, Vm.Declare(Open(ctx), s.name);
            var head, a := Vm.CompileForHead(s, ctx, pc), Vm.CompileExpr(s.start, Open(ctx), pc);
            && (a.None? ==> head == None)
            && (a.Some? ==>
                  var b := Vm.CompileExpr(s.end, inside, pc + |a.value| + 1);
                  && (b.None? ==> head == None)
                  && (b.Some? ==>
                        var d := CompileStep(s.step, inside, pc + |a.value| + |b.value| + 2);
                        && (d.None? ==> head == None)
                        && (d.Some? ==>
                              head == Some(a.value + [StoreLocal(slot)] + b.value + [StoreLocal(slot + 1)] + d.value
                                           + [StoreLocal(slot + 2)] + [CheckStepNonzero(slot + 2)]))))
  {
    hide Vm.CompileExpr, Vm.Declare, CompileStep;
  }

  /** A strict operator's code in terms of its operands' codes. */
  lemma StrictIs(e: Expr, ctx: Ctx, pc: nat)
    requires e.Binary? && e.op != And && e.op != Or
    ensures var l := Vm.CompileExpr(e.left, ctx, pc);
            && (l.None? ==> Vm.CompileExpr(e, ctx, pc) == None)
            && (l.Some? ==>
                  var r := Vm.CompileExpr(e.right, ctx, pc + |l.value|);
                  && (r.None? ==> Vm.CompileExpr(e, ctx, pc) == None)
                  && (r.Some? ==> Vm.CompileExpr(e, ctx, pc) == Some(l.value + r.value + [VmOp.Binary(e.op)])))
  {
  }

  /** An index expression's code; a local is indexed where it is. */
  lemma IndexIs(e: Expr, ctx: Ctx, pc: nat)
    requires e.Index?
    ensures var r := Vm.CompileExpr(e, ctx, pc);
            if e.target.Var? then
              var i := Vm.CompileExpr(e.index, ctx, pc);
              if Lookup(ctx.scopes, e.target.name).None? || i.None? then r == None
              else r == Some(i.value + [IndexLocal(Lookup(ctx.scopes, e.target.name).value)])
            else
              var t := Vm.CompileExpr(e.target, ctx, pc);
              if t.None? then r == None
              else
                var i := Vm.CompileExpr(e.index, ctx, pc + |t.value|);
                if i.None? then r == None else r == Some(t.value + i.value + [VmOp.Index])
    ensures e.target.Var? && Lookup(ctx.scopes, e.target.name).None? ==> Vm.CompileExpr(e.target, ctx, pc).None?
  {
  }

  lemma LogicOk(e: Expr, ctx: Ctx, pc: nat)
    requires e.Binary? && (e.op == And || e.op == Or)
    ensures Vm.CompileExpr(e, ctx, pc).Some? <==>
              Vm.CompileExpr(e.left, ctx, pc).Some? &&
              Vm.CompileExpr(e.right, ctx, pc + |Vm.CompileExpr(e.left, ctx, pc).value| + 1).Some?
  {
  }

  lemma PrependNone(rest: Option<seq<VmOp>>)
    ensures PrependOps([], rest) == rest
  {
    if rest.Some? { assert [] + rest.value == rest.value; }
  }

  lemma PrependOpsTwice(a: seq<VmOp>, b: seq<VmOp>, rest: Option<seq<VmOp>>)
    ensures PrependOps(a, PrependOps(b, rest)) == PrependOps(a + b, rest)
  {
    if rest.Some? { assert a + (b + rest.value) == a + b + rest.value; }
  }

  lemma ExprsUnfold(es: seq<Expr>, ctx: Ctx, pc: nat)
    requires es != []
    ensures Vm.CompileExprs(es, ctx, pc) ==
            (var first := Vm.CompileExpr(es[0], ctx, pc);
             if first.None? then None else PrependOps(first.value, Vm.CompileExprs(es[1..], ctx, pc + |first.value|)))
  {
    hide CompileExpr;
  }

  lemma NoExprs(ctx: Ctx, pc: nat)
    ensures Vm.CompileExprs([], ctx, pc) == Some([])
  {
  }

  function PrependOps(code: seq<VmOp>, rest: Option<seq<VmOp>>): Option<seq<VmOp>> {
    match rest
    case Some(r) => Some(code + r)
    case None => None
  }

  // ---- Blocks, one statement at a time ----

  function Prepend(code: seq<VmOp>, rest: Option<Code>): Option<Code> {
    match rest
    case Some(r) => Some(Code(code + r.ops, r.ctx))
    case None => None
  }

  /** What is left to compile of a block of which `i` statements are done. */
  function Rest(body: seq<Stmt>, tail: bool, i: nat, ctx: Ctx, pc: nat, t: Targets): Option<Code>
    requires i <= |body| && ctx.scopes != []
  {
    if 0 < i == |body| then Some(Code([], ctx)) else CompileBlock(body[i..], tail, ctx, pc, t)
  }

  ghost predicate BlockSoFar(body: seq<Stmt>, tail: bool, ctx: Ctx, pc: nat, loops: seq<VmLoop>, i: nat, code: seq<VmOp>, ctx': Ctx, sites: Sites)
    requires i <= |body| && ctx.scopes != [] && ctx'.scopes != []
  {
    && SitesOk(code, pc, sites, loops)
    && forall t :: Allows(loops, t) ==>
         CompileBlock(body, tail, ctx, pc, t) == Prepend(Fill(code, pc, sites, t), Rest(body, tail, i, ctx', pc + |code|, t))
  }

  lemma BlockStart(body: seq<Stmt>, tail: bool, ctx: Ctx, pc: nat, loops: seq<VmLoop>)
    requires ctx.scopes != [] && body != []
    ensures BlockSoFar(body, tail, ctx, pc, loops, 0, [], ctx, NONE)
  {
    hide CompileBlock;
    assert body[0..] == body;
    forall t | Allows(loops, t)
      ensures CompileBlock(body, tail, ctx, pc, t) == Prepend(Fill([], pc, NONE, t), Rest(body, tail, 0, ctx, pc + 0, t))
    {
      var all := CompileBlock(body, tail, ctx, pc, t);
      if all.Some? { assert [] + all.value.ops == all.value.ops; }
    }
  }

  lemma RestStep(body: seq<Stmt>, tail: bool, i: nat, ctx: Ctx, pc: nat, t: Targets)
    requires i < |body| && ctx.scopes != []
    ensures var first := CompileStmt(body[i], tail && i == |body| - 1, ctx, pc, t);
            Rest(body, tail, i, ctx, pc, t) ==
            (match first
             case Some(c) => Prepend(c.ops, Rest(body, tail, i + 1, c.ctx, pc + |c.ops|, t))
             case None => None)
  {
    hide CompileStmt;
    assert body[i..][0] == body[i] && body[i..][1..] == body[i + 1..];
    var first := CompileStmt(body[i], tail && i == |body| - 1, ctx, pc, t);
    if first.Some? && i == |body| - 1 { assert first.value.ops + [] == first.value.ops; }
  }

  lemma PrependTwice(a: seq<VmOp>, b: seq<VmOp>, rest: Option<Code>)
    ensures Prepend(a, Prepend(b, rest)) == Prepend(a + b, rest)
  {
    if rest.Some? { assert a + (b + rest.value.ops) == a + b + rest.value.ops; }
  }

  lemma BlockStep(body: seq<Stmt>, tail: bool, ctx: Ctx, pc: nat, loops: seq<VmLoop>, i: nat, code: seq<VmOp>, ctx': Ctx, sites: Sites,
                  more: seq<VmOp>, ctx'': Ctx, sites': Sites)
    requires i < |body| && ctx.scopes != [] && ctx'.scopes != [] && ctx''.scopes != []
    requires BlockSoFar(body, tail, ctx, pc, loops, i, code, ctx', sites)
    requires Built(WStmt(body[i], tail && i == |body| - 1), ctx', pc + |code|, loops, more, ctx'', sites')
    ensures BlockSoFar(body, tail, ctx, pc, loops, i + 1, code + more, ctx'', Both(sites, sites'))
  {
    hide CompileBlock, CompileStmt, Rest, Fill, SitesOk, Both, Prepend;
    FillSplit(code, more, pc, sites, sites', loops, NoLoop);
    forall t | Allows(loops, t)
      ensures CompileBlock(body, tail, ctx, pc, t) ==
              Prepend(Fill(code + more, pc, Both(sites, sites'), t), Rest(body, tail, i + 1, ctx'', pc + |code + more|, t))
    {
      FillSplit(code, more, pc, sites, sites', loops, t);
      RestStep(body, tail, i, ctx', pc + |code|, t);
      assert Spec(WStmt(body[i], tail && i == |body| - 1), ctx', pc + |code|, t) == Some(Code(Fill(more, pc + |code|, sites', t), ctx''));
      PrependTwice(Fill(code, pc, sites, t), Fill(more, pc + |code|, sites', t), Rest(body, tail, i + 1, ctx'', pc + |code| + |more|, t));
    }
  }

  lemma BlockRefused(body: seq<Stmt>, tail: bool, ctx: Ctx, pc: nat, loops: seq<VmLoop>, i: nat, code: seq<VmOp>, ctx': Ctx, sites: Sites)
    requires i < |body| && ctx.scopes != [] && ctx'.scopes != []
    requires BlockSoFar(body, tail, ctx, pc, loops, i, code, ctx', sites)
    requires Refused(WStmt(body[i], tail && i == |body| - 1), ctx', pc + |code|, loops)
    ensures Refused(WBlock(body, tail), ctx, pc, loops)
  {
    hide CompileBlock, CompileStmt, Rest, Fill;
    forall t | Allows(loops, t) ensures Spec(WBlock(body, tail), ctx, pc, t) == None {
      RestStep(body, tail, i, ctx', pc + |code|, t);
      assert Spec(WStmt(body[i], tail && i == |body| - 1), ctx', pc + |code|, t) == None;
    }
  }

  lemma BlockEnd(body: seq<Stmt>, tail: bool, ctx: Ctx, pc: nat, loops: seq<VmLoop>, code: seq<VmOp>, ctx': Ctx, sites: Sites)
    requires body != [] && ctx.scopes != [] && ctx'.scopes != []
    requires BlockSoFar(body, tail, ctx, pc, loops, |body|, code, ctx', sites)
    ensures Built(WBlock(body, tail), ctx, pc, loops, code, ctx', sites)
  {
    hide CompileBlock, Fill;
    forall t | Allows(loops, t)
      ensures Spec(WBlock(body, tail), ctx, pc, t) == Some(Code(Fill(code, pc, sites, t), ctx'))
    {
      assert Fill(code, pc, sites, t) + [] == Fill(code, pc, sites, t);
    }
  }

  // ---- Conditionals, one branch at a time ----

  /** Every jump to the end of the conditional emitted so far, sent to `end`. */
  function FillEnds(code: seq<VmOp>, base: nat, ends: seq<nat>, end: nat): (r: seq<VmOp>)
    ensures |r| == |code|
  {
    seq(|code|, i requires 0 <= i < |code| => if base + i in ends then Jump(end) else code[i])
  }

  ghost predicate EndsOk(code: seq<VmOp>, base: nat, ends: seq<nat>, sites: Sites) {
    forall i :: i in ends ==> base <= i < base + |code| && code[i - base] == Jump(0) && i !in sites.brk && i !in sites.cont
  }

  ghost predicate IfSoFar(s: Stmt, tail: bool, ctx: Ctx, pc: nat, loops: seq<VmLoop>, i: nat, code: seq<VmOp>, ctx': Ctx, sites: Sites, ends: seq<nat>)
    requires s.If? && i <= |s.branches| && ctx.scopes != [] && ctx'.scopes != []
  {
    && SitesOk(code, pc, sites, loops) && EndsOk(code, pc, ends, sites)
    && pc + |code| + IfLen(s, tail, i) == pc + IfLen(s, tail, 0)
    && forall t, end :: Allows(loops, t) ==>
         CompileIf(s, tail, ctx, pc, t, 0, end) ==
         Prepend(FillEnds(Fill(code, pc, sites, t), pc, ends, end), CompileIf(s, tail, ctx', pc + |code|, t, i, end))
  }

  lemma IfStart(s: Stmt, tail: bool, ctx: Ctx, pc: nat, loops: seq<VmLoop>)
    requires ctx.scopes != [] && s.If?
    ensures IfSoFar(s, tail, ctx, pc, loops, 0, [], ctx, NONE, [])
  {
    hide CompileIf, IfLen;
    forall t, end | Allows(loops, t)
      ensures CompileIf(s, tail, ctx, pc, t, 0, end) ==
              Prepend(FillEnds(Fill([], pc, NONE, t), pc, [], end), CompileIf(s, tail, ctx, pc + 0, t, 0, end))
    {
      var all := CompileIf(s, tail, ctx, pc, t, 0, end);
      if all.Some? { assert [] + all.value.ops == all.value.ops; }
    }
  }

  /** A branch's code, its jump to the end still open. */
  function BranchOps(test: seq<VmOp>, inner: seq<VmOp>, next: nat, end: nat): seq<VmOp> {
    test + [JumpIfFalse(next)] + inner + [Jump(end)]
  }

  lemma IfUnfold(s: Stmt, tail: bool, ctx: Ctx, pc: nat, t: Targets, i: nat, end: nat)
    requires s.If? && i < |s.branches| && ctx.scopes != []
    ensures var test := CompileExpr(s.branches[i].cond, ctx, pc);
            var r := CompileIf(s, tail, ctx, pc, t, i, end);
            && (test.None? ==> r == None)
            && (test.Some? ==>
                  var inner := CompileScoped(s.branches[i].body, tail, ctx, pc + |test.value| + 1, t);
                  && (inner.None? ==> r == None)
                  && (inner.Some? ==>
                        var next := pc + |test.value| + |inner.value.ops| + 2;
                        r == Prepend(BranchOps(test.value, inner.value.ops, next, end), CompileIf(s, tail, inner.value.ctx, next, t, i + 1, end))))
  {
    hide CompileExpr, CompileScoped, IfLen, BlockLen, ExprLen;
  }

  lemma FillBranch(test: seq<VmOp>, inner: seq<VmOp>, base: nat, sites: Sites, loops: seq<VmLoop>, t: Targets, next: nat, end: nat)
    requires SitesOk(inner, base + |test| + 1, sites, loops) && next == base + |test| + |inner| + 2
    ensures SitesOk(BranchOps(test, inner, next, 0), base, sites, loops)
    ensures EndsOk(BranchOps(test, inner, next, 0), base, [next - 1], sites)
    ensures FillEnds(Fill(BranchOps(test, inner, next, 0), base, sites, t), base, [next - 1], end)
            == BranchOps(test, Fill(inner, base + |test| + 1, sites, t), next, end)
  {
    var a := test + [JumpIfFalse(next)];
    FillInside(a, inner, [Jump(0)], base, sites, loops, t);
    assert BranchOps(test, inner, next, 0) == a + inner + [Jump(0)];
  }

  lemma FillEndsSplit(a: seq<VmOp>, b: seq<VmOp>, base: nat, ea: seq<nat>, eb: seq<nat>, sa: Sites, sb: Sites, loops: seq<VmLoop>, t: Targets, end: nat)
    requires SitesOk(a, base, sa, loops) && SitesOk(b, base + |a|, sb, loops)
    requires EndsOk(a, base, ea, sa) && EndsOk(b, base + |a|, eb, sb)
    ensures SitesOk(a + b, base, Both(sa, sb), loops) && EndsOk(a + b, base, ea + eb, Both(sa, sb))
    ensures FillEnds(Fill(a + b, base, Both(sa, sb), t), base, ea + eb, end)
            == FillEnds(Fill(a, base, sa, t), base, ea, end) + FillEnds(Fill(b, base + |a|, sb, t), base + |a|, eb, end)
  {
    FillSplit(a, b, base, sa, sb, loops, t);
    forall i | i in ea + eb ensures base <= i < base + |a + b| && (a + b)[i - base] == Jump(0) {
      if i in ea { assert (a + b)[i - base] == a[i - base]; } else { assert (a + b)[i - base] == b[i - base - |a|]; }
    }
  }

  lemma IfStep(s: Stmt, tail: bool, ctx: Ctx, pc: nat, loops: seq<VmLoop>, i: nat, code: seq<VmOp>, ctx': Ctx, sites: Sites, ends: seq<nat>,
               test: seq<VmOp>, inner: seq<VmOp>, ctx'': Ctx, sites': Sites)
    requires s.If? && i < |s.branches| && ctx.scopes != [] && ctx'.scopes != [] && ctx''.scopes != []
    requires IfSoFar(s, tail, ctx, pc, loops, i, code, ctx', sites, ends)
    requires CompileExpr(s.branches[i].cond, ctx', pc + |code|) == Some(test)
    requires Built(WScoped(s.branches[i].body, tail), ctx', pc + |code| + |test| + 1, loops, inner, ctx'', sites')
    requires |inner| == BlockLen(s.branches[i].body, tail)
    ensures var next := pc + |code| + |test| + |inner| + 2;
            IfSoFar(s, tail, ctx, pc, loops, i + 1, code + BranchOps(test, inner, next, 0), ctx'', Both(sites, sites'), ends + [next - 1])
  {
    hide CompileIf, CompileScoped, CompileExpr, Fill, FillEnds, EndsOk, SitesOk, BlockLen, ExprLen;
    var p := pc + |code|;
    var next := p + |test| + |inner| + 2;
    var more := BranchOps(test, inner, next, 0);
    FillBranch(test, inner, p, sites', loops, NoLoop, next, 0);
    FillEndsSplit(code, more, pc, ends, [next - 1], sites, sites', loops, NoLoop, 0);
    forall t, end | Allows(loops, t)
      ensures CompileIf(s, tail, ctx, pc, t, 0, end) ==
              Prepend(FillEnds(Fill(code + more, pc, Both(sites, sites'), t), pc, ends + [next - 1], end),
                      CompileIf(s, tail, ctx'', pc + |code + more|, t, i + 1, end))
    {
      FillBranch(test, inner, p, sites', loops, t, next, end);
      FillEndsSplit(code, more, pc, ends, [next - 1], sites, sites', loops, t, end);
      IfUnfold(s, tail, ctx', p, t, i, end);
      assert Spec(WScoped(s.branches[i].body, tail), ctx', p + |test| + 1, t) == Some(Code(Fill(inner, p + |test| + 1, sites', t), ctx''));
      PrependTwice(FillEnds(Fill(code, pc, sites, t), pc, ends, end), FillEnds(Fill(more, p, sites', t), p, [next - 1], end),
                   CompileIf(s, tail, ctx'', next, t, i + 1, end));
    }
  }

  lemma IfRefused(s: Stmt, tail: bool, ctx: Ctx, pc: nat, loops: seq<VmLoop>, i: nat, code: seq<VmOp>, ctx': Ctx, sites: Sites, ends: seq<nat>)
    requires s.If? && i <= |s.branches| && ctx.scopes != [] && ctx'.scopes != []
    requires IfSoFar(s, tail, ctx, pc, loops, i, code, ctx', sites, ends)
    requires i == |s.branches| ==> Refused(WScoped(s.orelse, tail), ctx', pc + |code|, loops)
    requires i < |s.branches| ==>
               var test := CompileExpr(s.branches[i].cond, ctx', pc + |code|);
               test.Some? ==> Refused(WScoped(s.branches[i].body, tail), ctx', pc + |code| + |test.value| + 1, loops)
    ensures Refused(WStmt(s, tail), ctx, pc, loops)
  {
    hide CompileExpr, CompileScoped, Fill, FillEnds, EndsOk, SitesOk, IfLen;
    forall t | Allows(loops, t) ensures Spec(WStmt(s, tail), ctx, pc, t) == None {
      var end := pc + IfLen(s, tail, 0);
      IfNone(s, tail, ctx', pc + |code|, loops, t, i, end);
      assert CompileStmt(s, tail, ctx, pc, t) == CompileIf(s, tail, ctx, pc, t, 0, end);
    }
  }

  lemma IfNone(s: Stmt, tail: bool, ctx: Ctx, pc: nat, loops: seq<VmLoop>, t: Targets, i: nat, end: nat)
    requires s.If? && i <= |s.branches| && ctx.scopes != [] && Allows(loops, t)
    requires i == |s.branches| ==> Refused(WScoped(s.orelse, tail), ctx, pc, loops)
    requires i < |s.branches| ==>
               var test := CompileExpr(s.branches[i].cond, ctx, pc);
               test.Some? ==> Refused(WScoped(s.branches[i].body, tail), ctx, pc + |test.value| + 1, loops)
    ensures CompileIf(s, tail, ctx, pc, t, i, end) == None
  {
    hide CompileExpr, CompileScoped;
    if i == |s.branches| {
      assert Spec(WScoped(s.orelse, tail), ctx, pc, t) == None;
    } else {
      IfUnfold(s, tail, ctx, pc, t, i, end);
      var test := CompileExpr(s.branches[i].cond, ctx, pc);
      if test.Some? { assert Spec(WScoped(s.branches[i].body, tail), ctx, pc + |test.value| + 1, t) == None; }
    }
  }

  lemma LastSites(code: seq<VmOp>, last: seq<VmOp>, pc: nat, loops: seq<VmLoop>, sites: Sites, sites': Sites, ends: seq<nat>, end: nat)
    requires SitesOk(code, pc, sites, loops) && EndsOk(code, pc, ends, sites) && SitesOk(last, pc + |code|, sites', loops)
    ensures SitesOk(FillEnds(code + last, pc, ends, end), pc, Both(sites, sites'), loops)
  {
    hide Fill, FillEnds, EndsOk, SitesOk, Both;
    NoEnds(last, pc + |code|, sites');
    FillEndsSplit(code, last, pc, ends, [], sites, sites', loops, NoLoop, 0);
    assert ends + [] == ends;
    EndsFilled(code + last, pc, ends, Both(sites, sites'), loops, NoLoop, end);
  }

  lemma BuiltIf(s: Stmt, tail: bool, ctx: Ctx, pc: nat, loops: seq<VmLoop>, code: seq<VmOp>, ctx': Ctx, sites: Sites, ends: seq<nat>,
                last: seq<VmOp>, ctx'': Ctx, sites': Sites)
    requires s.If? && ctx.scopes != [] && ctx'.scopes != []
    requires IfSoFar(s, tail, ctx, pc, loops, |s.branches|, code, ctx', sites, ends)
    requires Built(WScoped(s.orelse, tail), ctx', pc + |code|, loops, last, ctx'', sites') && |last| == BlockLen(s.orelse, tail)
    ensures Built(WStmt(s, tail), ctx, pc, loops, FillEnds(code + last, pc, ends, pc + |code| + |last|), ctx'', Both(sites, sites'))
  {
    hide Spec, CompileScoped, CompileIf, Fill, FillEnds, EndsOk, SitesOk, BlockLen, IfLen, Prepend, Both;
    var end, all := pc + |code| + |last|, Both(sites, sites');
    LastSites(code, last, pc, loops, sites, sites', ends, end);
    forall t | Allows(loops, t)
      ensures Spec(WStmt(s, tail), ctx, pc, t) == Some(Code(Fill(FillEnds(code + last, pc, ends, end), pc, all, t), ctx''))
    {
      hide *;
      BuiltIfAt(s, tail, ctx, pc, loops, code, ctx', sites, ends, last, ctx'', sites', t);
    }
  }

  lemma BuiltIfAt(s: Stmt, tail: bool, ctx: Ctx, pc: nat, loops: seq<VmLoop>, code: seq<VmOp>, ctx': Ctx, sites: Sites, ends: seq<nat>,
                  last: seq<VmOp>, ctx'': Ctx, sites': Sites, t: Targets)
    requires s.If? && ctx.scopes != [] && ctx'.scopes != [] && Allows(loops, t)
    requires IfSoFar(s, tail, ctx, pc, loops, |s.branches|, code, ctx', sites, ends)
    requires Built(WScoped(s.orelse, tail), ctx', pc + |code|, loops, last, ctx'', sites') && |last| == BlockLen(s.orelse, tail)
    ensures Spec(WStmt(s, tail), ctx, pc, t)
            == Some(Code(Fill(FillEnds(code + last, pc, ends, pc + |code| + |last|), pc, Both(sites, sites'), t), ctx''))
  {
    hide CompileScoped, CompileIf, Fill, FillEnds, EndsOk, SitesOk, BlockLen, Both, IfLen;
    var end, all := pc + |code| + |last|, Both(sites, sites');
    var done := Fill(last, pc + |code|, sites', t);
    NoEnds(last, pc + |code|, sites');
    FillEndsSplit(code, last, pc, ends, [], sites, sites', loops, t, end);
    assert ends + [] == ends;
    EndsFilled(code + last, pc, ends, all, loops, t, end);
    NoEndsFilled(done, pc + |code|, end);
    IfLast(s, tail, ctx', pc + |code|, t, end);
    assert Spec(WScoped(s.orelse, tail), ctx', pc + |code|, t) == Some(Code(done, ctx''));
    assert CompileStmt(s, tail, ctx, pc, t) == CompileIf(s, tail, ctx, pc, t, 0, end);
  }

  lemma NoEnds(code: seq<VmOp>, base: nat, sites: Sites)
    ensures EndsOk(code, base, [], sites)
  {
  }

  lemma NoEndsFilled(code: seq<VmOp>, base: nat, end: nat)
    ensures FillEnds(code, base, [], end) == code
  {
  }

  lemma IfLast(s: Stmt, tail: bool, ctx: Ctx, pc: nat, t: Targets, end: nat)
    requires s.If? && ctx.scopes != []
    ensures CompileIf(s, tail, ctx, pc, t, |s.branches|, end) == CompileScoped(s.orelse, tail, ctx, pc, t)
    ensures IfLen(s, tail, |s.branches|) == BlockLen(s.orelse, tail)
  {
  }

  lemma BranchJoined(pre: seq<VmOp>, test: seq<VmOp>, inner: seq<VmOp>, next: nat)
    ensures (pre + test) + [JumpIfFalse(next)] + (inner + [Jump(0)]) == pre + BranchOps(test, inner, next, 0)
  {
  }

  lemma RefusedBranch(s: Stmt, k: nat, tail: bool, ctx: Ctx, pc: nat, loops: seq<VmLoop>, sites: Sites)
    requires s.If? && k < |s.branches| && ctx.scopes != []
    requires var t := CompileExpr(s.branches[k].cond, ctx, pc);
             t.Some? ==> Refused(WScoped(s.branches[k].body, tail), ctx, pc + |t.value| + 1, Note(loops, sites))
    ensures var t := CompileExpr(s.branches[k].cond, ctx, pc);
            t.Some? ==> Refused(WScoped(s.branches[k].body, tail), ctx, pc + |t.value| + 1, loops)
  {
    hide CompileExpr, Refused;
    var t := CompileExpr(s.branches[k].cond, ctx, pc);
    if t.Some? { RefusedNoted(WScoped(s.branches[k].body, tail), ctx, pc + |t.value| + 1, loops, sites); }
  }

  lemma BuiltLen(body: seq<Stmt>, tail: bool, ctx: Ctx, pc: nat, loops: seq<VmLoop>, code: seq<VmOp>, ctx': Ctx, sites: Sites)
    requires ctx.scopes != [] && Built(WScoped(body, tail), ctx, pc, loops, code, ctx', sites)
    ensures |code| == BlockLen(body, tail) && |ctx'.scopes| == |ctx.scopes|
  {
    hide CompileScoped, BlockLen;
    var t := if loops == [] then NoLoop else InLoop(0, if loops[|loops| - 1].continueTarget.Some? then loops[|loops| - 1].continueTarget.value else 0);
    assert Spec(WScoped(body, tail), ctx, pc, t) == Some(Code(Fill(code, pc, sites, t), ctx'));
  }

  lemma IfEnds(s: Stmt, tail: bool, ctx: Ctx, pc: nat, loops: seq<VmLoop>, i: nat, code: seq<VmOp>, ctx': Ctx, sites: Sites, ends: seq<nat>)
    requires s.If? && i <= |s.branches| && ctx.scopes != [] && ctx'.scopes != []
    requires IfSoFar(s, tail, ctx, pc, loops, i, code, ctx', sites, ends)
    ensures EndsOk(code, pc, ends, sites)
  {
  }

  lemma EndsInPlace(pre: seq<VmOp>, code: seq<VmOp>, last: seq<VmOp>, ends: seq<nat>, sites: Sites)
    requires EndsOk(code, |pre|, ends, sites)
    ensures forall i :: i in ends ==> i < |pre + code + last| && (pre + code + last)[i] == Jump(0)
  {
    forall i | i in ends ensures i < |pre + code + last| && (pre + code + last)[i] == Jump(0) {
      assert (pre + code + last)[i] == code[i - |pre|];
    }
  }

  lemma EndsPatched(pre: seq<VmOp>, code: seq<VmOp>, last: seq<VmOp>, after: seq<VmOp>, ends: seq<nat>, sites: Sites, end: nat)
    requires EndsOk(code, |pre|, ends, sites) && Aimed(pre + code + last, after, ends, end)
    ensures after == pre + FillEnds(code + last, |pre|, ends, end)
  {
    EndsInPlace(pre, code, last, ends, sites);
    assert pre + code + last == pre + (code + last);
  }

  /** Ends and sites are different jumps, so it does not matter which are patched first. */
  lemma EndsFilled(code: seq<VmOp>, base: nat, ends: seq<nat>, sites: Sites, loops: seq<VmLoop>, t: Targets, end: nat)
    requires SitesOk(code, base, sites, loops) && EndsOk(code, base, ends, sites)
    ensures SitesOk(FillEnds(code, base, ends, end), base, sites, loops)
    ensures Fill(FillEnds(code, base, ends, end), base, sites, t) == FillEnds(Fill(code, base, sites, t), base, ends, end)
  {
    forall i | i in sites.brk || i in sites.cont ensures i !in ends { }
  }

  // ---- The compiler ----

  class VmCompiler {
    var ops: seq<VmOp>
    var scopes: seq<seq<Binding>>
    var nextSlot: nat
    var locals: set<string>
    var loops: seq<VmLoop>

    constructor ()
      ensures ops == [] && loops == [] && scopes != [] && Context() == Ctx([map[]], 0, {})
    {
      ops, scopes, nextSlot, locals, loops := [], [[]], 0, {}, [];
      new;
      assert ScopeMaps([[]]) == [map[]];
    }

    ghost function Context(): Ctx
      reads this
    {
      Ctx(ScopeMaps(scopes), nextSlot, locals)
    }

    method Emit(op: VmOp) returns (site: nat)
      modifies `ops
      ensures ops == old(ops) + [op] && site == |old(ops)|
    {
      site := |ops|;
      ops := ops + [op];
    }

    /** Only ever asked of a jump. */
    method Patch(site: nat, target: nat)
      requires site < |ops| && IsJump(ops[site])
      modifies `ops
      ensures ops == old(ops)[site := Aim(old(ops)[site], target)]
    {
      ops := ops[site := Aim(ops[site], target)];
    }

    method PatchAll(sites: seq<nat>, target: nat)
      requires forall i :: i in sites ==> i < |ops| && ops[i] == Jump(0)
      modifies `ops
      ensures Aimed(old(ops), ops, sites, target)
    {
      for k := 0 to |sites|
        invariant Aimed(old(ops), ops, sites[..k], target)
      {
        assert sites[k] in sites;
        Patch(sites[k], target);
        assert sites[..k + 1] == sites[..k] + [sites[k]];
      }
      assert sites[..|sites|] == sites;
    }

    method Declare(name: string) returns (slot: nat)
      requires scopes != []
      modifies `scopes, `nextSlot, `locals
      ensures slot == old(nextSlot) && |scopes| == |old(scopes)| && Context() == Vm.Declare(old(Context()), name)
    {
      slot := nextSlot;
      nextSlot := nextSlot + 1;
      ScopeMapsBind(scopes, name, slot);
      scopes := scopes[|scopes| - 1 := scopes[|scopes| - 1] + [Binding(name, slot)]];
      locals := locals + {name};
    }

    method AllocTemp() returns (slot: nat)
      modifies `nextSlot
      ensures slot == old(nextSlot) && nextSlot == slot + 1
    {
      slot := nextSlot;
      nextSlot := nextSlot + 1;
    }

    method PushScope()
      modifies `scopes
      ensures |scopes| == |old(scopes)| + 1 && Context() == Open(old(Context()))
    {
      ScopeMapsPush(scopes, []);
      scopes := scopes + [[]];
    }

    method PopScope()
      requires scopes != []
      modifies `scopes
      ensures |scopes| == |old(scopes)| - 1 && Context() == Close(old(Context()), |scopes|)
    {
      ScopeMapsTake(scopes, |scopes| - 1);
      scopes := scopes[..|scopes| - 1];
    }

    /** Innermost scope first, newest binding first. */
    method Resolve(name: string) returns (slot: Option<nat>)
      ensures slot == Lookup(Context().scopes, name)
    {
      ghost var maps := ScopeMaps(scopes);
      var k := |scopes|;
      while k > 0
        invariant k <= |scopes| == |maps| && forall j: nat :: k <= j < |maps| ==> name !in maps[j]
      {
        k := k - 1;
        slot := FindIn(scopes[k], name);
        if slot.Some? {
          NearestIs(maps, name, k);
          return;
        }
      }
      slot := None;
    }

    static method FindIn(scope: seq<Binding>, name: string) returns (slot: Option<nat>)
      ensures slot == if name in Bindings(scope) then Some(Bindings(scope)[name]) else None
    {
      var k := |scope|;
      assert scope[..k] == scope;
      while k > 0
        invariant k <= |scope|
        invariant name in Bindings(scope) <==> name in Bindings(scope[..k])
        invariant name in Bindings(scope) ==> Bindings(scope)[name] == Bindings(scope[..k])[name]
      {
        assert scope[..k][..k - 1] == scope[..k - 1];
        k := k - 1;
        if scope[k].name == name { return Some(scope[k].slot); }
      }
      slot := None;
    }

    // ---- Expressions ----

    /** Appends exactly the specified code, or refuses exactly what it refuses. */
    method CompileExpr(e: Expr) returns (ok: bool)
      modifies `ops
      ensures ok <==> Vm.CompileExpr(e, Context(), |old(ops)|).Some?
      ensures ok ==> ops == old(ops) + Vm.CompileExpr(e, Context(), |old(ops)|).value
      decreases e, 1
    {
      match e
      case Int(n) => var _ := Emit(PushConst(I64(n))); ok := true;
      case BoolLit(b) => var _ := Emit(PushConst(Bool(b))); ok := true;
      case StrLit(text) => var _ := Emit(PushConst(Str(text))); ok := true;
      case ArrayLit(elems) =>
        ok := CompileArgs(elems);
        if ok { var _ := Emit(MakeArray(|elems|)); }
      case Var(name) =>
        var slot := Resolve(name);
        ok := slot.Some?;
        if ok { var _ := Emit(LoadLocal(slot.value)); }
      case Index(target, index) => ok := CompileIndex(e);
      case Field(target, field) =>
        var slot := None;
        if target.Var? { slot := Resolve(target.name); }
        if slot.Some? {
          ok := true;
          var _ := Emit(FieldLocal(slot.value, field));
        } else {
          ok := CompileExpr(target);
          if ok { var _ := Emit(VmOp.Field(field)); }
        }
      case Unary(op, operand) =>
        ok := CompileExpr(operand);
        if ok { var _ := Emit(VmOp.Unary(op)); }
      case Binary(_, op, _) =>
        if op == And || op == Or { ok := CompileLogic(e); } else { ok := CompileStrict(e); }
      case Call(name, args) =>
        if name in locals || NeedsPlace(name) { return false; }
        ok := CompileArgs(args);
        if ok { var _ := Emit(VmOp.Call(name, |args|)); }
      case Cond(_, _, _) => ok := false;
    }

    method CompileIndex(e: Expr) returns (ok: bool)
      requires e.Index?
      modifies `ops
      ensures ok <==> Vm.CompileExpr(e, Context(), |old(ops)|).Some?
      ensures ok ==> ops == old(ops) + Vm.CompileExpr(e, Context(), |old(ops)|).value
      decreases e, 0
    {
      hide Vm.CompileExpr, Lookup;
      IndexIs(e, Context(), |ops|);
      var slot := None;
      if e.target.Var? { slot := Resolve(e.target.name); }
      if slot.Some? {
        ok := CompileExpr(e.index);
        if ok { var _ := Emit(IndexLocal(slot.value)); }
      } else {
        ok := CompileExpr(e.target);
        if !ok { return; }
        ok := CompileExpr(e.index);
        if ok { var _ := Emit(VmOp.Index); }
      }
    }

    method CompileStrict(e: Expr) returns (ok: bool)
      requires e.Binary? && e.op != And && e.op != Or
      modifies `ops
      ensures ok <==> Vm.CompileExpr(e, Context(), |old(ops)|).Some?
      ensures ok ==> ops == old(ops) + Vm.CompileExpr(e, Context(), |old(ops)|).value
      decreases e, 0
    {
      hide Vm.CompileExpr;
      ghost var ctx, pc := Context(), |ops|;
      StrictIs(e, ctx, pc);
      ok := CompileExpr(e.left);
      if !ok { return; }
      ghost var left := Vm.CompileExpr(e.left, ctx, pc).value;
      ok := CompileExpr(e.right);
      if !ok { return; }
      ghost var right := Vm.CompileExpr(e.right, ctx, pc + |left|).value;
      var _ := Emit(VmOp.Binary(e.op));
      Joined4(old(ops), left, right, [VmOp.Binary(e.op)]);
    }

    method CompileLogic(e: Expr) returns (ok: bool)
      requires e.Binary? && (e.op == And || e.op == Or)
      modifies `ops
      ensures ok <==> Vm.CompileExpr(e, Context(), |old(ops)|).Some?
      ensures ok ==> ops == old(ops) + Vm.CompileExpr(e, Context(), |old(ops)|).value
      decreases e, 0
    {
      hide Vm.CompileExpr, ExprLen, ScopeMaps;
      ghost var ctx, pc := Context(), |ops|;
      LogicOk(e, ctx, pc);
      ok := CompileExpr(e.left);
      if !ok { return; }
      ghost var before := ops;
      var toShort := Emit(ShortJump(e.op, 0));
      ok := CompileExpr(e.right);
      if !ok { return; }
      ghost var right := Vm.CompileExpr(e.right, ctx, |before| + 1).value;
      var toEnd := Emit(Jump(0));
      var short := |ops|;
      Patch(toShort, short);
      var _ := Emit(PushConst(Bool(e.op == Or)));
      Patch(toEnd, short + 1);
      LogicWhole(old(ops), Vm.CompileExpr(e.left, ctx, pc).value, e.op, right);
      LogicShape(e, ctx, pc);
    }

    method CompileArgs(es: seq<Expr>) returns (ok: bool)
      modifies `ops
      ensures ok <==> Vm.CompileExprs(es, Context(), |old(ops)|).Some?
      ensures ok ==> ops == old(ops) + Vm.CompileExprs(es, Context(), |old(ops)|).value
      decreases es, 0
    {
      hide Vm.CompileExpr, Vm.CompileExprs;
      assert es[0..] == es;
      ghost var code := [];
      PrependNone(Vm.CompileExprs(es, Context(), |ops|));
      for k := 0 to |es|
        invariant ops == old(ops) + code
        invariant Vm.CompileExprs(es, Context(), |old(ops)|) == PrependOps(code, Vm.CompileExprs(es[k..], Context(), |ops|))
      {
        ghost var pc := |ops|;
        ExprsUnfold(es[k..], Context(), pc);
        assert es[k..][1..] == es[k + 1..];
        ok := CompileExpr(es[k]);
        if !ok { return; }
        ghost var first := Vm.CompileExpr(es[k], Context(), pc).value;
        PrependOpsTwice(code, first, Vm.CompileExprs(es[k + 1..], Context(), |ops|));
        code := code + first;
      }
      NoExprs(Context(), |ops|);
      ok := true;
    }

    // ---- Statements ----

    method EmitTail(tail: bool)
      modifies `ops
      ensures ops == old(ops) + Tail(tail)
    {
      if tail { var _ := Emit(PushVoid); }
    }

    method NoteSite(site: nat, isBreak: bool)
      requires loops != []
      modifies `loops
      ensures loops == Note(old(loops), if isBreak then Sites([site], []) else Sites([], [site]))
    {
      var top := loops[|loops| - 1];
      if isBreak {
        loops := loops[|loops| - 1 := VmLoop(top.continueTarget, top.continueSites, top.breakSites + [site])];
      } else {
        loops := loops[|loops| - 1 := VmLoop(top.continueTarget, top.continueSites + [site], top.breakSites)];
      }
      assert top.continueSites + [] == top.continueSites && top.breakSites + [] == top.breakSites;
    }

    /** Appends code that is the specified code once the sites noted on the innermost loop
        are patched; refuses exactly what the specification refuses. */
    method CompileStmt(s: Stmt, tail: bool) returns (ok: bool, ghost code: seq<VmOp>, ghost sites: Sites)
      requires scopes != []
      modifies this
      ensures ok ==> ops == old(ops) + code && loops == Note(old(loops), sites) && |scopes| == |old(scopes)|
      ensures ok ==> Built(WStmt(s, tail), old(Context()), |old(ops)|, old(loops), code, Context(), sites)
      ensures !ok ==> Refused(WStmt(s, tail), old(Context()), |old(ops)|, old(loops))
      decreases s, 2
    {
      hide Built, Refused, ScopeMaps, Note;
      match s
      case Break => ok, code, sites := CompileExit(s, tail);
      case Continue => ok, code, sites := CompileExit(s, tail);
      case If(_, _) => ok, code, sites := CompileIf(s, tail);
      case While(_, _) => ok, code, sites := CompileWhile(s, tail);
      case For(_, _, _, _, _) => ok, code, sites := CompileFor(s, tail);
      case Loop(_) => ok, code, sites := CompileLoop(s, tail);
      case Region(_) => ok, code, sites := CompileRegion(s, tail);
      case _ => ok, code, sites := CompileSimple(s, tail);
    }

    method CompileExit(s: Stmt, tail: bool) returns (ok: bool, ghost code: seq<VmOp>, ghost sites: Sites)
      requires scopes != [] && (s.Break? || s.Continue?)
      modifies this
      ensures ok ==> ops == old(ops) + code && loops == Note(old(loops), sites) && scopes == old(scopes)
      ensures ok ==> Built(WStmt(s, tail), old(Context()), |old(ops)|, old(loops), code, Context(), sites)
      ensures !ok ==> Refused(WStmt(s, tail), old(Context()), |old(ops)|, old(loops))
    {
      hide Built, Refused;
      RefusedExit(s, tail, Context(), |ops|);
      code, sites := [Jump(0)], NONE;
      if loops == [] { return false, code, sites; }
      ok := true;
      BuiltBreak(tail, Context(), |ops|, loops);
      BuiltContinue(tail, Context(), |ops|, loops);
      var known := loops[|loops| - 1].continueTarget;
      if s.Continue? && known.Some? {
        NoteNone(loops);
        code := [Jump(known.value)];
        var _ := Emit(Jump(known.value));
      } else {
        var site := Emit(Jump(0));
        NoteSite(site, s.Break?);
        sites := if s.Break? then Sites([site], []) else Sites([], [site]);
      }
    }

    method CompileSimple(s: Stmt, tail: bool) returns (ok: bool, ghost code: seq<VmOp>, ghost sites: Sites)
      requires scopes != [] && Simple(s)
      modifies this
      ensures ok ==> ops == old(ops) + code && loops == Note(old(loops), sites) && |scopes| == |old(scopes)|
      ensures ok ==> Built(WStmt(s, tail), old(Context()), |old(ops)|, old(loops), code, Context(), sites)
      ensures !ok ==> Refused(WStmt(s, tail), old(Context()), |old(ops)|, old(loops))
    {
      hide Built, Refused, ScopeMaps, Vm.CompileStmt;
      code, sites := [], NONE;
      NoteNone(loops);
      if Vm.CompileStmt(s, tail, Context(), |ops|, NoLoop) == None { RefusedSimple(s, tail, Context(), |ops|, loops); }
      if s.Let? {
        ok, code := CompileLet(s, tail);
      } else if s.Assign? {
        ok, code := CompileAssign(s, tail);
      } else if s.Return? {
        ok, code := CompileReturn(s, tail);
      } else if s.ExprStmt? {
        ok, code := CompileExprStmt(s, tail);
      } else {
        NotLowered(s, tail, Context(), |ops|);
        ok := false;
      }
      if ok { BuiltSimple(s, tail, old(Context()), |old(ops)|, loops, code, Context()); }
    }

    method CompileLet(s: Stmt, tail: bool) returns (ok: bool, ghost code: seq<VmOp>)
      requires scopes != [] && s.Let?
      modifies this
      ensures ok ==> ops == old(ops) + code && loops == old(loops) && |scopes| == |old(scopes)|
      ensures Vm.CompileStmt(s, tail, old(Context()), |old(ops)|, NoLoop) == if ok then Some(Code(code, Context())) else None
    {
      hide Vm.CompileExpr, Vm.Declare, ScopeMaps;
      code := [];
      ok := CompileExpr(s.value);
      if !ok { return; }
      ghost var value := Vm.CompileExpr(s.value, Context(), |old(ops)|).value;
      var slot := Declare(s.name);
      var _ := Emit(StoreLocal(slot));
      EmitTail(tail);
      code := value + [StoreLocal(slot)] + Tail(tail);
      Joined4(old(ops), value, [StoreLocal(slot)], Tail(tail));
    }

    method CompileAssign(s: Stmt, tail: bool) returns (ok: bool, ghost code: seq<VmOp>)
      requires scopes != [] && s.Assign?
      modifies `ops
      ensures ok ==> ops == old(ops) + code
      ensures Vm.CompileStmt(s, tail, Context(), |old(ops)|, NoLoop) == if ok then Some(Code(code, Context())) else None
    {
      hide Vm.CompileExpr, ScopeMaps;
      code := [];
      var slot := Resolve(s.name);
      if slot.None? { return false, code; }
      if s.op == Replace {
        ok, code := CompileReplace(s, slot.value, tail);
      } else {
        ok, code := CompileCompound(s, slot.value, tail);
      }
    }

    method CompileReplace(s: Stmt, slot: nat, tail: bool) returns (ok: bool, ghost code: seq<VmOp>)
      requires scopes != [] && s.Assign?
      modifies `ops
      ensures ok ==> ops == old(ops) + code
      ensures var value := Vm.CompileExpr(s.value, Context(), |old(ops)|);
              && ok == value.Some?
              && (ok ==> code == value.value + [StoreLocal(slot)] + Tail(tail))
    {
      hide Vm.CompileExpr, ScopeMaps;
      code := [];
      ok := CompileExpr(s.value);
      if !ok { return; }
      ghost var value := Vm.CompileExpr(s.value, Context(), |old(ops)|).value;
      var _ := Emit(StoreLocal(slot));
      EmitTail(tail);
      code := value + [StoreLocal(slot)] + Tail(tail);
      Joined4(old(ops), value, [StoreLocal(slot)], Tail(tail));
    }

    method CompileCompound(s: Stmt, slot: nat, tail: bool) returns (ok: bool, ghost code: seq<VmOp>)
      requires scopes != [] && s.Assign? && s.op != Replace
      modifies `ops
      ensures ok ==> ops == old(ops) + code
      ensures var value := Vm.CompileExpr(s.value, Context(), |old(ops)| + 1);
              && ok == value.Some?
              && (ok ==> code == [LoadLocal(slot)] + value.value + [VmOp.Binary(AssignBinop(s.op))] + [StoreLocal(slot)] + Tail(tail))
    {
      hide Vm.CompileExpr, ScopeMaps;
      code := [];
      var _ := Emit(LoadLocal(slot));
      ok := CompileExpr(s.value);
      if !ok { return; }
      ghost var value := Vm.CompileExpr(s.value, Context(), |old(ops)| + 1).value;
      var _ := Emit(VmOp.Binary(AssignBinop(s.op)));
      var _ := Emit(StoreLocal(slot));
      EmitTail(tail);
      code := [LoadLocal(slot)] + value + [VmOp.Binary(AssignBinop(s.op))] + [StoreLocal(slot)] + Tail(tail);
      Joined6(old(ops), [LoadLocal(slot)], value, [VmOp.Binary(AssignBinop(s.op))], [StoreLocal(slot)], Tail(tail));
    }

    method CompileReturn(s: Stmt, tail: bool) returns (ok: bool, ghost code: seq<VmOp>)
      requires scopes != [] && s.Return?
      modifies `ops
      ensures ok ==> ops == old(ops) + code
      ensures Vm.CompileStmt(s, tail, Context(), |old(ops)|, NoLoop) == if ok then Some(Code(code, Context())) else None
    {
      hide Vm.CompileExpr, ScopeMaps;
      code := [];
      match s.result {
        case Some(e) =>
          ok := CompileExpr(e);
          if !ok { return; }
          code := Vm.CompileExpr(e, Context(), |old(ops)|).value;
        case None =>
          ok := true;
          var _ := Emit(PushVoid);
          code := [PushVoid];
      }
      Joined3(old(ops), code, [VmOp.Return]);
      code := code + [VmOp.Return];
      var _ := Emit(VmOp.Return);
    }

    method CompileExprStmt(s: Stmt, tail: bool) returns (ok: bool, ghost code: seq<VmOp>)
      requires scopes != [] && s.ExprStmt?
      modifies `ops
      ensures ok ==> ops == old(ops) + code
      ensures Vm.CompileStmt(s, tail, Context(), |old(ops)|, NoLoop) == if ok then Some(Code(code, Context())) else None
    {
      hide Vm.CompileExpr, ScopeMaps;
      code := [];
      ok := CompileExpr(s.value);
      if !ok { return; }
      code := Vm.CompileExpr(s.value, Context(), |old(ops)|).value;
      if tail {
        assert code + [] == code;
      } else {
        Joined3(old(ops), code, [Pop]);
        code := code + [Pop];
        var _ := Emit(Pop);
      }
    }

    method CompileRegion(s: Stmt, tail: bool) returns (ok: bool, ghost code: seq<VmOp>, ghost sites: Sites)
      requires scopes != [] && s.Region?
      modifies this
      ensures ok ==> ops == old(ops) + code && loops == Note(old(loops), sites) && |scopes| == |old(scopes)|
      ensures ok ==> Built(WStmt(s, tail), old(Context()), |old(ops)|, old(loops), code, Context(), sites)
      ensures !ok ==> Refused(WStmt(s, tail), old(Context()), |old(ops)|, old(loops))
      decreases s, 1
    {
      hide Built, Refused, ScopeMaps, Note;
      ok, code, sites := CompileScoped(s.body, false);
      if !ok { RefusedRegion(s, tail, old(Context()), |old(ops)|, old(loops)); return; }
      BuiltRegion(s, tail, old(Context()), |old(ops)|, old(loops), code, Context(), sites);
      code := code + Tail(tail);
      EmitTail(tail);
    }

    method CompileScoped(body: seq<Stmt>, tail: bool) returns (ok: bool, ghost code: seq<VmOp>, ghost sites: Sites)
      requires scopes != []
      modifies this
      ensures ok ==> ops == old(ops) + code && loops == Note(old(loops), sites) && |scopes| == |old(scopes)|
      ensures ok ==> Built(WScoped(body, tail), old(Context()), |old(ops)|, old(loops), code, Context(), sites)
      ensures !ok ==> Refused(WScoped(body, tail), old(Context()), |old(ops)|, old(loops))
      decreases body, 1
    {
      hide Built, Refused, Note;
      PushScope();
      ok, code, sites := CompileStmts(body, tail);
      if !ok { RefusedScoped(body, tail, old(Context()), |old(ops)|, old(loops)); return; }
      BuiltScoped(body, tail, old(Context()), |old(ops)|, old(loops), code, Context(), sites);
      PopScope();
    }

    method CompileStmts(body: seq<Stmt>, tail: bool) returns (ok: bool, ghost code: seq<VmOp>, ghost sites: Sites)
      requires scopes != []
      modifies this
      ensures ok ==> ops == old(ops) + code && loops == Note(old(loops), sites) && |scopes| == |old(scopes)|
      ensures ok ==> Built(WBlock(body, tail), old(Context()), |old(ops)|, old(loops), code, Context(), sites)
      ensures !ok ==> Refused(WBlock(body, tail), old(Context()), |old(ops)|, old(loops))
      decreases body, 0
    {
      hide Built, Refused, ScopeMaps, Note, BlockSoFar;
      ghost var ctx, pc := Context(), |ops|;
      ok, code, sites := true, [], NONE;
      NoteNone(loops);
      if body == [] {
        EmptyBuilt(tail, ctx, pc, loops);
        code := Tail(tail);
        EmitTail(tail);
        return;
      }
      BlockStart(body, tail, ctx, pc, loops);
      for k := 0 to |body|
        invariant ok && ops == old(ops) + code && loops == Note(old(loops), sites) && |scopes| == |old(scopes)|
        invariant BlockSoFar(body, tail, ctx, pc, old(loops), k, code, Context(), sites)
      {
        ghost var ctx', pc' := Context(), |ops|;
        ghost var more, moreSites;
        ok, more, moreSites := CompileStmt(body[k], tail && k == |body| - 1);
        if !ok {
          RefusedNoted(WStmt(body[k], tail && k == |body| - 1), ctx', pc', old(loops), sites);
          BlockRefused(body, tail, ctx, pc, old(loops), k, code, ctx', sites);
          return;
        }
        BuiltNoted(WStmt(body[k], tail && k == |body| - 1), ctx', pc', old(loops), sites, more, Context(), moreSites);
        BlockStep(body, tail, ctx, pc, old(loops), k, code, ctx', sites, more, Context(), moreSites);
        code, sites := code + more, Both(sites, moreSites);
      }
      BlockEnd(body, tail, ctx, pc, old(loops), code, Context(), sites);
    }

    method CompileWhile(s: Stmt, tail: bool) returns (ok: bool, ghost code: seq<VmOp>, ghost sites: Sites)
      requires scopes != [] && s.While?
      modifies this
      ensures ok ==> ops == old(ops) + code && loops == Note(old(loops), sites) && |scopes| == |old(scopes)|
      ensures ok ==> Built(WStmt(s, tail), old(Context()), |old(ops)|, old(loops), code, Context(), sites)
      ensures !ok ==> Refused(WStmt(s, tail), old(Context()), |old(ops)|, old(loops))
      decreases s, 1
    {
      hide Built, Refused, ScopeMaps, Note, Fill, SitesOk, Vm.CompileExpr;
      code, sites := [], NONE;
      NoteNone(loops);
      var top := |ops|;
      ok := CompileExpr(s.cond);
      if !ok { RefusedWhile(s, tail, Context(), top, loops); return; }
      ghost var test := Vm.CompileExpr(s.cond, Context(), top).value;
      var exit := Emit(JumpIfFalse(0));
      loops := loops + [KnownLoop(top)];
      ghost var body, open;
      ok, body, open := CompileScoped(s.body, false);
      if !ok { RefusedWhile(s, tail, old(Context()), top, old(loops)); return; }
      BuiltWhile(s, tail, old(Context()), top, old(loops), test, body, Context(), open);
      BuiltSites(WScoped(s.body, false), old(Context()), top + |test| + 1, old(loops) + [KnownLoop(top)], body, Context(), open);
      var _ := Emit(Jump(top));
      var done := PopLoop(old(loops), KnownLoop(top), open);
      var end := |ops|;
      PatchOneThen(old(ops) + test, JumpIfFalse(0), body, [Jump(top)], JumpIfFalse(end));
      Patch(exit, end);
      ghost var pre := old(ops) + test + [JumpIfFalse(end)];
      PatchLoop(pre, body, [Jump(top)], done, open, old(loops) + [KnownLoop(top)], end, top);
      EmitTail(tail);
      code := test + [JumpIfFalse(end)] + Fill(body, |pre|, open, InLoop(end, top)) + [Jump(top)] + Tail(tail);
      Joined6(old(ops), test, [JumpIfFalse(end)], Fill(body, |pre|, open, InLoop(end, top)), [Jump(top)], Tail(tail));
    }

    /** Take the entry of a finished loop, with the sites it collected. */
    method PopLoop(ghost outer: seq<VmLoop>, ghost entry: VmLoop, ghost open: Sites) returns (done: VmLoop)
      requires loops == Note(outer + [entry], open) && entry.continueSites == entry.breakSites == []
      modifies `loops
      ensures loops == outer && Sites(done.breakSites, done.continueSites) == open
    {
      done := loops[|loops| - 1];
      loops := loops[..|loops| - 1];
      assert [] + open.cont == open.cont && [] + open.brk == open.brk;
    }

    /** Patch the jumps a finished loop body left open. */
    method PatchLoop(ghost pre: seq<VmOp>, ghost body: seq<VmOp>, ghost post: seq<VmOp>, done: VmLoop, ghost open: Sites,
                     ghost within: seq<VmLoop>, end: nat, cont: nat)
      requires ops == pre + body + post && Sites(done.breakSites, done.continueSites) == open
      requires SitesOk(body, |pre|, open, within)
      modifies `ops
      ensures ops == pre + Fill(body, |pre|, open, InLoop(end, cont)) + post
    {
      SitesInPlace(pre, body, post, open, within);
      PatchAll(done.breakSites, end);
      ghost var half := ops;
      PatchAll(done.continueSites, cont);
      PatchedIsFilled(pre, body, post, half, ops, open, within, InLoop(end, cont));
    }

    method CompileLoop(s: Stmt, tail: bool) returns (ok: bool, ghost code: seq<VmOp>, ghost sites: Sites)
      requires scopes != [] && s.Loop?
      modifies this
      ensures ok ==> ops == old(ops) + code && loops == Note(old(loops), sites) && |scopes| == |old(scopes)|
      ensures ok ==> Built(WStmt(s, tail), old(Context()), |old(ops)|, old(loops), code, Context(), sites)
      ensures !ok ==> Refused(WStmt(s, tail), old(Context()), |old(ops)|, old(loops))
      decreases s, 1
    {
      hide Built, Refused, ScopeMaps, Note, Fill, SitesOk;
      code, sites := [], NONE;
      NoteNone(loops);
      var top := |ops|;
      loops := loops + [KnownLoop(top)];
      ghost var body, open;
      ok, body, open := CompileScoped(s.body, false);
      if !ok { RefusedLoop(s, tail, old(Context()), top, old(loops)); return; }
      BuiltLoop(s, tail, old(Context()), top, old(loops), body, Context(), open);
      BuiltSites(WScoped(s.body, false), old(Context()), top, old(loops) + [KnownLoop(top)], body, Context(), open);
      var _ := Emit(Jump(top));
      var done := PopLoop(old(loops), KnownLoop(top), open);
      var end := |ops|;
      PatchLoop(old(ops), body, [Jump(top)], done, open, old(loops) + [KnownLoop(top)], end, top);
      EmitTail(tail);
      ghost var filled := Fill(body, top, open, InLoop(end, top));
      code := filled + [Jump(top)] + Tail(tail);
      Joined4(old(ops), filled, [Jump(top)], Tail(tail));
    }

    /** The bounds, each into its slot, and the zero-step check. */
    method CompileForHead(s: Stmt) returns (ok: bool, counter: nat, endSlot: nat, stepSlot: nat)
      requires scopes != [] && s.For?
      modifies this
      ensures loops == old(loops)
      ensures ok <==> Vm.CompileForHead(s, old(Context()), |old(ops)|).Some?
      ensures ok ==> ops == old(ops) + Vm.CompileForHead(s, old(Context()), |old(ops)|).value
      ensures ok ==> Context() == ForCtx(s, old(Context())) && |scopes| == |old(scopes)| + 1
      ensures ok ==> counter == old(nextSlot) && endSlot == counter + 1 && stepSlot == counter + 2
    {
      hide Vm.CompileForHead, Vm.CompileExpr, CompileStep, Vm.Declare;
      ghost var ctx, pc := Context(), |ops|;
      counter, endSlot, stepSlot := 0, 0, 0;
      HeadIs(s, ctx, pc);
      PushScope();
      ok := CompileExpr(s.start);
      if !ok { return; }
      ghost var a := Vm.CompileExpr(s.start, Open(ctx), pc).value;
      counter := Declare(s.name);
      var _ := Emit(StoreLocal(counter));
      ghost var inside := Context();
      ok := CompileExpr(s.end);
      if !ok { return; }
      ghost var b := Vm.CompileExpr(s.end, inside, pc + |a| + 1).value;
      endSlot := AllocTemp();
      var _ := Emit(StoreLocal(endSlot));
      ok := CompileStride(s.step, inside);
      if !ok { return; }
      ghost var d := CompileStep(s.step, inside, pc + |a| + |b| + 2).value;
      stepSlot := AllocTemp();
      var _ := Emit(StoreLocal(stepSlot));
      var _ := Emit(CheckStepNonzero(stepSlot));
      HeadJoined(old(ops), a, [StoreLocal(counter)], b, [StoreLocal(endSlot)], d, [StoreLocal(stepSlot)], [CheckStepNonzero(stepSlot)]);
      ForCtxIs(s, ctx, inside);
    }

    /** The step, or the literal 1. Slots taken since `inside` have no name, so they do not matter. */
    method CompileStride(step: Option<Expr>, ghost inside: Ctx) returns (ok: bool)
      requires Context().scopes == inside.scopes && Context().locals == inside.locals
      modifies `ops
      ensures ok <==> CompileStep(step, inside, |old(ops)|).Some?
      ensures ok ==> ops == old(ops) + CompileStep(step, inside, |old(ops)|).value
    {
      hide Vm.CompileExpr;
      match step {
        case Some(e) =>
          SlotsUnseen(e, Context(), inside, |ops|);
          ok := CompileExpr(e);
        case None =>
          ok := true;
          var _ := Emit(PushConst(I64(1)));
      }
    }

    /** The step block, after which every jump of the loop can be patched. */
    method FinishFor(counter: nat, stepSlot: nat, top: nat, exit: nat, done: VmLoop,
                     ghost pre: seq<VmOp>, ghost body: seq<VmOp>, ghost open: Sites, ghost within: seq<VmLoop>)
      requires ops == pre + [JumpIfFalse(0)] + body && exit == |pre| && Sites(done.breakSites, done.continueSites) == open
      requires SitesOk(body, |pre| + 1, open, within)
      modifies `ops
      ensures |ops| == |pre| + |body| + 3
      ensures ops == pre + [JumpIfFalse(|ops|)] + Fill(body, |pre| + 1, open, InLoop(|ops|, |ops| - 2))
                     + ([ForStep(counter, stepSlot)] + [Jump(top)])
    {
      hide SitesOk, Fill;
      var stepPc := |ops|;
      var _ := Emit(ForStep(counter, stepSlot));
      var _ := Emit(Jump(top));
      var end := |ops|;
      ForPatched(pre, body, [ForStep(counter, stepSlot)], [Jump(top)], end);
      Patch(exit, end);
      PatchLoop(pre + [JumpIfFalse(end)], body, [ForStep(counter, stepSlot)] + [Jump(top)], done, open, within, end, stepPc);
    }

    method CompileFor(s: Stmt, tail: bool) returns (ok: bool, ghost code: seq<VmOp>, ghost sites: Sites)
      requires scopes != [] && s.For?
      modifies this
      ensures ok ==> ops == old(ops) + code && loops == Note(old(loops), sites) && |scopes| == |old(scopes)|
      ensures ok ==> Built(WStmt(s, tail), old(Context()), |old(ops)|, old(loops), code, Context(), sites)
      ensures !ok ==> Refused(WStmt(s, tail), old(Context()), |old(ops)|, old(loops))
      decreases s, 1
    {
      hide Built, Refused, Vm.CompileForHead, ForCtx, ScopeMaps, Fill, Note, SitesOk, ForOps;
      code, sites := [], NONE;
      NoteNone(loops);
      ghost var ctx, pc := Context(), |ops|;
      var counter, endSlot, stepSlot;
      ok, counter, endSlot, stepSlot := CompileForHead(s);
      if !ok { RefusedFor(s, tail, ctx, pc, loops); return; }
      ghost var head := Vm.CompileForHead(s, ctx, pc).value;
      var top := |ops|;
      var _ := Emit(ForCheck(counter, endSlot, stepSlot));
      var exit := Emit(JumpIfFalse(0));
      loops := loops + [WAITING];
      ghost var body, open;
      ok, body, open := CompileScoped(s.body, false);
      if !ok { RefusedFor(s, tail, ctx, pc, old(loops)); return; }
      BuiltFor(s, tail, ctx, pc, old(loops), head, body, Context(), open);
      BuiltSites(WScoped(s.body, false), ForCtx(s, ctx), top + 2, old(loops) + [WAITING], body, Context(), open);
      var done := PopLoop(old(loops), WAITING, open);
      ghost var pre := old(ops) + head + [ForCheck(counter, endSlot, stepSlot)];
      FinishFor(counter, stepSlot, top, exit, done, pre, body, open, old(loops) + [WAITING]);
      ghost var end := |ops|;
      PopScope();
      EmitTail(tail);
      ghost var filled := Fill(body, |pre| + 1, open, InLoop(end, end - 2));
      code := ForOps(s, tail, ctx.next, head, filled, top);
      ForJoined(old(ops), s, tail, ctx.next, head, filled, top);
    }

    method CompileIf(s: Stmt, tail: bool) returns (ok: bool, ghost code: seq<VmOp>, ghost sites: Sites)
      requires scopes != [] && s.If?
      modifies this
      ensures ok ==> ops == old(ops) + code && loops == Note(old(loops), sites) && |scopes| == |old(scopes)|
      ensures ok ==> Built(WStmt(s, tail), old(Context()), |old(ops)|, old(loops), code, Context(), sites)
      ensures !ok ==> Refused(WStmt(s, tail), old(Context()), |old(ops)|, old(loops))
      decreases s, 1
    {
      hide Built, Refused, ScopeMaps, IfSoFar, Note, BranchOps, FillEnds, EndsOk, Both, IfLen, BlockLen;
      ghost var ctx, pc := Context(), |ops|;
      var endJumps: seq<nat> := [];
      ok, code, sites := true, [], NONE;
      NoteNone(loops);
      IfStart(s, tail, ctx, pc, loops);
      for k := 0 to |s.branches|
        invariant ok && ops == old(ops) + code && loops == Note(old(loops), sites) && |scopes| == |old(scopes)|
        invariant IfSoFar(s, tail, ctx, pc, old(loops), k, code, Context(), sites, endJumps)
      {
        ghost var ctx', pc' := Context(), |ops|;
        ghost var test, inner, innerSites;
        var site;
        ok, site, test, inner, innerSites := CompileBranch(s, k, tail);
        if !ok {
          RefusedBranch(s, k, tail, ctx', pc', old(loops), sites);
          IfRefused(s, tail, ctx, pc, old(loops), k, code, ctx', sites, endJumps);
          return;
        }
        BuiltNoted(WScoped(s.branches[k].body, tail), ctx', pc' + |test| + 1, old(loops), sites, inner, Context(), innerSites);
        BuiltLen(s.branches[k].body, tail, ctx', pc' + |test| + 1, old(loops), inner, Context(), innerSites);
        IfStep(s, tail, ctx, pc, old(loops), k, code, ctx', sites, endJumps, test, inner, Context(), innerSites);
        code, sites, endJumps := code + BranchOps(test, inner, |ops|, 0), Both(sites, innerSites), endJumps + [site];
      }
      ghost var ctx', pc' := Context(), |ops|;
      ghost var last, lastSites;
      ok, last, lastSites := CompileScoped(s.orelse, tail);
      if !ok {
        RefusedNoted(WScoped(s.orelse, tail), ctx', pc', old(loops), sites);
        IfRefused(s, tail, ctx, pc, old(loops), |s.branches|, code, ctx', sites, endJumps);
        return;
      }
      BuiltNoted(WScoped(s.orelse, tail), ctx', pc', old(loops), sites, last, Context(), lastSites);
      BuiltLen(s.orelse, tail, ctx', pc', old(loops), last, Context(), lastSites);
      BuiltIf(s, tail, ctx, pc, old(loops), code, ctx', sites, endJumps, last, Context(), lastSites);
      IfEnds(s, tail, ctx, pc, old(loops), |s.branches|, code, ctx', sites, endJumps);
      EndsInPlace(old(ops), code, last, endJumps, sites);
      PatchAll(endJumps, |ops|);
      EndsPatched(old(ops), code, last, ops, endJumps, sites, |ops|);
      code, sites := FillEnds(code + last, |old(ops)|, endJumps, |ops|), Both(sites, lastSites);
    }

    /** A branch and the open jump to the end of its conditional. */
    method CompileBranch(s: Stmt, k: nat, tail: bool)
      returns (ok: bool, site: nat, ghost test: seq<VmOp>, ghost inner: seq<VmOp>, ghost sites: Sites)
      requires scopes != [] && s.If? && k < |s.branches|
      modifies this
      ensures ok ==> Vm.CompileExpr(s.branches[k].cond, old(Context()), |old(ops)|) == Some(test) && |scopes| == |old(scopes)|
      ensures ok ==> |ops| == |old(ops)| + |test| + |inner| + 2 && ops == old(ops) + BranchOps(test, inner, |ops|, 0) && site == |ops| - 1
      ensures ok ==> loops == Note(old(loops), sites)
      ensures ok ==> Built(WScoped(s.branches[k].body, tail), old(Context()), |old(ops)| + |test| + 1, old(loops), inner, Context(), sites)
      ensures !ok ==> var t := Vm.CompileExpr(s.branches[k].cond, old(Context()), |old(ops)|);
                      t.Some? ==> Refused(WScoped(s.branches[k].body, tail), old(Context()), |old(ops)| + |t.value| + 1, old(loops))
      decreases s, 0
    {
      hide Built, Refused, ScopeMaps, Note, Vm.CompileExpr;
      test, inner, sites, site := [], [], NONE, 0;
      ok := CompileExpr(s.branches[k].cond);
      if !ok { return; }
      test := Vm.CompileExpr(s.branches[k].cond, Context(), |old(ops)|).value;
      var skip := Emit(JumpIfFalse(0));
      ok, inner, sites := CompileScoped(s.branches[k].body, tail);
      if !ok { return; }
      site := Emit(Jump(0));
      assert ops == (old(ops) + test) + [JumpIfFalse(0)] + (inner + [Jump(0)]);
      PatchOne(old(ops) + test, JumpIfFalse(0), inner + [Jump(0)], JumpIfFalse(|ops|));
      Patch(skip, |ops|);
      BranchJoined(old(ops), test, inner, |ops|);
    }
  }

  lemma FillOutside(code: seq<VmOp>, base: nat, sites: Sites)
    ensures Fill(code, base, sites, NoLoop) == code
  {
  }

  /** The parameters in the first slots, the body in value position, and a final return. */
  method CompileFunctionToVm(f: Function) returns (p: Option<Program>)
    ensures p == CompileFunction(f)
  {
    hide CompileBlock;
    var c := new VmCompiler();
    for k := 0 to |f.params|
      invariant fresh(c) && c.ops == [] && c.loops == [] && c.scopes != []
      invariant c.Context() == DeclareAll(Ctx([map[]], 0, {}), f.params[..k])
    {
      var _ := c.Declare(f.params[k]);
      assert f.params[..k + 1][..k] == f.params[..k];
    }
    assert f.params[..|f.params|] == f.params;
    ghost var entry := c.Context();
    ghost var code, sites;
    var ok;
    ok, code, sites := c.CompileStmts(f.body, true);
    if !ok {
      assert Spec(WBlock(f.body, true), entry, 0, NoLoop) == None;
      return None;
    }
    assert Spec(WBlock(f.body, true), entry, 0, NoLoop) == Some(Code(Fill(code, 0, sites, NoLoop), c.Context()));
    FillOutside(code, 0, sites);
    assert [] + code == code;
    var _ := c.Emit(VmOp.Return);
    p := Some(Program(c.ops, c.nextSlot));
  }
}

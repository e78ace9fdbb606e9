/** Exactly what the bytecode tier does with a function that ends in a region block, at the
    end of its body or of a branch of its last conditional. */
module VmRegions {
  import opened Ir
  import opened Eval
  import opened Vm
  import opened VmExprs
  import opened VmStmts
  import opened Programs
  import opened VmTier

  // ---- The body the compiled code stands for ----

  /** A statement that does nothing and whose value is `Void`. */
  function Nothing(): Stmt { If([], []) }

  /** Every region block in value position with an empty statement after it. */
  function Voided(body: seq<Stmt>): (r: seq<Stmt>)
    ensures r == [] <==> body == []
    decreases body, 0
  {
    if body == [] then []
    else if |body| > 1 then [body[0]] + Voided(body[1..])
    else match body[0]
      case Region(_) => [body[0], Nothing()]
      case If(_, _) => [VoidedIf(body[0])]
      case _ => body
  }

  function VoidedIf(s: Stmt): (r: Stmt)
    requires s.If?
    ensures r.If? && |r.branches| == |s.branches|
    decreases s, 1
  {
    If(VoidedBranches(s.branches), Voided(s.orelse))
  }

  function VoidedBranches(branches: seq<Branch>): (r: seq<Branch>)
    ensures |r| == |branches|
    ensures forall i :: 0 <= i < |branches| ==> r[i] == Branch(branches[i].cond, Voided(branches[i].body))
    decreases branches, 0
  {
    if branches == [] then []
    else [Branch(branches[0].cond, Voided(branches[0].body))] + VoidedBranches(branches[1..])
  }

  // ---- It has the same code ----

  lemma {:induction false} SameLen(body: seq<Stmt>)
    ensures BlockLen(Voided(body), true) == BlockLen(body, true)
    decreases body, 1
  {
    if |body| > 1 {
      hide StmtLen;
      assert Voided(body)[1..] == Voided(body[1..]);
      SameLen(body[1..]);
    } else if |body| == 1 && body[0].If? {
      SameIfLen(body[0], 0);
    } else if |body| == 1 && body[0].Region? {
      assert Voided(body)[1..] == [Nothing()];
      NothingLen();
    }
  }

  lemma NothingLen()
    ensures BlockLen([Nothing()], true) == 1
  {
    assert IfLen(Nothing(), true, 0) == BlockLen([], true);
  }

  lemma {:induction false} SameIfLen(s: Stmt, i: nat)
    requires s.If? && i <= |s.branches|
    ensures IfLen(VoidedIf(s), true, i) == IfLen(s, true, i)
    decreases s, 0, |s.branches| - i
  {
    hide BlockLen, Voided;
    if i == |s.branches| {
      SameLen(s.orelse);
    } else {
      SameLen(s.branches[i].body);
      SameIfLen(s, i + 1);
    }
  }

  /** A region block in value position drops its value and pushes `Void`, which is the code of
      the block as a mere statement followed by the empty one. */
  lemma {:induction false} SameCode(body: seq<Stmt>, ctx: Ctx, pc: nat, loop: Targets)
    requires ctx.scopes != []
    ensures CompileBlock(Voided(body), true, ctx, pc, loop) == CompileBlock(body, true, ctx, pc, loop)
    decreases body, 1
  {
    hide CompileStmt, CompileIf, Voided, VoidedIf, IfLen;
    if |body| > 1 {
      VoidedTail(body);
      var first := CompileStmt(body[0], false, ctx, pc, loop);
      if first.Some? { SameCode(body[1..], first.value.ctx, pc + |first.value.ops|, loop); }
    } else if |body| == 1 {
      VoidedOne(body[0]);
      assert body == [body[0]];
      if body[0].If? {
        SameIfLen(body[0], 0);
        SameIfCode(body[0], ctx, pc, loop, 0, pc + IfLen(body[0], true, 0));
        IfAsStmt(VoidedIf(body[0]), ctx, pc, loop);
        IfAsStmt(body[0], ctx, pc, loop);
      } else if body[0].Region? {
        RegionCode(body[0], ctx, pc, loop);
      }
    }
  }

  lemma VoidedOne(s: Stmt)
    ensures Voided([s]) == if s.If? then [VoidedIf(s)] else if s.Region? then [s, Nothing()] else [s]
  {
  }

  lemma IfAsStmt(s: Stmt, ctx: Ctx, pc: nat, loop: Targets)
    requires s.If? && ctx.scopes != []
    ensures CompileBlock([s], true, ctx, pc, loop) == CompileIf(s, true, ctx, pc, loop, 0, pc + IfLen(s, true, 0))
  {
    hide CompileIf, IfLen;
    OnlyStmt(s, ctx, pc, loop);
  }

  lemma VoidedTail(body: seq<Stmt>)
    requires |body| > 1
    ensures |Voided(body)| > 1 && Voided(body)[0] == body[0] && Voided(body)[1..] == Voided(body[1..])
  {
  }

  lemma OnlyStmt(s: Stmt, ctx: Ctx, pc: nat, loop: Targets)
    requires ctx.scopes != []
    ensures CompileBlock([s], true, ctx, pc, loop) == CompileStmt(s, true, ctx, pc, loop)
  {
    hide CompileStmt;
  }

  lemma RegionCode(s: Stmt, ctx: Ctx, pc: nat, loop: Targets)
    requires s.Region? && ctx.scopes != []
    ensures CompileBlock([s, Nothing()], true, ctx, pc, loop) == CompileBlock([s], true, ctx, pc, loop)
  {
    OnlyStmt(s, ctx, pc, loop);
    assert [s, Nothing()][1..] == [Nothing()];
    var inner := CompileScoped(s.body, false, ctx, pc, loop);
    if inner.Some? {
      hide CompileScoped;
      assert CompileStmt(s, false, ctx, pc, loop) == Some(Code(inner.value.ops, inner.value.ctx)) by {
        assert inner.value.ops + Tail(false) == inner.value.ops;
      }
      NothingCode(inner.value.ctx, pc + |inner.value.ops|, loop);
    }
  }

  lemma NothingCode(ctx: Ctx, pc: nat, loop: Targets)
    requires ctx.scopes != []
    ensures CompileBlock([Nothing()], true, ctx, pc, loop) == Some(Code([PushVoid], ctx))
  {
    OnlyStmt(Nothing(), ctx, pc, loop);
    assert CompileBlock([], true, Open(ctx), pc, loop) == Some(Code([PushVoid], Open(ctx)));
    assert Close(Open(ctx), |ctx.scopes|) == ctx by { assert (ctx.scopes + [map[]])[..|ctx.scopes|] == ctx.scopes; }
    hide CompileBlock;
    assert CompileScoped([], true, ctx, pc, loop) == Some(Code([PushVoid], ctx));
    hide CompileScoped;
    assert CompileIf(Nothing(), true, ctx, pc, loop, 0, pc + IfLen(Nothing(), true, 0)) == Some(Code([PushVoid], ctx));
  }

  lemma {:induction false} SameIfCode(s: Stmt, ctx: Ctx, pc: nat, loop: Targets, i: nat, end: nat)
    requires s.If? && i <= |s.branches| && ctx.scopes != []
    ensures CompileIf(VoidedIf(s), true, ctx, pc, loop, i, end) == CompileIf(s, true, ctx, pc, loop, i, end)
    decreases s, 0, |s.branches| - i
  {
    hide CompileExpr, CompileIf, CompileScoped, CompileBlock, Voided, VoidedBranches;
    var s' := VoidedIf(s);
    if i == |s.branches| {
      SameScoped(s.orelse, ctx, pc, loop) by { SameCode(s.orelse, Open(ctx), pc, loop); }
    } else {
      var test := CompileExpr(s.branches[i].cond, ctx, pc);
      if test.Some? {
        var at, body := pc + |test.value| + 1, s.branches[i].body;
        SameScoped(body, ctx, at, loop) by { SameCode(body, Open(ctx), at, loop); }
        var inner := CompileScoped(body, true, ctx, at, loop);
        if inner.Some? { SameIfCode(s, inner.value.ctx, at + |inner.value.ops| + 1, loop, i + 1, end); }
      }
    }
    SameBranches(s, s', ctx, pc, loop, i, end);
  }

  lemma SameScoped(body: seq<Stmt>, ctx: Ctx, pc: nat, loop: Targets)
    requires ctx.scopes != []
    requires CompileBlock(Voided(body), true, Open(ctx), pc, loop) == CompileBlock(body, true, Open(ctx), pc, loop)
    ensures CompileScoped(Voided(body), true, ctx, pc, loop) == CompileScoped(body, true, ctx, pc, loop)
  {
    hide CompileBlock, Voided;
  }

  /** Chains whose parts compile alike compile alike. */
  lemma SameBranches(s: Stmt, s': Stmt, ctx: Ctx, pc: nat, loop: Targets, i: nat, end: nat)
    requires s.If? && s'.If? && |s'.branches| == |s.branches| && i <= |s.branches| && ctx.scopes != []
    requires i == |s.branches| ==> CompileScoped(s'.orelse, true, ctx, pc, loop) == CompileScoped(s.orelse, true, ctx, pc, loop)
    requires i < |s.branches| ==>
               && s'.branches[i].cond == s.branches[i].cond
               && var test := CompileExpr(s.branches[i].cond, ctx, pc);
                  test.Some? ==>
                    var at := pc + |test.value| + 1;
                    var inner := CompileScoped(s.branches[i].body, true, ctx, at, loop);
                    && CompileScoped(s'.branches[i].body, true, ctx, at, loop) == inner
                    && (inner.Some? ==>
                          CompileIf(s', true, inner.value.ctx, at + |inner.value.ops| + 1, loop, i + 1, end)
                          == CompileIf(s, true, inner.value.ctx, at + |inner.value.ops| + 1, loop, i + 1, end))
    ensures CompileIf(s', true, ctx, pc, loop, i, end) == CompileIf(s, true, ctx, pc, loop, i, end)
  {
    hide CompileExpr, CompileScoped, IfLen, BlockLen, StmtLen, CompileStmt;
  }

  // ---- It fits ----

  lemma {:induction false} VoidedFits(body: seq<Stmt>)
    requires BlockFits(body, false)
    ensures BlockFits(Voided(body), true)
    decreases body, 1
  {
    if |body| > 1 {
      hide Fits, Voided;
      VoidedTail(body);
      VoidedFits(body[1..]);
    } else if |body| == 1 && body[0].If? {
      VoidedIfFits(body[0], 0);
    } else if |body| == 1 {
      assert Voided(body)[0] == body[0];
      assert Fits(body[0], false);
      if body[0].Region? {
        assert Voided(body)[1..] == [Nothing()];
        NothingFits();
      } else {
        assert Fits(body[0], true);
      }
    }
  }

  lemma NothingFits()
    ensures BlockFits([Nothing()], true)
  {
    assert IfFits(Nothing(), true, 0);
  }

  lemma {:induction false} VoidedIfFits(s: Stmt, i: nat)
    requires s.If? && i <= |s.branches| && IfFits(s, false, i)
    ensures IfFits(VoidedIf(s), true, i)
    decreases s, 0, |s.branches| - i
  {
    hide BlockFits, Voided;
    if i == |s.branches| {
      VoidedFits(s.orelse);
    } else {
      VoidedFits(s.branches[i].body);
      VoidedIfFits(s, i + 1);
    }
  }

  // ---- What it means ----

  /** Does the run leave the block at the end of a region in value position? */
  predicate Leaves(c: Cfg, body: seq<Stmt>, env: Env, fuel: nat)
    requires env != []
    decreases body, 0
  {
    if body == [] then false
    else if |body| > 1 then
      var r := EvalStmt(c, body[0], env, fuel);
      r.out.Ok? && r.out.value.Normal? && Leaves(c, body[1..], r.env, fuel)
    else match body[0]
      case Region(_) => true
      case If(_, _) => LeavesIf(c, body[0], 0, env, fuel)
      case _ => false
  }

  predicate LeavesIf(c: Cfg, s: Stmt, i: nat, env: Env, fuel: nat)
    requires s.If? && i <= |s.branches| && env != []
    decreases s, 0, |s.branches| - i
  {
    if i == |s.branches| then Leaves(c, s.orelse, env + [map[]], fuel)
    else
      var v := EvalExpr(c, s.branches[i].cond, env);
      v.Ok? && v.value.Bool? &&
      if v.value.b then Leaves(c, s.branches[i].body, env + [map[]], fuel) else LeavesIf(c, s, i + 1, env, fuel)
  }

  function Dropped(lost: bool, out: Res<Flow>): Res<Flow> {
    if lost && out.Ok? && out.value.Normal? then Ok(Normal(Void)) else out
  }

  /** The value of a region left that way is replaced by `Void`; nothing else changes. */
  lemma {:induction false} VoidedMeaning(c: Cfg, body: seq<Stmt>, env: Env, fuel: nat)
    requires env != []
    ensures EvalBlock(c, Voided(body), env, fuel).out == Dropped(Leaves(c, body, env, fuel), EvalBlock(c, body, env, fuel).out)
    decreases body, 1
  {
    if |body| > 1 {
      hide EvalStmt, Voided;
      VoidedTail(body);
      var r := EvalStmt(c, body[0], env, fuel);
      if r.out.Ok? && r.out.value.Normal? {
        VoidedMeaning(c, body[1..], r.env, fuel);
      }
    } else if |body| == 1 && body[0].If? {
      hide EvalIf, LeavesIf, VoidedIf;
      VoidedIfMeaning(c, body[0], 0, env, fuel);
      OnlyRun(c, VoidedIf(body[0]), env, fuel);
      OnlyRun(c, body[0], env, fuel);
    } else if |body| == 1 && body[0].Region? {
      hide EvalStmt;
      assert Voided(body)[1..] == [Nothing()];
      NothingMeaning(c, EvalStmt(c, body[0], env, fuel).env, fuel);
    }
  }

  lemma OnlyRun(c: Cfg, s: Stmt, env: Env, fuel: nat)
    requires env != [] && s.If?
    ensures EvalBlock(c, [s], env, fuel) == EvalIf(c, s, 0, env, fuel)
  {
    hide EvalIf;
    assert EvalStmt(c, s, env, fuel) == EvalIf(c, s, 0, env, fuel);
  }

  lemma NothingMeaning(c: Cfg, env: Env, fuel: nat)
    requires env != []
    ensures EvalBlock(c, [Nothing()], env, fuel).out == Ok(Normal(Void))
  {
    OnlyRun(c, Nothing(), env, fuel);
    assert EvalBlock(c, [], env + [map[]], fuel).out == Ok(Normal(Void));
    hide EvalBlock;
    assert EvalScoped(c, [], env, fuel).out == Ok(Normal(Void));
  }

  lemma {:induction false} VoidedIfMeaning(c: Cfg, s: Stmt, i: nat, env: Env, fuel: nat)
    requires s.If? && i <= |s.branches| && env != []
    ensures EvalIf(c, VoidedIf(s), i, env, fuel).out == Dropped(LeavesIf(c, s, i, env, fuel), EvalIf(c, s, i, env, fuel).out)
    decreases s, 0, |s.branches| - i
  {
    hide EvalExpr, EvalBlock, Leaves, Voided;
    if i == |s.branches| {
      VoidedMeaning(c, s.orelse, env + [map[]], fuel);
    } else {
      VoidedMeaning(c, s.branches[i].body, env + [map[]], fuel);
      VoidedIfMeaning(c, s, i + 1, env, fuel);
    }
  }

  // ---- The tiers ----

  /** A function that meets the conditions but for region blocks with values in value position
      is finished by its compiled code as the tree-walker finishes it (or not at all), except that
      such a region's value is lost. So the tiers agree exactly on the runs that do not leave by one
      with a value. `BlockFits(body, true)` is the check beforehand that no run does. */
  lemma RegionTailExactly(c: Cfg, call: Dispatch, f: Function, args: seq<Value>, fuel: nat) returns (n: nat)
    requires !c.moves && Agree(c.call, call) && |f.params| == |args|
    requires CompileFunction(f).Some? && BlockFits(f.body, false)
    requires Settled(EvalBody(c, f, args, fuel))
    ensures var p := CompileFunction(f).value;
            var o := Exec(p.ops, call, State(0, [], InitialFrame(args, p.frameSize)), n);
            var env := [BindParams(f.params, args)];
            var end, lost := EvalBlock(c, f.body, env, fuel).out, Leaves(c, f.body, env, fuel);
            && (Result(o).NoResult? ==> n >= fuel)
            && Result(o) == (if lost && end.Ok? && end.value.Normal? then Ok(Void) else EvalBody(c, f, args, fuel))
            && (Result(o) == EvalBody(c, f, args, fuel) <==> !(lost && end.Ok? && end.value.Normal? && end.value.v != Void))
  {
    hide Exec, CompileBlock, EvalBlock, BlockFits, Agree, Settled, Leaves, Voided;
    var g := f.(body := Voided(f.body));
    var env: Env := [BindParams(f.params, args)];
    SameCode(f.body, EntryCtx(f.params), 0, NoLoop);
    assert CompileFunction(g) == CompileFunction(f);
    VoidedFits(f.body);
    VoidedMeaning(c, f.body, env, fuel);
    assert Settled(EvalBody(c, g, args, fuel)) by { SettledVoid(EvalBody(c, f, args, fuel), EvalBody(c, g, args, fuel)); }
    n := CompiledBodyAgrees(c, call, g, args, fuel);
  }

  lemma SettledVoid(r: Res<Value>, v: Res<Value>)
    requires Settled(r) && (v == r || v == Ok(Void))
    ensures Settled(v)
  {
  }
}

/** The pass as it runs: an alias map updated in place, fresh maps for nested blocks, and a
    counter of the occurrences replaced. */
module CopyPropPass {
  import opened Ir
  import opened CopyProp

  /** A map from alias to source that the pass mutates as it walks a block. */
  class AliasMap {
    var entries: Aliases

    constructor ()
      ensures entries == map[]
    {
      entries := map[];
    }

    method Clear()
      modifies this
      ensures entries == map[]
    {
      entries := map[];
    }

    method Insert(alias: string, source: string)
      modifies this
      ensures entries == old(entries)[alias := source]
    {
      entries := entries[alias := source];
    }

    /** Walk the chain of aliases, remembering the names passed so as not to go round. */
    method ResolveAlias(name: string) returns (current: string)
      ensures current == Resolve(name, entries)
    {
      current := name;
      var seen: set<string> := {};
      while current in entries
        invariant Chase(current, entries, seen) == Resolve(name, entries)
        decreases entries.Keys - seen
      {
        if current in seen { break; }
        seen := seen + {current};
        current := entries[current];
      }
    }

    /** Collect the stale aliases first, then remove them. */
    method InvalidateAlias(name: string)
      modifies this
      ensures entries == Invalidate(name, old(entries))
    {
      var left, stale: set<string> := entries.Keys, {};
      while left != {}
        invariant entries == old(entries) && left <= entries.Keys && stale <= entries.Keys
        invariant forall y :: y in stale <==> y in entries && y !in left && (y == name || Resolve(y, entries) == name)
        decreases left
      {
        var alias :| alias in left;
        left := left - {alias};
        var source := ResolveAlias(alias);
        if alias == name || source == name { stale := stale + {alias}; }
      }
      ghost var kept := Invalidate(name, entries);
      assert forall y :: y in entries - stale <==> y in kept;
      assert entries - stale == kept;
      entries := entries - stale;
    }
  }

  class CopyPropagator {
    var propagatedCopies: nat

    constructor ()
      ensures propagatedCopies == 0
    {
      propagatedCopies := 0;
    }

    method PropagateExpr(e: Expr, aliases: AliasMap) returns (r: Expr)
      modifies this
      ensures r == Rewrite(e, aliases.entries)
      ensures propagatedCopies == old(propagatedCopies) + Copies(e, aliases.entries)
      decreases e, 1
    {
      match e
      case Var(x) =>
        var replacement := aliases.ResolveAlias(x);
        if replacement != x { propagatedCopies := propagatedCopies + 1; }
        r := Var(replacement);
      case ArrayLit(elems) =>
        var values := PropagateAll(elems, aliases);
        r := ArrayLit(values);
      case Index(t, i) =>
        var target := PropagateExpr(t, aliases);
        var index := PropagateExpr(i, aliases);
        r := Index(target, index);
      case Field(t, f) =>
        var target := PropagateExpr(t, aliases);
        r := Field(target, f);
      case Unary(op, a) =>
        var inner := PropagateExpr(a, aliases);
        r := Unary(op, inner);
      case Binary(l, op, rt) =>
        var left := PropagateExpr(l, aliases);
        var right := PropagateExpr(rt, aliases);
        r := Binary(left, op, right);
      case Call(f, args) =>
        var values := PropagateAll(args, aliases);
        r := Call(f, values);
      case _ => r := e;
    }

    method PropagateAll(es: seq<Expr>, aliases: AliasMap) returns (r: seq<Expr>)
      modifies this
      ensures r == RewriteAll(es, aliases.entries)
      ensures propagatedCopies == old(propagatedCopies) + CopiesAll(es, aliases.entries)
      decreases es, 0
    {
      r := [];
      assert es[0..] == es;
      for k := 0 to |es|
        invariant RewriteAll(es, aliases.entries) == r + RewriteAll(es[k..], aliases.entries)
        invariant propagatedCopies + CopiesAll(es[k..], aliases.entries) == old(propagatedCopies) + CopiesAll(es, aliases.entries)
      {
        assert es[k..][1..] == es[k + 1..];
        var e := PropagateExpr(es[k], aliases);
        r := r + [e];
      }
    }

    method PropagateOption(e: Option<Expr>, aliases: AliasMap) returns (r: Option<Expr>)
      modifies this
      ensures r == RewriteOption(e, aliases.entries)
      ensures propagatedCopies == old(propagatedCopies) + CopiesOption(e, aliases.entries)
    {
      match e
      case None => r := None;
      case Some(x) =>
        var y := PropagateExpr(x, aliases);
        r := Some(y);
    }

    /** Rewrites a block under `aliases`, and leaves in `aliases` what holds after it. */
    method PropagateBlock(body: seq<Stmt>, aliases: AliasMap) returns (r: seq<Stmt>)
      modifies this, aliases
      ensures r == RewriteBlock(body, old(aliases.entries))
      ensures aliases.entries == AfterBlock(body, old(aliases.entries))
      ensures propagatedCopies == old(propagatedCopies) + CopiesBlock(body, old(aliases.entries))
      decreases body, 0
    {
      r := [];
      ghost var start := aliases.entries;
      assert body[0..] == body;
      for k := 0 to |body|
        invariant RewriteBlock(body, start) == r + RewriteBlock(body[k..], aliases.entries)
        invariant AfterBlock(body, start) == AfterBlock(body[k..], aliases.entries)
        invariant propagatedCopies + CopiesBlock(body[k..], aliases.entries) == old(propagatedCopies) + CopiesBlock(body, start)
      {
        assert body[k..][1..] == body[k + 1..];
        var s := PropagateStatement(body[k], aliases);
        r := r + [s];
      }
    }

    /** A nested block starts with no aliases, and the map it ends with is dropped. */
    method PropagateNested(body: seq<Stmt>) returns (r: seq<Stmt>)
      modifies this
      ensures r == RewriteBlock(body, map[])
      ensures propagatedCopies == old(propagatedCopies) + CopiesBlock(body, map[])
      decreases body, 1
    {
      var inner := new AliasMap();
      r := PropagateBlock(body, inner);
    }

    method PropagateStatement(s: Stmt, aliases: AliasMap) returns (r: Stmt)
      modifies this, aliases
      ensures r == RewriteStmt(s, old(aliases.entries))
      ensures aliases.entries == AfterStmt(s, old(aliases.entries))
      ensures propagatedCopies == old(propagatedCopies) + CopiesStmt(s, old(aliases.entries))
      decreases s, 1
    {
      hide Rewrite, Copies, RewriteBlock, CopiesBlock, Barrier, Resolve, Invalidate;
      match s
      case Let(x, e) => r := PropagateLet(x, e, aliases);
      case Assign(x, op, e) =>
        var value := PropagateExpr(e, aliases);
        if Barrier(value) { aliases.Clear(); }
        aliases.InvalidateAlias(x);
        r := Assign(x, op, value);
      case Return(e) =>
        var value := PropagateOption(e, aliases);
        if value.Some? && Barrier(value.value) { aliases.Clear(); }
        r := Return(value);
      case Break => r := Break;
      case Continue => r := Continue;
      case ExprStmt(e) =>
        var value := PropagateExpr(e, aliases);
        if Barrier(value) { aliases.Clear(); }
        r := ExprStmt(value);
      case If(branches, orelse) =>
        var branches' := PropagateBranches(branches, aliases);
        var orelse' := PropagateNested(orelse);
        aliases.Clear();
        r := If(branches', orelse');
      case While(cond, body) =>
        var cond' := PropagateExpr(cond, aliases);
        var body' := PropagateNested(body);
        aliases.Clear();
        r := While(cond', body');
      case For(x, start, end, step, body) =>
        var start' := PropagateExpr(start, aliases);
        var end' := PropagateExpr(end, aliases);
        var step' := PropagateOption(step, aliases);
        var body' := PropagateNested(body);
        aliases.Clear();
        r := For(x, start', end', step', body');
      case Loop(body) =>
        var body' := PropagateNested(body);
        aliases.Clear();
        r := Loop(body');
      case Region(body) =>
        var body' := PropagateNested(body);
        aliases.Clear();
        r := Region(body');
      case Throw(e) =>
        var value := PropagateExpr(e, aliases);
        aliases.Clear();
        r := Throw(value);
      case Try(body, x, handler) =>
        var body' := PropagateNested(body);
        var handler' := PropagateNested(handler);
        aliases.Clear();
        r := Try(body', x, handler');
    }

    method PropagateLet(x: string, e: Expr, aliases: AliasMap) returns (r: Stmt)
      modifies this, aliases
      ensures r == RewriteStmt(Let(x, e), old(aliases.entries))
      ensures aliases.entries == AfterStmt(Let(x, e), old(aliases.entries))
      ensures propagatedCopies == old(propagatedCopies) + Copies(e, old(aliases.entries))
    {
      var value := PropagateExpr(e, aliases);
      if Barrier(value) { aliases.Clear(); }
      aliases.InvalidateAlias(x);
      if value.Var? {
        var source := aliases.ResolveAlias(value.name);
        if source != x { aliases.Insert(x, source); }
      }
      r := Let(x, value);
    }

    method PropagateBranches(branches: seq<Branch>, aliases: AliasMap) returns (r: seq<Branch>)
      modifies this
      ensures r == RewriteBranches(branches, aliases.entries)
      ensures propagatedCopies == old(propagatedCopies) + CopiesBranches(branches, aliases.entries)
      decreases branches, 0
    {
      r := [];
      assert branches[0..] == branches;
      for k := 0 to |branches|
        invariant RewriteBranches(branches, aliases.entries) == r + RewriteBranches(branches[k..], aliases.entries)
        invariant propagatedCopies + CopiesBranches(branches[k..], aliases.entries)
                  == old(propagatedCopies) + CopiesBranches(branches, aliases.entries)
      {
        assert branches[k..][1..] == branches[k + 1..];
        var cond := PropagateExpr(branches[k].cond, aliases);
        var body := PropagateNested(branches[k].body);
        r := r + [Branch(cond, body)];
      }
    }

    method PropagateFunction(f: Function) returns (r: Function)
      modifies this
      ensures r == RewriteFunction(f)
      ensures propagatedCopies == old(propagatedCopies) + CopiesBlock(f.body, map[])
    {
      var body := PropagateNested(f.body);
      r := Function(f.name, f.params, body);
    }
  }
}

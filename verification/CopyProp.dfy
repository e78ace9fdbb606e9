/** Copy propagation: what the pass rewrites, and the alias map it threads through a block. */
module CopyProp {
  import opened Ir

  type Aliases = map<string, string>

  // ---- The alias map ----

  /** Follow aliases from `current`; `seen` guards against going round in a circle. */
  function Chase(current: string, aliases: Aliases, seen: set<string>): string
    decreases aliases.Keys - seen
  {
    if current in aliases && current !in seen then Chase(aliases[current], aliases, seen + {current}) else current
  }

  function Resolve(name: string, aliases: Aliases): string { Chase(name, aliases, {}) }

  /** Drop `name` as an alias, and every alias that stands for `name`. */
  function Invalidate(name: string, aliases: Aliases): Aliases {
    map y | y in aliases && y != name && Resolve(y, aliases) != name :: aliases[y]
  }

  /** Calls and index expressions. */
  predicate Barrier(e: Expr)
    decreases e, 1
  {
    match e
    case Call(_, _) => true
    case Index(_, _) => true
    case ArrayLit(elems) => AnyBarrier(elems)
    case Field(t, _) => Barrier(t)
    case Unary(_, a) => Barrier(a)
    case Binary(l, _, r) => Barrier(l) || Barrier(r)
    case _ => false
  }

  predicate AnyBarrier(es: seq<Expr>)
    decreases es, 0
  {
    es != [] && (Barrier(es[0]) || AnyBarrier(es[1..]))
  }

  function PastBarrier(e: Expr, aliases: Aliases): Aliases { if Barrier(e) then map[] else aliases }

  // ---- Rewriting ----

  /** Variables become what they stand for; call names are left alone. */
  function Rewrite(e: Expr, aliases: Aliases): Expr
    decreases e, 1
  {
    match e
    case Var(x) => Var(Resolve(x, aliases))
    case ArrayLit(elems) => ArrayLit(RewriteAll(elems, aliases))
    case Index(t, i) => Index(Rewrite(t, aliases), Rewrite(i, aliases))
    case Field(t, f) => Field(Rewrite(t, aliases), f)
    case Unary(op, a) => Unary(op, Rewrite(a, aliases))
    case Binary(l, op, r) => Binary(Rewrite(l, aliases), op, Rewrite(r, aliases))
    case Call(f, args) => Call(f, RewriteAll(args, aliases))
    case _ => e
  }

  function RewriteAll(es: seq<Expr>, aliases: Aliases): (r: seq<Expr>)
    ensures |r| == |es|
    decreases es, 0
  {
    if es == [] then [] else [Rewrite(es[0], aliases)] + RewriteAll(es[1..], aliases)
  }

  function RewriteOption(e: Option<Expr>, aliases: Aliases): Option<Expr> {
    match e
    case Some(x) => Some(Rewrite(x, aliases))
    case None => None
  }

  function RewriteStmt(s: Stmt, aliases: Aliases): Stmt
    decreases s, 1
  {
    match s
    case Let(x, e) => Let(x, Rewrite(e, aliases))
    case Assign(x, op, e) => Assign(x, op, Rewrite(e, aliases))
    case Return(e) => Return(RewriteOption(e, aliases))
    case Break => Break
    case Continue => Continue
    case ExprStmt(e) => ExprStmt(Rewrite(e, aliases))
    case If(branches, orelse) => If(RewriteBranches(branches, aliases), RewriteBlock(orelse, map[]))
    case While(cond, body) => While(Rewrite(cond, aliases), RewriteBlock(body, map[]))
    case For(x, start, end, step, body) =>
      For(x, Rewrite(start, aliases), Rewrite(end, aliases), RewriteOption(step, aliases), RewriteBlock(body, map[]))
    case Loop(body) => Loop(RewriteBlock(body, map[]))
    case Region(body) => Region(RewriteBlock(body, map[]))
    case Throw(e) => Throw(Rewrite(e, aliases))
    case Try(body, x, handler) => Try(RewriteBlock(body, map[]), x, RewriteBlock(handler, map[]))
  }

  function RewriteBranches(branches: seq<Branch>, aliases: Aliases): (r: seq<Branch>)
    ensures |r| == |branches|
    decreases branches, 0
  {
    if branches == [] then []
    else
      [Branch(Rewrite(branches[0].cond, aliases), RewriteBlock(branches[0].body, map[]))] + RewriteBranches(branches[1..], aliases)
  }

  function RewriteBlock(body: seq<Stmt>, aliases: Aliases): (r: seq<Stmt>)
    ensures |r| == |body|
    decreases body, 0
  {
    if body == [] then []
    else [RewriteStmt(body[0], aliases)] + RewriteBlock(body[1..], AfterStmt(body[0], aliases))
  }

  /** The aliases that hold after a statement. */
  function AfterStmt(s: Stmt, aliases: Aliases): Aliases {
    match s
    case Let(x, e) =>
      var value := Rewrite(e, aliases);
      var kept := Invalidate(x, PastBarrier(value, aliases));
      if value.Var? then
        var source := Resolve(value.name, kept);
        if source != x then kept[x := source] else kept
      else kept
    case Assign(x, _, e) => Invalidate(x, PastBarrier(Rewrite(e, aliases), aliases))
    case Return(Some(e)) => PastBarrier(Rewrite(e, aliases), aliases)
    case Return(None) => aliases
    case Break => aliases
    case Continue => aliases
    case ExprStmt(e) => PastBarrier(Rewrite(e, aliases), aliases)
    case _ => map[]
  }

  function AfterBlock(body: seq<Stmt>, aliases: Aliases): Aliases {
    if body == [] then aliases else AfterBlock(body[1..], AfterStmt(body[0], aliases))
  }

  function RewriteFunction(f: Function): Function { Function(f.name, f.params, RewriteBlock(f.body, map[])) }

  // ---- Counting ----

  /** How many variable occurrences the pass replaces. */
  function Copies(e: Expr, aliases: Aliases): nat
    decreases e, 1
  {
    match e
    case Var(x) => if Resolve(x, aliases) != x then 1 else 0
    case ArrayLit(elems) => CopiesAll(elems, aliases)
    case Index(t, i) => Copies(t, aliases) + Copies(i, aliases)
    case Field(t, _) => Copies(t, aliases)
    case Unary(_, a) => Copies(a, aliases)
    case Binary(l, _, r) => Copies(l, aliases) + Copies(r, aliases)
    case Call(_, args) => CopiesAll(args, aliases)
    case _ => 0
  }

  function CopiesAll(es: seq<Expr>, aliases: Aliases): nat
    decreases es, 0
  {
    if es == [] then 0 else Copies(es[0], aliases) + CopiesAll(es[1..], aliases)
  }

  function CopiesOption(e: Option<Expr>, aliases: Aliases): nat {
    match e
    case Some(x) => Copies(x, aliases)
    case None => 0
  }

  function CopiesStmt(s: Stmt, aliases: Aliases): nat
    decreases s, 1
  {
    match s
    case Let(_, e) => Copies(e, aliases)
    case Assign(_, _, e) => Copies(e, aliases)
    case Return(e) => CopiesOption(e, aliases)
    case Break => 0
    case Continue => 0
    case ExprStmt(e) => Copies(e, aliases)
    case If(branches, orelse) => CopiesBranches(branches, aliases) + CopiesBlock(orelse, map[])
    case While(cond, body) => Copies(cond, aliases) + CopiesBlock(body, map[])
    case For(_, start, end, step, body) =>
      Copies(start, aliases) + Copies(end, aliases) + CopiesOption(step, aliases) + CopiesBlock(body, map[])
    case Loop(body) => CopiesBlock(body, map[])
    case Region(body) => CopiesBlock(body, map[])
    case Throw(e) => Copies(e, aliases)
    case Try(body, _, handler) => CopiesBlock(body, map[]) + CopiesBlock(handler, map[])
  }

  function CopiesBranches(branches: seq<Branch>, aliases: Aliases): nat
    decreases branches, 0
  {
    if branches == [] then 0
    else Copies(branches[0].cond, aliases) + CopiesBlock(branches[0].body, map[]) + CopiesBranches(branches[1..], aliases)
  }

  function CopiesBlock(body: seq<Stmt>, aliases: Aliases): nat
    decreases body, 0
  {
    if body == [] then 0 else CopiesStmt(body[0], aliases) + CopiesBlock(body[1..], AfterStmt(body[0], aliases))
  }
}

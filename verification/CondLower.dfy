/** Lowering of inline conditionals: each becomes a temporary assigned by an `if` that is
    hoisted, through a buffer of pending statements, to the front of its statement. */
module CondLower {
  import opened Ir

  // ---- Temporaries ----

  function Digit(n: nat): char
    requires n < 10
  {
    ['0', '1', '2', '3', '4', '5', '6', '7', '8', '9'][n]
  }

  function Decimal(n: nat): string {
    if n < 10 then [Digit(n)] else Decimal(n / 10) + [Digit(n % 10)]
  }

  /** `#` cannot start an identifier of the surface language. */
  function Temp(n: nat): string { "#cond_" + Decimal(n) }

  predicate UserName(x: string) { x == "" || x[0] != '#' }

  // ---- Expressions ----

  /** `pre` is what lowering hoists, `next` the first unused number of a temporary. */
  datatype Lowering = Lowering(pre: seq<Stmt>, e: Expr, next: nat)

  datatype Lowerings = Lowerings(pre: seq<Stmt>, es: seq<Expr>, next: nat)

  /** The type-correct zero that initialises a temporary, chosen from the lowered branch. */
  type Zeros = Expr -> Expr

  function Lower(zero: Zeros, e: Expr, n: nat): Lowering
    decreases e, 1
  {
    match e
    case ArrayLit(elems) => var r := LowerAll(zero, elems, n); Lowering(r.pre, ArrayLit(r.es), r.next)
    case Index(t, i) =>
      var a := Lower(zero, t, n);
      var b := Lower(zero, i, a.next);
      Lowering(a.pre + b.pre, Index(a.e, b.e), b.next)
    case Field(t, f) => var a := Lower(zero, t, n); Lowering(a.pre, Field(a.e, f), a.next)
    case Unary(op, x) => var a := Lower(zero, x, n); Lowering(a.pre, Unary(op, a.e), a.next)
    case Binary(l, op, r) =>
      var a := Lower(zero, l, n);
      var b := Lower(zero, r, a.next);
      Lowering(a.pre + b.pre, Binary(a.e, op, b.e), b.next)
    case Call(f, args) => var r := LowerAll(zero, args, n); Lowering(r.pre, Call(f, r.es), r.next)
    case Cond(thn, cond, els) =>
      var k := Lower(zero, cond, n);
      var t := Lower(zero, thn, k.next);
      var f := Lower(zero, els, t.next);
      Lowering(k.pre + Choose(zero, k.e, t, f), Var(Temp(f.next)), f.next + 1)
    case _ => Lowering([], e, n)
  }

  /** `let temp = zero; if cond { <then's own prelude>; temp = then } else { ... }`. */
  function Choose(zero: Zeros, cond: Expr, t: Lowering, f: Lowering): seq<Stmt> {
    var temp := Temp(f.next);
    [Let(temp, zero(t.e)),
     If([Branch(cond, t.pre + [Assign(temp, Replace, t.e)])], f.pre + [Assign(temp, Replace, f.e)])]
  }

  function LowerAll(zero: Zeros, es: seq<Expr>, n: nat): (r: Lowerings)
    ensures |r.es| == |es|
    decreases es, 0
  {
    if es == [] then Lowerings([], [], n)
    else
      var a := Lower(zero, es[0], n);
      var b := LowerAll(zero, es[1..], a.next);
      Lowerings(a.pre + b.pre, [a.e] + b.es, b.next)
  }

  // ---- Statements ----

  /** A lowered statement, with what is pending in the buffer. */
  datatype LoweredStmt = LoweredStmt(s: Stmt, pending: seq<Stmt>, next: nat)

  datatype LoweredBlock = LoweredBlock(body: seq<Stmt>, pending: seq<Stmt>, next: nat)

  datatype LoweredBranches = LoweredBranches(branches: seq<Branch>, pending: seq<Stmt>, next: nat)

  function LowerStmt(zero: Zeros, s: Stmt, pending: seq<Stmt>, n: nat): LoweredStmt
    decreases s, 1
  {
    match s
    case Let(x, e) => var a := Lower(zero, e, n); LoweredStmt(Let(x, a.e), pending + a.pre, a.next)
    case Assign(x, op, e) => var a := Lower(zero, e, n); LoweredStmt(Assign(x, op, a.e), pending + a.pre, a.next)
    case Return(Some(e)) => var a := Lower(zero, e, n); LoweredStmt(Return(Some(a.e)), pending + a.pre, a.next)
    case ExprStmt(e) => var a := Lower(zero, e, n); LoweredStmt(ExprStmt(a.e), pending + a.pre, a.next)
    case Throw(e) => var a := Lower(zero, e, n); LoweredStmt(Throw(a.e), pending + a.pre, a.next)
    case If(branches, orelse) =>
      var bs := LowerBranches(zero, branches, pending, n);
      var b := LowerBlock(zero, orelse, bs.pending, bs.next);
      LoweredStmt(If(bs.branches, b.body), b.pending, b.next)
    case While(cond, body) =>
      var a := Lower(zero, cond, n);
      var b := LowerBlock(zero, body, pending + a.pre, a.next);
      LoweredStmt(While(a.e, b.body), b.pending, b.next)
    case For(x, start, end, step, body) =>
      var a := Lower(zero, start, n);
      var z := Lower(zero, end, a.next);
      var (pre, step', n') := LowerStep(zero, step, z.next);
      var b := LowerBlock(zero, body, pending + a.pre + z.pre + pre, n');
      LoweredStmt(For(x, a.e, z.e, step', b.body), b.pending, b.next)
    case Loop(body) => var b := LowerBlock(zero, body, pending, n); LoweredStmt(Loop(b.body), b.pending, b.next)
    case Region(body) => var b := LowerBlock(zero, body, pending, n); LoweredStmt(Region(b.body), b.pending, b.next)
    case Try(body, x, handler) =>
      var b := LowerBlock(zero, body, pending, n);
      var h := LowerBlock(zero, handler, b.pending, b.next);
      LoweredStmt(Try(b.body, x, h.body), h.pending, h.next)
    case _ => LoweredStmt(s, pending, n)
  }

  function LowerStep(zero: Zeros, step: Option<Expr>, n: nat): (seq<Stmt>, Option<Expr>, nat) {
    match step
    case None => ([], None, n)
    case Some(e) => var a := Lower(zero, e, n); (a.pre, Some(a.e), a.next)
  }

  function LowerBranches(zero: Zeros, branches: seq<Branch>, pending: seq<Stmt>, n: nat): (r: LoweredBranches)
    ensures |r.branches| == |branches|
    decreases branches, 0
  {
    if branches == [] then LoweredBranches([], pending, n)
    else
      var a := Lower(zero, branches[0].cond, n);
      var b := LowerBlock(zero, branches[0].body, pending + a.pre, a.next);
      var rest := LowerBranches(zero, branches[1..], b.pending, b.next);
      LoweredBranches([Branch(a.e, b.body)] + rest.branches, rest.pending, rest.next)
  }

  /** Each statement is preceded by everything pending when it has been lowered. */
  function LowerBlock(zero: Zeros, body: seq<Stmt>, pending: seq<Stmt>, n: nat): LoweredBlock
    decreases body, 0
  {
    if body == [] then LoweredBlock([], pending, n)
    else
      var a := LowerStmt(zero, body[0], pending, n);
      var b := LowerBlock(zero, body[1..], [], a.next);
      LoweredBlock(a.pending + [a.s] + b.body, b.pending, b.next)
  }
}

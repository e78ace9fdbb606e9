/** The lowerer as it runs: a shared buffer of hoisted statements and a counter. */
module CondLowerer {
  import opened Ir
  import opened CondLower

  lemma LowerAllJoined(zero: Zeros, es: seq<Expr>, n: nat, r: seq<Expr>, pre: seq<Stmt>)
    requires es != []
    ensures var a, all := Lower(zero, es[0], n), LowerAll(zero, es, n);
            var rest := LowerAll(zero, es[1..], a.next);
            r + all.es == r + [a.e] + rest.es && pre + all.pre == pre + a.pre + rest.pre && all.next == rest.next
  {
    hide Lower;
  }

  class Lowerer {
    var tryPrelude: seq<Stmt>
    var nextCondTemp: nat
    const zero: Zeros

    constructor (zero: Zeros)
      ensures tryPrelude == [] && nextCondTemp == 0 && this.zero == zero
    {
      tryPrelude, nextCondTemp, this.zero := [], 0, zero;
    }

    /** Lowers `e`, appending what it hoists to the buffer. */
    method LowerExpr(e: Expr) returns (r: Expr)
      modifies this
      ensures var spec := Lower(zero, e, old(nextCondTemp));
              r == spec.e && tryPrelude == old(tryPrelude) + spec.pre && nextCondTemp == spec.next
      decreases e, 1
    {
      match e
      case ArrayLit(elems) =>
        var values := LowerExprs(elems);
        r := ArrayLit(values);
      case Index(t, i) =>
        var target := LowerExpr(t);
        var index := LowerExpr(i);
        r := Index(target, index);
      case Field(t, f) =>
        var target := LowerExpr(t);
        r := Field(target, f);
      case Unary(op, x) =>
        var inner := LowerExpr(x);
        r := Unary(op, inner);
      case Binary(l, op, rt) =>
        var left := LowerExpr(l);
        var right := LowerExpr(rt);
        r := Binary(left, op, right);
      case Call(f, args) =>
        var values := LowerExprs(args);
        r := Call(f, values);
      case Cond(_, _, _) => r := DesugarConditional(e);
      case _ => r := e;
    }

    method LowerExprs(es: seq<Expr>) returns (r: seq<Expr>)
      modifies this
      ensures var spec := LowerAll(zero, es, old(nextCondTemp));
              r == spec.es && tryPrelude == old(tryPrelude) + spec.pre && nextCondTemp == spec.next
      decreases es, 0
    {
      hide Lower;
      r := [];
      ghost var pre := [];
      assert es[0..] == es;
      for k := 0 to |es|
        invariant tryPrelude == old(tryPrelude) + pre
        invariant var all, rest := LowerAll(zero, es, old(nextCondTemp)), LowerAll(zero, es[k..], nextCondTemp);
                  all.es == r + rest.es && all.pre == pre + rest.pre && all.next == rest.next
      {
        ghost var n := nextCondTemp;
        assert es[k..][1..] == es[k + 1..];
        LowerAllJoined(zero, es[k..], n, r, pre);
        var e := LowerExpr(es[k]);
        hide LowerAll;
        r, pre := r + [e], pre + Lower(zero, es[k], n).pre;
      }
    }

    /** Lowers `e` and takes back out of the buffer exactly what that put in. */
    method LowerCaptured(e: Expr) returns (prelude: seq<Stmt>, r: Expr)
      modifies this
      ensures var spec := Lower(zero, e, old(nextCondTemp));
              r == spec.e && prelude == spec.pre && tryPrelude == old(tryPrelude) && nextCondTemp == spec.next
      decreases e, 2
    {
      var saved := |tryPrelude|;
      r := LowerExpr(e);
      prelude := tryPrelude[saved..];
      tryPrelude := tryPrelude[..saved];
    }

    /** The condition's prelude stays in the buffer; each branch's goes into its branch. */
    method DesugarConditional(e: Expr) returns (r: Expr)
      requires e.Cond?
      modifies this
      ensures var spec := Lower(zero, e, old(nextCondTemp));
              r == spec.e && tryPrelude == old(tryPrelude) + spec.pre && nextCondTemp == spec.next
      decreases e, 0
    {
      var cond := LowerExpr(e.cond);
      var thenPrelude, thn := LowerCaptured(e.thn);
      var elsePrelude, els := LowerCaptured(e.els);
      var temp := Temp(nextCondTemp);
      nextCondTemp := nextCondTemp + 1;
      tryPrelude := tryPrelude + [Let(temp, zero(thn))];
      var thenBody := thenPrelude + [Assign(temp, Replace, thn)];
      var elseBody := elsePrelude + [Assign(temp, Replace, els)];
      tryPrelude := tryPrelude + [If([Branch(cond, thenBody)], elseBody)];
      r := Var(temp);
    }

    method LowerStep(step: Option<Expr>) returns (r: Option<Expr>)
      modifies this
      ensures var (pre, step', n) := CondLower.LowerStep(zero, step, old(nextCondTemp));
              r == step' && tryPrelude == old(tryPrelude) + pre && nextCondTemp == n
    {
      match step
      case None => r := None;
      case Some(e) =>
        var e' := LowerExpr(e);
        r := Some(e');
    }

    method LowerStatement(s: Stmt) returns (r: Stmt)
      modifies this
      ensures var spec := LowerStmt(zero, s, old(tryPrelude), old(nextCondTemp));
              r == spec.s && tryPrelude == spec.pending && nextCondTemp == spec.next
      decreases s, 1
    {
      hide Lower, CondLower.LowerBlock, CondLower.LowerBranches, CondLower.LowerStep;
      match s
      case Let(x, e) => var value := LowerExpr(e); r := Let(x, value);
      case Assign(x, op, e) => var value := LowerExpr(e); r := Assign(x, op, value);
      case Return(Some(e)) => var value := LowerExpr(e); r := Return(Some(value));
      case Return(None) => r := s;
      case Break => r := s;
      case Continue => r := s;
      case ExprStmt(e) => var value := LowerExpr(e); r := ExprStmt(value);
      case Throw(e) => var value := LowerExpr(e); r := Throw(value);
      case If(branches, orelse) =>
        var branches' := LowerBranches(branches);
        var orelse' := LowerBlock(orelse);
        r := If(branches', orelse');
      case While(cond, body) =>
        var cond' := LowerExpr(cond);
        var body' := LowerBlock(body);
        r := While(cond', body');
      case For(x, start, end, step, body) =>
        var start' := LowerExpr(start);
        var end' := LowerExpr(end);
        var step' := LowerStep(step);
        var body' := LowerBlock(body);
        r := For(x, start', end', step', body');
      case Loop(body) => var body' := LowerBlock(body); r := Loop(body');
      case Region(body) => var body' := LowerBlock(body); r := Region(body');
      case Try(body, x, handler) =>
        var body' := LowerBlock(body);
        var handler' := LowerBlock(handler);
        r := Try(body', x, handler');
    }

    method LowerBranches(branches: seq<Branch>) returns (r: seq<Branch>)
      modifies this
      ensures var spec := CondLower.LowerBranches(zero, branches, old(tryPrelude), old(nextCondTemp));
              r == spec.branches && tryPrelude == spec.pending && nextCondTemp == spec.next
      decreases branches, 0
    {
      r := [];
      assert branches[0..] == branches;
      for k := 0 to |branches|
        invariant var all := CondLower.LowerBranches(zero, branches, old(tryPrelude), old(nextCondTemp));
                  var rest := CondLower.LowerBranches(zero, branches[k..], tryPrelude, nextCondTemp);
                  all.branches == r + rest.branches && all.pending == rest.pending && all.next == rest.next
      {
        assert branches[k..][1..] == branches[k + 1..];
        var cond := LowerExpr(branches[k].cond);
        var body := LowerBlock(branches[k].body);
        r := r + [Branch(cond, body)];
      }
    }

    /** Empty the buffer into `out`. */
    method DrainInto(out: seq<Stmt>) returns (r: seq<Stmt>)
      modifies `tryPrelude
      ensures r == out + old(tryPrelude) && tryPrelude == []
    {
      r := out + tryPrelude;
      tryPrelude := [];
    }

    method LowerBlock(body: seq<Stmt>) returns (r: seq<Stmt>)
      modifies this
      ensures var spec := CondLower.LowerBlock(zero, body, old(tryPrelude), old(nextCondTemp));
              r == spec.body && tryPrelude == spec.pending && nextCondTemp == spec.next
      decreases body, 0
    {
      hide LowerStmt;
      r := [];
      assert body[0..] == body;
      for k := 0 to |body|
        invariant var all := CondLower.LowerBlock(zero, body, old(tryPrelude), old(nextCondTemp));
                  var rest := CondLower.LowerBlock(zero, body[k..], tryPrelude, nextCondTemp);
                  all.body == r + rest.body && all.pending == rest.pending && all.next == rest.next
      {
        assert body[k..][1..] == body[k + 1..];
        var s := LowerStatement(body[k]);
        r := DrainInto(r);
        r := r + [s];
      }
    }
  }
}

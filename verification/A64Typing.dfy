/** The scalar programs the generator is given: typed, with names already made unique. */
module A64Typing {
  import opened Ir
  import opened A64Gen

  datatype Ty = TInt | TBool

  datatype Sig = Sig(params: seq<Ty>, result: Ty)

  type Types = Scopes<Ty>

  predicate HasType(v: Value, t: Ty) {
    match t
    case TInt => v.I64?
    case TBool => v.Bool?
  }

  predicate AllTyped(vs: seq<Value>, ts: seq<Ty>) {
    |vs| == |ts| && forall i :: 0 <= i < |vs| ==> HasType(vs[i], ts[i])
  }

  predicate Ordered(op: BinaryOp) { op.Less? || op.LessEqual? || op.Greater? || op.GreaterEqual? }

  function BinaryType(l: Ty, op: BinaryOp, r: Ty): Option<Ty> {
    if op == And || op == Or then if l == TBool && r == TBool then Some(TBool) else None
    else if op == Equal || op == NotEqual then if l == r then Some(TBool) else None
    else if l != TInt || r != TInt then None
    else if Ordered(op) then Some(TBool)
    else Some(TInt)
  }

  function TypeOf(sigs: map<string, Sig>, ts: Types, e: Expr): Option<Ty>
    decreases e, 1
  {
    match e
    case Int(_) => Some(TInt)
    case BoolLit(_) => Some(TBool)
    case Var(x) => Lookup(ts, x)
    case Unary(op, a) =>
      var t :- TypeOf(sigs, ts, a);
      if op == Not then if t == TBool then Some(TBool) else None else if t == TInt then Some(TInt) else None
    case Binary(l, op, r) =>
      var t :- TypeOf(sigs, ts, l);
      var u :- TypeOf(sigs, ts, r);
      BinaryType(t, op, u)
    case Call(f, args) =>
      var us :- TypesOf(sigs, ts, args);
      if Inlined(f, |args|) then if us == seq(|args|, _ => TInt) then Some(TInt) else None
      else if f in sigs && sigs[f].params == us then Some(sigs[f].result)
      else None
    case _ => None
  }

  function TypesOf(sigs: map<string, Sig>, ts: Types, es: seq<Expr>): (r: Option<seq<Ty>>)
    ensures r.Some? ==> |r.value| == |es|
    decreases es, 0
  {
    if es == [] then Some([])
    else
      var t :- TypeOf(sigs, ts, es[0]);
      var us :- TypesOf(sigs, ts, es[1..]);
      Some([t] + us)
  }

  /** No scope hides a name of another. */
  ghost predicate Distinct(ts: Types) {
    forall j, k, x :: 0 <= j < k < |ts| && x in ts[j] ==> x !in ts[k]
  }

  predicate Bound(ts: Types, x: string) { Nearest(ts, x).Some? }

  /** The names a statement's code writes, hidden loop slots included. */
  function Writes(s: Stmt): set<string>
    decreases s, 1
  {
    match s
    case Let(x, _) => {x}
    case Assign(x, _, _) => {x}
    case If(_, orelse) => WritesIf(s, 0)
    case While(_, body) => WritesBlock(body)
    case For(x, _, _, _, body) => {x, EndName(x), StepName(x)} + WritesBlock(body)
    case Loop(body) => WritesBlock(body)
    case Region(body) => WritesBlock(body)
    case _ => {}
  }

  function WritesIf(s: Stmt, i: nat): set<string>
    requires s.If? && i <= |s.branches|
    decreases s, 0, |s.branches| - i
  {
    if i == |s.branches| then WritesBlock(s.orelse) else WritesBlock(s.branches[i].body) + WritesIf(s, i + 1)
  }

  function WritesBlock(body: seq<Stmt>): set<string>
    decreases body, 0
  {
    if body == [] then {} else Writes(body[0]) + WritesBlock(body[1..])
  }

  /** The scopes after a statement that falls through. */
  function After(sigs: map<string, Sig>, ts: Types, s: Stmt): (us: Types)
    requires ts != []
    ensures |us| == |ts|
  {
    if s.Let? && TypeOf(sigs, ts, s.value).Some? then Define(ts, s.name, TypeOf(sigs, ts, s.value).value) else ts
  }

  /** Well-typed statements whose declarations hide nothing; a range loop owns its counter and
      its two hidden names. */
  predicate StmtTyped(sigs: map<string, Sig>, ret: Ty, ts: Types, s: Stmt)
    requires ts != []
    decreases s, 1
  {
    match s
    case Let(x, e) => TypeOf(sigs, ts, e).Some? && !Bound(ts[..|ts| - 1], x)
    case Assign(x, op, e) =>
      Bound(ts, x) && TypeOf(sigs, ts, e) == Lookup(ts, x) && (op != Replace ==> Lookup(ts, x) == Some(TInt))
    case Return(Some(e)) => TypeOf(sigs, ts, e) == Some(ret)
    case ExprStmt(e) => TypeOf(sigs, ts, e).Some?
    case Break => true
    case Continue => true
    case If(_, orelse) => IfTyped(sigs, ret, ts, s, 0)
    case While(cond, body) => TypeOf(sigs, ts, cond) == Some(TBool) && BlockTyped(sigs, ret, ts + [map[]], body)
    case For(x, start, end, step, body) =>
      && TypeOf(sigs, ts, start) == Some(TInt) && TypeOf(sigs, ts, end) == Some(TInt)
      && TypeOf(sigs, ts, StepExpr(step)) == Some(TInt)
      && !Bound(ts, x) && !Bound(ts, EndName(x)) && !Bound(ts, StepName(x))
      && x !in WritesBlock(body) && EndName(x) !in WritesBlock(body) && StepName(x) !in WritesBlock(body)
      && BlockTyped(sigs, ret, ts + [map[x := TInt]] + [map[]], body)
    case Loop(body) => BlockTyped(sigs, ret, ts + [map[]], body)
    case Region(body) => BlockTyped(sigs, ret, ts + [map[]], body)
    case _ => false
  }

  predicate IfTyped(sigs: map<string, Sig>, ret: Ty, ts: Types, s: Stmt, i: nat)
    requires s.If? && i <= |s.branches| && ts != []
    decreases s, 0, |s.branches| - i
  {
    if i == |s.branches| then BlockTyped(sigs, ret, ts + [map[]], s.orelse)
    else
      && TypeOf(sigs, ts, s.branches[i].cond) == Some(TBool)
      && BlockTyped(sigs, ret, ts + [map[]], s.branches[i].body)
      && IfTyped(sigs, ret, ts, s, i + 1)
  }

  predicate BlockTyped(sigs: map<string, Sig>, ret: Ty, ts: Types, body: seq<Stmt>)
    requires ts != []
    decreases body, 0
  {
    body != [] ==> StmtTyped(sigs, ret, ts, body[0]) && BlockTyped(sigs, ret, After(sigs, ts, body[0]), body[1..])
  }

  /** A statement that, when control falls off its end, leaves a value of the result type. */
  predicate Gives(sigs: map<string, Sig>, ret: Ty, ts: Types, s: Stmt)
    requires ts != []
    decreases s, 1
  {
    match s
    case Return(_) => true
    case ExprStmt(e) => TypeOf(sigs, ts, e) == Some(ret)
    case If(_, orelse) => IfGives(sigs, ret, ts, s, 0)
    case Region(body) => BlockGives(sigs, ret, ts + [map[]], body)
    case _ => false
  }

  predicate IfGives(sigs: map<string, Sig>, ret: Ty, ts: Types, s: Stmt, i: nat)
    requires s.If? && i <= |s.branches| && ts != []
    decreases s, 0, |s.branches| - i
  {
    if i == |s.branches| then BlockGives(sigs, ret, ts + [map[]], s.orelse)
    else BlockGives(sigs, ret, ts + [map[]], s.branches[i].body) && IfGives(sigs, ret, ts, s, i + 1)
  }

  predicate BlockGives(sigs: map<string, Sig>, ret: Ty, ts: Types, body: seq<Stmt>)
    requires ts != []
    decreases body, 0
  {
    body != [] && if |body| == 1 then Gives(sigs, ret, ts, body[0]) else BlockGives(sigs, ret, After(sigs, ts, body[0]), body[1..])
  }

  function BindTypes(params: seq<string>, ts: seq<Ty>): map<string, Ty>
    requires |params| == |ts|
  {
    if params == [] then map[]
    else BindTypes(params[..|params| - 1], ts[..|ts| - 1])[params[|params| - 1] := ts[|ts| - 1]]
  }

  predicate FunctionTyped(sigs: map<string, Sig>, f: Function) {
    && f.name in sigs && |f.params| == |sigs[f.name].params|
    && BlockTyped(sigs, sigs[f.name].result, [BindTypes(f.params, sigs[f.name].params)], f.body)
    && BlockGives(sigs, sigs[f.name].result, [BindTypes(f.params, sigs[f.name].params)], f.body)
  }
}

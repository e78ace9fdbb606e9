/** Lowering inline conditionals preserves meaning and laziness. */
module CondLowerFacts {
  import opened Ir
  import opened Eval
  import opened EvalFacts
  import opened CondLower

  // ---- Temporaries are fresh ----

  function DigitValue(d: char): nat {
    if '0' <= d <= '9' then (d as int) - ('0' as int) else 0
  }

  function ParseDecimal(s: string): nat {
    if s == "" then 0 else 10 * ParseDecimal(s[..|s| - 1]) + DigitValue(s[|s| - 1])
  }

  lemma {:induction false} ParseBack(n: nat)
    ensures ParseDecimal(Decimal(n)) == n && Decimal(n) != ""
  {
    var d := Decimal(n);
    if n < 10 {
      assert d[..0] == "";
      assert DigitValue(Digit(n)) == n;
    } else {
      ParseBack(n / 10);
      assert d[..|d| - 1] == Decimal(n / 10) && d[|d| - 1] == Digit(n % 10);
      assert DigitValue(Digit(n % 10)) == n % 10;
    }
  }

  /** Different numbers give different temporaries, and no temporary is a user's name. */
  lemma TempFresh(a: nat, b: nat)
    ensures Temp(a) == Temp(b) ==> a == b
    ensures !UserName(Temp(a))
  {
    ParseBack(a);
    ParseBack(b);
    assert Temp(a)[6..] == Decimal(a) && Temp(b)[6..] == Decimal(b);
  }

  ghost predicate Mine(y: string, n: nat, m: nat) {
    exists k: nat :: n <= k < m && y == Temp(k)
  }

  lemma MineTemp(k: nat, n: nat, m: nat)
    requires n <= k < m
    ensures Mine(Temp(k), n, m)
  {
  }

  lemma MineApart(y: string, n: nat, m: nat, n': nat, m': nat)
    requires Mine(y, n, m) && m <= n'
    ensures !Mine(y, n', m')
  {
    var k: nat :| n <= k < m && y == Temp(k);
    if Mine(y, n', m') {
      var k': nat :| n' <= k' < m' && y == Temp(k');
      TempFresh(k, k');
    }
  }

  lemma UserNotMine(y: string, n: nat, m: nat)
    requires UserName(y)
    ensures !Mine(y, n, m)
  {
    forall k: nat ensures y != Temp(k) { TempFresh(k, k); }
  }

  lemma MineGrows(y: string, n: nat, m: nat, n': nat, m': nat)
    requires Mine(y, n, m) && n' <= n && m <= m'
    ensures Mine(y, n', m')
  {
    var k: nat :| n <= k < m && y == Temp(k);
    MineTemp(k, n', m');
  }

  /** The scopes differ in the temporaries `n` to `m` of the innermost one at most. */
  ghost predicate TempsOnly(env: Env, env': Env, n: nat, m: nat) {
    && |env'| == |env| && env != []
    && (forall k :: 0 <= k < |env| - 1 ==> env'[k] == env[k])
    && (forall y :: !Mine(y, n, m) ==>
          (y in env'[|env| - 1] <==> y in env[|env| - 1]) && (y in env[|env| - 1] ==> env'[|env| - 1][y] == env[|env| - 1][y]))
  }

  lemma TempsTrans(a: Env, b: Env, c: Env, n: nat, m: nat, k: nat)
    requires n <= m <= k && TempsOnly(a, b, n, m) && TempsOnly(b, c, m, k)
    ensures TempsOnly(a, c, n, k)
  {
    forall y | !Mine(y, n, k) ensures !Mine(y, n, m) && !Mine(y, m, k) {
      if Mine(y, n, m) { MineGrows(y, n, m, n, k); }
      if Mine(y, m, k) { MineGrows(y, m, k, n, k); }
    }
  }

  lemma TempsLookup(env: Env, env': Env, n: nat, m: nat, y: string)
    requires TempsOnly(env, env', n, m) && !Mine(y, n, m)
    ensures Lookup(env', y) == Lookup(env, y)
  {
    NearestSame(env, env', y);
  }

  // ---- What lowering needs ----

  /** No name of the expression is reserved for temporaries. */
  ghost predicate UserExpr(e: Expr) { forall y :: Mentions(e, y) ==> UserName(y) }

  ghost predicate UserExprs(es: seq<Expr>) { forall y :: AnyMentions(es, y) ==> UserName(y) }

  predicate Plain(e: Expr)
    decreases e, 1
  {
    match e
    case ArrayLit(elems) => AllPlain(elems)
    case Index(t, i) => Plain(t) && Plain(i)
    case Field(t, _) => Plain(t)
    case Unary(_, a) => Plain(a)
    case Binary(l, _, r) => Plain(l) && Plain(r)
    case Call(_, args) => AllPlain(args)
    case Cond(_, _, _) => false
    case _ => true
  }

  predicate AllPlain(es: seq<Expr>)
    decreases es, 0
  {
    es == [] || (Plain(es[0]) && AllPlain(es[1..]))
  }

  /** No conditional in the right operand of `and` or `or`: what it hoists would run whether
      or not that operand is reached. */
  predicate Hoistable(e: Expr)
    decreases e, 1
  {
    match e
    case ArrayLit(elems) => AllHoistable(elems)
    case Index(t, i) => Hoistable(t) && Hoistable(i)
    case Field(t, _) => Hoistable(t)
    case Unary(_, a) => Hoistable(a)
    case Binary(l, op, r) => Hoistable(l) && (if op == And || op == Or then Plain(r) else Hoistable(r))
    case Call(_, args) => AllHoistable(args)
    case Cond(t, k, f) => Hoistable(t) && Hoistable(k) && Hoistable(f)
    case _ => true
  }

  predicate AllHoistable(es: seq<Expr>)
    decreases es, 0
  {
    es == [] || (Hoistable(es[0]) && AllHoistable(es[1..]))
  }

  /** Initialisers are literals. */
  ghost predicate Literals(zero: Zeros) {
    forall e :: zero(e).Int? || zero(e).BoolLit? || zero(e).StrLit?
  }

  // ---- Shape of what lowering produces ----

  lemma {:induction false} LowerGrows(zero: Zeros, e: Expr, n: nat)
    ensures Lower(zero, e, n).next >= n
    decreases e, 1
  {
    match e
    case ArrayLit(es) => LowerAllGrows(zero, es, n);
    case Index(t, i) => LowerGrows(zero, t, n); LowerGrows(zero, i, Lower(zero, t, n).next);
    case Field(t, _) => LowerGrows(zero, t, n);
    case Unary(_, a) => LowerGrows(zero, a, n);
    case Binary(l, _, r) => LowerGrows(zero, l, n); LowerGrows(zero, r, Lower(zero, l, n).next);
    case Call(_, args) => LowerAllGrows(zero, args, n);
    case Cond(t, k, f) =>
      LowerGrows(zero, k, n);
      LowerGrows(zero, t, Lower(zero, k, n).next);
      LowerGrows(zero, f, Lower(zero, t, Lower(zero, k, n).next).next);
    case _ =>
  }

  lemma {:induction false} LowerAllGrows(zero: Zeros, es: seq<Expr>, n: nat)
    ensures LowerAll(zero, es, n).next >= n
    decreases es, 0
  {
    if es != [] {
      LowerGrows(zero, es[0], n);
      LowerAllGrows(zero, es[1..], Lower(zero, es[0], n).next);
    }
  }

  lemma {:induction false} LowerPlain(zero: Zeros, e: Expr, n: nat)
    requires Plain(e)
    ensures Lower(zero, e, n) == Lowering([], e, n)
    decreases e, 1
  {
    match e
    case ArrayLit(es) => LowerAllPlain(zero, es, n);
    case Index(t, i) => LowerPlain(zero, t, n); LowerPlain(zero, i, n);
    case Field(t, _) => LowerPlain(zero, t, n);
    case Unary(_, a) => LowerPlain(zero, a, n);
    case Binary(l, _, r) => LowerPlain(zero, l, n); LowerPlain(zero, r, n);
    case Call(_, args) => LowerAllPlain(zero, args, n);
    case _ =>
  }

  lemma {:induction false} LowerAllPlain(zero: Zeros, es: seq<Expr>, n: nat)
    requires AllPlain(es)
    ensures LowerAll(zero, es, n) == Lowerings([], es, n)
    decreases es, 0
  {
    if es != [] {
      LowerPlain(zero, es[0], n);
      LowerAllPlain(zero, es[1..], n);
    }
  }

  /** The residual expression names what the original names, and its own temporaries. */
  lemma {:induction false} LowerMentions(zero: Zeros, e: Expr, n: nat, y: string)
    requires Mentions(Lower(zero, e, n).e, y)
    ensures Mentions(e, y) || Mine(y, n, Lower(zero, e, n).next)
    decreases e, 1
  {
    hide Mine;
    match e
    case ArrayLit(es) => LowerAllMentions(zero, es, n, y);
    case Index(t, i) => PairMentions(zero, e, t, i, n, y);
    case Field(t, _) => LowerMentions(zero, t, n, y);
    case Unary(_, a) => LowerMentions(zero, a, n, y);
    case Binary(l, _, r) => PairMentions(zero, e, l, r, n, y);
    case Call(f, args) => if f != y { LowerAllMentions(zero, args, n, y); }
    case Cond(t, k, f) =>
      var kn := Lower(zero, k, n).next;
      var tn := Lower(zero, t, kn).next;
      LowerGrows(zero, k, n); LowerGrows(zero, t, kn); LowerGrows(zero, f, tn);
      MineTemp(Lower(zero, f, tn).next, n, Lower(zero, e, n).next);
    case _ =>
  }

  lemma {:induction false} PairMentions(zero: Zeros, parent: Expr, l: Expr, r: Expr, n: nat, y: string)
    requires l < parent && r < parent
    requires Mentions(Lower(zero, l, n).e, y) || Mentions(Lower(zero, r, Lower(zero, l, n).next).e, y)
    ensures Mentions(l, y) || Mentions(r, y) || Mine(y, n, Lower(zero, r, Lower(zero, l, n).next).next)
    decreases parent, 0
  {
    hide Mine, Lower, Mentions;
    var a := Lower(zero, l, n);
    var b := Lower(zero, r, a.next);
    LowerGrows(zero, l, n);
    LowerGrows(zero, r, a.next);
    if Mentions(a.e, y) {
      LowerMentions(zero, l, n, y);
      if Mine(y, n, a.next) { MineGrows(y, n, a.next, n, b.next); }
    } else {
      LowerMentions(zero, r, a.next, y);
      if Mine(y, a.next, b.next) { MineGrows(y, a.next, b.next, n, b.next); }
    }
  }

  lemma {:induction false} LowerAllMentions(zero: Zeros, es: seq<Expr>, n: nat, y: string)
    requires AnyMentions(LowerAll(zero, es, n).es, y)
    ensures AnyMentions(es, y) || Mine(y, n, LowerAll(zero, es, n).next)
    decreases es, 0
  {
    hide Mine, Lower, Mentions;
    if es != [] {
      var a := Lower(zero, es[0], n);
      var b := LowerAll(zero, es[1..], a.next);
      LowerGrows(zero, es[0], n);
      LowerAllGrows(zero, es[1..], a.next);
      assert LowerAll(zero, es, n).es[1..] == b.es;
      if Mentions(a.e, y) {
        LowerMentions(zero, es[0], n, y);
        if Mine(y, n, a.next) { MineGrows(y, n, a.next, n, b.next); }
      } else {
        LowerAllMentions(zero, es[1..], a.next, y);
        if Mine(y, a.next, b.next) { MineGrows(y, a.next, b.next, n, b.next); }
      }
    }
  }

  // ---- Running what is hoisted ----

  /** A block in two parts. */
  lemma {:induction false} BlockAppend(c: Cfg, a: seq<Stmt>, b: seq<Stmt>, env: Env, fuel: nat)
    requires env != []
    ensures var ra := EvalBlock(c, a, env, fuel);
            EvalBlock(c, a + b, env, fuel) ==
            if b != [] && ra.out.Ok? && ra.out.value.Normal? then EvalBlock(c, b, ra.env, fuel) else ra
    decreases a
  {
    hide EvalStmt;
    if a == [] {
      assert a + b == b;
    } else {
      var r := EvalStmt(c, a[0], env, fuel);
      assert (a + b)[0] == a[0] && (a + b)[1..] == a[1..] + b;
      if r.out.Ok? && r.out.value.Normal? {
        BlockAppend(c, a[1..], b, r.env, fuel);
        if |a| == 1 { assert a[1..] == [] && [] + b == b; }
      }
    }
  }

  // ---- How the lowered run may end ----

  /** How a run that yields nothing stops. */
  datatype Stop = Raised(error: Error) | Unfinished

  function StopOf<T>(r: Res<T>): Stop
    requires r.IsFailure()
  {
    if r.Err? then Raised(r.error) else Unfinished
  }

  predicate Stops<T>(r: Res<T>, w: Stop) { r.IsFailure() && StopOf(r) == w }

  /** Some part of `e` that lazy evaluation reaches, in whatever order it takes the operands,
      stops with `w`. The branch a conditional does not take is not reached. */
  ghost predicate Reached(c: Cfg, e: Expr, env: Env, w: Stop)
    decreases e, 1
  {
    || Stops(EvalExpr(c, e, env), w)
    || match e
       case ArrayLit(es) => ReachedAny(c, es, env, w)
       case Index(t, i) => Reached(c, t, env, w) || Reached(c, i, env, w)
       case Field(t, _) => Reached(c, t, env, w)
       case Unary(_, a) => Reached(c, a, env, w)
       case Binary(l, op, r) => Reached(c, l, env, w) || (op != And && op != Or && Reached(c, r, env, w))
       case Call(_, args) => ReachedAny(c, args, env, w)
       case Cond(t, k, f) =>
         || Reached(c, k, env, w)
         || (EvalExpr(c, k, env) == Ok(Bool(true)) && Reached(c, t, env, w))
         || (EvalExpr(c, k, env) == Ok(Bool(false)) && Reached(c, f, env, w))
       case _ => false
  }

  ghost predicate ReachedAny(c: Cfg, es: seq<Expr>, env: Env, w: Stop)
    decreases es, 0
  {
    es != [] && (Reached(c, es[0], env, w) || ReachedAny(c, es[1..], env, w))
  }

  /** What a part can raise depends on the names it mentions. */
  lemma {:induction false} ReachedSame(c: Cfg, e: Expr, env: Env, env': Env, w: Stop)
    requires (forall y :: Mentions(e, y) ==> Lookup(env', y) == Lookup(env, y)) && Reached(c, e, env', w)
    ensures Reached(c, e, env, w)
    decreases e, 1
  {
    hide EvalExpr, Lookup;
    if !Stops(EvalExpr(c, e, env'), w) {
      match e
      case ArrayLit(es) => ReachedAnySame(c, es, env, env', w);
      case Index(t, i) => if Reached(c, t, env', w) { ReachedSame(c, t, env, env', w); } else { ReachedSame(c, i, env, env', w); }
      case Field(t, _) => ReachedSame(c, t, env, env', w);
      case Unary(_, a) => ReachedSame(c, a, env, env', w);
      case Binary(l, _, r) => if Reached(c, l, env', w) { ReachedSame(c, l, env, env', w); } else { ReachedSame(c, r, env, env', w); }
      case Call(_, args) => ReachedAnySame(c, args, env, env', w);
      case Cond(t, k, f) =>
        if Reached(c, k, env', w) {
          ReachedSame(c, k, env, env', w);
        } else {
          EvalSame(c, k, env', env);
          if EvalExpr(c, k, env') == Ok(Bool(true)) { ReachedSame(c, t, env, env', w); } else { ReachedSame(c, f, env, env', w); }
        }
    } else {
      EvalSame(c, e, env', env);
    }
  }

  lemma {:induction false} ReachedAnySame(c: Cfg, es: seq<Expr>, env: Env, env': Env, w: Stop)
    requires (forall y :: AnyMentions(es, y) ==> Lookup(env', y) == Lookup(env, y)) && ReachedAny(c, es, env', w)
    ensures ReachedAny(c, es, env, w)
    decreases es, 0
  {
    hide Reached, Lookup;
    if Reached(c, es[0], env', w) { ReachedSame(c, es[0], env, env', w); } else { ReachedAnySame(c, es[1..], env, env', w); }
  }

  /** How `w` stands to the value of `e`: the same value or neither has one; any failure is
      one that lazy evaluation reaches; and with `exact` the same failure, unless the original
      fails in a way no checked program does. */
  ghost predicate Like(exact: bool, c: Cfg, e: Expr, env: Env, w: Res<Value>) {
    var v := EvalExpr(c, e, env);
    && (v.Ok? <==> w.Ok?) && (v.Ok? ==> w == v)
    && (w.IsFailure() ==> Reached(c, e, env, StopOf(w)))
    && (exact && !Ruled(v) ==> w == v)
  }

  ghost predicate LikeAll(exact: bool, c: Cfg, es: seq<Expr>, env: Env, ws: Res<seq<Value>>) {
    var vs := EvalExprs(c, es, env);
    && (vs.Ok? <==> ws.Ok?) && (vs.Ok? ==> ws == vs)
    && (ws.IsFailure() ==> ReachedAny(c, es, env, StopOf(ws)))
    && (exact && !Ruled(vs) ==> ws == vs)
  }

  /** Run what is hoisted, then evaluate what is left. */
  function LowValue(c: Cfg, low: Lowering, env: Env, fuel: nat): Res<Value>
    requires env != []
  {
    var r := EvalBlock(c, low.pre, env, fuel);
    if r.out.IsFailure() then r.out.PropagateFailure() else EvalExpr(c, low.e, r.env)
  }

  function LowValues(c: Cfg, low: Lowerings, env: Env, fuel: nat): Res<seq<Value>>
    requires env != []
  {
    var r := EvalBlock(c, low.pre, env, fuel);
    if r.out.IsFailure() then r.out.PropagateFailure() else EvalExprs(c, low.es, r.env)
  }

  /** Hoisted statements fall through or fail, and touch their own temporaries only. */
  ghost predicate Tidy(c: Cfg, pre: seq<Stmt>, n: nat, m: nat, env: Env, fuel: nat)
    requires env != []
  {
    var r := EvalBlock(c, pre, env, fuel);
    TempsOnly(env, r.env, n, m) && (r.out.Ok? ==> r.out.value.Normal?)
  }

  ghost predicate Computes(exact: bool, c: Cfg, e: Expr, low: Lowering, n: nat, env: Env, fuel: nat)
    requires env != []
  {
    && Tidy(c, low.pre, n, low.next, env, fuel) && Like(exact, c, e, env, LowValue(c, low, env, fuel))
    && (e.Cond? && EvalBlock(c, low.pre, env, fuel).out.Ok? ==> LowValue(c, low, env, fuel).Ok?)
  }

  ghost predicate ComputesAll(exact: bool, c: Cfg, es: seq<Expr>, low: Lowerings, n: nat, env: Env, fuel: nat)
    requires env != []
  {
    Tidy(c, low.pre, n, low.next, env, fuel) && LikeAll(exact, c, es, env, LowValues(c, low, env, fuel))
  }

  // ---- Operands that cannot fail first ----

  /** Nothing left of `e` once its conditionals are hoisted can fail, short of what the
      checker rules out. */
  predicate Harmless(e: Expr)
    decreases e, 1
  {
    match e
    case ArrayLit(es) => AllHarmless(es)
    case Index(_, _) => false
    case Field(t, _) => Harmless(t)
    case Unary(_, a) => Harmless(a)
    case Binary(l, op, r) => op != Divide && op != Remainder && Harmless(l) && Harmless(r)
    case Call(_, _) => false
    case _ => true
  }

  predicate AllHarmless(es: seq<Expr>)
    decreases es, 0
  {
    es == [] || (Harmless(es[0]) && AllHarmless(es[1..]))
  }

  /** Nothing that can fail is evaluated before a conditional of the same expression that is
      hoisted in front of it; and so within the parts of every conditional. */
  predicate InOrder(e: Expr)
    decreases e, 1
  {
    match e
    case ArrayLit(es) => AllInOrder(es)
    case Index(t, i) => InOrder(t) && InOrder(i) && (Plain(i) || Harmless(t))
    case Field(t, _) => InOrder(t)
    case Unary(_, a) => InOrder(a)
    case Binary(l, _, r) => InOrder(l) && InOrder(r) && (Plain(r) || Harmless(l))
    case Call(_, args) => AllInOrder(args)
    case Cond(t, k, f) => InOrder(t) && InOrder(k) && InOrder(f)
    case _ => true
  }

  predicate AllInOrder(es: seq<Expr>)
    decreases es, 0
  {
    es == [] || (InOrder(es[0]) && (AllPlain(es[1..]) || Harmless(es[0])) && AllInOrder(es[1..]))
  }

  lemma {:induction false} HarmlessLowered(zero: Zeros, e: Expr, n: nat)
    requires Harmless(e)
    ensures Harmless(Lower(zero, e, n).e) && Plain(Lower(zero, e, n).e)
    decreases e, 1
  {
    match e
    case ArrayLit(es) => AllHarmlessLowered(zero, es, n);
    case Field(t, _) => HarmlessLowered(zero, t, n);
    case Unary(_, a) => HarmlessLowered(zero, a, n);
    case Binary(l, _, r) => HarmlessLowered(zero, l, n); HarmlessLowered(zero, r, Lower(zero, l, n).next);
    case _ =>
  }

  lemma {:induction false} AllHarmlessLowered(zero: Zeros, es: seq<Expr>, n: nat)
    requires AllHarmless(es)
    ensures AllHarmless(LowerAll(zero, es, n).es) && AllPlain(LowerAll(zero, es, n).es)
    decreases es, 0
  {
    hide Lower;
    if es != [] {
      HarmlessLowered(zero, es[0], n);
      AllHarmlessLowered(zero, es[1..], Lower(zero, es[0], n).next);
      assert LowerAll(zero, es, n).es[1..] == LowerAll(zero, es[1..], Lower(zero, es[0], n).next).es;
    }
  }

  lemma {:induction false} HarmlessValue(c: Cfg, e: Expr, env: Env)
    requires Harmless(e) && Plain(e)
    ensures EvalExpr(c, e, env).Ok? || Ruled(EvalExpr(c, e, env))
    decreases e, 1
  {
    hide EvalBinary, EvalUnary, FieldOf;
    match e
    case ArrayLit(es) => HarmlessValues(c, es, env);
    case Field(t, f) =>
      HarmlessValue(c, t, env);
      if EvalExpr(c, t, env).Ok? { FieldRuled(EvalExpr(c, t, env).value, f); }
    case Unary(op, a) =>
      HarmlessValue(c, a, env);
      if EvalExpr(c, a, env).Ok? { UnaryRuled(op, EvalExpr(c, a, env).value); }
    case Binary(l, op, r) =>
      HarmlessValue(c, l, env);
      HarmlessValue(c, r, env);
      var lv, rv := EvalExpr(c, l, env), EvalExpr(c, r, env);
      if op != And && op != Or && lv.Ok? && rv.Ok? { BinaryRuled(lv.value, op, rv.value); }
    case _ =>
  }

  lemma FieldRuled(v: Value, f: string)
    ensures FieldOf(v, f).Ok? || Ruled(FieldOf(v, f))
  {
    if v.Struct? { MemberRuled(v.fields, f); }
  }

  lemma {:induction false} MemberRuled(fields: seq<Member>, f: string)
    ensures FindMember(fields, f).Ok? || Ruled(FindMember(fields, f))
    decreases |fields|
  {
    if fields != [] { MemberRuled(fields[1..], f); }
  }

  lemma UnaryRuled(op: UnaryOp, v: Value)
    ensures EvalUnary(op, v).Ok? || Ruled(EvalUnary(op, v))
  {
  }

  lemma BinaryRuled(l: Value, op: BinaryOp, r: Value)
    requires op != And && op != Or && op != Divide && op != Remainder
    ensures EvalBinary(l, op, r).Ok? || Ruled(EvalBinary(l, op, r))
  {
  }

  lemma {:induction false} HarmlessValues(c: Cfg, es: seq<Expr>, env: Env)
    requires AllHarmless(es) && AllPlain(es)
    ensures EvalExprs(c, es, env).Ok? || Ruled(EvalExprs(c, es, env))
    decreases es, 0
  {
    hide EvalExpr;
    if es != [] {
      HarmlessValue(c, es[0], env);
      HarmlessValues(c, es[1..], env);
    }
  }

  /** User expressions do not see temporaries. */
  lemma UserSame(c: Cfg, e: Expr, env: Env, env': Env, n: nat, m: nat)
    requires UserExpr(e) && TempsOnly(env, env', n, m)
    ensures EvalExpr(c, e, env') == EvalExpr(c, e, env)
  {
    hide TempsOnly;
    forall y | Mentions(e, y) ensures Lookup(env', y) == Lookup(env, y) {
      UserNotMine(y, n, m);
      TempsLookup(env, env', n, m, y);
    }
    EvalSame(c, e, env', env);
  }

  lemma UserSames(c: Cfg, es: seq<Expr>, env: Env, env': Env, n: nat, m: nat)
    requires UserExprs(es) && TempsOnly(env, env', n, m)
    ensures EvalExprs(c, es, env') == EvalExprs(c, es, env)
  {
    hide TempsOnly;
    forall y | AnyMentions(es, y) ensures Lookup(env', y) == Lookup(env, y) {
      UserNotMine(y, n, m);
      TempsLookup(env, env', n, m, y);
    }
    EvalSames(c, es, env', env);
  }

  /** A residual expression does not see later temporaries. */
  lemma ResidualSame(c: Cfg, zero: Zeros, e: Expr, n: nat, env: Env, env': Env, k: nat, m: nat)
    requires UserExpr(e) && Lower(zero, e, n).next <= k && TempsOnly(env, env', k, m)
    ensures EvalExpr(c, Lower(zero, e, n).e, env') == EvalExpr(c, Lower(zero, e, n).e, env)
  {
    hide TempsOnly, Lower, Mine;
    var low := Lower(zero, e, n);
    forall y | Mentions(low.e, y) ensures Lookup(env', y) == Lookup(env, y) {
      LowerMentions(zero, e, n, y);
      if Mentions(e, y) { UserNotMine(y, k, m); } else { MineApart(y, n, low.next, k, m); }
      TempsLookup(env, env', k, m, y);
    }
    EvalSame(c, low.e, env', env);
  }

  /** An expression in scopes that differ in temporaries it does not name. */
  lemma UserReached(c: Cfg, e: Expr, env: Env, env': Env, n: nat, m: nat, w: Stop)
    requires UserExpr(e) && TempsOnly(env, env', n, m) && Reached(c, e, env', w)
    ensures Reached(c, e, env, w)
  {
    hide TempsOnly, Reached;
    forall y | Mentions(e, y) ensures Lookup(env', y) == Lookup(env, y) {
      UserNotMine(y, n, m);
      TempsLookup(env, env', n, m, y);
    }
    ReachedSame(c, e, env, env', w);
  }

  lemma UserReachedAny(c: Cfg, es: seq<Expr>, env: Env, env': Env, n: nat, m: nat, w: Stop)
    requires UserExprs(es) && TempsOnly(env, env', n, m) && ReachedAny(c, es, env', w)
    ensures ReachedAny(c, es, env, w)
  {
    hide TempsOnly, ReachedAny;
    forall y | AnyMentions(es, y) ensures Lookup(env', y) == Lookup(env, y) {
      UserNotMine(y, n, m);
      TempsLookup(env, env', n, m, y);
    }
    ReachedAnySame(c, es, env, env', w);
  }

  lemma LikeEarlier(exact: bool, c: Cfg, e: Expr, env: Env, env': Env, n: nat, m: nat, w: Res<Value>)
    requires UserExpr(e) && TempsOnly(env, env', n, m) && Like(exact, c, e, env', w)
    ensures Like(exact, c, e, env, w)
  {
    hide TempsOnly, Reached, EvalExpr, UserExpr;
    UserSame(c, e, env, env', n, m);
    if w.IsFailure() { UserReached(c, e, env, env', n, m, StopOf(w)); }
  }

  lemma LikeAllEarlier(exact: bool, c: Cfg, es: seq<Expr>, env: Env, env': Env, n: nat, m: nat, ws: Res<seq<Value>>)
    requires UserExprs(es) && TempsOnly(env, env', n, m) && LikeAll(exact, c, es, env', ws)
    ensures LikeAll(exact, c, es, env, ws)
  {
    hide TempsOnly, ReachedAny, EvalExprs, UserExprs;
    UserSames(c, es, env, env', n, m);
    if ws.IsFailure() { UserReachedAny(c, es, env, env', n, m, StopOf(ws)); }
  }

  // ---- Expressions ----

  /** The main theorem about expressions. */
  lemma {:induction false} ExprLowered(exact: bool, c: Cfg, zero: Zeros, e: Expr, n: nat, env: Env, fuel: nat)
    requires !c.moves && env != [] && UserExpr(e) && Hoistable(e) && Literals(zero) && (exact ==> InOrder(e))
    ensures Computes(exact, c, e, Lower(zero, e, n), n, env, fuel)
    decreases e, 2
  {
    hide Computes, Lower, EvalExpr, Literals, InOrder, Hoistable, UserExpr;
    match e
    case ArrayLit(_) => ArgsLowered(exact, c, zero, e, n, env, fuel);
    case Call(_, _) => ArgsLowered(exact, c, zero, e, n, env, fuel);
    case Index(_, _) => IndexLowered(exact, c, zero, e, n, env, fuel);
    case Field(_, _) => UnaryLowered(exact, c, zero, e, n, env, fuel);
    case Unary(_, _) => UnaryLowered(exact, c, zero, e, n, env, fuel);
    case Binary(_, op, _) =>
      if op == And || op == Or { LogicLowered(exact, c, zero, e, n, env, fuel); } else { StrictLowered(exact, c, zero, e, n, env, fuel); }
    case Cond(_, _, _) => CondLowered(exact, c, zero, e, n, env, fuel);
    case _ => LeafLowered(exact, c, zero, e, n, env, fuel);
  }

  lemma LeafLowered(exact: bool, c: Cfg, zero: Zeros, e: Expr, n: nat, env: Env, fuel: nat)
    requires env != [] && (e.Int? || e.BoolLit? || e.StrLit? || e.Var?)
    ensures Computes(exact, c, e, Lower(zero, e, n), n, env, fuel)
  {
    hide EvalExpr, EvalBlock;
    assert Lower(zero, e, n) == Lowering([], e, n);
    EmptyBlock(c, env, fuel);
    TempsRefl(env, n);
  }

  lemma {:induction false} UnaryLowered(exact: bool, c: Cfg, zero: Zeros, e: Expr, n: nat, env: Env, fuel: nat)
    requires !c.moves && env != [] && UserExpr(e) && Hoistable(e) && Literals(zero) && (e.Field? || e.Unary?) && (exact ==> InOrder(e))
    ensures Computes(exact, c, e, Lower(zero, e, n), n, env, fuel)
    decreases e, 1
  {
    hide Literals, EvalBlock, TempsOnly, FieldOf, EvalUnary, UserExpr, EvalExpr, Like;
    var a := if e.Field? then e.target else e.operand;
    UserPart(e, a);
    ExprLowered(exact, c, zero, a, n, env, fuel);
    var low := Lower(zero, a, n);
    var r := EvalBlock(c, low.pre, env, fuel);
    var w := LowValue(c, low, env, fuel);
    if r.out.Ok? { OperandMeaning(c, Lower(zero, e, n).e, low.e, r.env); }
    OperandMeaning(c, e, a, env);
    OperandLike(exact, c, e, a, env, w, LowValue(c, Lower(zero, e, n), env, fuel));
  }

  lemma UserPart(e: Expr, a: Expr)
    requires UserExpr(e) && forall y :: Mentions(a, y) ==> Mentions(e, y)
    ensures UserExpr(a)
  {
  }

  function Applied(e: Expr, v: Value): Res<Value>
    requires e.Field? || e.Unary?
  {
    if e.Field? then FieldOf(v, e.field) else EvalUnary(e.uop, v)
  }

  lemma OperandMeaning(c: Cfg, e: Expr, a: Expr, env: Env)
    requires (e.Field? && a == e.target) || (e.Unary? && a == e.operand)
    ensures var v := EvalExpr(c, a, env); EvalExpr(c, e, env) == if v.Ok? then Applied(e, v.value) else v
  {
    hide FieldOf, EvalUnary;
  }

  lemma OperandLike(exact: bool, c: Cfg, e: Expr, a: Expr, env: Env, wa: Res<Value>, w: Res<Value>)
    requires ((e.Field? && a == e.target) || (e.Unary? && a == e.operand)) && Like(exact, c, a, env, wa)
    requires EvalExpr(c, e, env) == (var v := EvalExpr(c, a, env); if v.Ok? then Applied(e, v.value) else v)
    requires w == if wa.Ok? then Applied(e, wa.value) else wa
    ensures Like(exact, c, e, env, w)
  {
    hide EvalExpr, Applied;
  }

  // ---- Two operands ----

  /** What is left of the left operand, evaluated after both have hoisted, and of the right. */
  lemma {:induction false} PairLowered(exact: bool, c: Cfg, zero: Zeros, parent: Expr, l: Expr, r: Expr, n: nat, env: Env, fuel: nat)
    returns (wl: Res<Value>, wr: Res<Value>)
    requires !c.moves && env != [] && Literals(zero) && l < parent && r < parent
    requires UserExpr(l) && UserExpr(r) && Hoistable(l) && Hoistable(r) && (exact ==> InOrder(l) && InOrder(r))
    ensures var a := Lower(zero, l, n);
            var b := Lower(zero, r, a.next);
            var first, done := EvalBlock(c, a.pre, env, fuel), EvalBlock(c, a.pre + b.pre, env, fuel);
            && Tidy(c, a.pre + b.pre, n, b.next, env, fuel) && Like(exact, c, l, env, wl) && Like(exact, c, r, env, wr)
            && (done.out.Ok? ==> EvalExpr(c, a.e, done.env) == wl && EvalExpr(c, b.e, done.env) == wr && (l.Cond? ==> wl.Ok?))
            && (done.out.IsFailure() && first.out.IsFailure() ==> Stops(wl, StopOf(done.out)))
            && (done.out.IsFailure() && !first.out.IsFailure() ==> Stops(wr, StopOf(done.out)) && !Plain(r) && (Harmless(l) ==> wl.Ok? || Ruled(wl)))
    decreases parent, 0
  {
    hide Literals, EvalBlock, TempsOnly, EvalExpr, Lower, UserExpr, Hoistable, InOrder, Like, Harmless, Plain;
    var a := Lower(zero, l, n);
    var b := Lower(zero, r, a.next);
    ExprLowered(exact, c, zero, l, n, env, fuel);
    var r1 := EvalBlock(c, a.pre, env, fuel);
    wl := LowValue(c, a, env, fuel);
    BlockAppend(c, a.pre, b.pre, env, fuel);
    LowerGrows(zero, l, n);
    LowerGrows(zero, r, a.next);
    TempsWider(env, r1.env, n, a.next, b.next);
    ExprLowered(exact, c, zero, r, a.next, r1.env, fuel);
    wr := LowValue(c, b, r1.env, fuel);
    LikeEarlier(exact, c, r, env, r1.env, n, a.next, wr);
    if r1.out.Ok? {
      var r2 := EvalBlock(c, b.pre, r1.env, fuel);
      if b.pre == [] { EmptyBlock(c, r1.env, fuel); }
      TempsTrans(env, r1.env, r2.env, n, a.next, b.next);
      if r2.out.Ok? {
        ResidualSame(c, zero, l, n, r1.env, r2.env, a.next, b.next);
      } else {
        if Plain(r) { LowerPlain(zero, r, a.next); }
        if Harmless(l) { HarmlessLowered(zero, l, n); HarmlessValue(c, a.e, r1.env); }
      }
    }
  }

  lemma TempsWider(env: Env, env': Env, n: nat, m: nat, k: nat)
    requires TempsOnly(env, env', n, m) && n <= m <= k
    ensures TempsOnly(env, env', n, k)
  {
    forall y | !Mine(y, n, k) ensures !Mine(y, n, m) {
      if Mine(y, n, m) { MineGrows(y, n, m, n, k); }
    }
  }

  lemma EmptyBlock(c: Cfg, env: Env, fuel: nat)
    requires env != []
    ensures EvalBlock(c, [], env, fuel) == Run(Ok(Normal(Void)), env)
  {
  }

  lemma UserParts(e: Expr, l: Expr, r: Expr)
    requires UserExpr(e) && forall y :: Mentions(l, y) || Mentions(r, y) ==> Mentions(e, y)
    ensures UserExpr(l) && UserExpr(r)
  {
  }

  lemma {:induction false} StrictLowered(exact: bool, c: Cfg, zero: Zeros, e: Expr, n: nat, env: Env, fuel: nat)
    requires !c.moves && env != [] && UserExpr(e) && Hoistable(e) && Literals(zero) && e.Binary? && e.op != And && e.op != Or
    requires exact ==> InOrder(e)
    ensures Computes(exact, c, e, Lower(zero, e, n), n, env, fuel)
    decreases e, 1
  {
    hide Literals, EvalBlock, TempsOnly, EvalBinary, UserExpr, Like, EvalExpr, Harmless, Plain;
    UserParts(e, e.left, e.right);
    var wl, wr := PairLowered(exact, c, zero, e, e.left, e.right, n, env, fuel);
    var low := Lower(zero, e, n);
    var done := EvalBlock(c, low.pre, env, fuel);
    var w := LowValue(c, low, env, fuel);
    StrictParts(c, e, env);
    if done.out.Ok? { StrictParts(c, low.e, done.env); }
    var first := EvalBlock(c, Lower(zero, e.left, n).pre, env, fuel);
    if done.out.IsFailure() && !first.out.IsFailure() {
      RightStops(exact, c, e, env, wl, wr, w);
    } else {
      InTurn(exact, c, e, env, wl, wr, w);
    }
  }

  lemma StrictParts(c: Cfg, e: Expr, env: Env)
    requires e.Binary? && e.op != And && e.op != Or
    ensures var l, r := EvalExpr(c, e.left, env), EvalExpr(c, e.right, env);
            EvalExpr(c, e, env) == if l.IsFailure() then l else if r.IsFailure() then r else EvalBinary(l.value, e.op, r.value)
  {
    hide EvalBinary;
  }

  /** Operands taken in turn, as the original takes them. */
  lemma InTurn(exact: bool, c: Cfg, e: Expr, env: Env, wl: Res<Value>, wr: Res<Value>, w: Res<Value>)
    requires e.Binary? && e.op != And && e.op != Or && Like(exact, c, e.left, env, wl) && Like(exact, c, e.right, env, wr)
    requires var l, r := EvalExpr(c, e.left, env), EvalExpr(c, e.right, env);
             EvalExpr(c, e, env) == if l.IsFailure() then l else if r.IsFailure() then r else EvalBinary(l.value, e.op, r.value)
    requires w == if wl.IsFailure() then wl else if wr.IsFailure() then wr else EvalBinary(wl.value, e.op, wr.value)
    ensures Like(exact, c, e, env, w)
  {
    hide EvalExpr, EvalBinary;
  }

  /** The right operand's conditional stops the run before the left operand is evaluated. */
  lemma RightStops(exact: bool, c: Cfg, e: Expr, env: Env, wl: Res<Value>, wr: Res<Value>, w: Res<Value>)
    requires e.Binary? && e.op != And && e.op != Or && Like(exact, c, e.left, env, wl) && Like(exact, c, e.right, env, wr)
    requires var l, r := EvalExpr(c, e.left, env), EvalExpr(c, e.right, env);
             EvalExpr(c, e, env) == if l.IsFailure() then l else if r.IsFailure() then r else EvalBinary(l.value, e.op, r.value)
    requires wr.IsFailure() && w == wr && (exact ==> wl.Ok? || Ruled(wl))
    ensures Like(exact, c, e, env, w)
  {
    hide EvalExpr, EvalBinary;
  }

  lemma {:induction false} IndexLowered(exact: bool, c: Cfg, zero: Zeros, e: Expr, n: nat, env: Env, fuel: nat)
    requires !c.moves && env != [] && UserExpr(e) && Hoistable(e) && Literals(zero) && e.Index? && (exact ==> InOrder(e))
    ensures Computes(exact, c, e, Lower(zero, e, n), n, env, fuel)
    decreases e, 1
  {
    hide Literals, EvalBlock, TempsOnly, IndexInto, UserExpr, EvalExpr, Like, Harmless, Plain;
    UserParts(e, e.target, e.index);
    var wt, wi := PairLowered(exact, c, zero, e, e.target, e.index, n, env, fuel);
    var low := Lower(zero, e, n);
    var a := Lower(zero, e.target, n);
    IndexMeaning(c, e, env);
    var first, done := EvalBlock(c, a.pre, env, fuel), EvalBlock(c, low.pre, env, fuel);
    var w := LowValue(c, low, env, fuel);
    if done.out.Ok? {
      IndexMeaning(c, low.e, done.env);
      if a.e.Var? { LowerVar(zero, e.target, n); }
      if e.target.Var? { LowerLeaf(zero, e.target, n); }
      IndexInTurn(exact, c, e, env, wt, wi, w);
    } else if first.out.IsFailure() {
      if e.target.Var? {
        LowerLeaf(zero, e.target, n);
        EmptyBlock(c, env, fuel);
        assert false;
      }
      IndexInTurn(exact, c, e, env, wt, wi, w);
    } else {
      IndexStops(exact, c, e, env, wt, wi, w);
    }
  }

  /** A bare variable is looked up after the index has been evaluated. */
  function IndexValue(bare: bool, t: Res<Value>, i: Res<Value>): Res<Value> {
    if !bare && t.IsFailure() then t
    else if i.IsFailure() then i
    else if !i.value.I64? then Fault("L0407", "expected i64 value")
    else if t.IsFailure() then t
    else IndexInto(t.value, i.value.n)
  }

  lemma IndexMeaning(c: Cfg, e: Expr, env: Env)
    requires e.Index?
    ensures EvalExpr(c, e, env) == IndexValue(e.target.Var?, EvalExpr(c, e.target, env), EvalExpr(c, e.index, env))
  {
    hide IndexInto;
  }

  lemma LowerVar(zero: Zeros, e: Expr, n: nat)
    requires Lower(zero, e, n).e.Var?
    ensures e.Var? || e.Cond?
  {
  }

  lemma LowerLeaf(zero: Zeros, e: Expr, n: nat)
    requires e.Var?
    ensures Lower(zero, e, n) == Lowering([], e, n)
  {
  }

  lemma IndexInTurn(exact: bool, c: Cfg, e: Expr, env: Env, wt: Res<Value>, wi: Res<Value>, w: Res<Value>)
    requires e.Index? && Like(exact, c, e.target, env, wt) && Like(exact, c, e.index, env, wi)
    requires EvalExpr(c, e, env) == IndexValue(e.target.Var?, EvalExpr(c, e.target, env), EvalExpr(c, e.index, env))
    requires w == IndexValue(e.target.Var?, wt, wi)
    ensures Like(exact, c, e, env, w)
  {
    hide EvalExpr, IndexInto;
  }

  lemma IndexStops(exact: bool, c: Cfg, e: Expr, env: Env, wt: Res<Value>, wi: Res<Value>, w: Res<Value>)
    requires e.Index? && Like(exact, c, e.target, env, wt) && Like(exact, c, e.index, env, wi)
    requires EvalExpr(c, e, env) == IndexValue(e.target.Var?, EvalExpr(c, e.target, env), EvalExpr(c, e.index, env))
    requires wi.IsFailure() && w == wi.PropagateFailure() && (exact ==> wt.Ok? || Ruled(wt))
    ensures Like(exact, c, e, env, w)
  {
    hide EvalExpr, IndexInto;
  }

  lemma {:induction false} LogicLowered(exact: bool, c: Cfg, zero: Zeros, e: Expr, n: nat, env: Env, fuel: nat)
    requires !c.moves && env != [] && UserExpr(e) && Hoistable(e) && Literals(zero) && e.Binary? && (e.op == And || e.op == Or)
    requires exact ==> InOrder(e)
    ensures Computes(exact, c, e, Lower(zero, e, n), n, env, fuel)
    decreases e, 1
  {
    hide Literals, EvalBlock, TempsOnly, UserExpr, Like, EvalExpr;
    UserParts(e, e.left, e.right);
    ExprLowered(exact, c, zero, e.left, n, env, fuel);
    var a := Lower(zero, e.left, n);
    LowerPlain(zero, e.right, a.next);
    assert a.pre + [] == a.pre;
    var low := Lower(zero, e, n);
    var r := EvalBlock(c, a.pre, env, fuel);
    LogicParts(c, e, env);
    if r.out.Ok? {
      UserSame(c, e.right, env, r.env, n, a.next);
      LogicParts(c, low.e, r.env);
    }
    LogicInTurn(exact, c, e, env, LowValue(c, a, env, fuel), LowValue(c, low, env, fuel));
  }

  function LogicValue(op: BinaryOp, l: Res<Value>, r: Res<Value>): Res<Value> {
    if l.IsFailure() then l
    else if !l.value.Bool? then Fault("L0408", "expected bool value")
    else if l.value.b != (op == And) then l
    else if r.IsFailure() then r
    else if !r.value.Bool? then Fault("L0408", "expected bool value")
    else r
  }

  lemma LogicParts(c: Cfg, e: Expr, env: Env)
    requires e.Binary? && (e.op == And || e.op == Or)
    ensures EvalExpr(c, e, env) == LogicValue(e.op, EvalExpr(c, e.left, env), EvalExpr(c, e.right, env))
  {
  }

  lemma LogicInTurn(exact: bool, c: Cfg, e: Expr, env: Env, wl: Res<Value>, w: Res<Value>)
    requires e.Binary? && (e.op == And || e.op == Or) && Like(exact, c, e.left, env, wl)
    requires EvalExpr(c, e, env) == LogicValue(e.op, EvalExpr(c, e.left, env), EvalExpr(c, e.right, env))
    requires w == if wl.IsFailure() then wl else LogicValue(e.op, wl, EvalExpr(c, e.right, env))
    ensures Like(exact, c, e, env, w)
  {
    hide EvalExpr;
  }

  // ---- Any number of operands ----

  lemma {:induction false} ArgsLowered(exact: bool, c: Cfg, zero: Zeros, e: Expr, n: nat, env: Env, fuel: nat)
    requires !c.moves && env != [] && UserExpr(e) && Hoistable(e) && Literals(zero) && (e.ArrayLit? || e.Call?) && (exact ==> InOrder(e))
    ensures Computes(exact, c, e, Lower(zero, e, n), n, env, fuel)
    decreases e, 1
  {
    hide Literals, EvalBlock, TempsOnly, CallTarget, UserExpr, EvalExpr, EvalExprs, Like, LikeAll;
    var es := if e.ArrayLit? then e.elems else e.args;
    assert UserExprs(es) by { UserArgs(e, es); }
    ExprsLowered(exact, c, zero, es, n, env, fuel);
    var lows, low := LowerAll(zero, es, n), Lower(zero, e, n);
    var r := EvalBlock(c, low.pre, env, fuel);
    ArgsMeaning(c, e, es, env);
    if r.out.Ok? {
      ArgsMeaning(c, low.e, lows.es, r.env);
      if e.Call? { UserTarget(e, env, r.env, n, lows.next); }
    }
    ArgsLike(exact, c, e, es, env, LowValues(c, lows, env, fuel), LowValue(c, low, env, fuel));
  }

  function Gathered(c: Cfg, e: Expr, env: Env, vs: seq<Value>): Res<Value>
    requires e.ArrayLit? || e.Call?
  {
    if e.ArrayLit? then Ok(Array(vs)) else c.call(CallTarget(e.callee, env), vs)
  }

  lemma ArgsMeaning(c: Cfg, e: Expr, es: seq<Expr>, env: Env)
    requires (e.ArrayLit? && es == e.elems) || (e.Call? && es == e.args)
    ensures var vs := EvalExprs(c, es, env);
            EvalExpr(c, e, env) == if vs.IsFailure() then vs.PropagateFailure() else Gathered(c, e, env, vs.value)
  {
    hide EvalExprs, CallTarget;
  }

  lemma ArgsLike(exact: bool, c: Cfg, e: Expr, es: seq<Expr>, env: Env, ws: Res<seq<Value>>, w: Res<Value>)
    requires ((e.ArrayLit? && es == e.elems) || (e.Call? && es == e.args)) && LikeAll(exact, c, es, env, ws)
    requires var vs := EvalExprs(c, es, env);
             EvalExpr(c, e, env) == if vs.IsFailure() then vs.PropagateFailure() else Gathered(c, e, env, vs.value)
    requires w == if ws.IsFailure() then ws.PropagateFailure() else Gathered(c, e, env, ws.value)
    ensures Like(exact, c, e, env, w)
  {
    hide EvalExpr, EvalExprs, Gathered;
  }

  lemma UserArgs(e: Expr, es: seq<Expr>)
    requires UserExpr(e) && ((e.ArrayLit? && es == e.elems) || (e.Call? && es == e.args))
    ensures UserExprs(es)
  {
    forall y | AnyMentions(es, y) ensures UserName(y) { assert Mentions(e, y); }
  }

  lemma UserTarget(e: Expr, env: Env, env': Env, n: nat, m: nat)
    requires UserExpr(e) && e.Call? && TempsOnly(env, env', n, m)
    ensures CallTarget(e.callee, env') == CallTarget(e.callee, env)
  {
    hide TempsOnly;
    assert Mentions(e, e.callee);
    UserNotMine(e.callee, n, m);
    TempsLookup(env, env', n, m, e.callee);
  }

  lemma {:induction false} ExprsLowered(exact: bool, c: Cfg, zero: Zeros, es: seq<Expr>, n: nat, env: Env, fuel: nat)
    requires !c.moves && env != [] && UserExprs(es) && AllHoistable(es) && Literals(zero) && (exact ==> AllInOrder(es))
    ensures ComputesAll(exact, c, es, LowerAll(zero, es, n), n, env, fuel)
    decreases es, 0
  {
    hide Literals, EvalBlock, TempsOnly, EvalExpr, Lower, Mentions, Hoistable, InOrder, Like, LikeAll, EvalExprs, UserExpr, UserExprs, Harmless, AllPlain;
    if es == [] {
      EmptyBlock(c, env, fuel);
      TempsRefl(env, n);
      NoneLike(exact, c, env);
    } else {
      var a := Lower(zero, es[0], n);
      var b := LowerAll(zero, es[1..], a.next);
      var all := LowerAll(zero, es, n);
      UserCons(es);
      ExprLowered(exact, c, zero, es[0], n, env, fuel);
      var r1 := EvalBlock(c, a.pre, env, fuel);
      var w := LowValue(c, a, env, fuel);
      BlockAppend(c, a.pre, b.pre, env, fuel);
      LowerGrows(zero, es[0], n);
      LowerAllGrows(zero, es[1..], a.next);
      TempsWider(env, r1.env, n, a.next, b.next);
      ExprsLowered(exact, c, zero, es[1..], a.next, r1.env, fuel);
      var ws := LowValues(c, b, r1.env, fuel);
      LikeAllEarlier(exact, c, es[1..], env, r1.env, n, a.next, ws);
      ConsMeaning(c, es, env);
      if r1.out.Ok? {
        var r2 := EvalBlock(c, b.pre, r1.env, fuel);
        if b.pre == [] { EmptyBlock(c, r1.env, fuel); }
        TempsTrans(env, r1.env, r2.env, n, a.next, b.next);
        if r2.out.Ok? {
          ResidualSame(c, zero, es[0], n, r1.env, r2.env, a.next, b.next);
          ConsMeaning(c, all.es, r2.env);
          assert all.es[1..] == b.es;
          ConsInTurn(exact, c, es, env, w, ws, LowValues(c, all, env, fuel));
        } else {
          if exact && AllPlain(es[1..]) { LowerAllPlain(zero, es[1..], a.next); assert false; }
          if exact { HarmlessLowered(zero, es[0], n); HarmlessValue(c, a.e, r1.env); }
          ConsStops(exact, c, es, env, w, ws, LowValues(c, all, env, fuel));
        }
      } else {
        ConsInTurn(exact, c, es, env, w, ws, LowValues(c, all, env, fuel));
      }
    }
  }

  lemma NoneLike(exact: bool, c: Cfg, env: Env)
    ensures LikeAll(exact, c, [], env, EvalExprs(c, [], env))
  {
  }

  function Cons(v: Res<Value>, vs: Res<seq<Value>>): Res<seq<Value>> {
    if v.IsFailure() then v.PropagateFailure() else if vs.IsFailure() then vs else Ok([v.value] + vs.value)
  }

  lemma ConsMeaning(c: Cfg, es: seq<Expr>, env: Env)
    requires es != []
    ensures EvalExprs(c, es, env) == Cons(EvalExpr(c, es[0], env), EvalExprs(c, es[1..], env))
  {
    hide EvalExpr;
  }

  lemma ConsInTurn(exact: bool, c: Cfg, es: seq<Expr>, env: Env, w: Res<Value>, ws: Res<seq<Value>>, all: Res<seq<Value>>)
    requires es != [] && Like(exact, c, es[0], env, w) && LikeAll(exact, c, es[1..], env, ws)
    requires EvalExprs(c, es, env) == Cons(EvalExpr(c, es[0], env), EvalExprs(c, es[1..], env)) && all == Cons(w, ws)
    ensures LikeAll(exact, c, es, env, all)
  {
    hide EvalExpr, EvalExprs, Reached;
  }

  lemma ConsStops(exact: bool, c: Cfg, es: seq<Expr>, env: Env, w: Res<Value>, ws: Res<seq<Value>>, all: Res<seq<Value>>)
    requires es != [] && Like(exact, c, es[0], env, w) && LikeAll(exact, c, es[1..], env, ws)
    requires EvalExprs(c, es, env) == Cons(EvalExpr(c, es[0], env), EvalExprs(c, es[1..], env))
    requires ws.IsFailure() && all == ws && (exact ==> w.Ok? || Ruled(w))
    ensures LikeAll(exact, c, es, env, all)
  {
    hide EvalExpr, EvalExprs, Reached;
  }

  lemma TempsRefl(env: Env, n: nat)
    requires env != []
    ensures TempsOnly(env, env, n, n)
  {
  }

  lemma UserCons(es: seq<Expr>)
    requires UserExprs(es) && es != []
    ensures UserExpr(es[0]) && UserExprs(es[1..])
  {
    forall y | Mentions(es[0], y) ensures UserName(y) { assert AnyMentions(es, y); }
    forall y | AnyMentions(es[1..], y) ensures UserName(y) { assert AnyMentions(es, y); }
  }

  // ---- The conditional itself ----

  lemma UserCond(e: Expr)
    requires UserExpr(e) && e.Cond?
    ensures UserExpr(e.thn) && UserExpr(e.cond) && UserExpr(e.els)
  {
    UserParts(e, e.thn, e.cond);
    UserParts(e, e.els, e.els);
  }

  lemma {:induction false} CondLowered(exact: bool, c: Cfg, zero: Zeros, e: Expr, n: nat, env: Env, fuel: nat)
    requires !c.moves && env != [] && UserExpr(e) && Hoistable(e) && Literals(zero) && e.Cond? && (exact ==> InOrder(e))
    ensures Computes(exact, c, e, Lower(zero, e, n), n, env, fuel)
    decreases e, 1
  {
    hide EvalBlock, TempsOnly, UserExpr, EvalExpr, Literals, Choose, Lower, Like;
    UserCond(e);
    var k := Lower(zero, e.cond, n);
    var t := Lower(zero, e.thn, k.next);
    var f := Lower(zero, e.els, t.next);
    var low := Lower(zero, e, n);
    CondShape(zero, e, n);
    ExprLowered(exact, c, zero, e.cond, n, env, fuel);
    var r1 := EvalBlock(c, k.pre, env, fuel);
    var wk := LowValue(c, k, env, fuel);
    BlockAppend(c, k.pre, Choose(zero, k.e, t, f), env, fuel);
    CondMeaning(c, e, env);
    LowerGrows(zero, e.cond, n);
    LowerGrows(zero, e.thn, k.next);
    LowerGrows(zero, e.els, t.next);
    TempsWider(env, r1.env, n, k.next, f.next + 1);
    if r1.out.Ok? {
      var w := ChoiceLowered(exact, c, zero, e, n, r1.env, fuel);
      var r2 := EvalBlock(c, Choose(zero, k.e, t, f), r1.env, fuel);
      TempsTrans(env, r1.env, r2.env, n, k.next, f.next + 1);
      if wk.Ok? && wk.value.Bool? {
        var x := if wk.value.b then e.thn else e.els;
        LikeEarlier(exact, c, x, env, r1.env, n, k.next, w);
        BranchLike(exact, c, e, env, wk, w);
      } else {
        TestLike(exact, c, e, env, wk, LowValue(c, low, env, fuel));
      }
    } else {
      TestLike(exact, c, e, env, wk, LowValue(c, low, env, fuel));
    }
  }

  lemma CondShape(zero: Zeros, e: Expr, n: nat)
    requires e.Cond?
    ensures var k := Lower(zero, e.cond, n);
            var t := Lower(zero, e.thn, k.next);
            var f := Lower(zero, e.els, t.next);
            Lower(zero, e, n) == Lowering(k.pre + Choose(zero, k.e, t, f), Var(Temp(f.next)), f.next + 1)
            && Choose(zero, k.e, t, f) != []
  {
  }

  lemma CondMeaning(c: Cfg, e: Expr, env: Env)
    requires e.Cond?
    ensures var k := EvalExpr(c, e.cond, env);
            EvalExpr(c, e, env) ==
            if k.IsFailure() then k
            else if !k.value.Bool? then Fault("L0408", "expected bool value")
            else EvalExpr(c, if k.value.b then e.thn else e.els, env)
  {
  }

  /** The condition fails, or is no boolean. */
  lemma TestLike(exact: bool, c: Cfg, e: Expr, env: Env, wk: Res<Value>, w: Res<Value>)
    requires e.Cond? && Like(exact, c, e.cond, env, wk)
    requires wk.IsFailure() || !wk.value.Bool?
    requires w == if wk.IsFailure() then wk else Fault("L0408", "expected bool value")
    ensures Like(exact, c, e, env, w)
  {
    CondMeaning(c, e, env);
    hide EvalExpr;
  }

  /** The branch taken decides. */
  lemma BranchLike(exact: bool, c: Cfg, e: Expr, env: Env, wk: Res<Value>, w: Res<Value>)
    requires e.Cond? && Like(exact, c, e.cond, env, wk) && wk.Ok? && wk.value.Bool?
    requires Like(exact, c, if wk.value.b then e.thn else e.els, env, w)
    ensures Like(exact, c, e, env, w)
  {
    CondMeaning(c, e, env);
    hide EvalExpr;
  }

  /** The temporary and its `if`, run where the condition's residue is to be evaluated: what
      the branch taken computes ends up in the temporary, or stops the run. */
  lemma {:induction false} ChoiceLowered(exact: bool, c: Cfg, zero: Zeros, e: Expr, n: nat, env: Env, fuel: nat) returns (w: Res<Value>)
    requires !c.moves && env != [] && e.Cond? && Hoistable(e) && Literals(zero) && (exact ==> InOrder(e))
    requires UserExpr(e.thn) && UserExpr(e.cond) && UserExpr(e.els)
    ensures var k := Lower(zero, e.cond, n);
            var t := Lower(zero, e.thn, k.next);
            var f := Lower(zero, e.els, t.next);
            var kv, r := EvalExpr(c, k.e, env), EvalBlock(c, Choose(zero, k.e, t, f), env, fuel);
            && TempsOnly(env, r.env, k.next, f.next + 1)
            && (kv.IsFailure() ==> r.out == kv.PropagateFailure())
            && (kv.Ok? && !kv.value.Bool? ==> r.out == Fault("L0408", "expected bool value"))
            && (kv.Ok? && kv.value.Bool? ==>
                  && Like(exact, c, if kv.value.b then e.thn else e.els, env, w)
                  && (w.IsFailure() ==> r.out == w.PropagateFailure())
                  && (w.Ok? ==> r.out == Ok(Normal(Void)) && EvalExpr(c, Var(Temp(f.next)), r.env) == w))
    decreases e, 0
  {
    hide EvalBlock, EvalStmt, EvalScoped, TempsOnly, UserExpr, EvalExpr, Literals, Lower, Hoistable, Like, InOrder;
    var k := Lower(zero, e.cond, n);
    var t := Lower(zero, e.thn, k.next);
    var f := Lower(zero, e.els, t.next);
    var temp := Temp(f.next);
    LowerGrows(zero, e.thn, k.next);
    LowerGrows(zero, e.els, t.next);
    CondParts(e);
    var z := LiteralValue(c, zero, t.e, env);
    var env1 := Define(env, temp, z);
    LetTemp(c, zero, t.e, temp, env, fuel, z);
    DefineTemp(env, f.next, z, k.next);
    ResidualSame(c, zero, e.cond, n, env, env1, f.next, f.next + 1);
    var kv := EvalExpr(c, k.e, env);
    var yes, no := t.pre + [Assign(temp, Replace, t.e)], f.pre + [Assign(temp, Replace, f.e)];
    ChooseMeaning(c, k.e, zero(t.e), temp, yes, no, env, fuel, z);
    w := NoResult;
    if kv.Ok? && kv.value.Bool? {
      var x, low, next := if kv.value.b then e.thn else e.els, if kv.value.b then t else f, if kv.value.b then k.next else t.next;
      w := BranchLowered(exact, c, zero, e, x, next, f.next, env1, fuel);
      LikeEarlier(exact, c, x, env, env1, k.next, f.next + 1, w);
      if w.Ok? { AfterBranch(c, env, env1, Define(env1, temp, w.value), k.next, f.next, w.value); }
    }
  }

  lemma CondParts(e: Expr)
    requires e.Cond?
    ensures Hoistable(e) ==> Hoistable(e.thn) && Hoistable(e.els) && Hoistable(e.cond)
    ensures InOrder(e) ==> InOrder(e.thn) && InOrder(e.els) && InOrder(e.cond)
  {
  }

  lemma LiteralValue(c: Cfg, zero: Zeros, e: Expr, env: Env) returns (z: Value)
    requires Literals(zero)
    ensures EvalExpr(c, zero(e), env) == Ok(z)
  {
    z := EvalExpr(c, zero(e), env).value;
  }

  lemma LetTemp(c: Cfg, zero: Zeros, e: Expr, temp: string, env: Env, fuel: nat, z: Value)
    requires !c.moves && env != [] && EvalExpr(c, zero(e), env) == Ok(z)
    ensures EvalStmt(c, Let(temp, zero(e)), env, fuel) == Run(Ok(Normal(Void)), Define(env, temp, z))
  {
    hide EvalExpr, Define;
  }

  lemma DefineTemp(env: Env, k: nat, z: Value, n: nat)
    requires env != [] && n <= k
    ensures TempsOnly(env, Define(env, Temp(k), z), k, k + 1)
    ensures TempsOnly(env, Define(env, Temp(k), z), n, k + 1)
  {
    MineTemp(k, k, k + 1);
    MineTemp(k, n, k + 1);
  }

  /** The two hoisted statements as one step. */
  lemma ChooseMeaning(c: Cfg, cond: Expr, zero: Expr, temp: string, yes: seq<Stmt>, no: seq<Stmt>, env: Env, fuel: nat, z: Value)
    requires env != [] && EvalStmt(c, Let(temp, zero), env, fuel) == Run(Ok(Normal(Void)), Define(env, temp, z))
    ensures var r := EvalBlock(c, [Let(temp, zero), If([Branch(cond, yes)], no)], env, fuel);
            var env1 := Define(env, temp, z);
            var kv := EvalExpr(c, cond, env1);
            r == if kv.IsFailure() then Run(kv.PropagateFailure(), env1)
                 else if !kv.value.Bool? then Run(Fault("L0408", "expected bool value"), env1)
                 else EvalScoped(c, if kv.value.b then yes else no, env1, fuel)
  {
    hide EvalExpr, EvalScoped, Define;
    var body := [Let(temp, zero), If([Branch(cond, yes)], no)];
    var env1 := Define(env, temp, z);
    assert body[1..] == [body[1]] && body[1].branches[0] == Branch(cond, yes);
    assert EvalIf(c, body[1], 1, env1, fuel) == EvalScoped(c, no, env1, fuel);
    assert EvalStmt(c, body[1], env1, fuel) == EvalIf(c, body[1], 0, env1, fuel);
    assert EvalBlock(c, body[1..], env1, fuel) == EvalStmt(c, body[1], env1, fuel);
  }

  /** One branch: its own prelude and the assignment to the temporary declared outside. */
  lemma {:induction false} BranchLowered(exact: bool, c: Cfg, zero: Zeros, parent: Expr, e: Expr, n: nat, k: nat, env: Env, fuel: nat)
    returns (w: Res<Value>)
    requires !c.moves && env != [] && e < parent && Hoistable(e) && UserExpr(e) && Literals(zero) && (exact ==> InOrder(e))
    requires Lower(zero, e, n).next <= k && Temp(k) in env[|env| - 1]
    ensures var low := Lower(zero, e, n);
            var r := EvalScoped(c, low.pre + [Assign(Temp(k), Replace, low.e)], env, fuel);
            && Like(exact, c, e, env, w)
            && r == if w.Ok? then Run(Ok(Normal(Void)), Define(env, Temp(k), w.value)) else Run(w.PropagateFailure(), env)
    decreases parent, 0, 0
  {
    hide EvalBlock, EvalStmt, TempsOnly, UserExpr, EvalExpr, Literals, Lower, Hoistable, Define, Update, Like, InOrder;
    var low := Lower(zero, e, n);
    var inner := env + [map[]];
    ExprLowered(exact, c, zero, e, n, inner, fuel);
    w := LowValue(c, low, inner, fuel);
    LikeInner(exact, c, e, env, w);
    BlockAppend(c, low.pre, [Assign(Temp(k), Replace, low.e)], inner, fuel);
    var r1 := EvalBlock(c, low.pre, inner, fuel);
    InnerOnly(env, r1.env, n, low.next);
    if r1.out.Ok? {
      OneStmt(c, Assign(Temp(k), Replace, low.e), r1.env, fuel);
      AssignMeaning(c, Temp(k), low.e, r1.env, fuel);
      if w.Ok? { TempOutside(env, r1.env, n, low.next, k, w.value); }
    }
  }

  lemma LikeInner(exact: bool, c: Cfg, e: Expr, env: Env, w: Res<Value>)
    requires Like(exact, c, e, env + [map[]], w)
    ensures Like(exact, c, e, env, w)
  {
    hide EvalExpr, Reached;
    forall y | Mentions(e, y) ensures Lookup(env + [map[]], y) == Lookup(env, y) { LookupInner(env, map[], y); }
    EvalSame(c, e, env + [map[]], env);
    if w.IsFailure() { ReachedSame(c, e, env, env + [map[]], StopOf(w)); }
  }

  /** Temporaries of a branch live in the branch's own scope. */
  lemma InnerOnly(env: Env, inner: Env, n: nat, m: nat)
    requires TempsOnly(env + [map[]], inner, n, m)
    ensures |inner| == |env| + 1 && inner[..|env|] == env
  {
    forall j | 0 <= j < |env| ensures inner[j] == env[j] { assert (env + [map[]])[j] == env[j]; }
  }

  lemma OneStmt(c: Cfg, s: Stmt, env: Env, fuel: nat)
    requires env != []
    ensures EvalBlock(c, [s], env, fuel) == EvalStmt(c, s, env, fuel)
  {
    hide EvalStmt;
  }

  lemma AssignMeaning(c: Cfg, x: string, e: Expr, env: Env, fuel: nat)
    requires !c.moves && env != []
    ensures var v, r := EvalExpr(c, e, env), EvalStmt(c, Assign(x, Replace, e), env, fuel);
            && (v.Ok? && Nearest(env, x).Some? ==> r == Run(Ok(Normal(Void)), Update(env, x, v.value)))
            && (!v.Ok? ==> r == Run(v.PropagateFailure(), env))
  {
    hide EvalExpr, Update;
  }

  /** The temporary's binding is one scope out, and nothing inside the branch shadows it. */
  lemma TempOutside(env: Env, inner: Env, n: nat, m: nat, k: nat, v: Value)
    requires env != [] && m <= k && Temp(k) in env[|env| - 1] && TempsOnly(env + [map[]], inner, n, m)
    ensures Nearest(inner, Temp(k)) == Some(|env| - 1)
    ensures Update(inner, Temp(k), v)[..|env|] == Define(env, Temp(k), v)
  {
    MineTemp(k, k, k + 1);
    assert !Mine(Temp(k), n, m) by { if Mine(Temp(k), n, m) { MineApart(Temp(k), n, m, k, k + 1); } }
    assert forall j :: 0 <= j < |env| ==> inner[j] == env[j] by { forall j | 0 <= j < |env| ensures inner[j] == env[j] { assert (env + [map[]])[j] == env[j]; } }
    assert Temp(k) !in inner[|env|];
    NearestIs(inner, Temp(k), |env| - 1);
  }

  /** After the branch: the temporary holds the branch's value, everything else is as before. */
  lemma AfterBranch(c: Cfg, env: Env, env1: Env, env2: Env, n: nat, k: nat, v: Value)
    requires env != [] && n <= k && TempsOnly(env, env1, n, k + 1) && env1 != [] && env2 == Define(env1, Temp(k), v)
    ensures TempsOnly(env, env2, n, k + 1) && EvalExpr(c, Var(Temp(k)), env2) == Ok(v)
  {
    MineTemp(k, n, k + 1);
    LookupDefine(env1, Temp(k), v, Temp(k));
  }
}

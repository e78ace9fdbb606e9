/** The intermediate representation the tree-walker, the bytecode compiler and the
    optimizer share, with the value helpers all tiers call. */
module Ir {
  import opened Words

  datatype Option<+T> = None | Some(value: T) {
    predicate IsFailure() { None? }
    function PropagateFailure<U>(): Option<U> { None }
    function Extract(): T
      requires Some?
    {
      value
    }
  }

  datatype Value =
    | I64(n: i64)
    | Bool(b: bool)
    | Str(text: string)
    | Void
    | Func(name: string)
    | Array(elems: seq<Value>)
    | Struct(ty: string, fields: seq<Member>)

  datatype Member = Member(name: string, value: Value)

  datatype Error = Error(code: string, message: string)

  /** `NoResult` stands for a run that produces neither a value nor an error code:
      a loop that does not end, here or in a callee. */
  datatype Res<+T> = Ok(value: T) | Err(error: Error) | NoResult {
    predicate IsFailure() { !Ok? }
    function PropagateFailure<U>(): Res<U>
      requires IsFailure()
    {
      if Err? then Err(error) else NoResult
    }
    function Extract(): T
      requires !IsFailure()
    {
      value
    }
  }

  datatype UnaryOp = Not | BitNot | Negate

  datatype BinaryOp =
    | Add | Subtract | Multiply | Divide | Remainder
    | Equal | NotEqual | Less | LessEqual | Greater | GreaterEqual
    | And | Or
    | BitAnd | BitOr | BitXor | Shl | Shr

  datatype AssignOp = Replace | AddTo | SubtractFrom | MultiplyBy | DivideBy | RemainderBy

  /** `Cond` is the surface inline conditional; lowering removes it. */
  datatype Expr =
    | Int(n: i64)
    | BoolLit(b: bool)
    | StrLit(text: string)
    | ArrayLit(elems: seq<Expr>)
    | Var(name: string)
    | Index(target: Expr, index: Expr)
    | Field(target: Expr, field: string)
    | Unary(uop: UnaryOp, operand: Expr)
    | Binary(left: Expr, op: BinaryOp, right: Expr)
    | Call(callee: string, args: seq<Expr>)
    | Cond(thn: Expr, cond: Expr, els: Expr)

  datatype Branch = Branch(cond: Expr, body: seq<Stmt>)

  datatype Stmt =
    | Let(name: string, value: Expr)
    | Assign(name: string, op: AssignOp, value: Expr)
    | Return(result: Option<Expr>)
    | Break
    | Continue
    | ExprStmt(value: Expr)
    | If(branches: seq<Branch>, orelse: seq<Stmt>)
    | While(cond: Expr, body: seq<Stmt>)
    | For(name: string, start: Expr, end: Expr, step: Option<Expr>, body: seq<Stmt>)
    | Loop(body: seq<Stmt>)
    | Region(body: seq<Stmt>)
    | Throw(value: Expr)
    | Try(body: seq<Stmt>, catchName: string, catchBody: seq<Stmt>)

  datatype Function = Function(name: string, params: seq<string>, body: seq<Stmt>)

  // ---- Value helpers ----

  function Fault<T>(code: string, message: string): Res<T> {
    Err(Error(code, message))
  }

  function AsI64(v: Value): Res<i64> {
    if v.I64? then Ok(v.n) else Fault("L0407", "expected i64 value")
  }

  function AsBool(v: Value): Res<bool> {
    if v.Bool? then Ok(v.b) else Fault("L0408", "expected bool value")
  }

  function AsString(v: Value): Res<string> {
    if v.Str? then Ok(v.text) else Fault("L0417", "expected string value")
  }

  /** An operand of `+=` on text. */
  function AsConcatString(v: Value): Res<string> {
    if v.Str? then Ok(v.text) else Fault("L0417", "expected string or char value")
  }

  /** The three errors a value conversion raises on a value of another type: not an integer,
      not a boolean, not a piece of text to concatenate. The semantic checker rules them out.
      The tiers check some operands at different moments or not at all. Any other error with
      one of these codes is not among them. */
  predicate TypeFault(e: Error) {
    || e == Error("L0407", "expected i64 value")
    || e == Error("L0408", "expected bool value")
    || e == Error("L0417", "expected string or char value")
  }

  /** Errors the semantic checker rules out: an operand of another type, an unbound name, a
      missing field. */
  predicate Unchecked(e: Error) { TypeFault(e) || e.code == "L0403" || e.code == "L0371" }

  predicate Ruled<T>(r: Res<T>) { r.Err? && Unchecked(r.error) }

  function IndexInto(container: Value, index: i64): Res<Value> {
    match container
    case Str(text) =>
      if 0 <= index < |text| then Ok(Str([text[index]])) else Fault("L0413", "string index is out of bounds")
    case Array(elems) =>
      if 0 <= index < |elems| then Ok(elems[index]) else Fault("L0413", "array index is out of bounds")
    case _ => Fault("L0412", "index target is not an array")
  }

  function FindMember(fields: seq<Member>, field: string): Res<Value> {
    if fields == [] then Fault("L0371", "no field " + field)
    else if fields[0].name == field then Ok(fields[0].value)
    else FindMember(fields[1..], field)
  }

  function FieldOf(target: Value, field: string): Res<Value> {
    if target.Struct? then FindMember(target.fields, field)
    else Fault("L0371", "cannot access a field on a non-struct value")
  }

  function EvalUnary(op: UnaryOp, v: Value): Res<Value> {
    match op
    case Not => var b :- AsBool(v); Ok(Bool(!b))
    case BitNot => var n :- AsI64(v); Ok(I64(Words.BitNot(n)))
    case Negate => var n :- AsI64(v); Ok(I64(Wrap(0 - n)))
  }

  /** Lexicographic order by character, as strings compare. */
  predicate StrLess(a: string, b: string) {
    if b == [] then false
    else if a == [] then true
    else a[0] < b[0] || (a[0] == b[0] && StrLess(a[1..], b[1..]))
  }

  function Compare(op: BinaryOp, less: bool, equal: bool): bool
    requires op.Less? || op.LessEqual? || op.Greater? || op.GreaterEqual?
  {
    match op
    case Less => less
    case LessEqual => less || equal
    case Greater => !less && !equal
    case GreaterEqual => !less
  }

  /** Strict binary operators; `and`/`or` never reach here. The divisor is checked
      before the dividend is looked at. */
  function EvalBinary(left: Value, op: BinaryOp, right: Value): Res<Value>
    requires op != And && op != Or
  {
    match op
    case Equal => Ok(Bool(left == right))
    case NotEqual => Ok(Bool(left != right))
    case Add =>
      if left.Str? && right.Str? then Ok(Str(left.text + right.text))
      else var l :- AsI64(left); var r :- AsI64(right); Ok(I64(Wrap(l + r)))
    case Subtract => var l :- AsI64(left); var r :- AsI64(right); Ok(I64(Wrap(l - r)))
    case Multiply => var l :- AsI64(left); var r :- AsI64(right); Ok(I64(Wrap(l * r)))
    case Divide =>
      var r :- AsI64(right);
      if r == 0 then Fault("L0404", "division by zero")
      else var l :- AsI64(left); Ok(I64(WrappingDiv(l, r)))
    case Remainder =>
      var r :- AsI64(right);
      if r == 0 then Fault("L0404", "remainder by zero")
      else var l :- AsI64(left); Ok(I64(WrappingRem(l, r)))
    case BitAnd => var l :- AsI64(left); var r :- AsI64(right); Ok(I64(Bits64(AndBits, l, r)))
    case BitOr => var l :- AsI64(left); var r :- AsI64(right); Ok(I64(Bits64(OrBits, l, r)))
    case BitXor => var l :- AsI64(left); var r :- AsI64(right); Ok(I64(Bits64(XorBits, l, r)))
    case Shl => var l :- AsI64(left); var r :- AsI64(right); Ok(I64(ShiftLeft(l, r)))
    case Shr => var l :- AsI64(left); var r :- AsI64(right); Ok(I64(ShiftRight(l, r)))
    case Less | LessEqual | Greater | GreaterEqual =>
      if left.Str? && right.Str? then Ok(Bool(Compare(op, StrLess(left.text, right.text), left.text == right.text)))
      else var l :- AsI64(left); var r :- AsI64(right); Ok(Bool(Compare(op, l < r, l == r)))
  }

  function AssignBinop(op: AssignOp): BinaryOp
    requires op != Replace
  {
    match op
    case AddTo => Add
    case SubtractFrom => Subtract
    case MultiplyBy => Multiply
    case DivideBy => Divide
    case RemainderBy => Remainder
  }

  /** `apply_compound`: unlike `EvalBinary` it checks the current value's type first,
      and a string target reports a bad piece with its own code. */
  function ApplyCompound(current: Value, op: AssignOp, rhs: Value): Res<Value>
    requires op != Replace
  {
    if current.Str? && op == AddTo then
      var piece :- AsConcatString(rhs); Ok(Str(current.text + piece))
    else
      var a :- AsI64(current);
      var b :- AsI64(rhs);
      match op
      case AddTo => Ok(I64(Wrap(a + b)))
      case SubtractFrom => Ok(I64(Wrap(a - b)))
      case MultiplyBy => Ok(I64(Wrap(a * b)))
      case DivideBy => if b == 0 then Fault("L0404", "division by zero") else Ok(I64(WrappingDiv(a, b)))
      case RemainderBy => if b == 0 then Fault("L0404", "remainder by zero") else Ok(I64(WrappingRem(a, b)))
  }

  // ---- Scopes, innermost last ----

  type Scopes<V> = seq<map<string, V>>

  /** The innermost scope that binds `x`. */
  function Nearest<V>(env: Scopes<V>, x: string): (k: Option<nat>)
    ensures k.Some? ==> k.value < |env| && x in env[k.value] && forall j :: k.value < j < |env| ==> x !in env[j]
    ensures k.None? ==> forall j :: 0 <= j < |env| ==> x !in env[j]
  {
    if env == [] then None
    else if x in env[|env| - 1] then Some(|env| - 1)
    else Nearest(env[..|env| - 1], x)
  }

  function Lookup<V>(env: Scopes<V>, x: string): Option<V> {
    match Nearest(env, x)
    case Some(k) => Some(env[k][x])
    case None => None
  }

  function Define<V>(env: Scopes<V>, x: string, v: V): (r: Scopes<V>)
    requires env != []
    ensures |r| == |env|
  {
    env[|env| - 1 := env[|env| - 1][x := v]]
  }

  /** Overwrite the nearest binding of `x`; unbound names leave the scopes alone. */
  function Update<V>(env: Scopes<V>, x: string, v: V): (r: Scopes<V>)
    ensures |r| == |env|
  {
    match Nearest(env, x)
    case Some(k) => env[k := env[k][x := v]]
    case None => env
  }

  /** `Nearest` is determined by its contract. */
  lemma NearestIs<V>(env: Scopes<V>, x: string, k: nat)
    requires k < |env| && x in env[k] && forall j :: k < j < |env| ==> x !in env[j]
    ensures Nearest(env, x) == Some(k)
  {
  }
}

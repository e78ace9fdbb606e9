/** Emitting a program: which functions are compiled, how they are laid out, and what the linker
    makes of the object. */
module A64Emit {
  import opened Ir
  import opened A64Isa
  import opened A64Codec
  import opened A64Gen
  import opened A64FnGen
  import opened A64Idioms
  import opened A64Machine
  import opened A64Typing
  import opened A64Program

  // ---- Which functions lower, as the callable set grows ----

  lemma {:induction false} ExprMonotone(locals: set<string>, a: set<string>, b: set<string>, e: Expr)
    requires a <= b && LowersExpr(locals, a, e)
    ensures LowersExpr(locals, b, e)
    decreases e, 1
  {
    match e
    case Unary(_, x) => ExprMonotone(locals, a, b, x);
    case Binary(l, _, r) =>
      ExprMonotone(locals, a, b, l);
      ExprMonotone(locals, a, b, r);
    case Call(_, args) => ArgsMonotone(locals, a, b, args);
    case _ =>
  }

  lemma {:induction false} ArgsMonotone(locals: set<string>, a: set<string>, b: set<string>, es: seq<Expr>)
    requires a <= b && LowersArgs(locals, a, es)
    ensures LowersArgs(locals, b, es)
    decreases es, 0
  {
    if es != [] {
      ExprMonotone(locals, a, b, es[0]);
      ArgsMonotone(locals, a, b, es[1..]);
    }
  }

  lemma {:induction false} StmtMonotone(locals: set<string>, a: set<string>, b: set<string>, s: Stmt, inLoop: bool)
    requires a <= b && LowersStmt(locals, a, s, inLoop)
    ensures LowersStmt(locals, b, s, inLoop)
    decreases s, 1
  {
    hide LowersExpr;
    match s
    case Let(_, e) => ExprMonotone(locals, a, b, e);
    case Assign(_, _, e) => ExprMonotone(locals, a, b, e);
    case Return(e) => ExprMonotone(locals, a, b, e.value);
    case ExprStmt(e) => ExprMonotone(locals, a, b, e);
    case If(_, orelse) =>
      IfMonotone(locals, a, b, s, 0, inLoop);
      BlockMonotone(locals, a, b, orelse, inLoop);
    case While(cond, body) =>
      ExprMonotone(locals, a, b, cond);
      BlockMonotone(locals, a, b, body, true);
    case For(_, start, end, step, body) =>
      ExprMonotone(locals, a, b, start);
      ExprMonotone(locals, a, b, end);
      ExprMonotone(locals, a, b, StepExpr(step));
      BlockMonotone(locals, a, b, body, true);
    case Loop(body) => BlockMonotone(locals, a, b, body, true);
    case Region(body) => BlockMonotone(locals, a, b, body, inLoop);
    case Break =>
    case Continue =>
  }

  lemma {:induction false} IfMonotone(locals: set<string>, a: set<string>, b: set<string>, s: Stmt, i: nat, inLoop: bool)
    requires s.If? && i <= |s.branches| && a <= b && LowersIf(locals, a, s, i, inLoop)
    ensures LowersIf(locals, b, s, i, inLoop)
    decreases s, 0, |s.branches| - i
  {
    hide LowersExpr;
    if i < |s.branches| {
      ExprMonotone(locals, a, b, s.branches[i].cond);
      BlockMonotone(locals, a, b, s.branches[i].body, inLoop);
      IfMonotone(locals, a, b, s, i + 1, inLoop);
    }
  }

  lemma {:induction false} BlockMonotone(locals: set<string>, a: set<string>, b: set<string>, body: seq<Stmt>, inLoop: bool)
    requires a <= b && LowersBlock(locals, a, body, inLoop)
    ensures LowersBlock(locals, b, body, inLoop)
    decreases body, 0
  {
    if body != [] {
      StmtMonotone(locals, a, b, body[0], inLoop);
      BlockMonotone(locals, a, b, body[1..], inLoop);
    }
  }

  lemma FunctionMonotone(f: Function, a: set<string>, b: set<string>)
    requires a <= b && LowersFunction(f, a)
    ensures LowersFunction(f, b)
  {
    hide LowersBlock, SlotMap, Locals;
    BlockMonotone(SlotMap(Locals(f)).Keys, a, b, f.body, false);
  }

  // ---- Eligibility ----

  /** A function as declared: its body and its types' names. */
  datatype Declared = Declared(fn: Function, paramTypes: seq<string>, returnType: string)

  predicate IsScalarType(ty: string) { ty == "i64" || ty == "bool" }

  /** At most eight scalar parameters, a scalar result, and no parameters for `main`. */
  predicate SignatureEligible(d: Declared) {
    && |d.fn.params| <= 8 && |d.paramTypes| == |d.fn.params| && (forall t :: t in d.paramTypes ==> IsScalarType(t))
    && IsScalarType(d.returnType) && (d.fn.name == "main" ==> d.fn.params == [])
  }

  /** Functions are listed once, under their own names. */
  ghost predicate Listed(m: Module, decls: seq<Declared>) {
    && (forall i :: 0 <= i < |decls| ==> decls[i].fn.name in m.functions && m.functions[decls[i].fn.name] == decls[i].fn)
    && forall i, j :: 0 <= i < j < |decls| ==> decls[i].fn.name != decls[j].fn.name
  }

  /** A set of functions each of which lowers with calls only into the set. */
  ghost predicate Closed(m: Module, names: set<string>) {
    forall f :: f in names ==> f in m.functions && LowersFunction(m.functions[f], names)
  }

  ghost predicate Names(decls: seq<Declared>, x: string) { exists i :: 0 <= i < |decls| && decls[i].fn.name == x }

  ghost predicate EligibleNames(decls: seq<Declared>, names: set<string>) {
    forall x :: x in names ==> exists i :: 0 <= i < |decls| && decls[i].fn.name == x && SignatureEligible(decls[i])
  }

  function Elements(names: seq<string>): set<string> { set x | x in names }

  function Without(names: seq<string>, x: string): seq<string> {
    if names == [] then []
    else (if names[0] == x then [] else [names[0]]) + Without(names[1..], x)
  }

  lemma {:induction false} WithoutFacts(names: seq<string>, x: string)
    ensures forall y :: y in Without(names, x) <==> y in names && y != x
    ensures NoRepeats(names) ==> NoRepeats(Without(names, x))
    ensures |Without(names, x)| <= |names| && (x in names ==> |Without(names, x)| < |names|)
  {
    if names != [] {
      WithoutFacts(names[1..], x);
      var rest, all := Without(names[1..], x), Without(names, x);
      if NoRepeats(names) {
        assert NoRepeats(names[1..]);
        if names[0] != x {
          assert names[0] !in names[1..];
          forall i, j | 0 <= i < j < |all| ensures all[i] != all[j] {
            assert all[j] == rest[j - 1];
            if i > 0 { assert all[i] == rest[i - 1]; } else { assert rest[j - 1] in rest; }
          }
        } else {
          assert all == rest;
        }
      }
    }
  }

  lemma AppendNew(names: seq<string>, x: string)
    requires NoRepeats(names) && x !in names
    ensures NoRepeats(names + [x])
  {
  }

  /** Every function in exactly one of the two lists, once. */
  ghost predicate Split(decls: seq<Declared>, compiled: seq<string>, skipped: seq<string>) {
    && NoRepeats(compiled) && NoRepeats(skipped)
    && (forall x :: x in compiled ==> x !in skipped)
    && forall x :: Names(decls, x) <==> x in compiled || x in skipped
  }

  /** The greatest closed set of signature-eligible functions. */
  ghost predicate Greatest(m: Module, decls: seq<Declared>, names: set<string>) {
    && Closed(m, names) && EligibleNames(decls, names)
    && forall other :: Closed(m, other) && EligibleNames(decls, other) ==> other <= names
  }

  /** There is only one such set, so the order of demotions does not matter. */
  lemma GreatestUnique(m: Module, decls: seq<Declared>, a: set<string>, b: set<string>)
    requires Greatest(m, decls, a) && Greatest(m, decls, b)
    ensures a == b
  {
    hide Closed, EligibleNames;
    assert a <= b && b <= a;
  }

  method SignatureSplit(decls: seq<Declared>, ghost m: Module) returns (eligible: seq<string>, skipped: seq<string>)
    requires Listed(m, decls)
    ensures Split(decls, eligible, skipped) && EligibleNames(decls, Elements(eligible))
    ensures forall i :: 0 <= i < |decls| && SignatureEligible(decls[i]) ==> decls[i].fn.name in eligible
  {
    eligible, skipped := [], [];
    var i := 0;
    while i < |decls|
      invariant i <= |decls| && NoRepeats(eligible) && NoRepeats(skipped)
      invariant forall x :: x in eligible ==> exists j :: 0 <= j < i && decls[j].fn.name == x && SignatureEligible(decls[j])
      invariant forall x :: x in skipped ==> exists j :: 0 <= j < i && decls[j].fn.name == x && !SignatureEligible(decls[j])
      invariant forall j :: 0 <= j < i ==> decls[j].fn.name in if SignatureEligible(decls[j]) then eligible else skipped
    {
      hide SignatureEligible;
      var x := decls[i].fn.name;
      assert x !in eligible && x !in skipped;
      if SignatureEligible(decls[i]) {
        AppendNew(eligible, x);
        eligible := eligible + [decls[i].fn.name];
      } else {
        AppendNew(skipped, x);
        skipped := skipped + [decls[i].fn.name];
      }
      i := i + 1;
    }
  }

  // ---- The fixpoint ----

  function Origin(names: seq<string>): nat { if "main" in names then STUB else 0 }

  lemma ListedPlaceable(m: Module, decls: seq<Declared>, names: seq<string>)
    requires Listed(m, decls) && EligibleNames(decls, Elements(names))
    ensures Placeable(m, names)
  {
    forall f | f in names ensures f in m.functions && m.functions[f].name == f && |m.functions[f].params| <= 8 {
      assert f in Elements(names);
    }
  }

  /** What the words of one lowered function are, in the layout of `names`. */
  ghost predicate LoweredAs(m: Module, names: seq<string>, name: string, l: LoweredFn)
    requires Placeable(m, names) && name in names
  {
    var starts := Starts(m, names, Origin(names));
    name in starts &&
    var code := GenFunction(GenAt(m.functions[name], starts, starts[name]), m.functions[name]);
    && |l.code| == |code| && (forall k :: 0 <= k < |code| ==> l.code[k] == Encode(Resolved(code[k])))
    && CallsSound(l.calls, code, Relative(starts, starts[name])) && WithinReach(code)
  }

  /** One attempt: every candidate is lowered against the whole candidate set; the first one
      that fails is reported. */
  method LowerAll(m: Module, names: seq<string>) returns (lowered: seq<LoweredFn>, failed: Option<string>)
    requires Placeable(m, names)
    ensures failed.Some? ==> failed.value in names && !LowersFunction(m.functions[failed.value], Elements(names))
    ensures failed.None? ==> |lowered| == |names| && forall i :: 0 <= i < |names| ==> LoweredAs(m, names, names[i], lowered[i])
    ensures failed.None? ==> forall f :: f in names ==> LowersFunction(m.functions[f], Elements(names))
  {
    hide LowersFunction, GenFunction, Starts, CallsSound, Encode, GenOf, WithinReach;
    ghost var starts := Starts(m, names, Origin(names));
    StartsKeys(m, names, Origin(names));
    lowered := [];
    while |lowered| < |names|
      invariant |lowered| <= |names|
      invariant forall i :: 0 <= i < |lowered| ==> LoweredAs(m, names, names[i], lowered[i])
      invariant forall i :: 0 <= i < |lowered| ==> LowersFunction(m.functions[names[i]], Elements(names))
      decreases |names| - |lowered|
    {
      var name := names[|lowered|];
      assert name in names;
      RelativeKeys(names, starts, starts[name]);
      var r := LowerFunction(m.functions[name], Elements(names), Relative(starts, starts[name]));
      if r.None? { return lowered, Some(name); }
      lowered := lowered + [r.value];
    }
    return lowered, None;
  }

  /** Demoting the first failing function and trying again ends with the greatest closed set of
      eligible functions, all of them lowered. */
  method Fixpoint(m: Module, decls: seq<Declared>) returns (compiled: seq<string>, skipped: seq<string>, lowered: seq<LoweredFn>)
    requires Listed(m, decls)
    ensures Split(decls, compiled, skipped) && Greatest(m, decls, Elements(compiled)) && Placeable(m, compiled)
    ensures |lowered| == |compiled| && forall i :: 0 <= i < |compiled| ==> LoweredAs(m, compiled, compiled[i], lowered[i])
  {
    hide LowersFunction, SignatureEligible, LoweredAs;
    compiled, skipped := SignatureSplit(decls, m);
    assert forall other :: Closed(m, other) && EligibleNames(decls, other) ==> other <= Elements(compiled) by {
      EligibleAll(m, decls, compiled);
    }
    lowered := [];
    var failed := Some("");
    while failed.Some?
      invariant Split(decls, compiled, skipped) && EligibleNames(decls, Elements(compiled))
      invariant forall other :: Closed(m, other) && EligibleNames(decls, other) ==> other <= Elements(compiled)
      invariant failed.None? ==> Closed(m, Elements(compiled)) && Placeable(m, compiled) && |lowered| == |compiled|
      invariant failed.None? ==> forall i :: 0 <= i < |compiled| ==> LoweredAs(m, compiled, compiled[i], lowered[i])
      decreases failed.Some?, |compiled|
    {
      ListedPlaceable(m, decls, compiled);
      lowered, failed := LowerAll(m, compiled);
      if failed.Some? {
        Demoted(m, decls, compiled, skipped, failed.value);
        compiled, skipped := Without(compiled, failed.value), skipped + [failed.value];
      } else {
        assert Closed(m, Elements(compiled));
      }
    }
  }

  lemma EligibleAll(m: Module, decls: seq<Declared>, names: seq<string>)
    requires forall i :: 0 <= i < |decls| && SignatureEligible(decls[i]) ==> decls[i].fn.name in names
    ensures forall other :: Closed(m, other) && EligibleNames(decls, other) ==> other <= Elements(names)
  {
    hide SignatureEligible, Closed;
  }

  lemma FewerEligible(decls: seq<Declared>, a: set<string>, b: set<string>)
    requires EligibleNames(decls, a) && b <= a
    ensures EligibleNames(decls, b)
  {
    hide SignatureEligible;
  }

  lemma SplitDemoted(decls: seq<Declared>, names: seq<string>, skipped: seq<string>, x: string)
    requires Split(decls, names, skipped) && x in names
    ensures Split(decls, Without(names, x), skipped + [x])
  {
    hide Names;
    WithoutFacts(names, x);
    AppendNew(skipped, x);
  }

  /** A function that does not lower against the candidates is in no closed set. */
  lemma Demoted(m: Module, decls: seq<Declared>, names: seq<string>, skipped: seq<string>, x: string)
    requires Split(decls, names, skipped) && EligibleNames(decls, Elements(names)) && x in names && x in m.functions
    requires !LowersFunction(m.functions[x], Elements(names))
    requires forall other :: Closed(m, other) && EligibleNames(decls, other) ==> other <= Elements(names)
    ensures Split(decls, Without(names, x), skipped + [x]) && EligibleNames(decls, Elements(Without(names, x)))
    ensures forall other :: Closed(m, other) && EligibleNames(decls, other) ==> other <= Elements(Without(names, x))
    ensures |Without(names, x)| < |names|
  {
    hide LowersFunction, EligibleNames, Split;
    WithoutFacts(names, x);
    SplitDemoted(decls, names, skipped, x);
    FewerEligible(decls, Elements(names), Elements(Without(names, x)));
    forall other | Closed(m, other) && EligibleNames(decls, other) ensures other <= Elements(Without(names, x)) {
      if x in other { FunctionMonotone(m.functions[x], other, Elements(names)); }
    }
  }

  // ---- The object's text section ----

  function Shifted(calls: seq<CallSite>, base: nat): seq<CallSite> {
    seq(|calls|, i requires 0 <= i < |calls| => CallSite(calls[i].offset + base, calls[i].symbol))
  }

  lemma FirstCall(a: seq<CallSite>, p: seq<Instr>, b: seq<CallSite>, q: seq<Instr>, starts: map<string, int>, j: nat)
    requires CallsSound(a, p, starts) && j < |a|
    ensures var r := (a + Shifted(b, |p|))[j];
            r.offset < |p + q| && r.symbol in starts && (p + q)[r.offset] == Bl(starts[r.symbol] - r.offset)
  {
    hide Shifted;
  }

  lemma SecondCall(a: seq<CallSite>, p: seq<Instr>, b: seq<CallSite>, q: seq<Instr>, starts: map<string, int>, j: nat)
    requires CallsSound(b, q, Relative(starts, |p|)) && j < |b|
    ensures var r := (a + Shifted(b, |p|))[|a| + j];
            r.offset < |p + q| && r.symbol in starts && (p + q)[r.offset] == Bl(starts[r.symbol] - r.offset)
  {
    assert (a + Shifted(b, |p|))[|a| + j] == CallSite(b[j].offset + |p|, b[j].symbol);
    assert q[b[j].offset] == Bl(Relative(starts, |p|)[b[j].symbol] - b[j].offset);
  }

  /** Relocations of a part moved behind another part. */
  lemma CallsJoined(a: seq<CallSite>, p: seq<Instr>, b: seq<CallSite>, q: seq<Instr>, starts: map<string, int>)
    requires CallsSound(a, p, starts) && CallsSound(b, q, Relative(starts, |p|))
    ensures CallsSound(a + Shifted(b, |p|), p + q, starts)
  {
    var all, code := a + Shifted(b, |p|), p + q;
    CallsFound(a, p, b, q, starts);
    forall j | 0 <= j < |all|
      ensures all[j].offset < |code| && all[j].symbol in starts && code[all[j].offset] == Bl(starts[all[j].symbol] - all[j].offset)
    {
      hide CallsSound;
      if j < |a| { FirstCall(a, p, b, q, starts, j); } else { SecondCall(a, p, b, q, starts, j - |a|); }
    }
    hide Relative;
  }

  lemma CallsFound(a: seq<CallSite>, p: seq<Instr>, b: seq<CallSite>, q: seq<Instr>, starts: map<string, int>)
    requires CallsSound(a, p, starts) && CallsSound(b, q, Relative(starts, |p|))
    ensures var all, code := a + Shifted(b, |p|), p + q;
            forall k :: 0 <= k < |code| && code[k].Bl? ==> exists j :: 0 <= j < |all| && all[j].offset == k
  {
    var all, code := a + Shifted(b, |p|), p + q;
    forall k | 0 <= k < |code| && code[k].Bl? ensures exists j :: 0 <= j < |all| && all[j].offset == k {
      if k < |p| {
        var j :| 0 <= j < |a| && a[j].offset == k;
        assert all[j].offset == k;
      } else {
        assert q[k - |p|].Bl?;
        var j :| 0 <= j < |b| && b[j].offset == k - |p|;
        assert all[|a| + j].offset == k;
      }
    }
  }

  /** Words standing for instructions, calls blank. */
  ghost predicate Stands(text: seq<bv32>, code: seq<Instr>) {
    |text| == |code| && forall k :: 0 <= k < |code| ==> text[k] == Encode(Resolved(code[k]))
  }

  lemma StandsJoined(a: seq<bv32>, p: seq<Instr>, b: seq<bv32>, q: seq<Instr>)
    requires Stands(a, p) && Stands(b, q)
    ensures Stands(a + b, p + q)
  {
    hide Encode, Resolved;
  }

  function NopWords(n: nat): (text: seq<bv32>)
    ensures |text| == n
  {
    seq(n, _ => Encode(Nop))
  }

  lemma ReachJoined(p: seq<Instr>, q: seq<Instr>)
    requires WithinReach(p) && WithinReach(q)
    ensures WithinReach(p + q)
  {
    hide Encodable;
  }

  lemma NopsReach(n: nat)
    ensures WithinReach(Nops(n))
  {
  }

  lemma NopsSound(n: nat, starts: map<string, int>)
    ensures CallsSound([], Nops(n), starts)
  {
  }

  /** The image is `code` so far and the functions from `i` on. */
  ghost predicate ImageFrom(m: Module, names: seq<string>, i: nat, code: seq<Instr>)
    requires Placeable(m, names) && i <= |names|
  {
    Image(m, names) == code + Text(m, names[i..], |code|, Starts(m, names, Origin(names)))
  }

  /** The functions before `i` have their offsets, the others will begin where they should. */
  ghost predicate OffsetsTo(m: Module, names: seq<string>, i: nat, at: nat, offsets: map<string, nat>)
    requires Placeable(m, names) && i <= |names|
  {
    var starts := Starts(m, names, Origin(names));
    && (forall f :: f in offsets <==> f in names[..i]) && (forall f :: f in names[..i] ==> f in starts && offsets[f] == starts[f])
    && Ahead(m, names, i, at, starts)
  }

  /** What has been laid out: `code` so far, and the rest of the image still to come. */
  ghost predicate LaidOut(m: Module, names: seq<string>, i: nat, text: seq<bv32>, relocs: seq<CallSite>, offsets: map<string, nat>, code: seq<Instr>)
    requires Placeable(m, names) && i <= |names|
  {
    && Stands(text, code) && CallsSound(relocs, code, Starts(m, names, Origin(names)))
    && ImageFrom(m, names, i, code) && OffsetsTo(m, names, i, |code|, offsets) && WithinReach(code)
  }

  /** The text section, its relocations and the functions' offsets. */
  method BuildText(m: Module, names: seq<string>, lowered: seq<LoweredFn>)
    returns (text: seq<bv32>, relocs: seq<CallSite>, offsets: map<string, nat>)
    requires Placeable(m, names) && NoRepeats(names) && |lowered| == |names|
    requires forall i :: 0 <= i < |names| ==> LoweredAs(m, names, names[i], lowered[i])
    ensures Stands(text, Image(m, names)) && CallsSound(relocs, Image(m, names), Starts(m, names, Origin(names)))
    ensures WithinReach(Image(m, names))
    ensures offsets.Keys == Elements(names) && forall f :: f in names ==> f in Starts(m, names, Origin(names)) && offsets[f] == Starts(m, names, Origin(names))[f]
  {
    hide LoweredAs, Starts, Text, Image, Encode, CallsSound, Stands, Stub;
    ghost var code;
    text, relocs, code := StubText(m, names);
    offsets := map[];
    var i := 0;
    while i < |names|
      invariant i <= |names| && LaidOut(m, names, i, text, relocs, offsets, code)
    {
      assert LoweredAs(m, names, names[i], lowered[i]);
      text, relocs, offsets, code := PlaceFunction(m, names, i, lowered[i], text, relocs, offsets, code);
      i := i + 1;
    }
    assert names[..i] == names && names[i..] == [];
    assert Text(m, [], |code|, Starts(m, names, Origin(names))) == [] by { TextNone(m, |code|, Starts(m, names, Origin(names))); }
    assert Image(m, names) == code + [] == code;
  }

  lemma TextNone(m: Module, at: nat, starts: map<string, int>)
    ensures Text(m, [], at, starts) == []
  {
  }

  /** `_start`, when there is a `main` to call. */
  method StubText(m: Module, names: seq<string>) returns (text: seq<bv32>, relocs: seq<CallSite>, ghost code: seq<Instr>)
    requires Placeable(m, names)
    ensures LaidOut(m, names, 0, text, relocs, map[], code)
  {
    hide Starts, Text, Encode, GenFunction;
    ghost var starts := Starts(m, names, Origin(names));
    StartsKeys(m, names, Origin(names));
    assert names[0..] == names;
    if "main" in names {
      text, relocs := [Encode(Bl(0)), Encode(MovZ(8, 93, 0)), Encode(Svc), Encode(Brk)], [CallSite(0, "main")];
      code := Stub(starts["main"]);
      StubSound(starts);
    } else {
      text, relocs, code := [], [], [];
    }
  }

  lemma StubSound(starts: map<string, int>)
    requires "main" in starts
    ensures CallsSound([CallSite(0, "main")], Stub(starts["main"]), starts)
    ensures Stands([Encode(Bl(0)), Encode(MovZ(8, 93, 0)), Encode(Svc), Encode(Brk)], Stub(starts["main"]))
    ensures WithinReach(Stub(starts["main"]))
  {
    hide Encode, CallsSound;
    StubCalls(starts);
  }

  lemma StubCalls(starts: map<string, int>)
    requires "main" in starts
    ensures CallsSound([CallSite(0, "main")], Stub(starts["main"]), starts)
  {
    var code := Stub(starts["main"]);
    assert code[0].Bl? && code[1].MovZ? && code[2].Svc? && code[3].Brk?;
    assert [CallSite(0, "main")][0].offset == 0;
  }

  method PlaceFunction(m: Module, names: seq<string>, i: nat, l: LoweredFn, text: seq<bv32>, relocs: seq<CallSite>, offsets: map<string, nat>,
                       ghost code: seq<Instr>)
    returns (text': seq<bv32>, relocs': seq<CallSite>, offsets': map<string, nat>, ghost code': seq<Instr>)
    requires Placeable(m, names) && NoRepeats(names) && i < |names| && LoweredAs(m, names, names[i], l)
    requires LaidOut(m, names, i, text, relocs, offsets, code)
    ensures LaidOut(m, names, i + 1, text', relocs', offsets', code')
  {
    hide LoweredAs, Starts, Text, Image, Encode, CallsSound, Stands, LaidOut, GenFunction, GenAt;
    ghost var starts := Starts(m, names, Origin(names));
    text' := text;
    assert |text| == |code| by { LaidLength(m, names, i, text, relocs, offsets, code); }
    while |text'| % 4 != 0
      invariant |text| <= |text'| <= |text| + Padding(|text|) && text' == text + NopWords(|text'| - |text|)
      decreases |text| + Padding(|text|) - |text'|
    {
      text' := text' + [Encode(Nop)];
    }
    assert |text'| == |text| + Padding(|text|);
    offsets' := offsets[names[i] := |text'|];
    relocs' := relocs + Shifted(l.calls, |text'|);
    text' := text' + l.code;
    code' := code + Nops(Padding(|code|)) + GenFunction(GenAt(m.functions[names[i]], starts, |code| + Padding(|code|)), m.functions[names[i]]);
    PlacedNext(m, names, i, l, text, relocs, offsets, code);
  }

  lemma LaidLength(m: Module, names: seq<string>, i: nat, text: seq<bv32>, relocs: seq<CallSite>, offsets: map<string, nat>, code: seq<Instr>)
    requires Placeable(m, names) && i <= |names| && LaidOut(m, names, i, text, relocs, offsets, code)
    ensures |text| == |code|
  {
    hide Encode, CallsSound, ImageFrom, OffsetsTo;
  }

  /** The head of the remaining functions and what follows it. */
  lemma TextNext(m: Module, names: seq<string>, i: nat, at: nat, starts: map<string, int>)
    requires Placeable(m, names) && i < |names|
    ensures var start, f := at + Padding(at), m.functions[names[i]];
            && Text(m, names[i..], at, starts)
               == Nops(Padding(at)) + GenFunction(GenAt(f, starts, start), f) + Text(m, names[i + 1..], start + FunctionLen(f), starts)
            && |GenFunction(GenAt(f, starts, start), f)| == FunctionLen(f)
  {
    hide GenFunction, GenAt, FunctionLen, Padding;
    assert names[i..][0] == names[i] && names[i..][1..] == names[i + 1..];
    HeadLength(m.functions[names[i]], starts, at + Padding(at));
  }

  lemma StartsNext(m: Module, order: seq<string>, at: nat)
    requires Placeable(m, order) && NoRepeats(order) && order != []
    ensures var start := at + Padding(at); var more := Starts(m, order[1..], start + FunctionLen(m.functions[order[0]]));
            && order[0] in Starts(m, order, at) && Starts(m, order, at)[order[0]] == start
            && forall f :: f in order[1..] ==> f in more && f in Starts(m, order, at) && Starts(m, order, at)[f] == more[f]
  {
    hide FunctionLen, Padding;
    StartsKeys(m, order[1..], at + Padding(at) + FunctionLen(m.functions[order[0]]));
    assert order[0] !in order[1..];
  }

  lemma Tails(names: seq<string>, i: nat)
    requires i < |names|
    ensures names[i..][0] == names[i] && names[i..][1..] == names[i + 1..] && names[i] in names[i..]
    ensures forall f :: f in names[i + 1..] ==> f in names[i..]
    ensures NoRepeats(names) ==> NoRepeats(names[i..])
  {
    assert names[i..][0] in names[i..];
    forall f | f in names[i + 1..] ensures f in names[i..] { assert f in names[i..][1..]; }
  }

  lemma ImageNext(m: Module, names: seq<string>, i: nat, code: seq<Instr>)
    requires Placeable(m, names) && i < |names| && ImageFrom(m, names, i, code)
    ensures var starts := Starts(m, names, Origin(names)); var start := |code| + Padding(|code|); var f := m.functions[names[i]];
            ImageFrom(m, names, i + 1, code + Nops(Padding(|code|)) + GenFunction(GenAt(f, starts, start), f))
  {
    hide Image, GenFunction, GenAt, FunctionLen, Starts, Text, Padding, Nops, ImageFrom, Origin;
    var starts := Starts(m, names, Origin(names));
    var start, f := |code| + Padding(|code|), m.functions[names[i]];
    TextNext(m, names, i, |code|, starts);
    var pad, fn := Nops(Padding(|code|)), GenFunction(GenAt(f, starts, start), f);
    var rest := Text(m, names[i + 1..], start + FunctionLen(f), starts);
    ImageFromMeaning(m, names, i, code, pad + fn + rest);
    ImageFromNext(m, names, i + 1, code, pad, fn, start + FunctionLen(f), rest);
  }

  lemma ImageFromMeaning(m: Module, names: seq<string>, i: nat, code: seq<Instr>, rest: seq<Instr>)
    requires Placeable(m, names) && i <= |names| && ImageFrom(m, names, i, code) && rest == Text(m, names[i..], |code|, Starts(m, names, Origin(names)))
    ensures Image(m, names) == code + rest
  {
    hide Image, Text, Starts;
  }

  lemma ImageFromNext(m: Module, names: seq<string>, i: nat, code: seq<Instr>, pad: seq<Instr>, fn: seq<Instr>, at: nat, rest: seq<Instr>)
    requires Placeable(m, names) && i <= |names| && at == |code| + |pad| + |fn|
    requires rest == Text(m, names[i..], at, Starts(m, names, Origin(names))) && Image(m, names) == code + (pad + fn + rest)
    ensures ImageFrom(m, names, i, code + pad + fn)
  {
    hide Image, Text, Starts;
    ImageJoined(code, pad, fn, rest);
  }

  /** The remaining functions will begin where `all` says. */
  ghost predicate Ahead(m: Module, names: seq<string>, i: nat, at: nat, all: map<string, int>)
    requires Placeable(m, names) && i <= |names|
  {
    forall f :: f in names[i..] ==> f in all && f in Starts(m, names[i..], at) && all[f] == Starts(m, names[i..], at)[f]
  }

  lemma AheadNext(m: Module, names: seq<string>, i: nat, at: nat, all: map<string, int>)
    requires Placeable(m, names) && NoRepeats(names) && i < |names| && Ahead(m, names, i, at, all)
    ensures var start := at + Padding(at);
            && names[i] in all && all[names[i]] == start
            && Ahead(m, names, i + 1, start + FunctionLen(m.functions[names[i]]), all)
  {
    hide FunctionLen, Starts, Padding, NoRepeats;
    Tails(names, i);
    StartsNext(m, names[i..], at);
  }

  lemma OffsetsDone(names: seq<string>, i: nat, offsets: map<string, nat>, starts: map<string, int>, start: nat)
    requires i < |names| && NoRepeats(names) && names[i] in starts && starts[names[i]] == start
    requires (forall f :: f in offsets <==> f in names[..i]) && (forall f :: f in names[..i] ==> f in starts && offsets[f] == starts[f])
    ensures var more := offsets[names[i] := start];
            (forall f :: f in more <==> f in names[..i + 1]) && (forall f :: f in names[..i + 1] ==> f in starts && more[f] == starts[f])
  {
    assert names[..i + 1] == names[..i] + [names[i]];
  }

  lemma OffsetsNext(m: Module, names: seq<string>, i: nat, at: nat, offsets: map<string, nat>)
    requires Placeable(m, names) && NoRepeats(names) && i < |names| && OffsetsTo(m, names, i, at, offsets)
    ensures var start := at + Padding(at);
            && names[i] in Starts(m, names, Origin(names)) && Starts(m, names, Origin(names))[names[i]] == start
            && OffsetsTo(m, names, i + 1, start + FunctionLen(m.functions[names[i]]), offsets[names[i] := start])
  {
    hide FunctionLen, Starts, Padding, NoRepeats, Ahead, Origin;
    AheadNext(m, names, i, at, Starts(m, names, Origin(names)));
    OffsetsDone(names, i, offsets, Starts(m, names, Origin(names)), at + Padding(at));
  }

  lemma PlacedText(m: Module, names: seq<string>, i: nat, l: LoweredFn, text: seq<bv32>, relocs: seq<CallSite>, code: seq<Instr>, fn: seq<Instr>,
                   starts: map<string, int>)
    requires |text| == |code| && Stands(text, code) && CallsSound(relocs, code, starts) && WithinReach(code)
    requires Stands(l.code, fn) && CallsSound(l.calls, fn, Relative(starts, |code| + Padding(|code|))) && WithinReach(fn)
    ensures var pad := Padding(|code|); var all := code + Nops(pad) + fn;
            && Stands(text + NopWords(pad) + l.code, all) && CallsSound(relocs + Shifted(l.calls, |code| + pad), all, starts) && WithinReach(all)
  {
    hide Encode, CallsSound, Shifted, Stands, Padding, Nops, NopWords, WithinReach, Relative;
    var pad := Padding(|code|);
    var padded := code + Nops(pad);
    assert |padded| == |code| + pad;
    PaddedSound(text, relocs, code, pad, starts);
    StandsJoined(text + NopWords(pad), padded, l.code, fn);
    CallsJoined(relocs, padded, l.calls, fn, starts);
    NopsReach(pad);
    ReachJoined(code, Nops(pad));
    ReachJoined(padded, fn);
  }

  lemma PlacedNext(m: Module, names: seq<string>, i: nat, l: LoweredFn, text: seq<bv32>, relocs: seq<CallSite>, offsets: map<string, nat>, code: seq<Instr>)
    requires Placeable(m, names) && NoRepeats(names) && i < |names| && LoweredAs(m, names, names[i], l)
    requires LaidOut(m, names, i, text, relocs, offsets, code)
    ensures var starts := Starts(m, names, Origin(names));
            var start := |code| + Padding(|code|);
            var f := m.functions[names[i]];
            LaidOut(m, names, i + 1, text + NopWords(Padding(|text|)) + l.code, relocs + Shifted(l.calls, start),
                    offsets[names[i] := start], code + Nops(Padding(|code|)) + GenFunction(GenAt(f, starts, start), f))
  {
    hide Encode, CallsSound, GenFunction, GenAt, FunctionLen, Shifted, Stands, LoweredAs, Starts, NoRepeats, Padding, Nops, NopWords, ImageFrom, OffsetsTo, WithinReach, Origin;
    var starts := Starts(m, names, Origin(names));
    var start, f := |code| + Padding(|code|), m.functions[names[i]];
    var fn := GenFunction(GenAt(f, starts, start), f);
    LaidLength(m, names, i, text, relocs, offsets, code);
    OffsetsNext(m, names, i, |code|, offsets);
    ImageNext(m, names, i, code);
    HeadLength(f, starts, start);
    LoweredFacts(m, names, i, l, starts);
    PlacedText(m, names, i, l, text, relocs, code, fn, starts);
    ThreeLengths(code, Nops(Padding(|code|)), fn);
  }

  lemma ThreeLengths(a: seq<Instr>, b: seq<Instr>, c: seq<Instr>)
    ensures |a + b + c| == |a| + |b| + |c|
  {
  }

  lemma ImageJoined(code: seq<Instr>, pad: seq<Instr>, fn: seq<Instr>, rest: seq<Instr>)
    ensures code + (pad + fn + rest) == (code + pad + fn) + rest && |code + pad + fn| == |code| + |pad| + |fn|
  {
  }

  lemma PaddedSound(text: seq<bv32>, relocs: seq<CallSite>, code: seq<Instr>, pad: nat, starts: map<string, int>)
    requires Stands(text, code) && CallsSound(relocs, code, starts)
    ensures Stands(text + NopWords(pad), code + Nops(pad)) && CallsSound(relocs, code + Nops(pad), starts)
  {
    hide Encode, CallsSound;
    var nops := Nops(pad);
    assert Stands(NopWords(pad), nops);
    StandsJoined(text, code, NopWords(pad), nops);
    NopsSound(pad, Relative(starts, |code|));
    CallsJoined(relocs, code, [], nops, starts);
    assert relocs + Shifted([], |code|) == relocs;
  }

  lemma LoweredFacts(m: Module, names: seq<string>, i: nat, l: LoweredFn, starts: map<string, int>)
    requires Placeable(m, names) && i < |names| && LoweredAs(m, names, names[i], l) && starts == Starts(m, names, Origin(names))
    ensures names[i] in starts
    ensures var fn := GenFunction(GenAt(m.functions[names[i]], starts, starts[names[i]]), m.functions[names[i]]);
            Stands(l.code, fn) && CallsSound(l.calls, fn, Relative(starts, starts[names[i]])) && WithinReach(fn)
  {
    hide Encode, CallsSound, GenFunction, GenAt, Starts, Resolved, WithinReach;
  }

  // ---- Linking ----

  /** What `R_AARCH64_CALL26` makes of a word: the distance from the call to the symbol. */
  function Linked(word: bv32, place: nat, symbol: int): bv32 { Put26(word, S32(symbol - place)) }

  /** The first `n` relocations are applied. */
  ghost predicate PartlyLinked(text: seq<bv32>, code: seq<Instr>, relocs: seq<CallSite>, n: nat)
    requires n <= |relocs|
  {
    && |text| == |code|
    && forall k :: 0 <= k < |text| ==> text[k] == if code[k].Bl? && !(n < |relocs| ==> k < relocs[n].offset) then Encode(Bl(0)) else Encode(code[k])
  }

  /** Applying every relocation gives the words of the linked image. */
  method Link(words: seq<bv32>, relocs: seq<CallSite>, starts: map<string, int>, ghost code: seq<Instr>) returns (text: seq<bv32>)
    requires Stands(words, code) && CallsSound(relocs, code, starts)
    ensures |text| == |code| && forall k :: 0 <= k < |text| ==> text[k] == Encode(code[k])
  {
    hide Encode, Linked, PartlyLinked;
    text := words;
    NothingLinked(words, code, relocs, starts);
    var n := 0;
    while n < |relocs|
      invariant n <= |relocs| && PartlyLinked(text, code, relocs, n)
    {
      LinkOne(text, code, relocs, starts, n);
      text := text[relocs[n].offset := Linked(text[relocs[n].offset], relocs[n].offset, starts[relocs[n].symbol])];
      n := n + 1;
    }
    AllLinked(text, code, relocs);
  }

  lemma NothingLinked(text: seq<bv32>, code: seq<Instr>, relocs: seq<CallSite>, starts: map<string, int>)
    requires Stands(text, code) && CallsSound(relocs, code, starts)
    ensures PartlyLinked(text, code, relocs, 0)
  {
    hide Encode;
    forall k | 0 <= k < |text| && code[k].Bl? ensures 0 < |relocs| && relocs[0].offset <= k {
      var j :| 0 <= j < |relocs| && relocs[j].offset == k;
    }
  }

  /** Between one relocation and the next there is no call. */
  lemma NextReloc(code: seq<Instr>, relocs: seq<CallSite>, starts: map<string, int>, n: nat)
    requires n < |relocs| && CallsSound(relocs, code, starts)
    ensures n + 1 < |relocs| ==> relocs[n].offset < relocs[n + 1].offset
    ensures forall k :: relocs[n].offset < k < |code| && (n + 1 < |relocs| ==> k < relocs[n + 1].offset) ==> !code[k].Bl?
  {
    forall k | relocs[n].offset < k < |code| && code[k].Bl? ensures n + 1 < |relocs| && relocs[n + 1].offset <= k {
      var j :| 0 <= j < |relocs| && relocs[j].offset == k;
    }
  }

  lemma LinkOne(text: seq<bv32>, code: seq<Instr>, relocs: seq<CallSite>, starts: map<string, int>, n: nat)
    requires n < |relocs| && CallsSound(relocs, code, starts) && PartlyLinked(text, code, relocs, n)
    ensures relocs[n].offset < |text| && relocs[n].symbol in starts
    ensures var r := relocs[n];
            PartlyLinked(text[r.offset := Linked(text[r.offset], r.offset, starts[r.symbol])], code, relocs, n + 1)
  {
    hide Encode, Put26, S32;
    var r := relocs[n];
    NextReloc(code, relocs, starts, n);
    assert code[r.offset] == Bl(starts[r.symbol] - r.offset);
    hide CallsSound;
    LinkBlank(starts[r.symbol] - r.offset);
  }

  lemma LinkBlank(off: int)
    ensures Put26(Encode(Bl(0)), S32(off)) == Encode(Bl(off))
  {
    hide Put26, S32;
    PatchTwice26(0x9400_0000, S32(0), S32(off));
  }

  lemma AllLinked(text: seq<bv32>, code: seq<Instr>, relocs: seq<CallSite>)
    requires PartlyLinked(text, code, relocs, |relocs|)
    ensures |text| == |code| && forall k :: 0 <= k < |text| ==> text[k] == Encode(code[k])
  {
    hide Encode;
  }

  // ---- The program ----

  datatype Emitted =
    | NoEligibleCode(skipped: seq<string>)
    | Native(compiled: seq<string>, skipped: seq<string>, text: seq<bv32>, relocs: seq<CallSite>, offsets: map<string, nat>)

  /** An object is produced exactly when the greatest compilable set has an entry point; it holds
      that set, laid out and awaiting the linker, and every other function is reported skipped. */
  method EmitProgram(m: Module, decls: seq<Declared>, exports: set<string>) returns (r: Emitted, ghost best: set<string>)
    requires Listed(m, decls)
    ensures Greatest(m, decls, best)
    ensures r.Native? <==> "main" in best || best * exports != {}
    ensures r.Native? ==> Elements(r.compiled) == best && Split(decls, r.compiled, r.skipped) && Placeable(m, r.compiled)
    ensures r.Native? ==> Stands(r.text, Image(m, r.compiled)) && WithinReach(Image(m, r.compiled))
    ensures r.Native? ==> CallsSound(r.relocs, Image(m, r.compiled), Starts(m, r.compiled, Origin(r.compiled)))
    ensures r.Native? ==> r.offsets.Keys == best && forall f :: f in best ==> f in Starts(m, r.compiled, Origin(r.compiled)) && r.offsets[f] == Starts(m, r.compiled, Origin(r.compiled))[f]
  {
    hide Greatest, Stands, Image, CallsSound, Starts, WithinReach, LoweredAs;
    var compiled, skipped, lowered := Fixpoint(m, decls);
    best := Elements(compiled);
    if "main" !in compiled && Elements(compiled) * exports == {} { return NoEligibleCode(skipped), best; }
    var text, relocs, offsets := BuildText(m, compiled, lowered);
    r := Native(compiled, skipped, text, relocs, offsets);
  }

  lemma {:induction false} StartsBound(m: Module, order: seq<string>, at: nat, starts: map<string, int>)
    requires Placeable(m, order)
    ensures forall f :: f in Starts(m, order, at) ==> at <= Starts(m, order, at)[f] <= at + |Text(m, order, at, starts)|
    decreases order
  {
    hide GenFunction, GenAt, FunctionLen, Padding;
    if order != [] {
      var start, f := at + Padding(at), m.functions[order[0]];
      HeadLength(f, starts, start);
      StartsBound(m, order[1..], start + FunctionLen(f), starts);
    }
  }

  lemma ImageBound(m: Module, names: seq<string>)
    requires Placeable(m, names)
    ensures forall f :: f in Starts(m, names, Origin(names)) ==> Origin(names) <= Starts(m, names, Origin(names))[f] <= |Image(m, names)|
  {
    hide Starts, Text, Stub;
    StubLength();
    StartsBound(m, names, Origin(names), Starts(m, names, Origin(names)));
  }

  /** In a text section of less than a megabyte every word reads back as the instruction meant. */
  lemma ImageDecodes(code: seq<Instr>, relocs: seq<CallSite>, starts: map<string, int>)
    requires WithinReach(code) && CallsSound(relocs, code, starts) && |code| < 0x4_0000
    requires forall f :: f in starts ==> 0 <= starts[f] <= |code|
    ensures forall k :: 0 <= k < |code| ==> Decode(Encode(code[k])) == code[k]
  {
    hide Encode, Decode;
    forall k | 0 <= k < |code| ensures Decode(Encode(code[k])) == code[k] {
      if code[k].Bl? {
        var j :| 0 <= j < |relocs| && relocs[j].offset == k;
        assert code[k] == Bl(starts[relocs[j].symbol] - k);
      }
      assert Encodable(Blank(code[k]));
      DecodeEncode(code[k]);
    }
  }

  function Decoded(words: seq<bv32>): seq<Instr> { seq(|words|, k requires 0 <= k < |words| => Decode(words[k])) }

  /** After `n` instructions from `c` the processor is in `d`, at the exit call, with `v` as its
      argument. */
  ghost predicate Exits(words: seq<bv32>, v: Value, c: Cpu, n: nat, d: Cpu) {
    && Exec(Decoded(words), c, n) == Ran(d) && 0 <= d.pc < |words| && Decode(words[d.pc]) == Svc
    && d.x[8] == 93 && d.x[0] == Word(v)
  }

  /** From source to exit status: when the interpreter finishes `main` with a value, the processor
      that runs the linked words reaches the exit call with that value as its argument. */
  lemma EmittedExits(m: Module, sigs: map<string, Sig>, names: seq<string>, relocs: seq<CallSite>, words: seq<bv32>,
                     depth: nat, v: Value, c: Cpu)
    returns (n: nat, d: Cpu)
    requires Compiled(m, sigs, names) && "main" in names && "main" in sigs && sigs["main"].params == [] && "main" !in m.taken
    requires WithinReach(Image(m, names)) && CallsSound(relocs, Image(m, names), Starts(m, names, STUB))
    requires |words| == |Image(m, names)| < 0x4_0000 && forall k :: 0 <= k < |words| ==> words[k] == Encode(Image(m, names)[k])
    requires Programs.Invoke(Programs.Tier(false, false), m, depth, "main", []) == Ok(v) && c.pc == 0 && c.sp % 16 == 0
    ensures Exits(words, v, c, n, d)
  {
    hide Compiled, Image, Starts, Exec, Encode, Decode, WithinReach, CallsSound, Programs.Invoke, Word;
    CompiledFacts(m, sigs, names, "main");
    var starts := Starts(m, names, STUB);
    assert Origin(names) == STUB;
    ImageBound(m, names);
    assert forall f :: f in starts ==> 0 <= starts[f] <= |Image(m, names)|;
    ImageDecodes(Image(m, names), relocs, starts);
    assert Decoded(words) == Image(m, names);
    n, d := ProgramExits(m, sigs, names, depth, v, c);
  }
}

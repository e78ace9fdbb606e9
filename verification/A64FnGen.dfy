/** The code generator as it runs: words appended to a buffer, branches left blank until their
    labels are bound, call sites left to the linker. */
module A64FnGen {
  import opened Words
  import opened Ir
  import opened A64Bits
  import opened A64Isa
  import opened A64Machine
  import opened A64Idioms
  import opened A64Gen
  import opened A64Function

  /** `at` counts words; `wide` is a 26-bit branch. */
  datatype Fixup = Fixup(at: nat, target: nat, wide: bool)

  datatype CallSite = CallSite(offset: nat, symbol: string)

  datatype LoopFrame = LoopFrame(breakLabel: nat, continueLabel: nat)

  predicate IsBranch(i: Instr) { i.B? || i.BCond? || i.Cbz? || i.Cbnz? }

  /** Neither a branch nor a call, and its fields fit. */
  predicate Plain(i: Instr) { !IsBranch(i) && !i.Bl? && Encodable(i) }

  function Blank(i: Instr): Instr {
    match i
    case B(_) => B(0)
    case BCond(cond, _) => BCond(cond, 0)
    case Cbz(rt, _) => Cbz(rt, 0)
    case Cbnz(rt, _) => Cbnz(rt, 0)
    case Bl(_) => Bl(0)
    case _ => i
  }

  /** A blank branch given its distance. */
  function Aimed(i: Instr, off: int): Instr
    requires IsBranch(i)
  {
    match i
    case B(_) => B(off)
    case BCond(cond, _) => BCond(cond, off)
    case Cbz(rt, _) => Cbz(rt, off)
    case Cbnz(rt, _) => Cbnz(rt, off)
  }

  function Offset(i: Instr): int
    requires IsBranch(i)
  {
    match i
    case B(off) => off
    case BCond(_, off) => off
    case Cbz(_, off) => off
    case Cbnz(_, off) => off
  }

  /** One patched word. */
  function Patch(word: bv32, delta: int, wide: bool): bv32 {
    if wide then Put26(word, S32(delta)) else Put19(word, S32(delta))
  }

  // ---- What the buffers mean ----

  /** Each fix-up names the word and the label of a branch; every branch has one. */
  ghost predicate FixupsSound(fixups: seq<Fixup>, meant: seq<Instr>, places: seq<nat>) {
    && (forall j :: 0 <= j < |fixups| ==>
          && fixups[j].at < |meant| && fixups[j].target < |places| && IsBranch(meant[fixups[j].at])
          && fixups[j].wide == meant[fixups[j].at].B? && Offset(meant[fixups[j].at]) == places[fixups[j].target] - fixups[j].at)
    && (forall i, j :: 0 <= i < j < |fixups| ==> fixups[i].at < fixups[j].at)
    && forall k :: 0 <= k < |meant| && IsBranch(meant[k]) ==> exists j :: 0 <= j < |fixups| && fixups[j].at == k
  }

  ghost predicate CallsSound(calls: seq<CallSite>, meant: seq<Instr>, entries: map<string, int>) {
    && (forall j :: 0 <= j < |calls| ==>
          calls[j].offset < |meant| && calls[j].symbol in entries
          && meant[calls[j].offset] == Bl(entries[calls[j].symbol] - calls[j].offset))
    && (forall i, j :: 0 <= i < j < |calls| ==> calls[i].offset < calls[j].offset)
    && forall k :: 0 <= k < |meant| && meant[k].Bl? ==> exists j :: 0 <= j < |calls| && calls[j].offset == k
  }

  /** The words are those meant, with branch and call distances still blank; bound labels are
      at their places. */
  ghost predicate Sound(code: seq<bv32>, labels: seq<Option<nat>>, fixups: seq<Fixup>, calls: seq<CallSite>,
                        meant: seq<Instr>, places: seq<nat>, entries: map<string, int>) {
    && |meant| == |code| && |places| == |labels|
    && (forall k :: 0 <= k < |code| ==> code[k] == Encode(Blank(meant[k])) && Encodable(Blank(meant[k])))
    && (forall l :: 0 <= l < |labels| && labels[l].Some? ==> labels[l].value == places[l] <= |code|)
    && FixupsSound(fixups, meant, places) && CallsSound(calls, meant, entries)
  }

  lemma SoundEmit(code: seq<bv32>, labels: seq<Option<nat>>, fixups: seq<Fixup>, calls: seq<CallSite>,
                  meant: seq<Instr>, places: seq<nat>, entries: map<string, int>, i: Instr)
    requires Sound(code, labels, fixups, calls, meant, places, entries) && !IsBranch(i) && !i.Bl? && Encodable(i)
    ensures Sound(code + [Encode(i)], labels, fixups, calls, meant + [i], places, entries)
  {
    hide Encode;
    FixupsGrow(fixups, meant, places, i);
    CallsGrow(calls, meant, entries, i);
  }

  lemma FixupsGrow(fixups: seq<Fixup>, meant: seq<Instr>, places: seq<nat>, i: Instr)
    requires FixupsSound(fixups, meant, places) && !IsBranch(i)
    ensures FixupsSound(fixups, meant + [i], places)
  {
    var more := meant + [i];
    forall k | 0 <= k < |more| && IsBranch(more[k]) ensures exists j :: 0 <= j < |fixups| && fixups[j].at == k {
      assert more[k] == meant[k];
    }
  }

  lemma CallsGrow(calls: seq<CallSite>, meant: seq<Instr>, entries: map<string, int>, i: Instr)
    requires CallsSound(calls, meant, entries) && !i.Bl?
    ensures CallsSound(calls, meant + [i], entries)
  {
    var more := meant + [i];
    forall k | 0 <= k < |more| && more[k].Bl? ensures exists j :: 0 <= j < |calls| && calls[j].offset == k {
      assert more[k] == meant[k];
    }
  }

  lemma SoundBranch(code: seq<bv32>, labels: seq<Option<nat>>, fixups: seq<Fixup>, calls: seq<CallSite>,
                    meant: seq<Instr>, places: seq<nat>, entries: map<string, int>, i: Instr, target: nat)
    requires Sound(code, labels, fixups, calls, meant, places, entries) && target < |labels|
    requires IsBranch(i) && Offset(i) == places[target] - |code|
    ensures Sound(code + [Encode(Blank(i))], labels, fixups + [Fixup(|code|, target, i.B?)], calls, meant + [i], places, entries)
  {
    hide Encode, CallsSound;
    CallsGrow(calls, meant, entries, i);
    var more, all := meant + [i], fixups + [Fixup(|code|, target, i.B?)];
    forall k | 0 <= k < |more| && IsBranch(more[k]) ensures exists j :: 0 <= j < |all| && all[j].at == k {
      if k < |meant| {
        assert IsBranch(meant[k]);
        var j :| 0 <= j < |fixups| && fixups[j].at == k;
        assert all[j].at == k;
      } else {
        assert all[|fixups|].at == k;
      }
    }
    assert FixupsSound(all, more, places);
  }

  lemma SoundCall(code: seq<bv32>, labels: seq<Option<nat>>, fixups: seq<Fixup>, calls: seq<CallSite>,
                  meant: seq<Instr>, places: seq<nat>, entries: map<string, int>, f: string)
    requires Sound(code, labels, fixups, calls, meant, places, entries) && f in entries
    ensures Sound(code + [Encode(Bl(0))], labels, fixups, calls + [CallSite(|code|, f)], meant + [Bl(entries[f] - |code|)], places, entries)
  {
    hide Encode, FixupsSound;
    var i := Bl(entries[f] - |code|);
    FixupsGrow(fixups, meant, places, i);
    var more, all := meant + [i], calls + [CallSite(|code|, f)];
    forall k | 0 <= k < |more| && more[k].Bl? ensures exists j :: 0 <= j < |all| && all[j].offset == k {
      if k < |meant| {
        var j :| 0 <= j < |calls| && calls[j].offset == k;
        assert all[j].offset == k;
      } else {
        assert all[|calls|].offset == k;
      }
    }
  }

  lemma SoundLabel(code: seq<bv32>, labels: seq<Option<nat>>, fixups: seq<Fixup>, calls: seq<CallSite>,
                   meant: seq<Instr>, places: seq<nat>, entries: map<string, int>, place: nat)
    requires Sound(code, labels, fixups, calls, meant, places, entries)
    ensures Sound(code, labels + [None], fixups, calls, meant, places + [place], entries)
  {
    hide Encode, CallsSound;
  }

  lemma SoundBind(code: seq<bv32>, labels: seq<Option<nat>>, fixups: seq<Fixup>, calls: seq<CallSite>,
                  meant: seq<Instr>, places: seq<nat>, entries: map<string, int>, target: nat)
    requires Sound(code, labels, fixups, calls, meant, places, entries) && target < |labels| && places[target] == |code|
    ensures Sound(code, labels[target := Some(|code|)], fixups, calls, meant, places, entries)
  {
    hide Encode, CallsSound, FixupsSound;
  }

  /** Old labels as they were, new ones all bound. */
  ghost predicate Grown(labels: seq<Option<nat>>, labels': seq<Option<nat>>, places: seq<nat>, places': seq<nat>) {
    && |labels| == |places| <= |labels'| == |places'| && labels'[..|labels|] == labels && places'[..|places|] == places
    && forall l :: |labels| <= l < |labels'| ==> labels'[l].Some?
  }

  // ---- Patching ----

  lemma PatchTwice26(base: bv32, d: bv32, e: bv32)
    ensures Put26(Put26(base, d), e) == Put26(base, e)
  {
  }

  lemma PatchTwice19(base: bv32, d: bv32, e: bv32)
    ensures Put19(Put19(base, d), e) == Put19(base, e)
  {
  }

  /** Patching the blank word of a branch gives the branch. */
  lemma PatchBlank(i: Instr)
    requires IsBranch(i)
    ensures Patch(Encode(Blank(i)), Offset(i), i.B?) == Encode(i)
  {
    hide Put26, Put19, S32, With0, U32, Code;
    match i
    case B(off) => PatchTwice26(0x1400_0000, S32(0), S32(off));
    case BCond(cond, off) => PatchTwice19(With0(0x5400_0000, Code(cond)), S32(0), S32(off));
    case Cbz(rt, off) => PatchTwice19(With0(0xB400_0000, U32(rt)), S32(0), S32(off));
    case Cbnz(rt, off) => PatchTwice19(With0(0xB500_0000, U32(rt)), S32(0), S32(off));
  }

  /** What a word is once the fix-ups are resolved: only calls are still blank. */
  function Resolved(i: Instr): Instr { if i.Bl? then Bl(0) else i }

  /** The first `n` fix-ups are resolved. */
  ghost predicate Partly(code: seq<bv32>, meant: seq<Instr>, fixups: seq<Fixup>, n: nat)
    requires n <= |fixups|
  {
    && |code| == |meant|
    && forall k :: 0 <= k < |code| ==>
         code[k] == if IsBranch(meant[k]) && (n < |fixups| ==> k < fixups[n].at) then Encode(meant[k]) else Encode(Blank(meant[k]))
  }

  lemma NothingPatched(code: seq<bv32>, meant: seq<Instr>, fixups: seq<Fixup>, places: seq<nat>)
    requires |code| == |meant| && FixupsSound(fixups, meant, places) && forall k :: 0 <= k < |code| ==> code[k] == Encode(Blank(meant[k]))
    ensures Partly(code, meant, fixups, 0)
  {
    hide Encode;
    forall k | 0 <= k < |code| && IsBranch(meant[k]) ensures 0 < |fixups| && fixups[0].at <= k {
      var j :| 0 <= j < |fixups| && fixups[j].at == k;
    }
  }

  lemma PatchOne(code: seq<bv32>, meant: seq<Instr>, fixups: seq<Fixup>, places: seq<nat>, n: nat)
    requires n < |fixups| && FixupsSound(fixups, meant, places) && Partly(code, meant, fixups, n)
    ensures fixups[n].at < |code| && fixups[n].target < |places|
    ensures var f := fixups[n];
            Partly(code[f.at := Patch(code[f.at], places[f.target] - f.at, f.wide)], meant, fixups, n + 1)
  {
    hide Encode, Patch;
    var f := fixups[n];
    PatchBlank(meant[f.at]);
    NextFixup(fixups, meant, places, n);
    assert n + 1 < |fixups| ==> f.at < fixups[n + 1].at;
  }

  lemma AllPatched(code: seq<bv32>, meant: seq<Instr>, fixups: seq<Fixup>)
    requires Partly(code, meant, fixups, |fixups|)
    ensures forall k :: 0 <= k < |code| ==> code[k] == Encode(Resolved(meant[k]))
  {
    hide Encode;
  }

  lemma PopsJoined(m: seq<Instr>, i: nat)
    requires 0 < i <= 8
    ensures m + Pops(i) == m + [Pop(i - 1)] + Pops(i - 1)
  {
  }

  lemma PopsDone(m: seq<Instr>)
    ensures m + Pops(0) == m
  {
  }

  class FnGen {
    var code: seq<bv32>
    var fixups: seq<Fixup>
    var labels: seq<Option<nat>>
    var calls: seq<CallSite>
    var loops: seq<LoopFrame>
    const locals: map<string, nat>
    const localsSize: nat
    const callable: set<string>

    /** The instructions the words stand for, where each label will be, and where the callable
        functions will begin relative to this one. */
    ghost var meant: seq<Instr>
    ghost var places: seq<nat>
    ghost const entries: map<string, int>

    ghost predicate Valid()
      reads this
    {
      && Sound(code, labels, fixups, calls, meant, places, entries) && callable == entries.Keys
      && |meant| == |code| && |places| == |labels| && localsSize <= 0xFFF && (forall x :: x in locals ==> locals[x] < 0x1000)
      && forall k :: 0 <= k < |loops| ==> loops[k].breakLabel < |labels| && loops[k].continueLabel < |labels|
    }

    ghost function Spec(): Gen { Gen(locals, localsSize, entries) }

    ghost function ExitsNow(): Exits
      requires Valid()
      reads this
    {
      if loops == [] then NoLoop
      else
        var top := loops[|loops| - 1];
        InLoop(places[top.breakLabel], places[top.continueLabel])
    }

    constructor (locals: map<string, nat>, localsSize: nat, callable: set<string>, ghost entries: map<string, int>)
      requires callable == entries.Keys && localsSize <= 0xFFF && forall x :: x in locals ==> locals[x] < 0x1000
      ensures Valid() && code == [] && fixups == [] && labels == [] && calls == [] && loops == [] && meant == [] && places == []
      ensures this.locals == locals && this.localsSize == localsSize && this.callable == callable && this.entries == entries
    {
      this.locals, this.localsSize, this.callable, this.entries := locals, localsSize, callable, entries;
      code, fixups, labels, calls, loops, meant, places := [], [], [], [], [], [], [];
    }

    // ---- Emitting ----

    method Emit(i: Instr)
      requires Valid() && Plain(i)
      modifies this`code, this`meant
      ensures Valid() && meant == old(meant) + [i] && |code| == old(|code|) + 1
    {
      hide Sound, Encode;
      SoundEmit(code, labels, fixups, calls, meant, places, entries, i);
      code, meant := code + [Encode(i)], meant + [i];
    }

    method EmitAll(part: seq<Instr>)
      requires Valid() && forall i :: i in part ==> Plain(i)
      modifies this`code, this`meant
      ensures Valid() && meant == old(meant) + part && |code| == old(|code|) + |part|
    {
      hide Sound, Encode;
      var k := 0;
      while k < |part|
        invariant k <= |part| && Valid() && meant == old(meant) + part[..k] && |code| == old(|code|) + k
      {
        assert part[k] in part;
        Emit(part[k]);
        assert part[..k + 1] == part[..k] + [part[k]];
        k := k + 1;
      }
      assert part[..k] == part;
    }

    /** A branch with a blank distance, and the fix-up that will fill it in. */
    method EmitBranch(i: Instr, target: nat)
      requires Valid() && IsBranch(i) && Blank(i) == i && target < |labels|
      modifies this`code, this`meant, this`fixups
      ensures Valid() && meant == old(meant) + [Aimed(i, places[target] - old(|code|))] && |code| == old(|code|) + 1
    {
      hide Sound, Encode;
      ghost var full := Aimed(i, places[target] - |code|);
      SoundBranch(code, labels, fixups, calls, meant, places, entries, full, target);
      code, fixups, meant := code + [Encode(i)], fixups + [Fixup(|code|, target, i.B?)], meant + [full];
    }

    /** A blank call for the linker. */
    method EmitCall(f: string)
      requires Valid() && f in callable
      modifies this`code, this`meant, this`calls
      ensures Valid() && meant == old(meant) + [Bl(entries[f] - old(|code|))] && |code| == old(|code|) + 1
    {
      hide Sound, Encode;
      SoundCall(code, labels, fixups, calls, meant, places, entries, f);
      ghost var full := Bl(entries[f] - |code|);
      code, calls, meant := code + [Encode(Bl(0))], calls + [CallSite(|code|, f)], meant + [full];
    }

    method NewLabel(ghost place: nat) returns (target: nat)
      requires Valid()
      modifies this`labels, this`places
      ensures Valid() && target == old(|labels|) && labels == old(labels) + [None] && places == old(places) + [place]
    {
      hide Encode, FixupsSound, CallsSound;
      SoundLabel(code, labels, fixups, calls, meant, places, entries, place);
      labels, places := labels + [None], places + [place];
      return |labels| - 1;
    }

    method Bind(target: nat)
      requires Valid() && target < |labels| && places[target] == |code|
      modifies this`labels
      ensures Valid() && labels == old(labels)[target := Some(|code|)]
    {
      SoundBind(code, labels, fixups, calls, meant, places, entries, target);
      labels := labels[target := Some(|code|)];
    }

    /** Every branch word gets its distance; no other word changes. */
    method ResolveFixups()
      requires Valid() && forall l :: 0 <= l < |labels| ==> labels[l].Some?
      modifies this`code
      ensures |code| == |meant| && forall k :: 0 <= k < |code| ==> code[k] == Encode(Resolved(meant[k]))
      ensures forall k :: 0 <= k < |code| && !IsBranch(meant[k]) ==> code[k] == old(code)[k]
    {
      hide Encode, Patch, Partly;
      var n := 0;
      NothingPatched(code, meant, fixups, places);
      while n < |fixups|
        invariant n <= |fixups| && Partly(code, meant, fixups, n) && |code| == |meant|
        invariant forall k :: 0 <= k < |code| && !IsBranch(meant[k]) ==> code[k] == old(code)[k]
      {
        var f := fixups[n];
        assert labels[f.target].Some? && labels[f.target].value == places[f.target];
        var delta := labels[f.target].value - f.at;
        PatchOne(code, meant, fixups, places, n);
        code := code[f.at := Patch(code[f.at], delta, f.wide)];
        n := n + 1;
      }
      AllPatched(code, meant, fixups);
    }

    // ---- Expressions ----

    method LoadImm(value: i64)
      requires Valid()
      modifies this`code, this`meant
      ensures Valid() && meant == old(meant) + A64Idioms.LoadImm(value) && |code| == old(|code|) + |A64Idioms.LoadImm(value)|
    {
      hide Sound, Chunk, Insert;
      var u := U64(value);
      ChunkFits(u);
      Emit(MovZ(0, Chunk(u, 0), 0));
      var hw := 1;
      while hw < 4
        invariant 1 <= hw <= 4 && Valid() && meant == old(meant) + Inserted(u, hw) && |code| == old(|code|) + |Inserted(u, hw)|
      {
        if Chunk(u, hw) != 0 {
          Emit(MovK(0, Chunk(u, hw), hw));
        }
        InsertShape(u, hw);
        hw := hw + 1;
      }
      InsertedAll(value);
    }

    /** Whether the lowering succeeds is decided by the locals and the callable names alone; when
        it does, the instructions are the specified ones and every new label is bound. */
    method LowerExpr(e: Expr) returns (ok: bool)
      requires Valid()
      modifies this`code, this`fixups, this`labels, this`calls, this`meant, this`places
      ensures ok == LowersExpr(locals.Keys, callable, e)
      ensures ok ==> Valid() && |code| == old(|code|) + ExprLen(e) && Grown(old(labels), labels, old(places), places)
      ensures ok ==> meant == old(meant) + GenExpr(Spec(), e, old(|code|))
      decreases e, 2
    {
      hide Sound, Grown, LowersExpr, ExprLen, GenExpr;
      match e {
        case Unary(op, a) => ok := LowerUnary(op, a);
        case Binary(l, op, r) =>
          if op == And || op == Or {
            ok := LowerLogic(l, op, r);
          } else {
            ok := LowerStrict(l, op, r);
          }
        case Call(f, args) => ok := LowerCall(f, args);
        case _ => ok := LowerLeaf(e);
      }
    }

    /** Constants and variables; nothing else that is not lowered elsewhere is accepted. */
    method LowerLeaf(e: Expr) returns (ok: bool)
      requires Valid() && !e.Unary? && !e.Binary? && !e.Call?
      modifies this`code, this`meant
      ensures ok == LowersExpr(locals.Keys, callable, e)
      ensures ok ==> Valid() && |code| == old(|code|) + ExprLen(e) && Grown(labels, labels, places, places)
      ensures ok ==> meant == old(meant) + GenExpr(Spec(), e, old(|code|))
    {
      hide Sound, A64Idioms.LoadImm;
      match e {
        case Int(n) => LoadImm(n);
        case BoolLit(b) => LoadImm(if b then 1 else 0);
        case Var(x) =>
          if x !in locals { return false; }
          Emit(Ldr(0, FP, locals[x]));
        case _ => return false;
      }
      return true;
    }

    method LowerUnary(op: UnaryOp, a: Expr) returns (ok: bool)
      requires Valid()
      modifies this`code, this`fixups, this`labels, this`calls, this`meant, this`places
      ensures ok == LowersExpr(locals.Keys, callable, Unary(op, a))
      ensures ok ==> Valid() && |code| == old(|code|) + ExprLen(Unary(op, a)) && Grown(old(labels), labels, old(places), places)
      ensures ok ==> meant == old(meant) + GenExpr(Spec(), Unary(op, a), old(|code|))
      decreases Unary(op, a), 1
    {
      hide Sound, Grown, GenExpr, ExprLen, UnaryCode, LowersExpr;
      UnaryLowers(locals.Keys, callable, op, a);
      ok := LowerExpr(a);
      if ok {
        NoBranchUnary(op);
        EmitAll(UnaryCode(op));
        UnaryShape(Spec(), op, a, old(|code|));
        assert meant == old(meant) + (GenExpr(Spec(), a, old(|code|)) + UnaryCode(op));
      }
    }

    method LowerStrict(l: Expr, op: BinaryOp, r: Expr) returns (ok: bool)
      requires Valid() && op != And && op != Or
      modifies this`code, this`fixups, this`labels, this`calls, this`meant, this`places
      ensures ok == LowersExpr(locals.Keys, callable, Binary(l, op, r))
      ensures ok ==> Valid() && |code| == old(|code|) + ExprLen(Binary(l, op, r)) && Grown(old(labels), labels, old(places), places)
      ensures ok ==> meant == old(meant) + GenExpr(Spec(), Binary(l, op, r), old(|code|))
      decreases Binary(l, op, r), 1
    {
      hide Sound, GenExpr, ExprLen, LowersExpr, OpCode, StrictCode, Grown;
      ghost var m0, pc := meant, |code|;
      ghost var lc, rc := GenExpr(Spec(), l, pc), GenExpr(Spec(), r, pc + ExprLen(l) + 1);
      BinaryShape(Spec(), l, op, r, pc);
      BinaryLowers(locals.Keys, callable, l, op, r);
      ok := LowerExpr(l);
      if !ok { return; }
      Emit(Push(0));
      ghost var before, half := labels, places;
      ok := LowerExpr(r);
      if !ok { return; }
      EmitCombine(op);
      GrownTrans(old(labels), before, labels, old(places), half, places);
      StrictJoined(m0, lc, rc, op);
    }

    /** The right operand goes to `x1`, the left one comes back to `x0`. */
    method EmitCombine(op: BinaryOp)
      requires Valid() && op != And && op != Or
      modifies this`code, this`meant
      ensures Valid() && meant == old(meant) + ([Mov(1, 0), Pop(0)] + OpCode(op)) && |code| == old(|code|) + 2 + |OpCode(op)|
    {
      hide Sound, OpCode;
      NoBranchOp(op);
      Emit(Mov(1, 0));
      Emit(Pop(0));
      EmitAll(OpCode(op));
      assert meant == old(meant) + [Mov(1, 0)] + [Pop(0)] + OpCode(op);
    }

    /** The right operand decides, or the left one has: the two labels meet here. */
    method EmitDecision(conj: bool, decided: nat, end: nat)
      requires Valid() && decided < |labels| && end < |labels| && decided != end
      requires places[decided] == |code| + 3 && places[end] == |code| + 4
      modifies this`code, this`meant, this`fixups, this`labels
      ensures Valid() && |code| == old(|code|) + 4 && labels == old(labels)[decided := Some(old(|code|) + 3)][end := Some(old(|code|) + 4)]
      ensures meant == old(meant) + ([CmpZero(0), CSet(0, CNe)] + [B(2)] + [MovZ(0, if conj then 0 else 1, 0)])
    {
      hide Sound, A64Idioms.LoadImm;
      SmallConstants();
      Emit(CmpZero(0));
      Emit(CSet(0, CNe));
      EmitBranch(B(0), end);
      Bind(decided);
      LoadImm(if conj then 0 else 1);
      Bind(end);
      assert meant == old(meant) + [CmpZero(0)] + [CSet(0, CNe)] + [B(2)] + [MovZ(0, if conj then 0 else 1, 0)];
    }

    /** The left operand and the branch that skips the right one, with both labels made first. */
    method OpenLogic(l: Expr, conj: bool, ghost rest: nat) returns (ok: bool, decided: nat, end: nat)
      requires Valid()
      modifies this`code, this`fixups, this`labels, this`calls, this`meant, this`places
      ensures ok == LowersExpr(locals.Keys, callable, l) && decided == old(|labels|) && end == decided + 1
      ensures ok ==> Valid() && |code| == old(|code|) + ExprLen(l) + 1
      ensures ok ==> meant == old(meant) + (GenExpr(Spec(), l, old(|code|)) + [if conj then Cbz(0, rest + 4) else Cbnz(0, rest + 4)])
      ensures ok ==> Grown(old(labels) + [None] + [None], labels, old(places) + [old(|code|) + ExprLen(l) + rest + 4] + [old(|code|) + ExprLen(l) + rest + 5], places)
      decreases l, 3
    {
      hide Sound, GenExpr, ExprLen, LowersExpr, Grown;
      decided := NewLabel(|code| + ExprLen(l) + rest + 4);
      end := NewLabel(|code| + ExprLen(l) + rest + 5);
      ghost var labels1, places1 := labels, places;
      ok := LowerExpr(l);
      if !ok { return; }
      GrownAt(labels1, labels, places1, places);
      EmitBranch(if conj then Cbz(0, 0) else Cbnz(0, 0), decided);
    }

    method LowerLogic(l: Expr, op: BinaryOp, r: Expr) returns (ok: bool)
      requires Valid() && (op == And || op == Or)
      modifies this`code, this`fixups, this`labels, this`calls, this`meant, this`places
      ensures ok == LowersExpr(locals.Keys, callable, Binary(l, op, r))
      ensures ok ==> Valid() && |code| == old(|code|) + ExprLen(Binary(l, op, r)) && Grown(old(labels), labels, old(places), places)
      ensures ok ==> meant == old(meant) + GenExpr(Spec(), Binary(l, op, r), old(|code|))
      decreases Binary(l, op, r), 1
    {
      hide Sound, GenExpr, ExprLen, LowersExpr, LogicCode, Grown;
      ghost var m0, pc, conj := meant, |code|, op == And;
      ghost var lc, rc := GenExpr(Spec(), l, pc), GenExpr(Spec(), r, pc + ExprLen(l) + 1);
      ghost var labels1, places1 := labels + [None] + [None], places + [pc + ExprLen(l) + ExprLen(r) + 4] + [pc + ExprLen(l) + ExprLen(r) + 5];
      BinaryShape(Spec(), l, op, r, pc);
      BinaryLowers(locals.Keys, callable, l, op, r);
      var decided, end;
      ok, decided, end := OpenLogic(l, op == And, ExprLen(r));
      if !ok { return; }
      ghost var labels2, places2 := labels, places;
      ok := LowerExpr(r);
      if !ok { return; }
      GrownTrans(labels1, labels2, labels, places1, places2, places);
      GrownAt(labels1, labels, places1, places);
      ghost var labels3 := labels;
      EmitDecision(op == And, decided, end);
      LogicJoined(m0, lc, rc, conj);
      GrownAround(old(labels), labels3, old(places), places, |code| - 1, |code|);
    }

    method LowerArgs(args: seq<Expr>, keep: bool) returns (ok: bool)
      requires Valid()
      modifies this`code, this`fixups, this`labels, this`calls, this`meant, this`places
      ensures ok == LowersArgs(locals.Keys, callable, args)
      ensures ok ==> Valid() && |code| == old(|code|) + ArgsLen(args, keep) && Grown(old(labels), labels, old(places), places)
      ensures ok ==> meant == old(meant) + GenArgs(Spec(), args, old(|code|), keep)
      decreases args, 0
    {
      hide Sound, GenExpr, ExprLen, LowersExpr;
      if args == [] { return true; }
      ok := LowerExpr(args[0]);
      if !ok { return; }
      if keep && |args| == 1 { return; }
      Emit(Push(0));
      ghost var before, half := labels, places;
      ok := LowerArgs(args[1..], keep);
      if ok {
        GrownTrans(old(labels), before, labels, old(places), half, places);
        ArgsJoined(old(meant), Spec(), args, old(|code|), keep);
      }
    }

    method LowerCall(f: string, args: seq<Expr>) returns (ok: bool)
      requires Valid()
      modifies this`code, this`fixups, this`labels, this`calls, this`meant, this`places
      ensures ok == LowersExpr(locals.Keys, callable, Call(f, args))
      ensures ok ==> Valid() && |code| == old(|code|) + ExprLen(Call(f, args)) && Grown(old(labels), labels, old(places), places)
      ensures ok ==> meant == old(meant) + GenExpr(Spec(), Call(f, args), old(|code|))
      decreases Call(f, args), 1
    {
      hide Sound, GenExpr, ExprLen, LowersExpr, GenArgs, ArgsLen, LowersArgs, Inlined, BuiltinTail, Pops, CallCode;
      CallLowers(locals.Keys, callable, f, args);
      CallShape(Spec(), f, args, |code|);
      if Inlined(f, |args|) {
        ok := LowerArgs(args, true);
        if !ok { return; }
        if f == "gcd" {
          ghost var before, half := labels, places;
          GcdTail();
          GrownTrans(old(labels), before, labels, old(places), half, places);
        } else {
          NoBranchTail(f);
          EmitAll(BuiltinTail(f));
        }
        assert meant == old(meant) + (GenArgs(Spec(), args, old(|code|), true) + BuiltinTail(f));
        return;
      }
      if f !in callable || |args| > 8 { return false; }
      ok := LowerArgs(args, false);
      if !ok { return; }
      EmitPops(|args|);
      EmitCall(f);
      CallJoined(old(meant), GenArgs(Spec(), args, old(|code|), false), |args|, entries[f] - (old(|code|) + ArgsLen(args, false) + |args|));
    }

    /** The stack top is the last argument, so the registers are filled from the last one down. */
    method EmitPops(n: nat)
      requires Valid() && n <= 8
      modifies this`code, this`meant
      ensures Valid() && meant == old(meant) + Pops(n) && |code| == old(|code|) + n
    {
      hide Sound, Pops;
      var i := n;
      while i > 0
        invariant 0 <= i <= n && Valid() && meant + Pops(i) == old(meant) + Pops(n) && |code| + i == old(|code|) + n
      {
        PopsJoined(meant, i);
        i := i - 1;
        Emit(Pop(i));
      }
      PopsDone(meant);
    }

    /** `gcd`: both magnitudes, then the loop with its two labels. */
    method GcdTail()
      requires Valid()
      modifies this`code, this`fixups, this`labels, this`meant, this`places
      ensures Valid() && meant == old(meant) + BuiltinTail("gcd") && |code| == old(|code|) + |BuiltinTail("gcd")|
      ensures Grown(old(labels), labels, old(places), places)
    {
      hide Sound, BuiltinTail, TurnCode, AbsCode, Grown;
      TailParts();
      Emit(Pop(1));
      EmitAll(AbsCode(1, 2));
      EmitAll(AbsCode(0, 2));
      EuclidTail();
      GcdShape(old(meant));
    }

    method EuclidTail()
      requires Valid()
      modifies this`code, this`fixups, this`labels, this`meant, this`places
      ensures Valid() && meant == old(meant) + ([Cbz(0, 6)] + TurnCode() + [B(-5)] + [Mov(0, 1)]) && |code| == old(|code|) + 7
      ensures Grown(old(labels), labels, old(places), places)
    {
      hide Sound, TurnCode;
      TailParts();
      var top := NewLabel(|code|);
      var done := NewLabel(|code| + 6);
      Bind(top);
      EmitBranch(Cbz(0, 0), done);
      EmitAll(TurnCode());
      EmitBranch(B(0), top);
      Bind(done);
      Emit(Mov(0, 1));
      assert meant == old(meant) + [Cbz(0, 6)] + TurnCode() + [B(-5)] + [Mov(0, 1)];
    }

    // ---- Statements ----

    /** Fields a statement may change, and the loops it leaves as they were. */
    method LowerStmt(s: Stmt) returns (ok: bool)
      requires Valid()
      modifies this`code, this`fixups, this`labels, this`calls, this`loops, this`meant, this`places
      ensures ok == LowersStmt(locals.Keys, callable, s, old(loops) != [])
      ensures ok ==> Valid() && loops == old(loops) && |code| == old(|code|) + StmtLen(Spec(), s)
      ensures ok ==> Grown(old(labels), labels, old(places), places)
      ensures ok ==> meant == old(meant) + GenStmt(Spec(), s, old(|code|), old(ExitsNow()))
      decreases s, 2
    {
      hide Sound, Grown, LowersStmt, StmtLen, GenStmt;
      match s {
        case If(_, _) => ok := LowerIf(s);
        case While(cond, body) => ok := LowerWhile(cond, body);
        case Loop(body) => ok := LowerLoop(body);
        case For(_, _, _, _, _) => ok := LowerFor(s);
        case Region(body) =>
          RegionShape(locals.Keys, callable, Spec(), body, |code|, ExitsNow());
          ok := LowerBlock(body);
        case Break => ok := LowerJump(s);
        case Continue => ok := LowerJump(s);
        case _ => ok := LowerSimple(s);
      }
    }

    method LowerBlock(body: seq<Stmt>) returns (ok: bool)
      requires Valid()
      modifies this`code, this`fixups, this`labels, this`calls, this`loops, this`meant, this`places
      ensures ok == LowersBlock(locals.Keys, callable, body, old(loops) != [])
      ensures ok ==> Valid() && loops == old(loops) && |code| == old(|code|) + BlockLen(Spec(), body)
      ensures ok ==> Grown(old(labels), labels, old(places), places)
      ensures ok ==> meant == old(meant) + GenBlock(Spec(), body, old(|code|), old(ExitsNow()))
      decreases body, 0
    {
      hide Sound, LowersStmt, StmtLen, GenStmt, Grown;
      if body == [] {
        GrownRefl(labels, places);
        return true;
      }
      ok := LowerStmt(body[0]);
      if !ok { return; }
      ghost var labels1, places1 := labels, places;
      SameExits(old(loops), old(labels), labels, old(places), places);
      ok := LowerBlock(body[1..]);
      if !ok { return; }
      GrownTrans(old(labels), labels1, labels, old(places), places1, places);
      BlockJoined(old(meant), Spec(), body, old(|code|), old(ExitsNow()));
    }

    /** Statements without bodies or jumps. */
    method LowerSimple(s: Stmt) returns (ok: bool)
      requires Valid() && (s.Let? || s.Assign? || s.Return? || s.ExprStmt? || s.Throw? || s.Try?)
      modifies this`code, this`fixups, this`labels, this`calls, this`meant, this`places
      ensures ok == LowersStmt(locals.Keys, callable, s, loops != [])
      ensures ok ==> Valid() && |code| == old(|code|) + StmtLen(Spec(), s) && Grown(old(labels), labels, old(places), places)
      ensures ok ==> meant == old(meant) + GenStmt(Spec(), s, old(|code|), old(ExitsNow()))
    {
      hide Sound, Grown, LowersExpr, ExprLen, GenExpr, StrictCode, OpCode, Epilogue;
      match s {
        case Let(x, e) => ok := LowerStore(s);
        case Assign(x, op, e) =>
          if op == Replace {
            ok := LowerStore(s);
          } else {
            ok := LowerCompound(x, op, e);
          }
        case Return(Some(e)) =>
          ok := LowerExpr(e);
          if ok {
            EmitEpilogue();
            assert meant == old(meant) + (GenExpr(Spec(), e, old(|code|)) + Epilogue(Spec()));
          }
        case ExprStmt(e) => ok := LowerExpr(e);
        case _ => ok := false;
      }
    }

    /** The value first, then the name: an unknown name is found after its value was lowered. */
    method LowerStore(s: Stmt) returns (ok: bool)
      requires Valid() && (s.Let? || (s.Assign? && s.op == Replace))
      modifies this`code, this`fixups, this`labels, this`calls, this`meant, this`places
      ensures ok == LowersStmt(locals.Keys, callable, s, loops != [])
      ensures ok ==> Valid() && |code| == old(|code|) + StmtLen(Spec(), s) && Grown(old(labels), labels, old(places), places)
      ensures ok ==> meant == old(meant) + GenStmt(Spec(), s, old(|code|), old(ExitsNow()))
    {
      hide Sound, Grown, LowersExpr, ExprLen, GenExpr, GenStmt, StmtLen;
      StoreShape(Spec(), s, |code|, ExitsNow());
      if s.Assign? && s.name !in locals { return false; }
      ok := LowerExpr(s.value);
      if !ok { return; }
      if s.name !in locals { return false; }
      Emit(Instr.Str(0, FP, locals[s.name]));
      assert meant == old(meant) + (GenExpr(Spec(), s.value, old(|code|)) + [StoreVar(Spec(), s.name)]);
    }

    method LowerCompound(x: string, op: AssignOp, e: Expr) returns (ok: bool)
      requires Valid() && op != Replace
      modifies this`code, this`fixups, this`labels, this`calls, this`meant, this`places
      ensures ok == LowersStmt(locals.Keys, callable, Assign(x, op, e), loops != [])
      ensures ok ==> Valid() && |code| == old(|code|) + StmtLen(Spec(), Assign(x, op, e)) && Grown(old(labels), labels, old(places), places)
      ensures ok ==> meant == old(meant) + GenStmt(Spec(), Assign(x, op, e), old(|code|), old(ExitsNow()))
    {
      hide Sound, Grown, LowersExpr, LowersStmt, ExprLen, GenExpr, GenStmt, StmtLen, StrictCode, OpCode;
      AssignLowers(locals.Keys, callable, x, op, e, loops != []);
      CompoundShape(Spec(), x, op, e, |code|, ExitsNow());
      if x !in locals { return false; }
      ok := LowerUpdate(x, AssignBinop(op), e);
      if !ok { return; }
      ghost var sum := StrictCode(AssignBinop(op), [LoadVar(Spec(), 0, x)], GenExpr(Spec(), e, old(|code|) + 2));
      Emit(Instr.Str(0, FP, locals[x]));
      assert old(meant) + sum + [StoreVar(Spec(), x)] == old(meant) + (sum + [StoreVar(Spec(), x)]);
    }

    /** The variable combined with a value. */
    method LowerUpdate(x: string, op: BinaryOp, e: Expr) returns (ok: bool)
      requires Valid() && x in locals && op != And && op != Or
      modifies this`code, this`fixups, this`labels, this`calls, this`meant, this`places
      ensures ok == LowersExpr(locals.Keys, callable, e)
      ensures ok ==> Valid() && |code| == old(|code|) + ExprLen(e) + 4 + |OpCode(op)| && Grown(old(labels), labels, old(places), places)
      ensures ok ==> meant == old(meant) + StrictCode(op, [LoadVar(Spec(), 0, x)], GenExpr(Spec(), e, old(|code|) + 2))
    {
      hide Sound, Grown, LowersExpr, ExprLen, GenExpr, StrictCode, OpCode;
      Emit(Ldr(0, FP, locals[x]));
      Emit(Push(0));
      ok := LowerExpr(e);
      if !ok { return; }
      EmitCombine(op);
      StrictJoined(old(meant), [LoadVar(Spec(), 0, x)], GenExpr(Spec(), e, old(|code|) + 2), op);
    }

    method EmitEpilogue()
      requires Valid()
      modifies this`code, this`meant
      ensures Valid() && meant == old(meant) + Epilogue(Spec()) && |code| == old(|code|) + |Epilogue(Spec())|
    {
      hide Sound;
      Emit(MovSpFp);
      if localsSize > 0 {
        Emit(AddSp(localsSize));
      }
      Emit(LdpPost);
      Emit(Ret);
      assert meant == old(meant) + [MovSpFp] + (if localsSize > 0 then [AddSp(localsSize)] else []) + [LdpPost] + [Ret];
    }

    method LowerJump(s: Stmt) returns (ok: bool)
      requires Valid() && (s.Break? || s.Continue?)
      modifies this`code, this`fixups, this`meant
      ensures ok == LowersStmt(locals.Keys, callable, s, loops != [])
      ensures ok ==> Valid() && |code| == old(|code|) + StmtLen(Spec(), s) && Grown(labels, labels, places, places)
      ensures ok ==> meant == old(meant) + GenStmt(Spec(), s, old(|code|), old(ExitsNow()))
    {
      hide Sound;
      if loops == [] { return false; }
      var top := loops[|loops| - 1];
      EmitBranch(B(0), if s.Break? then top.breakLabel else top.continueLabel);
      return true;
    }

    method LowerWhile(cond: Expr, body: seq<Stmt>) returns (ok: bool)
      requires Valid()
      modifies this`code, this`fixups, this`labels, this`calls, this`loops, this`meant, this`places
      ensures ok == LowersStmt(locals.Keys, callable, While(cond, body), old(loops) != [])
      ensures ok ==> Valid() && loops == old(loops) && |code| == old(|code|) + StmtLen(Spec(), While(cond, body))
      ensures ok ==> Grown(old(labels), labels, old(places), places)
      ensures ok ==> meant == old(meant) + GenStmt(Spec(), While(cond, body), old(|code|), old(ExitsNow()))
      decreases While(cond, body), 1
    {
      hide Sound, Grown, LowersExpr, LowersBlock, LowersStmt, ExprLen, BlockLen, StmtLen, GenExpr, GenBlock, GenStmt, WhileCode;
      WhileShape(Spec(), cond, body, |code|, ExitsNow());
      WhileLowers(locals.Keys, callable, cond, body, loops != []);
      ghost var pc, len, outer := |code|, BlockLen(Spec(), body), loops;
      var top, end := OpenLoop(ExprLen(cond) + len + 2);
      ghost var labels1, places1 := labels, places;
      ok := LowerExpr(cond);
      if !ok { return; }
      ghost var labels2, places2 := labels, places;
      GrownAt(labels1, labels, places1, places);
      EmitBranch(Cbz(0, 0), end);
      ok := LowerLoopBody(body, end, top);
      if !ok { return; }
      GrownTrans(labels1, labels2, labels, places1, places2, places);
      GrownAt(labels1, labels, places1, places);
      EmitBranch(B(0), top);
      ghost var labels3 := labels;
      Bind(end);
      WhileJoined(old(meant), GenExpr(Spec(), cond, pc), GenBlock(Spec(), body, pc + ExprLen(cond) + 1, InLoop(pc + ExprLen(cond) + len + 2, pc)));
      GrownLoop(old(labels), labels3, old(places), places, pc, |code|);
    }

    /** A loop's two labels: its top, bound here, and its end, `len` words on. */
    method OpenLoop(ghost len: nat) returns (top: nat, end: nat)
      requires Valid()
      modifies this`labels, this`places
      ensures Valid() && top == old(|labels|) && end == top + 1
      ensures labels == old(labels) + [Some(|code|)] + [None] && places == old(places) + [|code|] + [|code| + len]
    {
      hide Sound;
      top := NewLabel(|code|);
      end := NewLabel(|code| + len);
      Bind(top);
    }

    /** The body, with `break` and `continue` going to the given labels. */
    method LowerLoopBody(body: seq<Stmt>, breakLabel: nat, continueLabel: nat) returns (ok: bool)
      requires Valid() && breakLabel < |labels| && continueLabel < |labels|
      modifies this`code, this`fixups, this`labels, this`calls, this`loops, this`meant, this`places
      ensures ok == LowersBlock(locals.Keys, callable, body, true)
      ensures ok ==> Valid() && loops == old(loops) && |code| == old(|code|) + BlockLen(Spec(), body)
      ensures ok ==> Grown(old(labels), labels, old(places), places)
      ensures ok ==> meant == old(meant) + GenBlock(Spec(), body, old(|code|), InLoop(old(places)[breakLabel], old(places)[continueLabel]))
      decreases body, 1
    {
      hide Sound, Grown, LowersBlock, BlockLen, GenBlock;
      ghost var outer := loops;
      loops := loops + [LoopFrame(breakLabel, continueLabel)];
      ok := LowerBlock(body);
      if !ok { return; }
      loops := loops[..|loops| - 1];
      assert loops == outer;
      GrownAt(old(labels), labels, old(places), places);
    }

    method LowerLoop(body: seq<Stmt>) returns (ok: bool)
      requires Valid()
      modifies this`code, this`fixups, this`labels, this`calls, this`loops, this`meant, this`places
      ensures ok == LowersStmt(locals.Keys, callable, Loop(body), old(loops) != [])
      ensures ok ==> Valid() && loops == old(loops) && |code| == old(|code|) + StmtLen(Spec(), Loop(body))
      ensures ok ==> Grown(old(labels), labels, old(places), places)
      ensures ok ==> meant == old(meant) + GenStmt(Spec(), Loop(body), old(|code|), old(ExitsNow()))
      decreases Loop(body), 1
    {
      hide Sound, Grown, LowersBlock, LowersStmt, BlockLen, StmtLen, GenBlock, GenStmt, LoopCode;
      LoopShape(Spec(), body, |code|, ExitsNow());
      LoopLowers(locals.Keys, callable, body, loops != []);
      ghost var pc, len := |code|, BlockLen(Spec(), body);
      var top, end := OpenLoop(len + 1);
      ghost var labels1, places1 := labels, places;
      ok := LowerLoopBody(body, end, top);
      if !ok { return; }
      GrownAt(labels1, labels, places1, places);
      EmitBranch(B(0), top);
      ghost var labels3 := labels;
      Bind(end);
      LoopJoined(old(meant), GenBlock(Spec(), body, pc, InLoop(pc + len + 1, pc)));
      GrownLoop(old(labels), labels3, old(places), places, pc, |code|);
    }

    method LowerIf(s: Stmt) returns (ok: bool)
      requires Valid() && s.If?
      modifies this`code, this`fixups, this`labels, this`calls, this`loops, this`meant, this`places
      ensures ok == LowersStmt(locals.Keys, callable, s, old(loops) != [])
      ensures ok ==> Valid() && loops == old(loops) && |code| == old(|code|) + StmtLen(Spec(), s)
      ensures ok ==> Grown(old(labels), labels, old(places), places)
      ensures ok ==> meant == old(meant) + GenStmt(Spec(), s, old(|code|), old(ExitsNow()))
      decreases s, 1
    {
      hide Sound, Grown, LowersExpr, LowersBlock, LowersStmt, LowersIf, ExprLen, BlockLen, StmtLen, IfLen, GenExpr, GenBlock, GenStmt, GenIf,
        BranchCode, WithinReach;
      ghost var inLoop, ex, pc := loops != [], ExitsNow(), |code|;
      IfShape(locals.Keys, callable, Spec(), s, pc, ex, inLoop);
      var end := NewLabel(|code| + IfLen(Spec(), s, 0));
      ghost var labels1, places1 := labels, places;
      ok := LowerBranches(s, end, ex);
      if !ok { return; }
      IfLast(locals.Keys, callable, Spec(), s, |code|, ex, inLoop);
      SameExits(loops, labels1, labels, places1, places);
      ghost var labels2, places2 := labels, places;
      ok := LowerBlock(s.orelse);
      if !ok { return; }
      GrownTrans(labels1, labels2, labels, places1, places2, places);
      GrownAt(labels1, labels, places1, places);
      ghost var labels3 := labels;
      Bind(end);
      GrownOne(old(labels), labels3, old(places), places, |code|);
    }

    /** The tested branches, each leaving by a jump to `end`. */
    method LowerBranches(s: Stmt, end: nat, ghost ex: Exits) returns (ok: bool)
      requires Valid() && s.If? && end < |labels| && ex == ExitsNow() && places[end] == |code| + IfLen(Spec(), s, 0)
      modifies this`code, this`fixups, this`labels, this`calls, this`loops, this`meant, this`places
      ensures LowersIf(locals.Keys, callable, s, 0, old(loops) != []) == (ok && LowersIf(locals.Keys, callable, s, |s.branches|, old(loops) != []))
      ensures ok ==> Valid() && loops == old(loops) && Grown(old(labels), labels, old(places), places)
      ensures ok ==> |code| + IfLen(Spec(), s, |s.branches|) == old(|code|) + IfLen(Spec(), s, 0)
      ensures ok ==> meant + GenIf(Spec(), s, |s.branches|, |code|, ex) == old(meant) + GenIf(Spec(), s, 0, old(|code|), ex)
      decreases s, 0
    {
      hide Sound, Grown, LowersExpr, LowersBlock, LowersStmt, LowersIf, ExprLen, BlockLen, StmtLen, IfLen, GenExpr, GenBlock, GenStmt, GenIf,
        BranchCode, WithinReach;
      ghost var inLoop, pc := loops != [], |code|;
      GrownRefl(labels, places);
      var i := 0;
      ok := true;
      while i < |s.branches|
        invariant i <= |s.branches| && ok && Valid() && loops == old(loops) && Grown(old(labels), labels, old(places), places)
        invariant LowersIf(locals.Keys, callable, s, 0, inLoop) == LowersIf(locals.Keys, callable, s, i, inLoop)
        invariant |code| + IfLen(Spec(), s, i) == pc + IfLen(Spec(), s, 0)
        invariant meant + GenIf(Spec(), s, i, |code|, ex) == old(meant) + GenIf(Spec(), s, 0, pc, ex)
      {
        ghost var labels1, places1, m, at := labels, places, meant, |code|;
        BranchLowers(locals.Keys, callable, s, i, inLoop);
        BranchShape(Spec(), s, i, at, ex);
        SameExits(loops, old(labels), labels, old(places), places);
        GrownAt(old(labels), labels, old(places), places);
        ok := LowerBranch(s.branches[i], end, IfLen(Spec(), s, i + 1), ex);
        if !ok { return; }
        GrownTrans(old(labels), labels1, labels, old(places), places1, places);
        BranchJoined(m, GenExpr(Spec(), s.branches[i].cond, at), GenBlock(Spec(), s.branches[i].body, at + ExprLen(s.branches[i].cond) + 1, ex),
                     GenIf(Spec(), s, i + 1, |code|, ex));
        i := i + 1;
      }
    }

    /** One branch: its test skips past its jump to the end of the chain, `rest` words further. */
    method LowerBranch(b: Branch, end: nat, ghost rest: nat, ghost ex: Exits) returns (ok: bool)
      requires Valid() && end < |labels| && ex == ExitsNow()
      requires places[end] == |code| + ExprLen(b.cond) + BlockLen(Spec(), b.body) + 2 + rest
      modifies this`code, this`fixups, this`labels, this`calls, this`loops, this`meant, this`places
      ensures ok == (LowersExpr(locals.Keys, callable, b.cond) && LowersBlock(locals.Keys, callable, b.body, old(loops) != []))
      ensures ok ==> Valid() && loops == old(loops) && |code| == old(|code|) + ExprLen(b.cond) + BlockLen(Spec(), b.body) + 2
      ensures ok ==> Grown(old(labels), labels, old(places), places)
      ensures ok ==> meant == old(meant) + (GenExpr(Spec(), b.cond, old(|code|)) + [Cbz(0, BlockLen(Spec(), b.body) + 2)]
                                            + GenBlock(Spec(), b.body, old(|code|) + ExprLen(b.cond) + 1, ex) + [B(rest + 1)])
      decreases b, 0
    {
      hide Sound, Grown, LowersExpr, LowersBlock, ExprLen, BlockLen, GenExpr, GenBlock;
      ghost var pc, len := |code|, BlockLen(Spec(), b.body);
      ok := LowerExpr(b.cond);
      if !ok { return; }
      GrownAt(old(labels), labels, old(places), places);
      ghost var labels0, places0 := labels, places;
      var next := NewLabel(|code| + len + 2);
      ghost var labels1, places1 := labels, places;
      EmitBranch(Cbz(0, 0), next);
      ok := LowerBlock(b.body);
      if !ok { return; }
      GrownAt(labels1, labels, places1, places);
      EmitBranch(B(0), end);
      ghost var labels2 := labels;
      Bind(next);
      GrownOne(labels0, labels2, places0, places, |code|);
      GrownTrans(old(labels), labels0, labels, old(places), places0, places);
    }

    method LowerFor(s: Stmt) returns (ok: bool)
      requires Valid() && s.For?
      modifies this`code, this`fixups, this`labels, this`calls, this`loops, this`meant, this`places
      ensures ok == LowersStmt(locals.Keys, callable, s, old(loops) != [])
      ensures ok ==> Valid() && loops == old(loops) && |code| == old(|code|) + StmtLen(Spec(), s)
      ensures ok ==> Grown(old(labels), labels, old(places), places)
      ensures ok ==> meant == old(meant) + GenStmt(Spec(), s, old(|code|), old(ExitsNow()))
      decreases s, 1
    {
      hide Sound, Grown, LowersExpr, LowersBlock, LowersStmt, ExprLen, BlockLen, StmtLen, GenExpr, GenBlock, GenStmt, ForSetup, ForCode, StepExpr;
      var x := s.name;
      ForShape(Spec(), s, |code|, ExitsNow());
      ForLowers(locals.Keys, callable, s, loops != []);
      if x !in locals || EndName(x) !in locals || StepName(x) !in locals { return false; }
      ok := LowerSetup(s);
      if !ok { return; }
      ghost var labels1, places1, setup := labels, places, meant;
      ghost var top, len := |code|, BlockLen(Spec(), s.body);
      ok := LowerCounting(x, s.body);
      if !ok { return; }
      GrownTrans(old(labels), labels1, labels, old(places), places1, places);
      ghost var body := GenBlock(Spec(), s.body, top + 12, InLoop(top + len + 17, top + len + 12));
      assert meant == old(meant) + (ForSetup(Spec(), x, s.start, s.end, s.step, old(|code|)) + ForCode(Spec(), x, body));
    }

    /** The bounds, each in its slot. */
    method LowerSetup(s: Stmt) returns (ok: bool)
      requires Valid() && s.For? && s.name in locals && EndName(s.name) in locals && StepName(s.name) in locals
      modifies this`code, this`fixups, this`labels, this`calls, this`meant, this`places
      ensures ok == (LowersExpr(locals.Keys, callable, s.start) && LowersExpr(locals.Keys, callable, s.end) && LowersExpr(locals.Keys, callable, StepExpr(s.step)))
      ensures ok ==> Valid() && |code| == old(|code|) + |ForSetup(Spec(), s.name, s.start, s.end, s.step, old(|code|))|
      ensures ok ==> Grown(old(labels), labels, old(places), places)
      ensures ok ==> meant == old(meant) + ForSetup(Spec(), s.name, s.start, s.end, s.step, old(|code|))
    {
      hide Sound, Grown, LowersExpr, ExprLen, GenExpr, StepExpr;
      ghost var pc := |code|;
      ok := LowerBound(s.start, s.name);
      if !ok { return; }
      ghost var labels1, places1, m1 := labels, places, meant;
      ok := LowerBound(s.end, EndName(s.name));
      if !ok { return; }
      GrownTrans(old(labels), labels1, labels, old(places), places1, places);
      ghost var labels2, places2, m2 := labels, places, meant;
      DefaultStep(locals.Keys, callable, s.step);
      ok := LowerBound(if s.step.Some? then s.step.value else Int(1), StepName(s.name));
      if !ok { return; }
      GrownTrans(old(labels), labels2, labels, old(places), places2, places);
      SetupJoined(old(meant), Spec(), s, pc);
    }

    method LowerBound(e: Expr, x: string) returns (ok: bool)
      requires Valid() && x in locals
      modifies this`code, this`fixups, this`labels, this`calls, this`meant, this`places
      ensures ok == LowersExpr(locals.Keys, callable, e)
      ensures ok ==> Valid() && |code| == old(|code|) + ExprLen(e) + 1 && Grown(old(labels), labels, old(places), places)
      ensures ok ==> meant == old(meant) + (GenExpr(Spec(), e, old(|code|)) + [StoreVar(Spec(), x)])
    {
      hide Sound, Grown, LowersExpr, ExprLen, GenExpr;
      ok := LowerExpr(e);
      if !ok { return; }
      Emit(Instr.Str(0, FP, locals[x]));
    }

    /** The test, the body and the step. The five labels are made together, the body's own label
        and the step's bound on the way. */
    method LowerCounting(x: string, body: seq<Stmt>) returns (ok: bool)
      requires Valid() && x in locals && EndName(x) in locals && StepName(x) in locals
      modifies this`code, this`fixups, this`labels, this`calls, this`loops, this`meant, this`places
      ensures ok == LowersBlock(locals.Keys, callable, body, true)
      ensures ok ==> Valid() && loops == old(loops) && |code| == old(|code|) + BlockLen(Spec(), body) + 17
      ensures ok ==> Grown(old(labels), labels, old(places), places)
      ensures ok ==> var top, len := old(|code|), BlockLen(Spec(), body);
                     meant == old(meant) + ForCode(Spec(), x, GenBlock(Spec(), body, top + 12, InLoop(top + len + 17, top + len + 12)))
      decreases body, 2
    {
      hide Sound, Grown, LowersBlock, BlockLen, GenBlock, ForCode, ForGuard, ForStep;
      ghost var at, len := |code|, BlockLen(Spec(), body);
      var top, cont, exit := OpenCounting(x, len);
      ghost var labels1, places1 := labels, places;
      ok := LowerLoopBody(body, exit, cont);
      if !ok { return; }
      GrownAt(labels1, labels, places1, places);
      ghost var labels2 := labels;
      Bind(cont);
      EmitStep(x);
      EmitBranch(B(0), top);
      Bind(exit);
      ForJoined(old(meant), Spec(), x, GenBlock(Spec(), body, at + 12, InLoop(at + len + 17, at + len + 12)));
      GrownFive(old(labels), labels1, labels2, old(places), places1, places, at + len + 12, at + len + 17);
    }

    /** Labels `top`, `desc`, `body`, `cont` and `exit`, and the test that picks its comparison by
        the step's sign. */
    method OpenCounting(x: string, ghost len: nat) returns (top: nat, cont: nat, exit: nat)
      requires Valid() && x in locals && EndName(x) in locals && StepName(x) in locals
      modifies this`code, this`fixups, this`labels, this`meant, this`places
      ensures Valid() && |code| == old(|code|) + 12 && meant == old(meant) + ForGuard(Spec(), x, len)
      ensures top == old(|labels|) && cont == top + 3 && exit == top + 4
      ensures places == old(places) + [old(|code|), old(|code|) + 8, old(|code|) + 12, old(|code|) + len + 12, old(|code|) + len + 17]
      ensures labels == old(labels) + [Some(old(|code|)), Some(old(|code|) + 8), Some(old(|code|) + 12), None, None]
    {
      hide Sound, ForGuard;
      top := CountingLabels(len);
      cont, exit := top + 3, top + 4;
      EmitGuard(x, top, len);
    }

    method CountingLabels(ghost len: nat) returns (top: nat)
      requires Valid()
      modifies this`labels, this`places
      ensures Valid() && top == old(|labels|) && labels == old(labels) + [None, None, None, None, None]
      ensures places == old(places) + [|code|, |code| + 8, |code| + 12, |code| + len + 12, |code| + len + 17]
    {
      hide Sound;
      ghost var at := |code|;
      top := NewLabel(|code|);
      var desc := NewLabel(|code| + 8);
      var body := NewLabel(|code| + 12);
      var cont := NewLabel(|code| + len + 12);
      var exit := NewLabel(|code| + len + 17);
      assert places == old(places) + [at] + [at + 8] + [at + 12] + [at + len + 12] + [at + len + 17];
      assert labels == old(labels) + [None] + [None] + [None] + [None] + [None];
    }

    method EmitGuard(x: string, top: nat, ghost len: nat)
      requires Valid() && x in locals && EndName(x) in locals && StepName(x) in locals && top + 5 == |labels|
      requires places[top..] == [|code|, |code| + 8, |code| + 12, |code| + len + 12, |code| + len + 17]
      modifies this`code, this`fixups, this`labels, this`meant
      ensures Valid() && |code| == old(|code|) + 12 && meant == old(meant) + ForGuard(Spec(), x, len)
      ensures labels == old(labels)[top := Some(old(|code|))][top + 1 := Some(old(|code|) + 8)][top + 2 := Some(old(|code|) + 12)]
    {
      hide Sound, ForGuard;
      ghost var m := meant;
      assert places[top] == places[top..][0] && places[top + 1] == places[top..][1] && places[top + 2] == places[top..][2];
      assert places[top + 4] == places[top..][4];
      Bind(top);
      EmitSign(x, top + 1);
      EmitPick(x, BCond(CGt, 0), top + 4);
      EmitBranch(B(0), top + 2);
      Bind(top + 1);
      EmitPick(x, BCond(CLt, 0), top + 4);
      Bind(top + 2);
      GuardJoined(m, Spec(), x, len);
    }

    method EmitSign(x: string, desc: nat)
      requires Valid() && StepName(x) in locals && desc < |labels|
      modifies this`code, this`fixups, this`meant
      ensures Valid() && |code| == old(|code|) + 3
      ensures meant == old(meant) + ([LoadVar(Spec(), 0, StepName(x)), CmpZero(0)] + [BCond(CLt, places[desc] - (old(|code|) + 2))])
    {
      hide Sound;
      Emit(Ldr(0, FP, locals[StepName(x)]));
      Emit(CmpZero(0));
      EmitBranch(BCond(CLt, 0), desc);
      assert meant == old(meant) + [LoadVar(Spec(), 0, StepName(x))] + [CmpZero(0)] + [BCond(CLt, places[desc] - (old(|code|) + 2))];
    }

    method EmitPick(x: string, i: Instr, exit: nat)
      requires Valid() && x in locals && EndName(x) in locals && exit < |labels| && i.BCond? && i.off == 0
      modifies this`code, this`fixups, this`meant
      ensures Valid() && |code| == old(|code|) + 4
      ensures meant == old(meant) + ([LoadVar(Spec(), 0, x), LoadVar(Spec(), 1, EndName(x)), Cmp(0, 1)] + [BCond(i.cond, places[exit] - (old(|code|) + 3))])
    {
      hide Sound;
      Emit(Ldr(0, FP, locals[x]));
      Emit(Ldr(1, FP, locals[EndName(x)]));
      Emit(Cmp(0, 1));
      EmitBranch(i, exit);
      assert meant == old(meant) + [LoadVar(Spec(), 0, x)] + [LoadVar(Spec(), 1, EndName(x))] + [Cmp(0, 1)] + [BCond(i.cond, places[exit] - (old(|code|) + 3))];
    }

    method EmitStep(x: string)
      requires Valid() && x in locals && StepName(x) in locals
      modifies this`code, this`meant
      ensures Valid() && |code| == old(|code|) + 4 && meant == old(meant) + ForStep(Spec(), x)
    {
      hide Sound;
      Emit(Ldr(0, FP, locals[x]));
      Emit(Ldr(1, FP, locals[StepName(x)]));
      Emit(Alu(AAdd, 0, 0, 1));
      Emit(Instr.Str(0, FP, locals[x]));
      assert meant == old(meant) + [LoadVar(Spec(), 0, x)] + [LoadVar(Spec(), 1, StepName(x))] + [Alu(AAdd, 0, 0, 1)] + [StoreVar(Spec(), x)];
    }

    // ---- The function ----

    method EmitPrologue(params: seq<string>)
      requires Valid() && |params| <= 8 && forall p :: p in params ==> p in locals
      modifies this`code, this`meant
      ensures Valid() && meant == old(meant) + (Prologue(Spec()) + Spills(Spec(), params))
      ensures |code| == old(|code|) + |Prologue(Spec()) + Spills(Spec(), params)|
    {
      hide Sound, Prologue, Spills;
      EmitEntry();
      ghost var before := meant;
      var i := 0;
      SpillsNone(Spec(), params);
      while i < |params|
        invariant i <= |params| && Valid() && meant == before + Spills(Spec(), params[..i])
      {
        EmitSpill(params, i);
        SpillsNext(Spec(), params, i);
        i := i + 1;
      }
      assert params[..i] == params;
      assert meant == old(meant) + Prologue(Spec()) + Spills(Spec(), params);
    }

    method EmitEntry()
      requires Valid()
      modifies this`code, this`meant
      ensures Valid() && meant == old(meant) + Prologue(Spec())
    {
      hide Sound;
      Emit(StpPre);
      if localsSize > 0 {
        Emit(SubSp(localsSize));
      }
      Emit(MovFpSp);
      assert meant == old(meant) + [StpPre] + (if localsSize > 0 then [SubSp(localsSize)] else []) + [MovFpSp];
    }

    method EmitSpill(params: seq<string>, i: nat)
      requires Valid() && i < |params| <= 8 && forall p :: p in params ==> p in locals
      modifies this`code, this`meant
      ensures Valid() && meant == old(meant) + [Instr.Str(i, FP, Slot(Spec(), params[i]))]
    {
      hide Sound;
      assert params[i] in params;
      Emit(Instr.Str(i, FP, locals[params[i]]));
    }
  }

  /** Between one fix-up and the next there is no branch. */
  lemma NextFixup(fixups: seq<Fixup>, meant: seq<Instr>, places: seq<nat>, n: nat)
    requires FixupsSound(fixups, meant, places) && n < |fixups|
    ensures forall k :: fixups[n].at < k < |meant| && (n + 1 < |fixups| ==> k < fixups[n + 1].at) ==> !IsBranch(meant[k])
  {
    forall k | fixups[n].at < k < |meant| && (n + 1 < |fixups| ==> k < fixups[n + 1].at) ensures !IsBranch(meant[k]) {
      if IsBranch(meant[k]) {
        var j :| 0 <= j < |fixups| && fixups[j].at == k;
        assert false;
      }
    }
  }

  lemma GrownAt(a: seq<Option<nat>>, b: seq<Option<nat>>, p: seq<nat>, q: seq<nat>)
    requires Grown(a, b, p, q)
    ensures |a| == |p| <= |b| == |q| && forall l :: 0 <= l < |p| ==> q[l] == p[l]
  {
    forall l | 0 <= l < |p| ensures q[l] == p[l] { assert q[..|p|][l] == q[l]; }
  }

  /** Two labels made first and bound last. */
  lemma GrownAround(a: seq<Option<nat>>, b: seq<Option<nat>>, p: seq<nat>, q: seq<nat>, x: nat, y: nat)
    requires |a| == |p| && |q| >= |p| + 2 && Grown(a + [None] + [None], b, p + [q[|p|]] + [q[|p| + 1]], q)
    ensures |b| == |q| && Grown(a, b[|a| := Some(x)][|a| + 1 := Some(y)], p, q)
  {
    var n := |a|;
    var p1, c := p + [q[n]] + [q[n + 1]], b[n := Some(x)][n + 1 := Some(y)];
    assert b[..n + 2] == a + [None] + [None] && q[..n + 2] == p1;
    assert c[..n] == b[..n] == a by { assert b[..n + 2][..n] == b[..n]; }
    assert q[..n] == p by { assert q[..n + 2][..n] == q[..n]; assert p1[..n] == p; }
  }

  /** A loop's top is bound at once, its end last. */
  lemma GrownLoop(a: seq<Option<nat>>, b: seq<Option<nat>>, p: seq<nat>, q: seq<nat>, top: nat, end: nat)
    requires |a| == |p| && |q| >= |p| + 2 && Grown(a + [Some(top)] + [None], b, p + [q[|p|]] + [q[|p| + 1]], q)
    ensures |b| == |q| && Grown(a, b[|a| + 1 := Some(end)], p, q)
  {
    var n := |a|;
    var p1, c := p + [q[n]] + [q[n + 1]], b[n + 1 := Some(end)];
    assert b[..n + 2] == a + [Some(top)] + [None] && q[..n + 2] == p1;
    assert b[n] == b[..n + 2][n] == Some(top);
    assert c[..n] == b[..n] == a by { assert b[..n + 2][..n] == b[..n]; }
    assert q[..n] == p by { assert q[..n + 2][..n] == q[..n]; assert p1[..n] == p; }
  }

  lemma GrownRefl(a: seq<Option<nat>>, p: seq<nat>)
    requires |a| == |p|
    ensures Grown(a, a, p, p)
  {
  }

  /** Labels in use keep their places. */
  lemma SameExits(loops: seq<LoopFrame>, a: seq<Option<nat>>, b: seq<Option<nat>>, p: seq<nat>, q: seq<nat>)
    requires Grown(a, b, p, q) && forall k :: 0 <= k < |loops| ==> loops[k].breakLabel < |a| && loops[k].continueLabel < |a|
    ensures |q| >= |p|
    ensures forall k :: 0 <= k < |loops| ==> q[loops[k].breakLabel] == p[loops[k].breakLabel] && q[loops[k].continueLabel] == p[loops[k].continueLabel]
  {
    GrownAt(a, b, p, q);
  }

  // ---- Shapes ----

  lemma RegionShape(locals: set<string>, callable: set<string>, g: Gen, body: seq<Stmt>, pc: nat, ex: Exits)
    ensures GenStmt(g, Region(body), pc, ex) == GenBlock(g, body, pc, ex) && StmtLen(g, Region(body)) == BlockLen(g, body)
    ensures forall inLoop :: LowersStmt(locals, callable, Region(body), inLoop) == LowersBlock(locals, callable, body, inLoop)
  {
  }

  lemma BlockJoined(m: seq<Instr>, g: Gen, body: seq<Stmt>, pc: nat, ex: Exits)
    requires body != []
    ensures m + GenStmt(g, body[0], pc, ex) + GenBlock(g, body[1..], pc + StmtLen(g, body[0]), ex) == m + GenBlock(g, body, pc, ex)
  {
    hide GenStmt, StmtLen;
  }

  lemma AssignLowers(locals: set<string>, callable: set<string>, x: string, op: AssignOp, e: Expr, inLoop: bool)
    ensures LowersStmt(locals, callable, Assign(x, op, e), inLoop) == (x in locals && LowersExpr(locals, callable, e))
  {
  }

  lemma WhileLowers(locals: set<string>, callable: set<string>, cond: Expr, body: seq<Stmt>, inLoop: bool)
    ensures LowersStmt(locals, callable, While(cond, body), inLoop) == (LowersExpr(locals, callable, cond) && LowersBlock(locals, callable, body, true))
  {
  }

  lemma LoopLowers(locals: set<string>, callable: set<string>, body: seq<Stmt>, inLoop: bool)
    ensures LowersStmt(locals, callable, Loop(body), inLoop) == LowersBlock(locals, callable, body, true)
  {
  }

  lemma WhileJoined(m: seq<Instr>, c: seq<Instr>, body: seq<Instr>)
    ensures m + c + [Cbz(0, |body| + 2)] + body + [B(0 - (|c| + 1 + |body|))] == m + WhileCode(c, body)
  {
  }

  lemma LoopJoined(m: seq<Instr>, body: seq<Instr>)
    ensures m + body + [B(0 - |body|)] == m + LoopCode(body)
  {
  }

  function Inserted(u: nat, hw: nat): seq<Instr> {
    if hw <= 1 then [MovZ(0, Chunk(u, 0), 0)] else Inserted(u, hw - 1) + Insert(u, hw - 1)
  }

  lemma InsertShape(u: nat, hw: nat)
    requires hw >= 1
    ensures Inserted(u, hw + 1) == Inserted(u, hw) + if Chunk(u, hw) != 0 then [MovK(0, Chunk(u, hw), hw)] else []
  {
    hide Chunk;
  }

  lemma InsertedAll(value: i64)
    ensures Inserted(U64(value), 4) == A64Idioms.LoadImm(value)
  {
    hide Chunk, Insert, U64;
    var u := U64(value);
    assert Inserted(u, 2) == Inserted(u, 1) + Insert(u, 1);
    assert Inserted(u, 3) == Inserted(u, 2) + Insert(u, 2);
    assert Inserted(u, 4) == Inserted(u, 3) + Insert(u, 3);
  }

  lemma BinaryLowers(locals: set<string>, callable: set<string>, l: Expr, op: BinaryOp, r: Expr)
    ensures LowersExpr(locals, callable, Binary(l, op, r)) == (LowersExpr(locals, callable, l) && LowersExpr(locals, callable, r))
  {
  }

  lemma UnaryLowers(locals: set<string>, callable: set<string>, op: UnaryOp, a: Expr)
    ensures LowersExpr(locals, callable, Unary(op, a)) == LowersExpr(locals, callable, a)
  {
  }

  lemma CallLowers(locals: set<string>, callable: set<string>, f: string, args: seq<Expr>)
    ensures LowersExpr(locals, callable, Call(f, args))
         == (LowersArgs(locals, callable, args) && (Inlined(f, |args|) || (f in callable && |args| <= 8)))
  {
    hide Inlined;
  }

  lemma StrictJoined(m: seq<Instr>, lc: seq<Instr>, rc: seq<Instr>, op: BinaryOp)
    requires op != And && op != Or
    ensures m + lc + [Push(0)] + rc + ([Mov(1, 0), Pop(0)] + OpCode(op)) == m + StrictCode(op, lc, rc)
  {
    hide OpCode;
  }

  lemma LogicJoined(m: seq<Instr>, lc: seq<Instr>, rc: seq<Instr>, conj: bool)
    ensures m + (lc + [if conj then Cbz(0, |rc| + 4) else Cbnz(0, |rc| + 4)]) + rc
            + ([CmpZero(0), CSet(0, CNe)] + [B(2)] + [MovZ(0, if conj then 0 else 1, 0)]) == m + LogicCode(conj, lc, rc)
  {
    assert [CmpZero(0), CSet(0, CNe)] == TruthCode();
  }

  lemma ArgsJoined(m: seq<Instr>, g: Gen, args: seq<Expr>, pc: nat, keep: bool)
    requires args != [] && !(keep && |args| == 1)
    ensures m + GenExpr(g, args[0], pc) + [Push(0)] + GenArgs(g, args[1..], pc + ExprLen(args[0]) + 1, keep) == m + GenArgs(g, args, pc, keep)
    ensures ArgsLen(args, keep) == ExprLen(args[0]) + 1 + ArgsLen(args[1..], keep)
  {
    hide GenExpr, ExprLen;
  }

  lemma CallJoined(m: seq<Instr>, args: seq<Instr>, n: nat, off: int)
    requires n <= 8
    ensures m + args + Pops(n) + [Bl(off)] == m + CallCode(args, n, off)
  {
    hide Pops;
  }

  lemma TailParts()
    ensures |AbsCode(1, 2)| == 3 && |AbsCode(0, 2)| == 3 && |TurnCode()| == 4 && |BuiltinTail("gcd")| == 14
    ensures forall i :: i in AbsCode(1, 2) + AbsCode(0, 2) + TurnCode() ==> Plain(i)
  {
  }

  lemma ChunkFits(u: nat)
    ensures forall hw: nat :: Chunk(u, hw) < 0x1_0000
  {
  }

  lemma SmallConstants()
    ensures A64Idioms.LoadImm(0) == [MovZ(0, 0, 0)] && A64Idioms.LoadImm(1) == [MovZ(0, 1, 0)]
  {
    ChunkPowers();
    hide Pow2;
  }

  lemma NoBranchUnary(op: UnaryOp)
    ensures forall i :: i in UnaryCode(op) ==> Plain(i)
  {
  }

  lemma NoBranchOp(op: BinaryOp)
    requires op != And && op != Or
    ensures forall i :: i in OpCode(op) ==> Plain(i)
  {
  }

  lemma NoBranchTail(f: string)
    requires f != "gcd"
    ensures forall i :: i in BuiltinTail(f) ==> Plain(i)
  {
    hide GcdCode;
  }

  lemma GcdShape(before: seq<Instr>)
    ensures before + [Pop(1)] + AbsCode(1, 2) + AbsCode(0, 2) + [Cbz(0, 6)] + TurnCode() + [B(-5)] + [Mov(0, 1)] == before + BuiltinTail("gcd")
  {
    assert EuclidLoop() == [Cbz(0, 6)] + TurnCode() + [B(-5)] + [Mov(0, 1)];
  }

  lemma GrownTrans(a: seq<Option<nat>>, b: seq<Option<nat>>, c: seq<Option<nat>>, p: seq<nat>, q: seq<nat>, r: seq<nat>)
    requires Grown(a, b, p, q) && Grown(b, c, q, r)
    ensures Grown(a, c, p, r)
  {
    assert c[..|a|] == b[..|a|] by { assert c[..|b|][..|a|] == c[..|a|]; }
    assert r[..|p|] == q[..|p|] by { assert r[..|q|][..|p|] == r[..|p|]; }
    forall l | |a| <= l < |c| ensures c[l].Some? {
      if l < |b| { assert c[..|b|][l] == b[l]; }
    }
  }

  lemma IfShape(locals: set<string>, callable: set<string>, g: Gen, s: Stmt, pc: nat, ex: Exits, inLoop: bool)
    requires s.If?
    ensures GenStmt(g, s, pc, ex) == GenIf(g, s, 0, pc, ex) && StmtLen(g, s) == IfLen(g, s, 0)
    ensures LowersStmt(locals, callable, s, inLoop) == (LowersIf(locals, callable, s, 0, inLoop) && LowersBlock(locals, callable, s.orelse, inLoop))
  {
    hide GenIf, IfLen, LowersIf, LowersBlock;
  }

  lemma IfLast(locals: set<string>, callable: set<string>, g: Gen, s: Stmt, pc: nat, ex: Exits, inLoop: bool)
    requires s.If?
    ensures GenIf(g, s, |s.branches|, pc, ex) == GenBlock(g, s.orelse, pc, ex) && IfLen(g, s, |s.branches|) == BlockLen(g, s.orelse)
    ensures LowersIf(locals, callable, s, |s.branches|, inLoop)
  {
    hide GenBlock, BlockLen;
  }

  lemma BranchLowers(locals: set<string>, callable: set<string>, s: Stmt, i: nat, inLoop: bool)
    requires s.If? && i < |s.branches|
    ensures LowersIf(locals, callable, s, i, inLoop)
         == (LowersExpr(locals, callable, s.branches[i].cond) && LowersBlock(locals, callable, s.branches[i].body, inLoop)
             && LowersIf(locals, callable, s, i + 1, inLoop))
  {
    hide LowersExpr, LowersBlock;
  }

  lemma BranchJoined(m: seq<Instr>, c: seq<Instr>, body: seq<Instr>, rest: seq<Instr>)
    ensures m + (c + [Cbz(0, |body| + 2)] + body + [B(|rest| + 1)]) + rest == m + BranchCode(c, body, rest)
  {
  }

  /** One label made first and bound last. */
  lemma GrownOne(a: seq<Option<nat>>, b: seq<Option<nat>>, p: seq<nat>, q: seq<nat>, x: nat)
    requires |a| == |p| && |q| > |p| && Grown(a + [None], b, p + [q[|p|]], q)
    ensures |b| == |q| && Grown(a, b[|a| := Some(x)], p, q)
  {
    var n := |a|;
    var c := b[n := Some(x)];
    assert b[..n + 1] == a + [None] && q[..n + 1] == p + [q[n]];
    assert c[..n] == b[..n] == a by { assert b[..n + 1][..n] == b[..n]; }
    assert q[..n] == p by { assert q[..n + 1][..n] == q[..n]; }
  }

  /** A range loop's five labels: three bound in the test, two after the body. */
  lemma GrownFive(a: seq<Option<nat>>, b: seq<Option<nat>>, c: seq<Option<nat>>, p: seq<nat>, q: seq<nat>, r: seq<nat>, x: nat, y: nat)
    requires |a| == |p| && |b| == |q| == |a| + 5 && b[..|a|] == a && q[..|p|] == p && Grown(b, c, q, r)
    requires b[|a|].Some? && b[|a| + 1].Some? && b[|a| + 2].Some?
    ensures |c| == |r| >= |a| + 5 && Grown(a, c[|a| + 3 := Some(x)][|a| + 4 := Some(y)], p, r)
  {
    var n := |a|;
    var d := c[n + 3 := Some(x)][n + 4 := Some(y)];
    assert c[..n + 5] == b && r[..n + 5] == q;
    assert d[..n] == c[..n] == a by { assert c[..n + 5][..n] == c[..n]; }
    assert r[..n] == p by { assert r[..n + 5][..n] == r[..n]; }
    forall l | n <= l < |d| ensures d[l].Some? {
      if l < n + 3 { assert c[..n + 5][l] == c[l]; }
    }
  }

  lemma ForLowers(locals: set<string>, callable: set<string>, s: Stmt, inLoop: bool)
    requires s.For?
    ensures LowersStmt(locals, callable, s, inLoop)
         == (s.name in locals && EndName(s.name) in locals && StepName(s.name) in locals
             && LowersExpr(locals, callable, s.start) && LowersExpr(locals, callable, s.end) && LowersExpr(locals, callable, StepExpr(s.step))
             && LowersBlock(locals, callable, s.body, true))
  {
    hide LowersExpr, LowersBlock, StepExpr;
  }

  lemma DefaultStep(locals: set<string>, callable: set<string>, step: Option<Expr>)
    ensures StepExpr(step) == if step.Some? then step.value else Int(1)
  {
  }

  lemma SetupJoined(m: seq<Instr>, g: Gen, s: Stmt, pc: nat)
    requires s.For?
    ensures var a, b := ExprLen(s.start) + 1, ExprLen(s.end) + 1;
            && |ForSetup(g, s.name, s.start, s.end, s.step, pc)| == a + b + ExprLen(StepExpr(s.step)) + 1
            && m + (GenExpr(g, s.start, pc) + [StoreVar(g, s.name)]) + (GenExpr(g, s.end, pc + a) + [StoreVar(g, EndName(s.name))])
               + (GenExpr(g, StepExpr(s.step), pc + a + b) + [StoreVar(g, StepName(s.name))])
               == m + ForSetup(g, s.name, s.start, s.end, s.step, pc)
  {
    hide GenExpr, ExprLen, StepExpr;
  }

  lemma ForJoined(m: seq<Instr>, g: Gen, x: string, body: seq<Instr>)
    ensures m + ForGuard(g, x, |body|) + body + ForStep(g, x) + [B(0 - (|body| + 16))] == m + ForCode(g, x, body)
  {
    hide ForGuard, ForStep;
  }

  lemma GuardJoined(m: seq<Instr>, g: Gen, x: string, len: nat)
    ensures m + ([LoadVar(g, 0, StepName(x)), CmpZero(0)] + [BCond(CLt, 6)])
            + ([LoadVar(g, 0, x), LoadVar(g, 1, EndName(x)), Cmp(0, 1)] + [BCond(CGt, len + 11)]) + [B(5)]
            + ([LoadVar(g, 0, x), LoadVar(g, 1, EndName(x)), Cmp(0, 1)] + [BCond(CLt, len + 6)]) == m + ForGuard(g, x, len)
  {
    hide LoadVar;
  }

  lemma SpillsNone(g: Gen, params: seq<string>)
    ensures Spills(g, params[..0]) == []
  {
  }

  lemma SpillsNext(g: Gen, params: seq<string>, i: nat)
    requires i < |params| <= 8
    ensures Spills(g, params[..i + 1]) == Spills(g, params[..i]) + [Instr.Str(i, FP, Slot(g, params[i]))]
  {
    assert params[..i + 1][..i] == params[..i];
  }

  // ---- One function ----

  /** Every field fits, and every branch stays inside the function. */
  ghost predicate WithinReach(code: seq<Instr>) {
    forall k :: 0 <= k < |code| ==> Encodable(Blank(code[k])) && (IsBranch(code[k]) ==> -|code| <= Offset(code[k]) <= |code|)
  }

  datatype LoweredFn = LoweredFn(code: seq<bv32>, calls: seq<CallSite>)

  lemma SlotsFit(f: Function)
    requires FrameSize(f) <= 0xFFF
    ensures forall x :: x in SlotMap(Locals(f)) ==> SlotMap(Locals(f))[x] < 0x1000
  {
    hide Locals, SlotMap;
    SlotMapFacts(Locals(f));
    RoundedUp(|Locals(f)|);
  }

  /** A function is lowered exactly when its frame and body are in the subset. Its words are the
      specified instructions, calls blank; the call sites are exactly the blank ones. */
  method LowerFunction(f: Function, callable: set<string>, ghost entries: map<string, int>) returns (r: Option<LoweredFn>)
    requires |f.params| <= 8 && callable == entries.Keys
    ensures r.Some? <==> LowersFunction(f, callable)
    ensures r.Some? ==> var code := GenFunction(GenOf(f, entries), f);
                        && |r.value.code| == |code| && (forall k :: 0 <= k < |code| ==> r.value.code[k] == Encode(Resolved(code[k])))
                        && CallsSound(r.value.calls, code, entries) && WithinReach(code)
  {
    hide Sound, Encode, Prologue, Spills, Epilogue, GenBlock, LowersBlock, Locals, SlotMap, CallsSound, BlockLen;
    var size := FrameSize(f);
    if size > 0xFFF { return None; }
    var locals := SlotMap(Locals(f));
    ParamsHaveSlots(f, entries);
    SlotsFit(f);
    var gen := new FnGen(locals, size, callable, entries);
    GrownRefl(gen.labels, gen.places);
    gen.EmitPrologue(f.params);
    assert gen.meant == Prologue(gen.Spec()) + Spills(gen.Spec(), f.params);
    var ok := gen.LowerBlock(f.body);
    if !ok { return None; }
    gen.EmitEpilogue();
    assert gen.meant == GenFunction(GenOf(f, entries), f);
    SoundFacts(gen.code, gen.labels, gen.fixups, gen.calls, gen.meant, gen.places, gen.entries);
    assert forall l :: 0 <= l < |gen.labels| ==> gen.labels[l].Some?;
    gen.ResolveFixups();
    return Some(LoweredFn(gen.code, gen.calls));
  }

  lemma SoundFacts(code: seq<bv32>, labels: seq<Option<nat>>, fixups: seq<Fixup>, calls: seq<CallSite>,
                   meant: seq<Instr>, places: seq<nat>, entries: map<string, int>)
    requires Sound(code, labels, fixups, calls, meant, places, entries)
    ensures CallsSound(calls, meant, entries)
    ensures (forall l :: 0 <= l < |labels| ==> labels[l].Some?) ==> WithinReach(meant)
  {
    hide Encode, CallsSound, Encodable, Blank;
    if forall l :: 0 <= l < |labels| ==> labels[l].Some? {
      forall k | 0 <= k < |meant| && IsBranch(meant[k]) ensures -|meant| <= Offset(meant[k]) <= |meant| {
        var j :| 0 <= j < |fixups| && fixups[j].at == k;
        assert labels[fixups[j].target].Some?;
      }
    }
  }
}

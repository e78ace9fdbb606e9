/** The generated code never writes a callee-saved register: `x19` to `x28` hold at every
    moment of every run what they held at the start. */
module A64Saved {
  import opened Words
  import opened Ir
  import opened A64Isa
  import opened A64Machine
  import opened A64Idioms
  import opened A64Gen
  import opened A64Program

  /** What an instruction writes, if it is a data register, is one a call may clobber, and the
      frame pointer and link register are written by the prologue and epilogue's own
      instructions only. */
  predicate Scratch(i: Instr) {
    match i
    case MovZ(rd, _, _) => rd < 19
    case MovK(rd, _, _) => rd < 19
    case Alu(_, rd, _, _) => rd < 19
    case MSub(rd, _, _, _) => rd < 19
    case Mvn(rd, _) => rd < 19
    case CSet(rd, _) => rd < 19
    case CSel(rd, _, _, _) => rd < 19
    case AsrImm(rd, _, _) => rd < 19
    case Ldr(rt, _, _) => rt < 19
    case Pop(rt) => rt < 19
    case _ => true
  }

  predicate AllScratch(code: seq<Instr>) { forall i :: 0 <= i < |code| ==> Scratch(code[i]) }

  predicate SavedKept(c: Cpu, d: Cpu) { forall r: nat :: 19 <= r < 29 ==> d.x[r] == c.x[r] }

  lemma ScratchStep(i: Instr, c: Cpu)
    requires Scratch(i) && Do(i, c).Ran?
    ensures SavedKept(c, Do(i, c).c)
  {
    hide Wrap, AluValue, PutChunk, Chunk, Load, Holds, Pow2, Words.BitNot;
  }

  /** Any number of instructions, wherever control goes. */
  lemma {:induction false} SavedThroughout(code: seq<Instr>, c: Cpu, n: nat, d: Cpu)
    requires AllScratch(code) && Exec(code, c, n) == Ran(d)
    ensures SavedKept(c, d)
    decreases n
  {
    hide Do;
    if n > 0 {
      ScratchStep(code[c.pc], c);
      SavedThroughout(code, Do(code[c.pc], c).c, n - 1, d);
    }
  }

  // ---- What the generator emits ----

  lemma InsertScratch(u: nat, hw: nat)
    ensures AllScratch(Insert(u, hw))
  {
  }

  lemma LoadScratch(n: i64)
    ensures AllScratch(LoadImm(n))
  {
    hide Insert;
    var u := U64(n);
    InsertScratch(u, 1);
    InsertScratch(u, 2);
    InsertScratch(u, 3);
  }

  lemma TailScratch(f: string)
    ensures AllScratch(BuiltinTail(f))
  {
  }

  lemma {:induction false} PopsScratch(n: nat)
    requires n <= 8
    ensures AllScratch(Pops(n))
  {
    if n > 0 { PopsScratch(n - 1); }
  }

  lemma LogicScratch(conj: bool, lc: seq<Instr>, rc: seq<Instr>)
    requires AllScratch(lc) && AllScratch(rc)
    ensures AllScratch(LogicCode(conj, lc, rc))
  {
  }

  lemma StrictScratch(op: BinaryOp, lc: seq<Instr>, rc: seq<Instr>)
    requires op != And && op != Or && AllScratch(lc) && AllScratch(rc)
    ensures AllScratch(StrictCode(op, lc, rc))
  {
    assert AllScratch(OpCode(op));
    hide OpCode;
  }

  lemma {:induction false} ExprScratch(g: Gen, e: Expr, pc: nat)
    ensures AllScratch(GenExpr(g, e, pc))
    decreases e, 1
  {
    hide AllScratch, LoadImm, LogicCode, StrictCode, BuiltinTail, CallCode, UnaryCode;
    match e
    case Int(n) => LoadScratch(n);
    case BoolLit(b) => LoadScratch(if b then 1 else 0);
    case Var(x) => One(LoadVar(g, 0, x));
    case Unary(op, a) =>
      ExprScratch(g, a, pc);
      UnaryScratch(op);
      Joined(GenExpr(g, a, pc), UnaryCode(op));
    case Binary(l, op, r) =>
      ExprScratch(g, l, pc);
      ExprScratch(g, r, pc + ExprLen(l) + 1);
      var lc, rc := GenExpr(g, l, pc), GenExpr(g, r, pc + ExprLen(l) + 1);
      if op == And || op == Or { LogicScratch(op == And, lc, rc); } else { StrictScratch(op, lc, rc); }
    case Call(f, args) =>
      ArgsScratch(g, args, pc, true);
      ArgsScratch(g, args, pc, false);
      CalledScratch(g, f, args, pc);
    case _ => None();
  }

  lemma CalledScratch(g: Gen, f: string, args: seq<Expr>, pc: nat)
    requires AllScratch(GenArgs(g, args, pc, true)) && AllScratch(GenArgs(g, args, pc, false))
    ensures AllScratch(GenExpr(g, Call(f, args), pc))
  {
    hide AllScratch, BuiltinTail, CallCode, GenArgs;
    if Inlined(f, |args|) {
      TailScratch(f);
      Joined(GenArgs(g, args, pc, true), BuiltinTail(f));
    } else if |args| <= 8 {
      CallScratch(GenArgs(g, args, pc, false), |args|, Entry(g, f) - (pc + ExprLen(Call(f, args)) - 1));
    } else {
      Broken(ExprLen(Call(f, args)));
    }
  }

  lemma None()
    ensures AllScratch([])
  {
  }

  lemma One(i: Instr)
    requires Scratch(i)
    ensures AllScratch([i])
  {
  }

  lemma Joined(a: seq<Instr>, b: seq<Instr>)
    requires AllScratch(a) && AllScratch(b)
    ensures AllScratch(a + b)
  {
  }

  lemma UnaryScratch(op: UnaryOp)
    ensures AllScratch(UnaryCode(op))
  {
  }

  lemma Broken(n: nat)
    ensures AllScratch(seq(n, _ => Brk))
  {
  }

  lemma CallScratch(args: seq<Instr>, n: nat, off: int)
    requires n <= 8 && AllScratch(args)
    ensures AllScratch(CallCode(args, n, off))
  {
    PopsScratch(n);
    hide Pops;
  }

  lemma {:induction false} ArgsScratch(g: Gen, es: seq<Expr>, pc: nat, keep: bool)
    ensures AllScratch(GenArgs(g, es, pc, keep))
    decreases es, 0
  {
    hide GenExpr;
    if es != [] {
      ExprScratch(g, es[0], pc);
      if !(keep && |es| == 1) { ArgsScratch(g, es[1..], pc + ExprLen(es[0]) + 1, keep); }
    }
  }

  lemma EdgeScratch(g: Gen)
    ensures AllScratch(Prologue(g)) && AllScratch(Epilogue(g))
  {
  }

  lemma SetupScratch(g: Gen, x: string, start: Expr, end: Expr, step: Option<Expr>, pc: nat)
    ensures AllScratch(ForSetup(g, x, start, end, step, pc))
  {
    hide GenExpr, AllScratch, StoreVar, ExprLen, StepExpr, EndName, StepName, Slot;
    var a := StoredScratch(g, start, x, pc);
    var b := StoredScratch(g, end, EndName(x), pc + |a|);
    var k := StoredScratch(g, StepExpr(step), StepName(x), pc + |a| + |b|);
    Joined(a, b);
    Joined(a + b, k);
  }

  lemma StoredScratch(g: Gen, e: Expr, x: string, pc: nat) returns (code: seq<Instr>)
    ensures code == GenExpr(g, e, pc) + [StoreVar(g, x)] && AllScratch(code)
  {
    hide GenExpr;
    ExprScratch(g, e, pc);
    code := GenExpr(g, e, pc) + [StoreVar(g, x)];
  }

  lemma ForScratch(g: Gen, x: string, body: seq<Instr>)
    requires AllScratch(body)
    ensures AllScratch(ForCode(g, x, body))
  {
    GuardScratch(g, x, |body|);
    hide ForGuard, Slot;
  }

  lemma GuardScratch(g: Gen, x: string, len: nat)
    ensures AllScratch(ForGuard(g, x, len))
  {
    hide Slot;
  }

  lemma {:induction false} StmtScratch(g: Gen, s: Stmt, pc: nat, ex: Exits)
    ensures AllScratch(GenStmt(g, s, pc, ex))
    decreases s, 1
  {
    hide GenExpr, GenIf, GenBlock, Epilogue, ForSetup, ForCode, StrictCode, Slot, BlockLen, AllScratch, WhileCode, LoopCode, StoreVar, LoadVar;
    match s
    case Let(x, e) => var _ := StoredScratch(g, e, x, pc);
    case Assign(x, op, e) =>
      if op == Replace {
        var _ := StoredScratch(g, e, x, pc);
      } else {
        ExprScratch(g, e, pc + 2);
        UpdateScratch(g, x, AssignBinop(op), GenExpr(g, e, pc + 2));
      }
    case Return(Some(e)) =>
      ExprScratch(g, e, pc);
      EdgeScratch(g);
      Joined(GenExpr(g, e, pc), Epilogue(g));
    case ExprStmt(e) => ExprScratch(g, e, pc);
    case If(_, _) => IfScratch(g, s, 0, pc, ex);
    case While(cond, body) =>
      var len := ExprLen(cond);
      ExprScratch(g, cond, pc);
      var ex' := InLoop(pc + len + BlockLen(g, body) + 2, pc);
      BlockScratch(g, body, pc + len + 1, ex');
      LoopScratch(GenExpr(g, cond, pc), GenBlock(g, body, pc + len + 1, ex'));
    case For(x, start, end, step, body) =>
      SetupScratch(g, x, start, end, step, pc);
      var top, len := pc + |ForSetup(g, x, start, end, step, pc)|, BlockLen(g, body);
      BlockScratch(g, body, top + 12, InLoop(top + len + 17, top + len + 12));
      var code := GenBlock(g, body, top + 12, InLoop(top + len + 17, top + len + 12));
      ForScratch(g, x, code);
      Joined(ForSetup(g, x, start, end, step, pc), ForCode(g, x, code));
    case Loop(body) =>
      BlockScratch(g, body, pc, InLoop(pc + BlockLen(g, body) + 1, pc));
      None();
      LoopScratch([], GenBlock(g, body, pc, InLoop(pc + BlockLen(g, body) + 1, pc)));
    case Region(body) => BlockScratch(g, body, pc, ex);
    case Break => if ex.InLoop? { One(B(ex.brk - pc)); } else { One(Brk); }
    case Continue => if ex.InLoop? { One(B(ex.cont - pc)); } else { One(Brk); }
    case _ => None();
  }

  lemma UpdateScratch(g: Gen, x: string, op: BinaryOp, code: seq<Instr>)
    requires op != And && op != Or && AllScratch(code)
    ensures AllScratch(StrictCode(op, [LoadVar(g, 0, x)], code) + [StoreVar(g, x)])
  {
    StrictScratch(op, [LoadVar(g, 0, x)], code);
    hide StrictCode, Slot;
  }

  lemma LoopScratch(c: seq<Instr>, body: seq<Instr>)
    requires AllScratch(c) && AllScratch(body)
    ensures AllScratch(WhileCode(c, body)) && AllScratch(LoopCode(body))
  {
  }

  lemma {:induction false} IfScratch(g: Gen, s: Stmt, i: nat, pc: nat, ex: Exits)
    requires s.If? && i <= |s.branches|
    ensures AllScratch(GenIf(g, s, i, pc, ex))
    decreases s, 0, |s.branches| - i
  {
    hide GenExpr, GenBlock, AllScratch, BranchCode, ExprLen, BlockLen;
    if i == |s.branches| {
      BlockScratch(g, s.orelse, pc, ex);
    } else {
      var c := GenExpr(g, s.branches[i].cond, pc);
      var body := GenBlock(g, s.branches[i].body, pc + |c| + 1, ex);
      ExprScratch(g, s.branches[i].cond, pc);
      BlockScratch(g, s.branches[i].body, pc + |c| + 1, ex);
      IfScratch(g, s, i + 1, pc + |c| + |body| + 2, ex);
      BranchScratch(c, body, GenIf(g, s, i + 1, pc + |c| + |body| + 2, ex));
    }
  }

  lemma BranchScratch(c: seq<Instr>, body: seq<Instr>, rest: seq<Instr>)
    requires AllScratch(c) && AllScratch(body) && AllScratch(rest)
    ensures AllScratch(BranchCode(c, body, rest))
  {
  }

  lemma {:induction false} BlockScratch(g: Gen, body: seq<Stmt>, pc: nat, ex: Exits)
    ensures AllScratch(GenBlock(g, body, pc, ex))
    decreases body, 0
  {
    hide GenStmt;
    if body != [] {
      StmtScratch(g, body[0], pc, ex);
      BlockScratch(g, body[1..], pc + |GenStmt(g, body[0], pc, ex)|, ex);
    }
  }

  lemma {:induction false} SpillScratch(g: Gen, params: seq<string>)
    requires |params| <= 31
    ensures AllScratch(Spills(g, params))
    decreases |params|
  {
    if params != [] { SpillScratch(g, params[..|params| - 1]); }
  }

  lemma FunctionScratch(g: Gen, f: Function)
    requires |f.params| <= 8
    ensures AllScratch(GenFunction(g, f))
  {
    hide Prologue, Epilogue, Spills, GenBlock;
    EdgeScratch(g);
    SpillScratch(g, f.params);
    BlockScratch(g, f.body, |Prologue(g) + Spills(g, f.params)|, NoLoop);
  }

  lemma {:induction false} TextScratch(m: Programs.Module, order: seq<string>, at: nat, starts: map<string, int>)
    requires Placeable(m, order)
    ensures AllScratch(Text(m, order, at, starts))
    decreases |order|
  {
    hide GenFunction, GenAt;
    if order != [] {
      var start, f := at + Padding(at), m.functions[order[0]];
      FunctionScratch(GenAt(f, starts, start), f);
      TextScratch(m, order[1..], start + FunctionLen(f), starts);
    }
  }

  /** At every moment of every run of a linked program, entered anywhere in any state, the
      callee-saved registers hold what they held on entry. */
  lemma ProgramSaves(m: Programs.Module, order: seq<string>, c: Cpu, n: nat, d: Cpu)
    requires Placeable(m, order) && Exec(Image(m, order), c, n) == Ran(d)
    ensures SavedKept(c, d)
  {
    hide Text, Exec, Starts;
    var at := if "main" in order then STUB else 0;
    TextScratch(m, order, at, Starts(m, order, at));
    SavedThroughout(Image(m, order), c, n, d);
  }
}

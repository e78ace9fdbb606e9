/** Stack-frame layout: a slot for every binding, and the order in which scopes clean up. */
module FrameLayout {
  import opened ElfBytes

  const FRAME_ALIGN: nat := 16
  const SLOT_ALIGN: nat := 8

  datatype SlotClass = Parameter | Local | LoopVariable

  /** The part of a statement the layout looks at: its typed declarations and its bodies. */
  datatype Node =
    | Let(name: string, ty: string)
    | If(branches: seq<Branch>, orelse: seq<Node>)
    | While(body: seq<Node>)
    | Loop(body: seq<Node>)
    | Region(body: seq<Node>)
    | For(name: string, body: seq<Node>)
    | Try(body: seq<Node>, catchName: string, catchBody: seq<Node>)
    | Match(arms: seq<Arm>)
    | Other

  datatype Branch = Branch(body: seq<Node>)

  datatype Arm = Arm(bindings: seq<string>, body: seq<Node>)

  datatype Decl = Decl(name: string, ty: string, class_: SlotClass, depth: nat)

  datatype FrameSlot = FrameSlot(decl: Decl, offset: nat, size: nat)

  datatype ScopeCleanup = ScopeCleanup(depth: nat, names: seq<string>)

  datatype Layout = Layout(slots: seq<FrameSlot>, frameSize: nat, scopes: seq<ScopeCleanup>)

  /** The native size of a type: handles, pointers and unknown types take a word. */
  function RawSize(ty: string): nat { if ty == "void" then 0 else if ty == "bool" then 1 else 8 }

  function SlotSize(ty: string): nat { AlignUp(if RawSize(ty) == 0 then 1 else RawSize(ty), SLOT_ALIGN) }

  // ---- The child scopes of a statement ----

  function ChildCount(s: Node): nat {
    match s
    case If(branches, _) => |branches| + 1
    case While(_) => 1
    case Loop(_) => 1
    case Region(_) => 1
    case For(_, _) => 1
    case Try(_, _, _) => 2
    case Match(arms) => |arms|
    case _ => 0
  }

  function ChildBody(s: Node, i: nat): (body: seq<Node>)
    requires i < ChildCount(s)
    ensures s decreases to body
  {
    match s
    case If(branches, orelse) => if i < |branches| then branches[i].body else orelse
    case While(body) => body
    case Loop(body) => body
    case Region(body) => body
    case For(_, body) => body
    case Try(body, _, catchBody) => if i == 0 then body else catchBody
    case Match(arms) => arms[i].body
  }

  /** What a child scope declares before its body. */
  function Seeds(s: Node, i: nat, depth: nat): seq<Decl>
    requires i < ChildCount(s)
  {
    match s
    case For(name, _) => [Decl(name, "i64", LoopVariable, depth)]
    case Try(_, catchName, _) => if i == 0 then [] else [Decl(catchName, "string", LoopVariable, depth)]
    case Match(arms) =>
      var names := arms[i].bindings;
      seq(|names|, k requires 0 <= k < |names| => Decl(names[k], "enum_payload", Local, depth))
    case _ => []
  }

  // ---- Declarations in order ----

  function Decls(body: seq<Node>, depth: nat): seq<Decl>
    decreases body, 0
  {
    if body == [] then [] else NodeDecls(body[0], depth) + Decls(body[1..], depth)
  }

  function NodeDecls(s: Node, depth: nat): seq<Decl>
    decreases s, 1
  {
    if s.Let? then [Decl(s.name, s.ty, Local, depth)] else ChildDecls(s, 0, depth + 1)
  }

  function ChildDecls(s: Node, i: nat, depth: nat): seq<Decl>
    requires i <= ChildCount(s)
    decreases s, 0, ChildCount(s) - i
  {
    if i == ChildCount(s) then [] else Seeds(s, i, depth) + Decls(ChildBody(s, i), depth) + ChildDecls(s, i + 1, depth)
  }

  // ---- Cleanup plans, by declaration number ----

  /** One scope: its declarations in cleanup order, and the range of all declarations made while
      it was open. */
  datatype Plan = Plan(depth: nat, order: seq<nat>, lo: nat, hi: nat)

  function Upto(n: nat, from: nat): seq<nat> { seq(n, k requires 0 <= k => from + k) }

  function Reverse(ids: seq<nat>): (r: seq<nat>)
    ensures |r| == |ids| && forall k :: 0 <= k < |r| ==> r[k] == ids[|ids| - 1 - k]
  {
    if ids == [] then [] else Reverse(ids[1..]) + [ids[0]]
  }

  /** A scope without declarations has no plan. */
  function Finish(depth: nat, own: seq<nat>, lo: nat, hi: nat): seq<Plan> {
    if own == [] then [] else [Plan(depth, Reverse(own), lo, hi)]
  }

  /** The declarations of a block's own scope, the first declaration being number `at`. */
  function Own(body: seq<Node>, depth: nat, at: nat): seq<nat>
    decreases body
  {
    if body == [] then []
    else (if body[0].Let? then [at] else []) + Own(body[1..], depth, at + |NodeDecls(body[0], depth)|)
  }

  /** The plans of the scopes nested in a block, in the order they close. */
  function Inner(body: seq<Node>, depth: nat, at: nat): seq<Plan>
    decreases body, 0
  {
    if body == [] then []
    else NodePlans(body[0], depth, at) + Inner(body[1..], depth, at + |NodeDecls(body[0], depth)|)
  }

  function NodePlans(s: Node, depth: nat, at: nat): seq<Plan>
    decreases s, 1
  {
    if s.Let? then [] else ChildPlans(s, 0, depth + 1, at)
  }

  function ChildPlans(s: Node, i: nat, depth: nat, at: nat): seq<Plan>
    requires i <= ChildCount(s)
    decreases s, 0, ChildCount(s) - i
  {
    if i == ChildCount(s) then []
    else
      var seeds, body := Seeds(s, i, depth), ChildBody(s, i);
      var start := at + |seeds|;
      var end := start + |Decls(body, depth)|;
      Inner(body, depth, start) + Finish(depth, Upto(|seeds|, at) + Own(body, depth, start), at, end) + ChildPlans(s, i + 1, depth, end)
  }

  function ParamDecls(params: seq<(string, string)>): seq<Decl> {
    seq(|params|, k requires 0 <= k < |params| => Decl(params[k].0, params[k].1, Parameter, 0))
  }

  function AllDecls(params: seq<(string, string)>, body: seq<Node>): seq<Decl> { ParamDecls(params) + Decls(body, 0) }

  function AllPlans(params: seq<(string, string)>, body: seq<Node>): seq<Plan> {
    var n := |params|;
    Inner(body, 0, n) + Finish(0, Upto(n, 0) + Own(body, 0, n), 0, n + |Decls(body, 0)|)
  }

  // ---- Slots ----

  function NextOffset(decls: seq<Decl>, k: nat): nat
    requires k <= |decls|
    decreases k, 0
  {
    if k == 0 then 0 else OffsetOf(decls, k - 1) + SlotSize(decls[k - 1].ty)
  }

  function OffsetOf(decls: seq<Decl>, k: nat): nat
    requires k < |decls|
    decreases k, 1
  {
    AlignUp(NextOffset(decls, k), SLOT_ALIGN)
  }

  function Slots(decls: seq<Decl>): seq<FrameSlot> {
    seq(|decls|, k requires 0 <= k < |decls| => FrameSlot(decls[k], OffsetOf(decls, k), SlotSize(decls[k].ty)))
  }

  function Named(decls: seq<Decl>, p: Plan): ScopeCleanup {
    ScopeCleanup(p.depth, seq(|p.order|, k requires 0 <= k < |p.order| => if p.order[k] < |decls| then decls[p.order[k]].name else ""))
  }

  function NamedAll(decls: seq<Decl>, plans: seq<Plan>): seq<ScopeCleanup> {
    seq(|plans|, k requires 0 <= k < |plans| => Named(decls, plans[k]))
  }

  function FrameOf(params: seq<(string, string)>, body: seq<Node>): Layout {
    var decls := AllDecls(params, body);
    Layout(Slots(decls), AlignUp(NextOffset(decls, |decls|), FRAME_ALIGN), NamedAll(decls, AllPlans(params, body)))
  }
}

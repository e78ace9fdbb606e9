/** The interpreters' environment as it is stored: a stack of scopes with never-reused ids,
    each an insertion-ordered list of bindings, which raw pointers name by position. */
module EnvStore {
  import opened Ir

  datatype Entry = Entry(name: string, value: Value)

  datatype Scope = Scope(id: nat, entries: seq<Entry>)

  datatype EnvState = EnvState(id: nat, scopes: seq<Scope>, next: nat)

  /** A binding by place: which environment, which scope, which entry. */
  datatype RootSlot = RootSlot(env: nat, scope: nat, entry: nat)

  // ---- Searching ----

  function FindEntry(entries: seq<Entry>, x: string): (k: Option<nat>)
    ensures k.Some? ==> k.value < |entries| && entries[k.value].name == x && forall j :: 0 <= j < k.value ==> entries[j].name != x
    ensures k.None? ==> forall j :: 0 <= j < |entries| ==> entries[j].name != x
  {
    if entries == [] then None
    else if entries[0].name == x then Some(0)
    else match FindEntry(entries[1..], x)
         case Some(k) => Some(k + 1)
         case None => None
  }

  /** The innermost scope that holds an entry for `x`, and the entry's position. */
  function FindPlace(scopes: seq<Scope>, x: string): (p: Option<(nat, nat)>)
    ensures p.Some? ==> p.value.0 < |scopes| && FindEntry(scopes[p.value.0].entries, x) == Some(p.value.1)
    ensures p.Some? ==> forall j :: p.value.0 < j < |scopes| ==> FindEntry(scopes[j].entries, x).None?
    ensures p.None? ==> forall j :: 0 <= j < |scopes| ==> FindEntry(scopes[j].entries, x).None?
  {
    if scopes == [] then None
    else
      match FindEntry(scopes[|scopes| - 1].entries, x)
      case Some(e) => Some((|scopes| - 1, e))
      case None => FindPlace(scopes[..|scopes| - 1], x)
  }

  function FindScope(scopes: seq<Scope>, id: nat): (k: Option<nat>)
    ensures k.Some? ==> k.value < |scopes| && scopes[k.value].id == id
    ensures k.None? ==> forall j :: 0 <= j < |scopes| ==> scopes[j].id != id
  {
    if scopes == [] then None
    else if scopes[0].id == id then Some(0)
    else match FindScope(scopes[1..], id)
         case Some(k) => Some(k + 1)
         case None => None
  }

  function SlotOf(s: EnvState, x: string): Option<RootSlot> {
    match FindPlace(s.scopes, x)
    case Some((k, e)) => Some(RootSlot(s.id, s.scopes[k].id, e))
    case None => None
  }

  /** The entry a slot names, unless its scope is gone. */
  function EntryAt(s: EnvState, slot: RootSlot): Option<Entry> {
    if slot.env != s.id then None
    else match FindScope(s.scopes, slot.scope)
         case Some(k) => if slot.entry < |s.scopes[k].entries| then Some(s.scopes[k].entries[slot.entry]) else None
         case None => None
  }

  // ---- Writing ----

  function SetEntry(scopes: seq<Scope>, k: nat, e: nat, v: Value): (r: seq<Scope>)
    requires k < |scopes| && e < |scopes[k].entries|
    ensures |r| == |scopes|
  {
    scopes[k := Scope(scopes[k].id, scopes[k].entries[e := Entry(scopes[k].entries[e].name, v)])]
  }

  datatype Op =
    | PushScope
    | PopScope
    | Define(x: string, v: Value)
    | SetLoopVar(x: string, v: Value)
    | Assign(x: string, v: Value)
    | MoveOut(x: string)
    | WriteAt(slot: RootSlot, v: Value)
    | Reset

  function DefineIn(scopes: seq<Scope>, x: string, v: Value): seq<Scope>
    requires scopes != []
  {
    var k := |scopes| - 1;
    match FindEntry(scopes[k].entries, x)
    case Some(e) => SetEntry(scopes, k, e, v)
    case None => scopes[k := Scope(scopes[k].id, scopes[k].entries + [Entry(x, v)])]
  }

  function AssignIn(scopes: seq<Scope>, x: string, v: Value): seq<Scope> {
    match FindPlace(scopes, x)
    case Some((k, e)) => SetEntry(scopes, k, e, v)
    case None => scopes
  }

  /** What each operation does; with no scope open, `define` has nowhere to go. */
  function Apply(s: EnvState, op: Op): EnvState {
    match op
    case PushScope => EnvState(s.id, s.scopes + [Scope(s.next, [])], s.next + 1)
    case PopScope => if s.scopes == [] then s else EnvState(s.id, s.scopes[..|s.scopes| - 1], s.next)
    case Define(x, v) => if s.scopes == [] then s else EnvState(s.id, DefineIn(s.scopes, x, v), s.next)
    case SetLoopVar(x, v) => if s.scopes == [] then s else EnvState(s.id, DefineIn(s.scopes, x, v), s.next)
    case Assign(x, v) => EnvState(s.id, AssignIn(s.scopes, x, v), s.next)
    case MoveOut(x) => EnvState(s.id, AssignIn(s.scopes, x, Void), s.next)
    case WriteAt(slot, v) =>
      if EntryAt(s, slot).None? then s
      else EnvState(s.id, SetEntry(s.scopes, FindScope(s.scopes, slot.scope).value, slot.entry, v), s.next)
    case Reset => EnvState(s.id, [Scope(s.next, [])], s.next + 1)
  }

  function Run(s: EnvState, ops: seq<Op>): EnvState
    decreases |ops|
  {
    if ops == [] then s else Run(Apply(s, ops[0]), ops[1..])
  }

  function FreshEnv(id: nat): EnvState { EnvState(id, [Scope(0, [])], 1) }

  // ---- The environment as an object ----

  class Env {
    var id: nat
    var scopes: seq<Scope>
    var nextScopeId: nat

    constructor (id: nat)
      ensures View() == FreshEnv(id)
    {
      this.id, scopes, nextScopeId := id, [Scope(0, [])], 1;
    }

    ghost function View(): EnvState
      reads this
    {
      EnvState(id, scopes, nextScopeId)
    }

    method FreshScope() returns (scope: Scope)
      modifies `nextScopeId
      ensures scope == Scope(old(nextScopeId), []) && nextScopeId == old(nextScopeId) + 1
    {
      scope := Scope(nextScopeId, []);
      nextScopeId := nextScopeId + 1;
    }

    method PushScope()
      modifies this
      ensures View() == Apply(old(View()), Op.PushScope)
    {
      var scope := FreshScope();
      scopes := scopes + [scope];
    }

    method PopScope()
      modifies this
      ensures View() == Apply(old(View()), Op.PopScope)
    {
      if scopes != [] { scopes := scopes[..|scopes| - 1]; }
    }

    /** Keep the storage of the first scope, under a fresh id. */
    method Reset()
      modifies this
      ensures View() == Apply(old(View()), Op.Reset)
    {
      if |scopes| > 1 { scopes := scopes[..1]; }
      var scopeId := nextScopeId;
      nextScopeId := nextScopeId + 1;
      if scopes != [] {
        scopes := scopes[0 := Scope(scopeId, [])];
      } else {
        scopes := scopes + [Scope(scopeId, [])];
      }
    }

    /** Scan a scope's entries in order. */
    static method Scan(entries: seq<Entry>, x: string) returns (k: Option<nat>)
      ensures k == FindEntry(entries, x)
    {
      assert entries[0..] == entries;
      for j := 0 to |entries|
        invariant FindEntry(entries, x) == Shift(FindEntry(entries[j..], x), j)
      {
        if entries[j].name == x { return Some(j); }
        assert entries[j..][1..] == entries[j + 1..];
      }
      k := None;
    }

    /** Scan the scopes from the innermost outwards. */
    method FindNearest(x: string) returns (p: Option<(nat, nat)>)
      ensures p == FindPlace(scopes, x)
    {
      var k := |scopes|;
      assert scopes[..k] == scopes;
      while k > 0
        invariant k <= |scopes| && FindPlace(scopes, x) == FindPlace(scopes[..k], x)
      {
        k := k - 1;
        assert scopes[..k + 1][..k] == scopes[..k];
        var e := Scan(scopes[k].entries, x);
        if e.Some? { return Some((k, e.value)); }
      }
      p := None;
    }

    method Locate(x: string) returns (slot: Option<RootSlot>)
      ensures slot == SlotOf(View(), x)
    {
      var p := FindNearest(x);
      match p
      case Some((k, e)) => slot := Some(RootSlot(id, scopes[k].id, e));
      case None => slot := None;
    }

    method ScopeById(scopeId: nat) returns (k: Option<nat>)
      ensures k == FindScope(scopes, scopeId)
    {
      assert scopes[0..] == scopes;
      for j := 0 to |scopes|
        invariant FindScope(scopes, scopeId) == Shift(FindScope(scopes[j..], scopeId), j)
      {
        if scopes[j].id == scopeId { return Some(j); }
        assert scopes[j..][1..] == scopes[j + 1..];
      }
      k := None;
    }

    method At(slot: RootSlot) returns (v: Option<Value>)
      ensures v == match EntryAt(View(), slot) case Some(e) => Some(e.value) case None => None
    {
      if slot.env != id { return None; }
      var k := ScopeById(slot.scope);
      if k.None? || slot.entry >= |scopes[k.value].entries| { return None; }
      v := Some(scopes[k.value].entries[slot.entry].value);
    }

    /** Write through a slot; a dead place is left alone. */
    method WriteAt(slot: RootSlot, v: Value) returns (ok: bool)
      modifies this
      ensures ok <==> EntryAt(old(View()), slot).Some?
      ensures View() == Apply(old(View()), Op.WriteAt(slot, v))
    {
      if slot.env != id { return false; }
      var k := ScopeById(slot.scope);
      if k.None? || slot.entry >= |scopes[k.value].entries| { return false; }
      Overwrite(k.value, slot.entry, v);
      ok := true;
    }

    method Overwrite(k: nat, e: nat, v: Value)
      requires k < |scopes| && e < |scopes[k].entries|
      modifies `scopes
      ensures scopes == SetEntry(old(scopes), k, e, v)
    {
      var scope := scopes[k];
      scopes := scopes[k := Scope(scope.id, scope.entries[e := Entry(scope.entries[e].name, v)])];
    }

    method Define(x: string, v: Value)
      requires scopes != []
      modifies this
      ensures View() == Apply(old(View()), Op.Define(x, v))
    {
      var k := |scopes| - 1;
      var e := Scan(scopes[k].entries, x);
      match e
      case Some(i) => Overwrite(k, i, v);
      case None => scopes := scopes[k := Scope(scopes[k].id, scopes[k].entries + [Entry(x, v)])];
    }

    method SetLoopVar(x: string, v: Value)
      requires scopes != []
      modifies this
      ensures View() == Apply(old(View()), Op.SetLoopVar(x, v))
    {
      Define(x, v);
    }

    method Assign(x: string, v: Value) returns (r: Res<()>)
      modifies this
      ensures View() == Apply(old(View()), Op.Assign(x, v))
      ensures r == if SlotOf(old(View()), x).Some? then Ok(()) else Fault("L0403", "unknown variable " + x)
    {
      var p := FindNearest(x);
      match p
      case Some((k, e)) => Overwrite(k, e, v); r := Ok(());
      case None => r := Fault("L0403", "unknown variable " + x);
    }

    method GetRef(x: string) returns (v: Option<Value>)
      ensures v == match FindPlace(scopes, x) case Some((k, e)) => Some(scopes[k].entries[e].value) case None => None
    {
      var p := FindNearest(x);
      match p
      case Some((k, e)) => v := Some(scopes[k].entries[e].value);
      case None => v := None;
    }

    /** Take the value out, leaving `Void` in its slot. */
    method MoveOutNearest(x: string) returns (v: Option<Value>)
      modifies this
      ensures View() == Apply(old(View()), MoveOut(x))
      ensures v == match FindPlace(old(scopes), x) case Some((k, e)) => Some(old(scopes)[k].entries[e].value) case None => None
    {
      var p := FindNearest(x);
      match p
      case Some((k, e)) =>
        v := Some(scopes[k].entries[e].value);
        Overwrite(k, e, Void);
      case None => v := None;
    }

    method InnermostHas(x: string) returns (b: bool)
      ensures b <==> scopes != [] && FindEntry(scopes[|scopes| - 1].entries, x).Some?
    {
      if scopes == [] { return false; }
      var e := Scan(scopes[|scopes| - 1].entries, x);
      b := e.Some?;
    }

    /** A binding by depth and position, checked to carry the expected name. */
    method GetSlot(depth: nat, slot: nat, x: string) returns (v: Option<Value>)
      ensures v.Some? ==> depth < |scopes| && slot < |scopes[|scopes| - 1 - depth].entries|
                          && scopes[|scopes| - 1 - depth].entries[slot] == Entry(x, v.value)
      ensures v.None? ==> depth >= |scopes| || slot >= |scopes[|scopes| - 1 - depth].entries|
                          || scopes[|scopes| - 1 - depth].entries[slot].name != x
    {
      if depth >= |scopes| { return None; }
      var entries := scopes[|scopes| - 1 - depth].entries;
      if slot >= |entries| || entries[slot].name != x { return None; }
      v := Some(entries[slot].value);
    }
  }

  function Shift(k: Option<nat>, j: nat): Option<nat> {
    match k
    case Some(i) => Some(i + j)
    case None => None
  }
}

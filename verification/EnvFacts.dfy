/** What the stored environment means, and how long a place stays what it was. */
module EnvFacts {
  import opened Ir
  import opened EnvStore

  /** Scope ids grow from the outside in and lie below the next one; no name occurs twice in a scope. */
  ghost predicate Sound(s: EnvState) {
    && (forall k :: 0 <= k < |s.scopes| ==> s.scopes[k].id < s.next)
    && (forall j, k :: 0 <= j < k < |s.scopes| ==> s.scopes[j].id < s.scopes[k].id)
    && (forall k :: 0 <= k < |s.scopes| ==> Distinct(s.scopes[k].entries))
  }

  ghost predicate Distinct(entries: seq<Entry>) {
    forall i, j :: 0 <= i < j < |entries| ==> entries[i].name != entries[j].name
  }

  lemma SetEntrySound(s: EnvState, k: nat, e: nat, v: Value)
    requires Sound(s) && k < |s.scopes| && e < |s.scopes[k].entries|
    ensures Sound(EnvState(s.id, SetEntry(s.scopes, k, e, v), s.next))
  {
    var scopes' := SetEntry(s.scopes, k, e, v);
    forall j | 0 <= j < |scopes'| ensures Distinct(scopes'[j].entries) {
      assert Distinct(s.scopes[j].entries);
    }
  }

  lemma ApplySound(s: EnvState, op: Op)
    requires Sound(s)
    ensures Sound(Apply(s, op)) && Apply(s, op).id == s.id && Apply(s, op).next >= s.next
  {
    hide FindEntry, FindPlace, FindScope, SetEntry;
    match op
    case Define(x, v) => if s.scopes != [] { DefineSound(s, x, v); }
    case SetLoopVar(x, v) => if s.scopes != [] { DefineSound(s, x, v); }
    case Assign(x, v) => AssignSound(s, x, v);
    case MoveOut(x) => AssignSound(s, x, Void);
    case WriteAt(slot, v) => if EntryAt(s, slot).Some? { SetEntrySound(s, FindScope(s.scopes, slot.scope).value, slot.entry, v); }
    case _ =>
  }

  lemma DefineSound(s: EnvState, x: string, v: Value)
    requires Sound(s) && s.scopes != []
    ensures Sound(EnvState(s.id, DefineIn(s.scopes, x, v), s.next))
  {
    hide SetEntry;
    var k := |s.scopes| - 1;
    var e := FindEntry(s.scopes[k].entries, x);
    if e.Some? {
      SetEntrySound(s, k, e.value, v);
    } else {
      var scopes' := DefineIn(s.scopes, x, v);
      forall j | 0 <= j < |scopes'| ensures Distinct(scopes'[j].entries) { assert Distinct(s.scopes[j].entries); }
    }
  }

  lemma AssignSound(s: EnvState, x: string, v: Value)
    requires Sound(s)
    ensures Sound(EnvState(s.id, AssignIn(s.scopes, x, v), s.next))
  {
    hide SetEntry;
    var p := FindPlace(s.scopes, x);
    if p.Some? { SetEntrySound(s, p.value.0, p.value.1, v); }
  }

  // ---- The lists mean maps ----

  function ScopeMap(entries: seq<Entry>): map<string, Value> {
    if entries == [] then map[] else ScopeMap(entries[1..])[entries[0].name := entries[0].value]
  }

  function Meaning(s: EnvState): (m: Scopes<Value>)
    ensures |m| == |s.scopes|
  {
    seq(|s.scopes|, k requires 0 <= k < |s.scopes| => ScopeMap(s.scopes[k].entries))
  }

  lemma {:induction false} ScopeMapFinds(entries: seq<Entry>, x: string)
    ensures match FindEntry(entries, x)
            case Some(e) => x in ScopeMap(entries) && ScopeMap(entries)[x] == entries[e].value
            case None => x !in ScopeMap(entries)
  {
    if entries != [] { ScopeMapFinds(entries[1..], x); }
  }

  lemma {:induction false} ScopeMapSet(entries: seq<Entry>, e: nat, v: Value)
    requires e < |entries| && Distinct(entries)
    ensures ScopeMap(entries[e := Entry(entries[e].name, v)]) == ScopeMap(entries)[entries[e].name := v]
  {
    var entries' := entries[e := Entry(entries[e].name, v)];
    if e == 0 {
      assert entries'[1..] == entries[1..];
    } else {
      assert entries'[1..] == entries[1..][e - 1 := Entry(entries[e].name, v)];
      ScopeMapSet(entries[1..], e - 1, v);
    }
  }

  lemma {:induction false} ScopeMapAdd(entries: seq<Entry>, x: string, v: Value)
    requires FindEntry(entries, x).None?
    ensures ScopeMap(entries + [Entry(x, v)]) == ScopeMap(entries)[x := v]
  {
    if entries == [] {
      assert [Entry(x, v)][1..] == [];
    } else {
      assert (entries + [Entry(x, v)])[1..] == entries[1..] + [Entry(x, v)];
      ScopeMapAdd(entries[1..], x, v);
    }
  }

  /** The list search resolves names as the evaluator's scopes do. */
  lemma PlaceIsNearest(s: EnvState, x: string)
    ensures match FindPlace(s.scopes, x)
            case Some((k, e)) => Nearest(Meaning(s), x) == Some(k) && Lookup(Meaning(s), x) == Some(s.scopes[k].entries[e].value)
            case None => Nearest(Meaning(s), x) == None
  {
    var m := Meaning(s);
    forall k | 0 <= k < |m| ensures x in m[k] <==> FindEntry(s.scopes[k].entries, x).Some? {
      ScopeMapFinds(s.scopes[k].entries, x);
    }
    var p := FindPlace(s.scopes, x);
    if p.Some? {
      NearestIs(m, x, p.value.0);
      ScopeMapFinds(s.scopes[p.value.0].entries, x);
    }
  }

  /** Each operation on the lists is the evaluator's operation on the maps they mean. */
  lemma ApplyMeaning(s: EnvState, op: Op)
    requires Sound(s) && s.scopes != []
    ensures var m, m' := Meaning(s), Meaning(Apply(s, op));
            match op
            case PushScope => m' == m + [map[]]
            case PopScope => m' == m[..|m| - 1]
            case Define(x, v) => m' == Ir.Define(m, x, v)
            case SetLoopVar(x, v) => m' == Ir.Define(m, x, v)
            case Assign(x, v) => m' == Update(m, x, v)
            case MoveOut(x) => m' == Update(m, x, Void)
            case WriteAt(_, _) => true
            case Reset => m' == [map[]]
  {
    match op
    case PushScope => assert ScopeMap([]) == map[];
    case Define(x, v) => DefineMeaning(s, x, v);
    case SetLoopVar(x, v) => DefineMeaning(s, x, v);
    case Assign(x, v) => AssignMeaning(s, x, v);
    case MoveOut(x) => AssignMeaning(s, x, Void);
    case _ =>
  }

  lemma SetMeaning(s: EnvState, k: nat, e: nat, v: Value)
    requires Sound(s) && k < |s.scopes| && e < |s.scopes[k].entries|
    ensures Meaning(EnvState(s.id, SetEntry(s.scopes, k, e, v), s.next))
            == Meaning(s)[k := Meaning(s)[k][s.scopes[k].entries[e].name := v]]
  {
    ScopeMapSet(s.scopes[k].entries, e, v);
  }

  lemma DefineMeaning(s: EnvState, x: string, v: Value)
    requires Sound(s) && s.scopes != []
    ensures Meaning(EnvState(s.id, DefineIn(s.scopes, x, v), s.next)) == Ir.Define(Meaning(s), x, v)
  {
    var k := |s.scopes| - 1;
    var e := FindEntry(s.scopes[k].entries, x);
    if e.Some? { SetMeaning(s, k, e.value, v); } else { ScopeMapAdd(s.scopes[k].entries, x, v); }
  }

  lemma AssignMeaning(s: EnvState, x: string, v: Value)
    requires Sound(s)
    ensures Meaning(EnvState(s.id, AssignIn(s.scopes, x, v), s.next)) == Update(Meaning(s), x, v)
  {
    PlaceIsNearest(s, x);
    var p := FindPlace(s.scopes, x);
    if p.Some? { SetMeaning(s, p.value.0, p.value.1, v); }
  }

  // ---- A place stays what it was ----

  ghost predicate Live(s: EnvState, slot: RootSlot) {
    slot.env == s.id && exists k :: 0 <= k < |s.scopes| && s.scopes[k].id == slot.scope
  }

  /** The slot names an entry for `x`. */
  ghost predicate Names(s: EnvState, slot: RootSlot, x: string) {
    EntryAt(s, slot).Some? && EntryAt(s, slot).value.name == x
  }

  lemma UniqueScope(s: EnvState, k: nat)
    requires Sound(s) && k < |s.scopes|
    ensures FindScope(s.scopes, s.scopes[k].id) == Some(k)
  {
    var j := FindScope(s.scopes, s.scopes[k].id).value;
    assert !(j < k) && !(k < j);
  }

  /** A freshly located slot names its binding, and reads its value. */
  lemma LocatedNames(s: EnvState, x: string)
    requires Sound(s) && SlotOf(s, x).Some?
    ensures Names(s, SlotOf(s, x).value, x) && Live(s, SlotOf(s, x).value)
    ensures Lookup(Meaning(s), x) == Some(EntryAt(s, SlotOf(s, x).value).value.value)
  {
    var (k, e) := FindPlace(s.scopes, x).value;
    UniqueScope(s, k);
    PlaceIsNearest(s, x);
  }

  /** Entries of a scope that stays are kept in place, under their names. */
  ghost predicate Grown(a: Scope, b: Scope) {
    a.id == b.id && |a.entries| <= |b.entries| && forall e :: 0 <= e < |a.entries| ==> b.entries[e].name == a.entries[e].name
  }

  /** What one operation can do to the stack: every scope that is still there has grown, and
      a scope that was not there has a new id. */
  lemma ApplyGrows(s: EnvState, op: Op)
    requires Sound(s)
    ensures var s' := Apply(s, op);
            forall k :: 0 <= k < |s'.scopes| ==> (k < |s.scopes| && Grown(s.scopes[k], s'.scopes[k])) || s'.scopes[k].id >= s.next
  {
  }

  lemma NamesStep(s: EnvState, op: Op, slot: RootSlot, x: string)
    requires Sound(s) && Names(s, slot, x)
    ensures var s' := Apply(s, op); Live(s', slot) ==> Names(s', slot, x)
  {
    hide Apply, FindScope;
    var s' := Apply(s, op);
    ApplySound(s, op);
    ApplyGrows(s, op);
    var j := FindScope(s.scopes, slot.scope).value;
    if Live(s', slot) {
      var k :| 0 <= k < |s'.scopes| && s'.scopes[k].id == slot.scope;
      UniqueScope(s', k);
      assert Grown(s.scopes[k], s'.scopes[k]);
      UniqueScope(s, k);
    }
  }

  lemma DeadStep(s: EnvState, op: Op, slot: RootSlot)
    requires Sound(s) && !Live(s, slot) && slot.scope < s.next
    ensures !Live(Apply(s, op), slot)
  {
    hide Apply;
    ApplySound(s, op);
    ApplyGrows(s, op);
  }

  /** Over any run of operations, a place that named `x` names it for as long as its scope is
      there, and resolves to nothing for ever after. */
  lemma {:induction false} PlaceStable(s: EnvState, ops: seq<Op>, slot: RootSlot, x: string)
    requires Sound(s) && (if Live(s, slot) then Names(s, slot, x) else slot.scope < s.next)
    ensures var s' := Run(s, ops);
            && Sound(s') && s'.id == s.id
            && (if Live(s', slot) then Names(s', slot, x) else EntryAt(s', slot).None?)
            && (!Live(s, slot) ==> !Live(s', slot))
    decreases ops
  {
    hide Apply;
    if ops == [] {
      if !Live(s, slot) && slot.env == s.id { assert FindScope(s.scopes, slot.scope).None?; }
    } else {
      ApplySound(s, ops[0]);
      if Live(s, slot) {
        LiveBelow(s, slot);
        NamesStep(s, ops[0], slot, x);
      } else {
        DeadStep(s, ops[0], slot);
      }
      PlaceStable(Apply(s, ops[0]), ops[1..], slot, x);
    }
  }

  lemma LiveBelow(s: EnvState, slot: RootSlot)
    requires Sound(s) && Live(s, slot)
    ensures slot.scope < s.next
  {
  }

  /** A write through a fresh slot is an assignment to the name it was taken from. */
  lemma WriteThrough(s: EnvState, x: string, v: Value)
    requires Sound(s) && SlotOf(s, x).Some?
    ensures Apply(s, WriteAt(SlotOf(s, x).value, v)) == Apply(s, Op.Assign(x, v))
  {
    LocatedNames(s, x);
    UniqueScope(s, FindPlace(s.scopes, x).value.0);
  }

  /** Resetting for reuse kills every place there was. */
  lemma ResetKills(s: EnvState, slot: RootSlot)
    requires Sound(s) && slot.scope < s.next
    ensures !Live(Apply(s, Reset), slot)
  {
  }
}

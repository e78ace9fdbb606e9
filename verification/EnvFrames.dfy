/** Environments across calls: suspended callers, the shelf a pointer write can reach through,
    and the pool finished environments are reused from. */
module EnvFrames {
  import opened Ir
  import opened EnvStore
  import opened EnvFacts

  /** A caller waiting for its callee; `shelved` when a raw pointer could reach it. */
  datatype Suspended = Suspended(env: EnvState, shelved: bool)

  datatype Frames = Frames(current: EnvState, callers: seq<Suspended>, pool: seq<EnvState>, nextEnv: nat)

  /** What a function body does to environments: its own operations, and calls, each of which
      shelves the caller or not and ends normally or with an error. */
  datatype Act = Do(op: Op) | Call(shelve: bool, body: seq<Act>, ok: bool)

  // ---- The runtime's steps ----

  /** Take a pooled environment and reset it, or make one. */
  function Enter(f: Frames, shelve: bool): Frames {
    var callers := f.callers + [Suspended(f.current, shelve)];
    if f.pool != [] then
      Frames(Apply(f.pool[|f.pool| - 1], Reset), callers, f.pool[..|f.pool| - 1], f.nextEnv)
    else Frames(FreshEnv(f.nextEnv), callers, f.pool, f.nextEnv + 1)
  }

  /** Give the caller its environment back; only a normal exit returns the callee's to the pool. */
  function Leave(f: Frames, ok: bool): Frames
    requires f.callers != []
  {
    var n := |f.callers| - 1;
    Frames(f.callers[n].env, f.callers[..n], if ok then f.pool + [f.current] else f.pool, f.nextEnv)
  }

  function FindShelved(callers: seq<Suspended>, id: nat): (k: Option<nat>)
    ensures k.Some? ==> k.value < |callers| && callers[k.value].shelved && callers[k.value].env.id == id
    ensures k.None? ==> forall j :: 0 <= j < |callers| ==> !(callers[j].shelved && callers[j].env.id == id)
  {
    if callers == [] then None
    else if callers[0].shelved && callers[0].env.id == id then Some(0)
    else match FindShelved(callers[1..], id)
         case Some(k) => Some(k + 1)
         case None => None
  }

  /** The environment that owns a place: the current one, or a shelved caller's. */
  function Owning(f: Frames, slot: RootSlot): Option<EnvState> {
    if f.current.id == slot.env then Some(f.current)
    else match FindShelved(f.callers, slot.env)
         case Some(k) => Some(f.callers[k].env)
         case None => None
  }

  function Resolve(f: Frames, slot: RootSlot): Option<Entry> {
    match Owning(f, slot)
    case Some(env) => EntryAt(env, slot)
    case None => None
  }

  /** A write through a pointer lands in the owning environment. */
  function WriteOwner(f: Frames, slot: RootSlot, v: Value): Frames {
    if f.current.id == slot.env then f.(current := Apply(f.current, WriteAt(slot, v)))
    else match FindShelved(f.callers, slot.env)
         case Some(k) => f.(callers := f.callers[k := Suspended(Apply(f.callers[k].env, WriteAt(slot, v)), true)])
         case None => f
  }

  function Perform(f: Frames, act: Act): (r: Frames)
    ensures |r.callers| == |f.callers|
    decreases act, 1
  {
    match act
    case Do(op) => if op.WriteAt? then WriteOwner(f, op.slot, op.v) else f.(current := Apply(f.current, op))
    case Call(shelve, body, ok) => Leave(PerformAll(Enter(f, shelve), body), ok)
  }

  function PerformAll(f: Frames, acts: seq<Act>): (r: Frames)
    ensures |r.callers| == |f.callers|
    decreases acts, 0
  {
    if acts == [] then f else PerformAll(Perform(f, acts[0]), acts[1..])
  }

  // ---- Environments are told apart by their ids ----

  function AllEnvs(f: Frames): (envs: seq<EnvState>)
    ensures |envs| == 1 + |f.callers| + |f.pool|
  {
    [f.current] + seq(|f.callers|, k requires 0 <= k < |f.callers| => f.callers[k].env) + f.pool
  }

  ghost predicate FramesOk(f: Frames) {
    && (forall i :: 0 <= i < |AllEnvs(f)| ==> Sound(AllEnvs(f)[i]) && 0 < AllEnvs(f)[i].id < f.nextEnv)
    && (forall i, j :: 0 <= i < j < |AllEnvs(f)| ==> AllEnvs(f)[i].id != AllEnvs(f)[j].id)
  }

  lemma EnvAt(f: Frames)
    ensures AllEnvs(f)[0] == f.current
    ensures forall k :: 0 <= k < |f.callers| ==> AllEnvs(f)[1 + k] == f.callers[k].env
    ensures forall k :: 0 <= k < |f.pool| ==> AllEnvs(f)[1 + |f.callers| + k] == f.pool[k]
  {
  }

  lemma EnterOk(f: Frames, shelve: bool)
    requires FramesOk(f)
    ensures FramesOk(Enter(f, shelve))
  {
    var g := Enter(f, shelve);
    EnvAt(f);
    EnvAt(g);
    hide AllEnvs, Sound, Apply;
    if f.pool != [] {
      var last := |AllEnvs(f)| - 1;
      assert Sound(AllEnvs(f)[last]);
      ApplySound(f.pool[|f.pool| - 1], Reset);
      forall i | 0 <= i < |AllEnvs(g)|
        ensures AllEnvs(g)[i].id == AllEnvs(f)[EnterIndex(f, i)].id
        ensures i != 0 ==> AllEnvs(g)[i] == AllEnvs(f)[EnterIndex(f, i)]
      {
        EnterFrom(f, shelve, i);
      }
    } else {
      assert Sound(FreshEnv(f.nextEnv)) by { FreshSound(f.nextEnv); }
      forall i | 1 <= i < |AllEnvs(g)| ensures AllEnvs(g)[i] == AllEnvs(f)[if i == |AllEnvs(g)| - 1 then 0 else i] {
        EnterFresh(f, shelve, i);
      }
    }
  }

  lemma FreshSound(id: nat)
    ensures Sound(FreshEnv(id))
  {
  }

  /** Where the environments of a state just entered come from. */
  function EnterIndex(f: Frames, i: nat): nat
    requires f.pool != []
  {
    if i == 0 then |f.callers| + |f.pool|
    else if i <= |f.callers| then i
    else if i == |f.callers| + 1 then 0
    else i - 1
  }

  lemma EnterFrom(f: Frames, shelve: bool, i: nat)
    requires f.pool != [] && i < |AllEnvs(Enter(f, shelve))|
    ensures EnterIndex(f, i) < |AllEnvs(f)| && AllEnvs(Enter(f, shelve))[i].id == AllEnvs(f)[EnterIndex(f, i)].id
    ensures i != 0 ==> AllEnvs(Enter(f, shelve))[i] == AllEnvs(f)[EnterIndex(f, i)]
  {
  }

  lemma EnterFresh(f: Frames, shelve: bool, i: nat)
    requires f.pool == [] && 1 <= i < |AllEnvs(Enter(f, shelve))|
    ensures |AllEnvs(Enter(f, shelve))| == |AllEnvs(f)| + 1
    ensures AllEnvs(Enter(f, shelve))[i] == AllEnvs(f)[if i == |f.callers| + 1 then 0 else i]
  {
  }

  function LeaveIndex(f: Frames, i: nat): nat
    requires f.callers != []
  {
    if i == 0 then |f.callers|
    else if i < |f.callers| then i
    else if i < |f.callers| + |f.pool| then i + 1
    else 0
  }

  lemma LeaveFrom(f: Frames, ok: bool, i: nat)
    requires f.callers != [] && i < |AllEnvs(Leave(f, ok))|
    ensures LeaveIndex(f, i) < |AllEnvs(f)| && AllEnvs(Leave(f, ok))[i] == AllEnvs(f)[LeaveIndex(f, i)]
  {
  }

  lemma LeaveOk(f: Frames, ok: bool)
    requires FramesOk(f) && f.callers != []
    ensures FramesOk(Leave(f, ok))
  {
    hide AllEnvs, Sound, Leave;
    var g := Leave(f, ok);
    forall i | 0 <= i < |AllEnvs(g)| ensures AllEnvs(g)[i] == AllEnvs(f)[LeaveIndex(f, i)] && LeaveIndex(f, i) < |AllEnvs(f)| {
      LeaveFrom(f, ok, i);
    }
    assert g.nextEnv == f.nextEnv by { LeaveNext(f, ok); }
    LeaveSize(f, ok);
  }

  lemma LeaveNext(f: Frames, ok: bool)
    requires f.callers != []
    ensures Leave(f, ok).nextEnv == f.nextEnv
  {
  }

  lemma LeaveSize(f: Frames, ok: bool)
    requires f.callers != []
    ensures |AllEnvs(Leave(f, ok))| == |f.callers| + |f.pool| + (if ok then 1 else 0)
  {
  }

  // ---- A callee changes nothing of its callers but what it writes through pointers ----

  /** Same environment, same scopes, same entries under the same names; values may differ. */
  ghost predicate Kin(a: EnvState, b: EnvState) {
    && a.id == b.id && a.next == b.next && |a.scopes| == |b.scopes|
    && forall k :: 0 <= k < |a.scopes| ==> Grown(a.scopes[k], b.scopes[k]) && |b.scopes[k].entries| == |a.scopes[k].entries|
  }

  ghost predicate CallersKept(f: Frames, g: Frames) {
    && |g.callers| == |f.callers|
    && forall k :: 0 <= k < |f.callers| ==>
         && g.callers[k].shelved == f.callers[k].shelved && Kin(f.callers[k].env, g.callers[k].env)
         && (!f.callers[k].shelved ==> g.callers[k] == f.callers[k])
  }

  lemma KinRefl(a: EnvState)
    ensures Kin(a, a)
  {
  }

  lemma KinTrans(a: EnvState, b: EnvState, c: EnvState)
    requires Kin(a, b) && Kin(b, c)
    ensures Kin(a, c)
  {
    forall k | 0 <= k < |a.scopes| ensures Grown(a.scopes[k], c.scopes[k]) && |c.scopes[k].entries| == |a.scopes[k].entries| {
      assert Grown(a.scopes[k], b.scopes[k]) && Grown(b.scopes[k], c.scopes[k]);
    }
  }

  lemma KeptTrans(f: Frames, g: Frames, h: Frames)
    requires CallersKept(f, g) && CallersKept(g, h)
    ensures CallersKept(f, h)
  {
    hide Kin;
    forall k | 0 <= k < |f.callers| ensures Kin(f.callers[k].env, h.callers[k].env) {
      KinTrans(f.callers[k].env, g.callers[k].env, h.callers[k].env);
    }
  }

  lemma WriteKin(s: EnvState, slot: RootSlot, v: Value)
    requires Sound(s)
    ensures Kin(s, Apply(s, WriteAt(slot, v)))
  {
  }

  /** What a write does to one environment of a sound state. */
  lemma WriteAtOk(f: Frames, i: nat, slot: RootSlot, v: Value)
    requires FramesOk(f) && i < |AllEnvs(f)|
    ensures var e := AllEnvs(f)[i]; var w := Apply(e, WriteAt(slot, v)); Sound(w) && w.id == e.id && Kin(e, w)
  {
    hide Apply, AllEnvs, Kin;
    ApplySound(AllEnvs(f)[i], WriteAt(slot, v));
    WriteKin(AllEnvs(f)[i], slot, v);
    KinIds(AllEnvs(f)[i], Apply(AllEnvs(f)[i], WriteAt(slot, v)));
  }

  lemma KinIds(a: EnvState, b: EnvState)
    requires Kin(a, b)
    ensures a.id == b.id
  {
  }

  /** One caller's environment replaced by kin of it. */
  lemma CallersReplaced(f: Frames, g: Frames, i: nat)
    requires i < |f.callers| == |g.callers| && f.callers[i].shelved && g.callers == f.callers[i := g.callers[i]]
    requires g.callers[i].shelved && Kin(f.callers[i].env, g.callers[i].env)
    ensures CallersKept(f, g)
  {
    hide Kin;
    forall k | 0 <= k < |f.callers| ensures Kin(f.callers[k].env, g.callers[k].env) { KinRefl(f.callers[k].env); }
  }

  lemma CallersSame(f: Frames, g: Frames)
    requires g.callers == f.callers
    ensures CallersKept(f, g)
  {
    hide Kin;
    forall k | 0 <= k < |f.callers| ensures Kin(f.callers[k].env, g.callers[k].env) { KinRefl(f.callers[k].env); }
  }

  lemma WriteOwnerOk(f: Frames, slot: RootSlot, v: Value)
    requires FramesOk(f)
    ensures FramesOk(WriteOwner(f, slot, v)) && CallersKept(f, WriteOwner(f, slot, v)) && Kin(f.current, WriteOwner(f, slot, v).current)
  {
    hide Apply, Sound, Kin, AllEnvs, CallersKept;
    var g := WriteOwner(f, slot, v);
    EnvAt(f);
    KinRefl(f.current);
    assert Sound(AllEnvs(f)[0]);
    var at := FindShelved(f.callers, slot.env);
    if f.current.id == slot.env {
      WriteAtOk(f, 0, slot, v);
      CallersSame(f, g);
    } else if at.Some? {
      WriteAtOk(f, 1 + at.value, slot, v);
      CallersReplaced(f, g, at.value);
    } else {
      CallersSame(f, g);
    }
    hide FramesOk;
    SameIds(f, g);
  }

  /** A state whose environments have the same ids, place by place, and are sound, is fine too. */
  lemma SameIds(f: Frames, g: Frames)
    requires FramesOk(f) && g.nextEnv == f.nextEnv && |g.callers| == |f.callers| && g.pool == f.pool
    requires Sound(g.current) && g.current.id == f.current.id
    requires forall k :: 0 <= k < |f.callers| ==> g.callers[k].env.id == f.callers[k].env.id
                                                  && (g.callers[k].env == f.callers[k].env || Sound(g.callers[k].env))
    ensures FramesOk(g)
  {
    hide Sound;
    forall i | 0 <= i < |AllEnvs(g)| ensures AllEnvs(g)[i].id == AllEnvs(f)[i].id && Sound(AllEnvs(g)[i]) {
      assert Sound(AllEnvs(f)[i]);
    }
  }

  lemma {:induction false} PerformOk(f: Frames, act: Act)
    requires FramesOk(f)
    ensures FramesOk(Perform(f, act)) && CallersKept(f, Perform(f, act)) && Perform(f, act).current.id == f.current.id
    ensures act.Call? ==> Kin(f.current, Perform(f, act).current) && (!act.shelve ==> Perform(f, act).current == f.current)
    decreases act, 1
  {
    hide Apply, AllEnvs, Sound, Kin, Enter, Leave, FramesOk, PerformAll, WriteOwner;
    match act
    case Do(op) =>
      if op.WriteAt? {
        WriteOwnerOk(f, op.slot, op.v);
        assert WriteOwner(f, op.slot, op.v).current.id == f.current.id by { WriteOwnerId(f, op.slot, op.v); }
      } else {
        OwnOpOk(f, op);
      }
    case Call(shelve, body, ok) =>
      var g := Enter(f, shelve);
      EnterOk(f, shelve);
      EnterCallers(f, shelve);
      PerformAllOk(g, body);
      var h := PerformAll(g, body);
      LeaveOk(h, ok);
      LeaveCallers(f, g, h, ok);
  }

  lemma WriteOwnerId(f: Frames, slot: RootSlot, v: Value)
    ensures WriteOwner(f, slot, v).current.id == f.current.id
  {
  }

  lemma OwnOpOk(f: Frames, op: Op)
    requires FramesOk(f)
    ensures FramesOk(f.(current := Apply(f.current, op))) && CallersKept(f, f.(current := Apply(f.current, op)))
    ensures Apply(f.current, op).id == f.current.id
  {
    hide Apply, Sound, Kin;
    assert Sound(AllEnvs(f)[0]);
    ApplySound(f.current, op);
    SameIds(f, f.(current := Apply(f.current, op)));
    forall e ensures Kin(e, e) { KinRefl(e); }
  }

  lemma EnterCallers(f: Frames, shelve: bool)
    ensures Enter(f, shelve).callers == f.callers + [Suspended(f.current, shelve)]
  {
  }

  lemma LeaveCallers(f: Frames, g: Frames, h: Frames, ok: bool)
    requires g.callers != [] && g.callers[..|g.callers| - 1] == f.callers && g.callers[|g.callers| - 1].env == f.current
    requires CallersKept(g, h)
    ensures var r := Leave(h, ok);
            && CallersKept(f, r) && Kin(f.current, r.current) && r.current.id == f.current.id
            && (!g.callers[|g.callers| - 1].shelved ==> r.current == f.current)
  {
    var n := |g.callers| - 1;
    assert Kin(g.callers[n].env, h.callers[n].env);
    forall k | 0 <= k < n ensures f.callers[k] == g.callers[k] { assert g.callers[..n][k] == g.callers[k]; }
  }

  /** Whatever a body does, at any depth of calls, it leaves its callers' environments where
      they were; only values may differ, and only in those a pointer could reach. */
  lemma {:induction false} PerformAllOk(f: Frames, acts: seq<Act>)
    requires FramesOk(f)
    ensures FramesOk(PerformAll(f, acts)) && CallersKept(f, PerformAll(f, acts)) && PerformAll(f, acts).current.id == f.current.id
    decreases acts, 0
  {
    hide Perform, FramesOk, Kin;
    if acts == [] {
      forall e ensures Kin(e, e) { KinRefl(e); }
    } else {
      PerformOk(f, acts[0]);
      PerformAllOk(Perform(f, acts[0]), acts[1..]);
      KeptTrans(f, Perform(f, acts[0]), PerformAll(f, acts));
    }
  }

  // ---- Pointers into callers ----

  lemma KinNames(a: EnvState, b: EnvState, slot: RootSlot, x: string)
    requires Sound(a) && Sound(b) && Kin(a, b) && Names(a, slot, x)
    ensures Names(b, slot, x)
  {
    var k := FindScope(a.scopes, slot.scope).value;
    assert Grown(a.scopes[k], b.scopes[k]);
    UniqueScope(b, k);
  }

  /** Only one environment answers to an id. */
  lemma OwnerIs(f: Frames, i: nat)
    requires FramesOk(f) && i < |f.callers| && f.callers[i].shelved
    ensures forall slot: RootSlot :: slot.env == f.callers[i].env.id ==> Owning(f, slot) == Some(f.callers[i].env)
  {
    hide Sound;
    forall slot: RootSlot | slot.env == f.callers[i].env.id ensures Owning(f, slot) == Some(f.callers[i].env) {
      assert AllEnvs(f)[0] == f.current && AllEnvs(f)[1 + i] == f.callers[i].env;
      var k := FindShelved(f.callers, slot.env);
      assert k.Some?;
      assert AllEnvs(f)[1 + k.value] == f.callers[k.value].env;
      assert k.value == i;
    }
  }

  /** A place in a shelved caller can be reached, under the name it was taken from, at any
      moment of anything its callee does, at any depth. */
  lemma CallerReachable(f: Frames, acts: seq<Act>, i: nat, slot: RootSlot, x: string)
    requires FramesOk(f) && i < |f.callers| && f.callers[i].shelved && slot.env == f.callers[i].env.id
    requires Names(f.callers[i].env, slot, x)
    ensures var g := PerformAll(f, acts); Resolve(g, slot).Some? && Resolve(g, slot).value.name == x
  {
    hide PerformAll, AllEnvs, Kin;
    var g := PerformAll(f, acts);
    PerformAllOk(f, acts);
    OwnerIs(g, i);
    CallerSound(f, i);
    CallerSound(g, i);
    assert Kin(f.callers[i].env, g.callers[i].env);
    assert g.callers[i].env.id == f.callers[i].env.id by { KinId(f.callers[i].env, g.callers[i].env); }
    KinNames(f.callers[i].env, g.callers[i].env, slot, x);
  }

  lemma KinId(a: EnvState, b: EnvState)
    requires Kin(a, b)
    ensures b.id == a.id
  {
  }

  lemma CallerSound(f: Frames, i: nat)
    requires FramesOk(f) && i < |f.callers|
    ensures Sound(f.callers[i].env)
  {
    hide Sound;
    assert Sound(AllEnvs(f)[1 + i]);
  }

  // ---- Pointers that outlive their scope or their frame ----

  /** The place is gone: whatever environment carries its id now cannot show it again. */
  ghost predicate Gone(f: Frames, slot: RootSlot) {
    && slot.env < f.nextEnv
    && Past(f.current, slot)
    && (forall k :: 0 <= k < |f.callers| ==> Past(f.callers[k].env, slot))
    && (forall k :: 0 <= k < |f.pool| ==> f.pool[k].id == slot.env ==> slot.scope < f.pool[k].next)
  }

  ghost predicate Past(env: EnvState, slot: RootSlot) {
    env.id == slot.env ==> !Live(env, slot) && slot.scope < env.next
  }

  lemma GoneUnresolved(f: Frames, slot: RootSlot)
    requires Gone(f, slot)
    ensures Resolve(f, slot).None?
  {
    var env := Owning(f, slot);
    if env.Some? {
      assert Past(env.value, slot);
      assert FindScope(env.value.scopes, slot.scope).None?;
    }
  }

  lemma PastStep(env: EnvState, op: Op, slot: RootSlot)
    requires Sound(env) && Past(env, slot)
    ensures Past(Apply(env, op), slot)
  {
    hide Apply, Sound;
    ApplySound(env, op);
    if env.id == slot.env { DeadStep(env, op, slot); }
  }

  lemma GoneWrite(f: Frames, target: RootSlot, v: Value, slot: RootSlot)
    requires FramesOk(f) && Gone(f, slot)
    ensures Gone(WriteOwner(f, target, v), slot)
  {
    hide Apply, Sound, Past;
    CurrentSound(f);
    PastStep(f.current, WriteAt(target, v), slot);
    var k := FindShelved(f.callers, target.env);
    if k.Some? {
      CallerSound(f, k.value);
      PastStep(f.callers[k.value].env, WriteAt(target, v), slot);
    }
  }

  lemma CurrentSound(f: Frames)
    requires FramesOk(f)
    ensures Sound(f.current)
  {
    hide Sound;
    assert Sound(AllEnvs(f)[0]);
  }

  lemma GoneEnter(f: Frames, shelve: bool, slot: RootSlot)
    requires FramesOk(f) && Gone(f, slot)
    ensures Gone(Enter(f, shelve), slot)
  {
    if f.pool != [] {
      var last := f.pool[|f.pool| - 1];
      assert Sound(last) by { assert Sound(AllEnvs(f)[|AllEnvs(f)| - 1]); }
      if last.id == slot.env { ResetKills(last, slot); }
    }
  }

  lemma GoneLeave(f: Frames, ok: bool, slot: RootSlot)
    requires f.callers != [] && Gone(f, slot)
    ensures Gone(Leave(f, ok), slot)
  {
    hide Live;
  }

  lemma {:induction false} GoneStep(f: Frames, act: Act, slot: RootSlot)
    requires FramesOk(f) && Gone(f, slot)
    ensures Gone(Perform(f, act), slot)
    decreases act, 1
  {
    hide Apply, Sound, Past, Enter, Leave, WriteOwner, PerformAll, AllEnvs;
    match act
    case Do(op) =>
      if op.WriteAt? {
        GoneWrite(f, op.slot, op.v, slot);
      } else {
        assert Sound(f.current) by { CurrentSound(f); }
        PastStep(f.current, op, slot);
      }
    case Call(shelve, body, ok) =>
      EnterOk(f, shelve);
      GoneEnter(f, shelve, slot);
      GoneForever(Enter(f, shelve), body, slot);
      EnterCallers(f, shelve);
      GoneLeave(PerformAll(Enter(f, shelve), body), ok, slot);
  }

  /** A place once gone stays gone, through any calls and any reuse of its environment. */
  lemma {:induction false} GoneForever(f: Frames, acts: seq<Act>, slot: RootSlot)
    requires FramesOk(f) && Gone(f, slot)
    ensures Gone(PerformAll(f, acts), slot) && Resolve(PerformAll(f, acts), slot).None?
    decreases acts, 0
  {
    hide Perform, Gone, FramesOk, Resolve;
    if acts == [] {
      GoneUnresolved(f, slot);
    } else {
      PerformOk(f, acts[0]);
      GoneStep(f, acts[0], slot);
      GoneForever(Perform(f, acts[0]), acts[1..], slot);
    }
  }

  /** Every place of a frame is gone once the frame has returned. */
  lemma ReturnGone(f: Frames, ok: bool, slot: RootSlot)
    requires FramesOk(f) && f.callers != [] && slot.env == f.current.id && slot.scope < f.current.next
    ensures Gone(Leave(f, ok), slot)
  {
    hide Sound, Live, FramesOk;
    OwnEnv(f);
    CurrentScopes(f);
  }

  /** The running environment's id is its own. */
  lemma OwnEnv(f: Frames)
    requires FramesOk(f)
    ensures 0 < f.current.id < f.nextEnv
    ensures forall k :: 0 <= k < |f.callers| ==> f.callers[k].env.id != f.current.id
    ensures forall k :: 0 <= k < |f.pool| ==> f.pool[k].id != f.current.id
  {
    hide Sound;
    EnvAt(f);
    hide AllEnvs;
    forall k | 0 <= k < |f.callers| ensures f.callers[k].env.id != f.current.id { assert AllEnvs(f)[1 + k] == f.callers[k].env; }
    forall k | 0 <= k < |f.pool| ensures f.pool[k].id != f.current.id { assert AllEnvs(f)[1 + |f.callers| + k] == f.pool[k]; }
  }

  lemma CurrentScopes(f: Frames)
    requires FramesOk(f)
    ensures Sound(f.current)
  {
    hide Sound;
    EnvAt(f);
  }

  /** A place located in a frame does not survive it: after the call has returned, nothing the
      program goes on to do resolves it. */
  lemma NoDanglingReads(f: Frames, ok: bool, acts: seq<Act>, x: string)
    requires FramesOk(f) && f.callers != [] && SlotOf(f.current, x).Some?
    ensures Resolve(PerformAll(Leave(f, ok), acts), SlotOf(f.current, x).value).None?
  {
    hide PerformAll, Sound, Gone, AllEnvs, Leave;
    var slot := SlotOf(f.current, x).value;
    CurrentSound(f);
    LocatedNames(f.current, x);
    LiveBelow(f.current, slot);
    LeaveOk(f, ok);
    ReturnGone(f, ok, slot);
    GoneForever(Leave(f, ok), acts, slot);
  }
}

/** What a frame layout guarantees: disjoint aligned slots in a tight frame, and cleanup lists
    that release every binding exactly once, innermost scopes first. */
module FrameFacts {
  import opened ElfBytes
  import opened FrameLayout

  // ---- Slots ----

  lemma SlotSizes(ty: string)
    ensures SlotSize(ty) == 8
  {
    assert AlignUp(1, 8) == 8 && AlignUp(8, 8) == 8;
  }

  function TotalSize(decls: seq<Decl>): nat {
    if decls == [] then 0 else TotalSize(decls[..|decls| - 1]) + SlotSize(decls[|decls| - 1].ty)
  }

  lemma {:induction false} OffsetsPrefix(decls: seq<Decl>, more: seq<Decl>, k: nat)
    requires k <= |decls|
    ensures NextOffset(decls + more, k) == NextOffset(decls, k)
    ensures k < |decls| ==> OffsetOf(decls + more, k) == OffsetOf(decls, k)
    decreases k
  {
    hide AlignUp, SlotSize;
    if k > 0 { OffsetsPrefix(decls, more, k - 1); }
  }

  /** Slots are packed: the next free byte is the sum of the sizes so far, a multiple of eight. */
  lemma {:induction false} OffsetsPacked(decls: seq<Decl>, k: nat)
    requires k <= |decls|
    ensures NextOffset(decls, k) == TotalSize(decls[..k]) && NextOffset(decls, k) % SLOT_ALIGN == 0
    ensures k < |decls| ==> OffsetOf(decls, k) == NextOffset(decls, k)
    decreases k
  {
    hide SlotSize;
    if k > 0 {
      OffsetsPacked(decls, k - 1);
      SlotSizes(decls[k - 1].ty);
      assert decls[..k][..k - 1] == decls[..k - 1];
    }
    AlreadyAligned(NextOffset(decls, k));
  }

  lemma AlreadyAligned(n: nat)
    requires n % SLOT_ALIGN == 0
    ensures AlignUp(n, SLOT_ALIGN) == n
  {
  }

  lemma {:induction false} OffsetsGrow(decls: seq<Decl>, i: nat, j: nat)
    requires i < j <= |decls|
    ensures OffsetOf(decls, i) + SlotSize(decls[i].ty) <= NextOffset(decls, j)
    decreases j
  {
    hide AlignUp, SlotSize;
    if i < j - 1 { OffsetsGrow(decls, i, j - 1); }
  }

  /** Every binding has its own eight-aligned slot inside a sixteen-aligned frame that wastes
      fewer than sixteen bytes. */
  lemma SlotsConserved(params: seq<(string, string)>, body: seq<Node>)
    ensures var f, decls := FrameOf(params, body), AllDecls(params, body);
            && |f.slots| == |decls| && (forall k :: 0 <= k < |decls| ==> f.slots[k].decl == decls[k])
            && (forall k :: 0 <= k < |f.slots| ==> f.slots[k].offset % SLOT_ALIGN == 0 && f.slots[k].size > 0 && f.slots[k].offset + f.slots[k].size <= f.frameSize)
            && (forall i, j :: 0 <= i < j < |f.slots| ==> f.slots[i].offset + f.slots[i].size <= f.slots[j].offset)
            && f.frameSize % FRAME_ALIGN == 0 && TotalSize(decls) <= f.frameSize < TotalSize(decls) + FRAME_ALIGN
  {
    hide AllDecls, AllPlans, NamedAll, TotalSize, SlotSize, OffsetOf, NextOffset;
    var f, decls := FrameOf(params, body), AllDecls(params, body);
    var n := |decls|;
    OffsetsPacked(decls, n);
    assert decls[..n] == decls;
    RoundUp(NextOffset(decls, n), FRAME_ALIGN);
    forall k | 0 <= k < n
      ensures f.slots[k].offset % SLOT_ALIGN == 0 && f.slots[k].size > 0 && f.slots[k].offset + f.slots[k].size <= f.frameSize
    {
      OffsetsPacked(decls, k);
      OffsetsGrow(decls, k, n);
      SlotSizes(decls[k].ty);
    }
    forall i, j | 0 <= i < j < n ensures f.slots[i].offset + f.slots[i].size <= f.slots[j].offset {
      OffsetsGrow(decls, i, j);
      OffsetsPacked(decls, j);
    }
  }

  // ---- Cleanup plans ----

  /** Bindings of one scope, released last declared first, all of the scope's depth. */
  ghost predicate PlanOk(all: seq<Decl>, p: Plan, lo: nat, hi: nat, minDepth: nat) {
    && lo <= p.lo && p.hi <= hi <= |all| && p.depth >= minDepth
    && (forall k :: 0 <= k < |p.order| ==> p.lo <= p.order[k] < p.hi && all[p.order[k]].depth == p.depth)
    && forall i, j :: 0 <= i < j < |p.order| ==> p.order[i] > p.order[j]
  }

  /** A scope that closes first lies wholly before the other, or inside it and deeper. */
  predicate Before(a: Plan, b: Plan) { a.hi <= b.lo || (b.lo <= a.lo && a.hi <= b.hi && b.depth < a.depth) }

  ghost predicate Planned(all: seq<Decl>, plans: seq<Plan>, lo: nat, hi: nat, minDepth: nat) {
    && (forall k :: 0 <= k < |plans| ==> PlanOk(all, plans[k], lo, hi, minDepth))
    && forall i, j :: 0 <= i < j < |plans| ==> Before(plans[i], plans[j])
  }

  /** How many plans release declaration `id`. */
  function Releases(plans: seq<Plan>, id: nat): nat {
    if plans == [] then 0 else (if id in plans[0].order then 1 else 0) + Releases(plans[1..], id)
  }

  lemma {:induction false} ReleasesJoin(a: seq<Plan>, b: seq<Plan>, id: nat)
    ensures Releases(a + b, id) == Releases(a, id) + Releases(b, id)
    decreases a
  {
    if a == [] {
      assert a + b == b;
    } else {
      assert (a + b)[0] == a[0] && (a + b)[1..] == a[1..] + b;
      ReleasesJoin(a[1..], b, id);
    }
  }

  lemma PlannedJoin(all: seq<Decl>, a: seq<Plan>, b: seq<Plan>, lo: nat, mid: nat, hi: nat, depth: nat)
    requires Planned(all, a, lo, mid, depth) && Planned(all, b, mid, hi, depth) && lo <= mid <= hi <= |all|
    ensures Planned(all, a + b, lo, hi, depth)
  {
    var c := a + b;
    forall k | 0 <= k < |c| ensures PlanOk(all, c[k], lo, hi, depth) {
      if k < |a| { assert PlanOk(all, a[k], lo, mid, depth); } else { assert PlanOk(all, b[k - |a|], mid, hi, depth); }
    }
    forall i, j | 0 <= i < j < |c| ensures Before(c[i], c[j]) {
      if i < |a| <= j {
        assert PlanOk(all, a[i], lo, mid, depth) && PlanOk(all, b[j - |a|], mid, hi, depth);
      }
    }
  }

  /** The declarations of one scope, in order. */
  ghost predicate OwnOk(all: seq<Decl>, own: seq<nat>, lo: nat, hi: nat, depth: nat) {
    && hi <= |all| && (forall k :: 0 <= k < |own| ==> lo <= own[k] < hi && all[own[k]].depth == depth)
    && forall i, j :: 0 <= i < j < |own| ==> own[i] < own[j]
  }

  lemma {:induction false} ReverseIn(ids: seq<nat>, id: nat)
    ensures id in Reverse(ids) <==> id in ids
  {
    var r := Reverse(ids);
    hide Reverse;
    if id in ids {
      var k :| 0 <= k < |ids| && ids[k] == id;
      assert r[|ids| - 1 - k] == id;
    }
    if id in r {
      var k :| 0 <= k < |r| && r[k] == id;
      assert ids[|ids| - 1 - k] == id;
    }
  }

  /** A scope closes after everything nested in it. */
  lemma PlannedClose(all: seq<Decl>, inner: seq<Plan>, own: seq<nat>, lo: nat, start: nat, hi: nat, depth: nat)
    requires Planned(all, inner, start, hi, depth + 1) && OwnOk(all, own, lo, hi, depth) && lo <= start <= hi <= |all|
    ensures Planned(all, inner + Finish(depth, own, lo, hi), lo, hi, depth)
    ensures forall id: nat :: Releases(inner + Finish(depth, own, lo, hi), id) == Releases(inner, id) + if id in own then 1 else 0
  {
    hide Reverse;
    var last := Finish(depth, own, lo, hi);
    var plans := inner + last;
    forall k | 0 <= k < |plans| ensures PlanOk(all, plans[k], lo, hi, depth) {
      if k < |inner| { assert PlanOk(all, inner[k], start, hi, depth + 1); }
    }
    forall i, j | 0 <= i < j < |plans| ensures Before(plans[i], plans[j]) {
      if i < |inner| { assert PlanOk(all, inner[i], start, hi, depth + 1); }
    }
    forall id: nat ensures Releases(plans, id) == Releases(inner, id) + if id in own then 1 else 0 {
      ReleasesJoin(inner, last, id);
      ReverseIn(own, id);
      if own != [] { assert last[1..] == []; }
    }
  }

  // ---- Over the statements ----

  /** The declarations of a part of the function stand at `at` among all of them. */
  ghost predicate Placed(all: seq<Decl>, at: nat, part: seq<Decl>) { at + |part| <= |all| && all[at..at + |part|] == part }

  lemma PlacedSplit(all: seq<Decl>, at: nat, a: seq<Decl>, b: seq<Decl>)
    requires Placed(all, at, a + b)
    ensures Placed(all, at, a) && Placed(all, at + |a|, b)
  {
    assert all[at..at + |a + b|][..|a|] == all[at..at + |a|] && (a + b)[..|a|] == a;
    assert all[at..at + |a + b|][|a|..] == all[at + |a|..at + |a| + |b|] && (a + b)[|a|..] == b;
  }

  lemma PlacedAt(all: seq<Decl>, at: nat, part: seq<Decl>, k: nat)
    requires Placed(all, at, part) && k < |part|
    ensures all[at + k] == part[k]
  {
    assert all[at..at + |part|][k] == all[at + k];
  }

  /** A block: its scope's own declarations and the plans of the scopes nested in it share out
      exactly the declarations made in it. */
  ghost predicate BlockShared(all: seq<Decl>, own: seq<nat>, inner: seq<Plan>, lo: nat, hi: nat, depth: nat) {
    && OwnOk(all, own, lo, hi, depth) && Planned(all, inner, lo, hi, depth + 1)
    && forall id: nat :: Releases(inner, id) + (if id in own then 1 else 0) == if lo <= id < hi then 1 else 0
  }

  /** Scopes side by side. */
  ghost predicate AllShared(all: seq<Decl>, plans: seq<Plan>, lo: nat, hi: nat, depth: nat) {
    Planned(all, plans, lo, hi, depth) && forall id: nat :: Releases(plans, id) == if lo <= id < hi then 1 else 0
  }

  lemma BlockShape(body: seq<Node>, depth: nat, at: nat)
    requires body != []
    ensures var mid := at + |NodeDecls(body[0], depth)|;
            && Decls(body, depth) == NodeDecls(body[0], depth) + Decls(body[1..], depth)
            && Own(body, depth, at) == (if body[0].Let? then [at] else []) + Own(body[1..], depth, mid)
            && Inner(body, depth, at) == NodePlans(body[0], depth, at) + Inner(body[1..], depth, mid)
  {
    hide NodeDecls, NodePlans;
  }

  lemma EmptyShared(all: seq<Decl>, depth: nat, at: nat)
    requires at <= |all|
    ensures Decls([], depth) == [] && BlockShared(all, Own([], depth, at), Inner([], depth, at), at, at, depth)
  {
  }

  lemma {:induction false} BlockFacts(all: seq<Decl>, body: seq<Node>, depth: nat, at: nat)
    requires Placed(all, at, Decls(body, depth))
    ensures BlockShared(all, Own(body, depth, at), Inner(body, depth, at), at, at + |Decls(body, depth)|, depth)
    decreases body, 0
  {
    hide NodeDecls, NodePlans, Decls, Own, Inner, BlockShared, Placed;
    if body == [] {
      PlacedInside(all, at, Decls(body, depth));
      EmptyShared(all, depth, at);
    } else {
      BlockShape(body, depth, at);
      var first, rest := NodeDecls(body[0], depth), Decls(body[1..], depth);
      var mid := at + |first|;
      PlacedSplit(all, at, first, rest);
      PlacedInside(all, mid, rest);
      NodeFacts(all, body[0], depth, at);
      BlockFacts(all, body[1..], depth, mid);
      var head: seq<nat> := if body[0].Let? then [at] else [];
      JoinBlocks(all, head, NodePlans(body[0], depth, at), Own(body[1..], depth, mid), Inner(body[1..], depth, mid), at, mid, mid + |rest|, depth);
    }
  }

  lemma PlacedInside(all: seq<Decl>, at: nat, part: seq<Decl>)
    requires Placed(all, at, part)
    ensures at + |part| <= |all|
  {
  }

  lemma JoinBlocks(all: seq<Decl>, own: seq<nat>, plans: seq<Plan>, own': seq<nat>, plans': seq<Plan>, lo: nat, mid: nat, hi: nat, depth: nat)
    requires lo <= mid <= hi <= |all| && BlockShared(all, own, plans, lo, mid, depth) && BlockShared(all, own', plans', mid, hi, depth)
    ensures BlockShared(all, own + own', plans + plans', lo, hi, depth)
  {
    PlannedJoin(all, plans, plans', lo, mid, hi, depth + 1);
    hide Planned;
    forall id: nat ensures Releases(plans + plans', id) + (if id in own + own' then 1 else 0) == if lo <= id < hi then 1 else 0 {
      ReleasesJoin(plans, plans', id);
    }
  }

  lemma LetShared(all: seq<Decl>, s: Node, depth: nat, at: nat)
    requires s.Let? && Placed(all, at, NodeDecls(s, depth))
    ensures BlockShared(all, [at], NodePlans(s, depth, at), at, at + |NodeDecls(s, depth)|, depth)
  {
    PlacedAt(all, at, NodeDecls(s, depth), 0);
  }

  lemma ChildrenShared(all: seq<Decl>, plans: seq<Plan>, lo: nat, hi: nat, depth: nat)
    requires hi <= |all| && AllShared(all, plans, lo, hi, depth + 1)
    ensures BlockShared(all, [], plans, lo, hi, depth)
  {
    hide Planned, Releases;
  }

  /** One statement: a declaration is the scope's own, everything else is in child scopes. */
  lemma {:induction false} NodeFacts(all: seq<Decl>, s: Node, depth: nat, at: nat)
    requires Placed(all, at, NodeDecls(s, depth))
    ensures BlockShared(all, if s.Let? then [at] else [], NodePlans(s, depth, at), at, at + |NodeDecls(s, depth)|, depth)
    decreases s, 1
  {
    hide BlockShared, AllShared, ChildDecls, ChildPlans, Placed;
    PlacedInside(all, at, NodeDecls(s, depth));
    if s.Let? {
      LetShared(all, s, depth, at);
    } else {
      ChildFacts(all, s, 0, depth + 1, at);
      ChildrenShared(all, NodePlans(s, depth, at), at, at + |NodeDecls(s, depth)|, depth);
    }
  }

  lemma ChildShape(s: Node, i: nat, depth: nat, at: nat)
    requires i < ChildCount(s)
    ensures var seeds, body := Seeds(s, i, depth), ChildBody(s, i);
            var start := at + |seeds|;
            var end := start + |Decls(body, depth)|;
            && ChildDecls(s, i, depth) == seeds + Decls(body, depth) + ChildDecls(s, i + 1, depth)
            && ChildPlans(s, i, depth, at)
               == Inner(body, depth, start) + Finish(depth, Upto(|seeds|, at) + Own(body, depth, start), at, end) + ChildPlans(s, i + 1, depth, end)
  {
    hide Seeds, Decls, Inner, Own, Finish, Upto;
  }

  lemma NoChildren(all: seq<Decl>, s: Node, depth: nat, at: nat)
    requires at <= |all|
    ensures ChildDecls(s, ChildCount(s), depth) == [] && AllShared(all, ChildPlans(s, ChildCount(s), depth, at), at, at, depth)
  {
  }

  lemma {:induction false} ChildFacts(all: seq<Decl>, s: Node, i: nat, depth: nat, at: nat)
    requires i <= ChildCount(s) && Placed(all, at, ChildDecls(s, i, depth))
    ensures AllShared(all, ChildPlans(s, i, depth, at), at, at + |ChildDecls(s, i, depth)|, depth)
    decreases s, 0, ChildCount(s) - i
  {
    hide Own, Inner, Decls, Finish, BlockShared, ChildDecls, ChildPlans, AllShared, Placed, Seeds, ChildCount, Upto;
    PlacedInside(all, at, ChildDecls(s, i, depth));
    if i == ChildCount(s) {
      NoChildren(all, s, depth, at);
    } else {
      ChildShape(s, i, depth, at);
      var seeds, body := Seeds(s, i, depth), ChildBody(s, i);
      var decls, rest := Decls(body, depth), ChildDecls(s, i + 1, depth);
      var start := at + |seeds|;
      var end := start + |decls|;
      PlacedSplit(all, at, seeds + decls, rest);
      PlacedSplit(all, at, seeds, decls);
      BlockFacts(all, body, depth, start);
      ChildFacts(all, s, i + 1, depth, end);
      SeedDepths(s, i, depth);
      ScopeFacts(all, seeds, Own(body, depth, start), Inner(body, depth, start), at, start, end, depth);
      var scope := Inner(body, depth, start) + Finish(depth, Upto(|seeds|, at) + Own(body, depth, start), at, end);
      JoinScopes(all, scope, ChildPlans(s, i + 1, depth, end), at, end, end + |rest|, depth);
    }
  }

  lemma SeedDepths(s: Node, i: nat, depth: nat)
    requires i < ChildCount(s)
    ensures forall k :: 0 <= k < |Seeds(s, i, depth)| ==> Seeds(s, i, depth)[k].depth == depth
  {
  }

  lemma JoinScopes(all: seq<Decl>, a: seq<Plan>, b: seq<Plan>, lo: nat, mid: nat, hi: nat, depth: nat)
    requires lo <= mid <= hi <= |all| && AllShared(all, a, lo, mid, depth) && AllShared(all, b, mid, hi, depth)
    ensures AllShared(all, a + b, lo, hi, depth)
  {
    PlannedJoin(all, a, b, lo, mid, hi, depth);
    hide Planned;
    forall id: nat ensures Releases(a + b, id) == if lo <= id < hi then 1 else 0 { ReleasesJoin(a, b, id); }
  }

  lemma SeededIds(n: nat, at: nat, own: seq<nat>, id: nat)
    ensures id in Upto(n, at) + own <==> at <= id < at + n || id in own
  {
    var ids := Upto(n, at) + own;
    if at <= id < at + n { assert ids[id - at] == id; }
    if id in own {
      var k :| 0 <= k < |own| && own[k] == id;
      assert ids[n + k] == id;
    }
  }

  lemma SeededOwn(all: seq<Decl>, seeds: seq<Decl>, own: seq<nat>, at: nat, start: nat, end: nat, depth: nat)
    requires start == at + |seeds| <= end && Placed(all, at, seeds) && OwnOk(all, own, start, end, depth)
    requires forall k :: 0 <= k < |seeds| ==> seeds[k].depth == depth
    ensures OwnOk(all, Upto(|seeds|, at) + own, at, end, depth)
  {
    hide Placed;
    var ids := Upto(|seeds|, at) + own;
    forall k | 0 <= k < |ids| ensures at <= ids[k] < end && all[ids[k]].depth == depth {
      if k < |seeds| { PlacedAt(all, at, seeds, k); }
    }
  }

  /** One scope: what it seeds and declares itself, and what is nested in it. */
  lemma ScopeFacts(all: seq<Decl>, seeds: seq<Decl>, own: seq<nat>, inner: seq<Plan>, at: nat, start: nat, end: nat, depth: nat)
    requires start == at + |seeds| <= end <= |all| && Placed(all, at, seeds) && BlockShared(all, own, inner, start, end, depth)
    requires forall k :: 0 <= k < |seeds| ==> seeds[k].depth == depth
    ensures AllShared(all, inner + Finish(depth, Upto(|seeds|, at) + own, at, end), at, end, depth)
  {
    hide Planned, Finish, Placed, OwnOk, Upto;
    var ids := Upto(|seeds|, at) + own;
    SeededOwn(all, seeds, own, at, start, end, depth);
    PlannedClose(all, inner, ids, at, start, end, depth);
    forall id: nat ensures Releases(inner + Finish(depth, ids, at, end), id) == if at <= id < end then 1 else 0 {
      SeededIds(|seeds|, at, own, id);
    }
  }

  /** The cleanup lists release every slot exactly once, at its own depth and last declared
      first, and every nested scope before the scopes around it. */
  lemma CleanupConserved(params: seq<(string, string)>, body: seq<Node>)
    ensures var all, plans := AllDecls(params, body), AllPlans(params, body);
            && (forall id :: 0 <= id < |all| ==> Releases(plans, id) == 1)
            && (forall k :: 0 <= k < |plans| ==> PlanOk(all, plans[k], 0, |all|, 0))
            && (forall i, j :: 0 <= i < j < |plans| ==> Before(plans[i], plans[j]))
  {
    var all, seeds := AllDecls(params, body), ParamDecls(params);
    hide Own, Inner, Decls, Finish;
    var n := |params|;
    assert Placed(all, 0, seeds) && Placed(all, n, Decls(body, 0));
    BlockFacts(all, body, 0, n);
    ScopeFacts(all, seeds, Own(body, 0, n), Inner(body, 0, n), 0, n, |all|, 0);
    hide PlanOk, Before, Releases;
  }

  /** The named lists are the plans' bindings by name. */
  lemma CleanupNames(params: seq<(string, string)>, body: seq<Node>, k: nat)
    requires k < |AllPlans(params, body)|
    ensures var f, p := FrameOf(params, body), AllPlans(params, body)[k];
            && k < |f.scopes| && f.scopes[k].depth == p.depth && |f.scopes[k].names| == |p.order|
            && forall i :: 0 <= i < |p.order| ==> p.order[i] < |f.slots| && f.scopes[k].names[i] == f.slots[p.order[i]].decl.name
  {
    CleanupConserved(params, body);
    hide AllPlans, AllDecls, OffsetOf, NextOffset;
    assert PlanOk(AllDecls(params, body), AllPlans(params, body)[k], 0, |AllDecls(params, body)|, 0);
  }
}

/** `LayoutBuilder`: the layout as it is built while the body is walked. */
module FrameBuilder {
  import opened ElfBytes
  import opened FrameLayout
  import opened FrameFacts

  function NamesOf(decls: seq<Decl>, ids: seq<nat>): seq<string> {
    seq(|ids|, k requires 0 <= k < |ids| => if ids[k] < |decls| then decls[ids[k]].name else "")
  }

  class LayoutBuilder {
    var slots: seq<FrameSlot>
    var scopes: seq<ScopeCleanup>
    var nextOffset: nat

    /** What has been declared so far. */
    ghost var decls: seq<Decl>

    ghost predicate Valid()
      reads this
    {
      slots == Slots(decls) && nextOffset == NextOffset(decls, |decls|)
    }

    constructor ()
      ensures Valid() && decls == [] && scopes == []
    {
      slots, scopes, nextOffset, decls := [], [], 0, [];
    }

    method AddSlot(d: Decl)
      requires Valid()
      modifies this`slots, this`nextOffset, this`decls
      ensures Valid() && decls == old(decls) + [d]
    {
      SlotsNext(decls, d);
      var size := SlotSize(d.ty);
      var offset := AlignUp(nextOffset, SLOT_ALIGN);
      nextOffset := offset + size;
      slots := slots + [FrameSlot(d, offset, size)];
      decls := decls + [d];
    }

    /** The scopes found in a block are recorded; the names it declares itself are appended to
        the accumulator of its own scope. */
    method WalkBlock(body: seq<Node>, depth: nat, names: seq<string>) returns (all: seq<string>)
      requires Valid()
      modifies this
      ensures Valid() && decls == old(decls) + Decls(body, depth)
      ensures scopes == old(scopes) + NamedAll(decls, Inner(body, depth, old(|decls|)))
      ensures all == names + NamesOf(decls, Own(body, depth, old(|decls|)))
      decreases body, 0
    {
      hide Slots, NextOffset, Decls, NodeDecls, Own, Inner, NodePlans, NamedAll, NamesOf;
      ghost var before, was := decls, scopes;
      if body == [] {
        EmptyWalk(decls, scopes, names, depth);
        return names;
      }
      var first;
      first := WalkNode(body[0], depth, names);
      ghost var mid := decls;
      all := WalkBlock(body[1..], depth, first);
      WalkNext(before, mid, decls, was, body, depth, names);
    }

    method WalkNode(s: Node, depth: nat, names: seq<string>) returns (all: seq<string>)
      requires Valid()
      modifies this
      ensures Valid() && decls == old(decls) + NodeDecls(s, depth)
      ensures scopes == old(scopes) + NamedAll(decls, NodePlans(s, depth, old(|decls|)))
      ensures all == names + NamesOf(decls, if s.Let? then [old(|decls|)] else [])
      decreases s, 1
    {
      hide Slots, NextOffset, ChildDecls, ChildPlans;
      if s.Let? {
        AddSlot(Decl(s.name, s.ty, Local, depth));
        return names + [s.name];
      }
      assert names + NamesOf(decls, []) == names;
      WalkChildren(s, 0, depth + 1);
      return names;
    }

    /** The child scopes from `i` on, each seeded, walked and finished in turn. */
    method WalkChildren(s: Node, i: nat, depth: nat)
      requires Valid() && i <= ChildCount(s)
      modifies this
      ensures Valid() && decls == old(decls) + ChildDecls(s, i, depth)
      ensures scopes == old(scopes) + NamedAll(decls, ChildPlans(s, i, depth, old(|decls|)))
      decreases s, 0, ChildCount(s) - i
    {
      hide Slots, NextOffset, Decls, Own, Inner, NamedAll, NamesOf, Finish, Seeds, ChildDecls, ChildPlans, ChildCount, ChildBody;
      if i == ChildCount(s) {
        NoneLeft(s, depth, decls, scopes);
        return;
      }
      ghost var before, was := decls, scopes;
      ChildShape(s, i, depth, |decls|);
      WalkChildScope(Seeds(s, i, depth), ChildBody(s, i), depth);
      ghost var mid, done := decls, scopes;
      WalkChildren(s, i + 1, depth);
      ChildrenNext(before, mid, decls, was, s, i, depth);
    }

    /** `walk_child_scope`: a nested block as its own scope, with what it declares before its
        body. */
    method WalkChildScope(seeds: seq<Decl>, body: seq<Node>, depth: nat)
      requires Valid()
      modifies this
      ensures Valid() && decls == old(decls) + seeds + Decls(body, depth)
      ensures var at := old(|decls|); var start := at + |seeds|;
              scopes == old(scopes) + NamedAll(decls, Inner(body, depth, start) + Finish(depth, Upto(|seeds|, at) + Own(body, depth, start), at, |decls|))
      decreases body, 2
    {
      hide Slots, NextOffset, Decls, Own, Inner, NamedAll, Finish, NamesOf, Upto;
      ghost var before, was := decls, scopes;
      var names := AddSeeds(seeds);
      ghost var mid := decls;
      names := WalkBlock(body, depth, names);
      FinishScope(depth, names);
      ScopeNext(before, mid, decls, was, seeds, body, depth);
    }

    method AddSeeds(seeds: seq<Decl>) returns (names: seq<string>)
      requires Valid()
      modifies this`slots, this`nextOffset, this`decls
      ensures Valid() && decls == old(decls) + seeds && names == NamesOf(decls, Upto(|seeds|, old(|decls|)))
    {
      hide Slots, NextOffset;
      names := [];
      while |names| < |seeds|
        invariant |names| <= |seeds| && Valid() && decls == old(decls) + seeds[..|names|]
        invariant forall k :: 0 <= k < |names| ==> names[k] == seeds[k].name
        decreases |seeds| - |names|
      {
        AddSlot(seeds[|names|]);
        names := names + [seeds[|names|].name];
      }
    }

    /** Reverse declaration order; a scope without bindings is omitted. */
    method FinishScope(depth: nat, names: seq<string>)
      requires Valid()
      modifies this`scopes
      ensures Valid() && scopes == old(scopes) + if names == [] then [] else [ScopeCleanup(depth, Reversed(names))]
    {
      if names == [] { return; }
      scopes := scopes + [ScopeCleanup(depth, Reversed(names))];
    }
  }

  function Reversed(names: seq<string>): (r: seq<string>)
    ensures |r| == |names| && forall k :: 0 <= k < |r| ==> r[k] == names[|names| - 1 - k]
  {
    if names == [] then [] else Reversed(names[1..]) + [names[0]]
  }

  /** The layout of a function is the specified one. */
  method AnalyzeFrame(params: seq<(string, string)>, body: seq<Node>) returns (f: Layout)
    ensures f == FrameOf(params, body)
  {
    hide Slots, NextOffset, Decls, Own, Inner, NamedAll, Finish, NamesOf, Upto;
    var builder := new LayoutBuilder();
    var names := builder.AddSeeds(ParamDecls(params));
    ghost var mid := builder.decls;
    assert [] + ParamDecls(params) == ParamDecls(params);
    names := builder.WalkBlock(body, 0, names);
    builder.FinishScope(0, names);
    ScopeNext([], mid, builder.decls, [], ParamDecls(params), body, 0);
    FrameIs(params, body, builder.scopes);
    return Layout(builder.slots, AlignUp(builder.nextOffset, FRAME_ALIGN), builder.scopes);
  }

  lemma FrameIs(params: seq<(string, string)>, body: seq<Node>, scopes: seq<ScopeCleanup>)
    requires var all, n := AllDecls(params, body), |params|;
             scopes == [] + NamedAll(all, Inner(body, 0, n) + Finish(0, Upto(n, 0) + Own(body, 0, n), 0, |all|))
    ensures FrameOf(params, body).scopes == scopes
  {
    hide Slots, NextOffset, Decls, Own, Inner, NamedAll, Finish, Upto;
  }

  lemma OffsetNext(decls: seq<Decl>, d: Decl)
    ensures OffsetOf(decls + [d], |decls|) == AlignUp(NextOffset(decls, |decls|), SLOT_ALIGN)
    ensures NextOffset(decls + [d], |decls| + 1) == OffsetOf(decls + [d], |decls|) + SlotSize(d.ty)
  {
    hide AlignUp, SlotSize;
    OffsetsPrefix(decls, [d], |decls|);
  }

  lemma SlotBefore(decls: seq<Decl>, d: Decl, k: nat)
    requires k < |decls|
    ensures Slots(decls + [d])[k] == Slots(decls)[k]
  {
    hide AlignUp, SlotSize, NextOffset, OffsetOf;
    OffsetsPrefix(decls, [d], k);
    assert (decls + [d])[k] == decls[k];
  }

  lemma SlotsNext(decls: seq<Decl>, d: Decl)
    ensures Slots(decls + [d]) == Slots(decls) + [FrameSlot(d, AlignUp(NextOffset(decls, |decls|), SLOT_ALIGN), SlotSize(d.ty))]
    ensures NextOffset(decls + [d], |decls| + 1) == AlignUp(NextOffset(decls, |decls|), SLOT_ALIGN) + SlotSize(d.ty)
  {
    hide AlignUp, SlotSize, NextOffset, OffsetOf;
    OffsetNext(decls, d);
    var all, added := Slots(decls + [d]), FrameSlot(d, AlignUp(NextOffset(decls, |decls|), SLOT_ALIGN), SlotSize(d.ty));
    assert |all| == |decls| + 1 && all[|decls|] == added;
    assert |Slots(decls)| == |decls|;
    forall k | 0 <= k < |decls| ensures all[k] == Slots(decls)[k] {
      SlotBefore(decls, d, k);
    }
    Extended(Slots(decls), added, all);
  }

  lemma Extended<T>(s: seq<T>, x: T, t: seq<T>)
    requires |t| == |s| + 1 && t[|s|] == x && forall k :: 0 <= k < |s| ==> t[k] == s[k]
    ensures t == s + [x]
  {
  }

  // ---- Names do not change as more is declared ----

  ghost predicate Below(plans: seq<Plan>, n: nat) {
    forall k, i :: 0 <= k < |plans| && 0 <= i < |plans[k].order| ==> plans[k].order[i] < n
  }

  lemma NamedStable(decls: seq<Decl>, more: seq<Decl>, plans: seq<Plan>)
    requires Below(plans, |decls|)
    ensures NamedAll(decls + more, plans) == NamedAll(decls, plans)
  {
    forall k | 0 <= k < |plans| ensures Named(decls + more, plans[k]) == Named(decls, plans[k]) {
      assert forall i :: 0 <= i < |plans[k].order| ==> plans[k].order[i] < |decls|;
    }
    hide Named;
  }

  lemma NamesStable(decls: seq<Decl>, more: seq<Decl>, ids: seq<nat>)
    requires forall k :: 0 <= k < |ids| ==> ids[k] < |decls|
    ensures NamesOf(decls + more, ids) == NamesOf(decls, ids)
  {
  }

  lemma NamedJoin(decls: seq<Decl>, a: seq<Plan>, b: seq<Plan>)
    ensures NamedAll(decls, a + b) == NamedAll(decls, a) + NamedAll(decls, b)
  {
    hide Named;
  }

  lemma NamesJoin(decls: seq<Decl>, a: seq<nat>, b: seq<nat>)
    ensures NamesOf(decls, a + b) == NamesOf(decls, a) + NamesOf(decls, b)
  {
  }

  lemma BelowOf(all: seq<Decl>, plans: seq<Plan>, lo: nat, hi: nat, depth: nat)
    requires Planned(all, plans, lo, hi, depth)
    ensures Below(plans, hi)
  {
    forall k, i | 0 <= k < |plans| && 0 <= i < |plans[k].order| ensures plans[k].order[i] < hi {
      assert PlanOk(all, plans[k], lo, hi, depth);
    }
  }

  lemma EmptyWalk(decls: seq<Decl>, scopes: seq<ScopeCleanup>, names: seq<string>, depth: nat)
    ensures decls + Decls([], depth) == decls && scopes + NamedAll(decls, Inner([], depth, |decls|)) == scopes
    ensures names + NamesOf(decls, Own([], depth, |decls|)) == names
  {
  }

  lemma NoneLeft(s: Node, depth: nat, decls: seq<Decl>, scopes: seq<ScopeCleanup>)
    ensures decls + ChildDecls(s, ChildCount(s), depth) == decls
    ensures scopes + NamedAll(decls, ChildPlans(s, ChildCount(s), depth, |decls|)) == scopes
  {
  }

  lemma PlacedHere(before: seq<Decl>, part: seq<Decl>)
    ensures Placed(before + part, |before|, part)
  {
  }

  /** The head of a block and the rest of it, put together. */
  lemma WalkNext(before: seq<Decl>, mid: seq<Decl>, after: seq<Decl>, was: seq<ScopeCleanup>, body: seq<Node>, depth: nat, names: seq<string>)
    requires body != [] && mid == before + NodeDecls(body[0], depth) && after == mid + Decls(body[1..], depth)
    ensures after == before + Decls(body, depth)
    ensures var at := |before|;
            was + NamedAll(mid, NodePlans(body[0], depth, at)) + NamedAll(after, Inner(body[1..], depth, |mid|))
            == was + NamedAll(after, Inner(body, depth, at))
    ensures var at := |before|;
            names + NamesOf(mid, if body[0].Let? then [at] else []) + NamesOf(after, Own(body[1..], depth, |mid|))
            == names + NamesOf(after, Own(body, depth, at))
  {
    hide NodeDecls, Decls, Own, Inner, NodePlans, NamedAll, NamesOf, Planned, Placed, OwnOk;
    var at := |before|;
    BlockShape(body, depth, at);
    PlacedHere(before, NodeDecls(body[0], depth));
    NodeFacts(mid, body[0], depth, at);
    assert before + NodeDecls(body[0], depth) + Decls(body[1..], depth) == before + (NodeDecls(body[0], depth) + Decls(body[1..], depth));
    hide BlockShared;
    NodePlansStable(mid, body[0], Decls(body[1..], depth), depth, at);
    WalkScopes(after, was, NodePlans(body[0], depth, at), Inner(body[1..], depth, |mid|));
    WalkNames(after, names, if body[0].Let? then [at] else [], Own(body[1..], depth, |mid|));
  }

  lemma NodePlansStable(mid: seq<Decl>, s: Node, more: seq<Decl>, depth: nat, at: nat)
    requires BlockShared(mid, if s.Let? then [at] else [], NodePlans(s, depth, at), at, |mid|, depth)
    ensures NamedAll(mid + more, NodePlans(s, depth, at)) == NamedAll(mid, NodePlans(s, depth, at))
    ensures NamesOf(mid + more, if s.Let? then [at] else []) == NamesOf(mid, if s.Let? then [at] else [])
  {
    hide NodePlans, NamedAll, NamesOf, Planned;
    BelowOf(mid, NodePlans(s, depth, at), at, |mid|, depth + 1);
    NamedStable(mid, more, NodePlans(s, depth, at));
    NamesStable(mid, more, if s.Let? then [at] else []);
  }

  lemma WalkScopes(decls: seq<Decl>, was: seq<ScopeCleanup>, a: seq<Plan>, b: seq<Plan>)
    ensures was + NamedAll(decls, a) + NamedAll(decls, b) == was + NamedAll(decls, a + b)
  {
    hide NamedAll;
    NamedJoin(decls, a, b);
  }

  lemma WalkNames(decls: seq<Decl>, names: seq<string>, a: seq<nat>, b: seq<nat>)
    ensures names + NamesOf(decls, a) + NamesOf(decls, b) == names + NamesOf(decls, a + b)
  {
    hide NamesOf;
    NamesJoin(decls, a, b);
  }

  /** One child scope and the others. */
  lemma ChildrenNext(before: seq<Decl>, mid: seq<Decl>, after: seq<Decl>, was: seq<ScopeCleanup>, s: Node, i: nat, depth: nat)
    requires i < ChildCount(s) && mid == before + Seeds(s, i, depth) + Decls(ChildBody(s, i), depth) && after == mid + ChildDecls(s, i + 1, depth)
    ensures after == before + ChildDecls(s, i, depth)
    ensures var at := |before|; var seeds, body := Seeds(s, i, depth), ChildBody(s, i); var start := at + |seeds|;
            was + NamedAll(mid, Inner(body, depth, start) + Finish(depth, Upto(|seeds|, at) + Own(body, depth, start), at, |mid|))
            + NamedAll(after, ChildPlans(s, i + 1, depth, |mid|)) == was + NamedAll(after, ChildPlans(s, i, depth, at))
  {
    hide Decls, Own, Inner, ChildDecls, ChildPlans, NamedAll, Planned, Placed, Finish, Upto, Seeds, ChildBody, ChildCount, BlockShared;
    var at := |before|;
    var seeds, body := Seeds(s, i, depth), ChildBody(s, i);
    var start := at + |seeds|;
    ChildShape(s, i, depth, at);
    PlacedHere(before, seeds + Decls(body, depth));
    assert before + (seeds + Decls(body, depth)) == mid;
    PlacedSplit(mid, at, seeds, Decls(body, depth));
    BlockFacts(mid, body, depth, start);
    SeedDepths(s, i, depth);
    ScopeFacts(mid, seeds, Own(body, depth, start), Inner(body, depth, start), at, start, |mid|, depth);
    var scope := Inner(body, depth, start) + Finish(depth, Upto(|seeds|, at) + Own(body, depth, start), at, |mid|);
    BelowOf(mid, scope, at, |mid|, depth);
    NamedStable(mid, ChildDecls(s, i + 1, depth), scope);
    NamedJoin(after, scope, ChildPlans(s, i + 1, depth, |mid|));
    assert before + (seeds + Decls(body, depth) + ChildDecls(s, i + 1, depth)) == after;
  }

  lemma ReversedNames(decls: seq<Decl>, ids: seq<nat>)
    ensures Reversed(NamesOf(decls, ids)) == NamesOf(decls, Reverse(ids))
  {
    hide Reverse, Reversed;
  }

  /** A scope's plan, by name. */
  lemma FinishNamed(decls: seq<Decl>, depth: nat, own: seq<nat>, lo: nat, hi: nat)
    ensures NamedAll(decls, Finish(depth, own, lo, hi)) == if own == [] then [] else [ScopeCleanup(depth, Reversed(NamesOf(decls, own)))]
    ensures NamesOf(decls, own) == [] <==> own == []
  {
    hide Reverse, Reversed;
    ReversedNames(decls, own);
    assert Named(decls, Plan(depth, Reverse(own), lo, hi)).names == NamesOf(decls, Reverse(own));
  }

  /** Seeds, body and plan of one scope. */
  lemma ScopeNext(before: seq<Decl>, mid: seq<Decl>, after: seq<Decl>, was: seq<ScopeCleanup>, seeds: seq<Decl>, body: seq<Node>, depth: nat)
    requires mid == before + seeds && after == mid + Decls(body, depth)
    ensures var at, start := |before|, |mid|; var own := Own(body, depth, start);
            var names := NamesOf(mid, Upto(|seeds|, at)) + NamesOf(after, own);
            was + NamedAll(after, Inner(body, depth, start)) + (if names == [] then [] else [ScopeCleanup(depth, Reversed(names))])
            == was + NamedAll(after, Inner(body, depth, start) + Finish(depth, Upto(|seeds|, at) + own, at, |after|))
  {
    hide Decls, Own, Inner, NamedAll, NamesOf, Finish, Reversed;
    var at, start := |before|, |mid|;
    var own := Own(body, depth, start);
    var ids := Upto(|seeds|, at) + own;
    NamesStable(mid, Decls(body, depth), Upto(|seeds|, at));
    NamesJoin(after, Upto(|seeds|, at), own);
    FinishNamed(after, depth, ids, at, |after|);
    NamedJoin(after, Inner(body, depth, start), Finish(depth, ids, at, |after|));
  }
}

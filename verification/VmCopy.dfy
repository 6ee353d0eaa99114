/** vm.c: shrinking, and copying a parent's memory into a child. */
module VmCopy {
  import opened PageMem
  import opened PageWalk
  import opened VmSpan
  import opened VmCode

  /** uvmdealloc: the pages between newsz and oldsz are unmapped and freed. */
  method Uvmdealloc(vm: Vm, root: nat, oldsz: nat, newsz: nat) returns (r: nat)
    requires Wf(vm.s) && IsRoot(vm.s, root) && oldsz <= MAX_VPN * PGSIZE
    requires forall w: nat :: RoundUp(newsz) <= w < RoundUp(oldsz) ==> Owned(vm.s, root, w)
    modifies vm
    ensures Wf(vm.s) && IsRoot(vm.s, root)
    ensures r == if newsz < oldsz then newsz else oldsz
    ensures newsz >= oldsz ==> vm.s == old(vm.s)
    ensures newsz < oldsz ==> Unmapped(old(vm.s), vm.s, root, RoundUp(newsz), RoundUp(oldsz), true)
  {
    hide Wf, Lookup, Owned, Unmapped, RoundUp, Leaf, Bottom, IsRoot;
    if newsz >= oldsz {
      return oldsz;
    }
    RoundUpMono(newsz, oldsz);
    RoundUpBound(oldsz);
    if RoundUp(newsz) < RoundUp(oldsz) {
      OwnedLeaves(vm.s, root, RoundUp(newsz), RoundUp(oldsz));
      PageSpan(RoundUp(newsz), 0);
      var panics, _ := vm.Uvmunmap(root, RoundUp(newsz) * PGSIZE, RoundUp(oldsz) - RoundUp(newsz), true);
      assert !panics;
    } else {
      UnmappedNone(vm.s, root, RoundUp(newsz), true);
    }
    r := newsz;
  }

  /** v maps in the child as in the parent, flags and contents alike, to another page. */
  ghost predicate Copied(s0: Mem, s: Mem, parent: nat, child: nat, v: nat) {
    var e0 := Lookup(s0, parent, v);
    Ppn(e0) < |s0.page| && Holds(s, child, v, s0.page[Ppn(e0)], Flags(e0))
  }

  lemma LeafFlags(e: nat)
    requires Leaf(e)
    ensures LeafPerm(Flags(e)) && FlagsOf(Flags(e)) == Flags(e)
  {
    var p, f := e / 1024, e % 1024;
    PteBits(p, f);
  }

  /** The parent's page is untouched so far. */
  lemma ParentPage(s0: Mem, s: Mem, parent: nat, child: nat, v: nat)
    requires Span(s0, s, child, 0, v) && IsRoot(s0, parent) && parent != child && v < VPN_LIMIT && Owned(s0, parent, v)
    ensures var e := Lookup(s0, parent, v);
            && Lookup(s, parent, v) == e && Leaf(e) && Ppn(e) < |s0.page| == |s.page|
            && s.page[Ppn(e)] == s0.page[Ppn(e)] && IsRoot(s, parent) && Bottom(s, parent, v) != 0
  {
    hide Wf, Lookup, Leaf, Ppn, FrameIn;
    OwnedPlace(s0, parent, v);
    assert Wf(s) && Kept(s0, s);
    OwnedKept(s0, s, parent, v);
  }

  lemma CopiedMore(s0: Mem, s: Mem, u: Mem, parent: nat, child: nat, v: nat)
    requires forall w: nat :: w < v ==> Copied(s0, s, parent, child, w)
    requires Copied(s0, u, parent, child, v)
    requires forall w: nat, d: Page, f: nat :: 0 <= w < v && Holds(s, child, w, d, f) ==> Holds(u, child, w, d, f)
    ensures forall w: nat :: w < v + 1 ==> Copied(s0, u, parent, child, w)
  {
    hide Holds, Lookup, Ppn, Flags;
    forall w: nat | w < v + 1 ensures Copied(s0, u, parent, child, w) {
      if w < v {
        assert Copied(s0, s, parent, child, w);
      }
    }
  }

  /** uvmcopy. On success the child has the parent's pages: same flags, same bytes, on pages that
      were free; the parent and all other trees are untouched. On failure every lookup, the
      child's included, is as before; three free pages per page copied rule it out. */
  method Uvmcopy(vm: Vm, parent: nat, child: nat, sz: nat) returns (r: int)
    requires Wf(vm.s) && IsRoot(vm.s, parent) && IsRoot(vm.s, child) && parent != child && sz <= MAX_VPN * PGSIZE
    requires forall v: nat :: v < RoundUp(sz) ==> Owned(vm.s, parent, v)
    requires forall v: nat :: v < RoundUp(sz) ==> Lookup(vm.s, child, v) == 0
    modifies vm
    ensures Wf(vm.s) && (r == 0 || r == -1)
    ensures r == 0 ==> Span(old(vm.s), vm.s, child, 0, RoundUp(sz))
    ensures r == 0 ==> forall v: nat :: v < RoundUp(sz) ==> Copied(old(vm.s), vm.s, parent, child, v)
    ensures r == -1 ==> Kept(old(vm.s), vm.s) && OnlyNodes(old(vm.s), vm.s) && MapsKept(old(vm.s), vm.s)
    ensures r == -1 ==> |old(vm.s).free| < 3 * RoundUp(sz)
  {
    hide Wf, Lookup, Owned, Span, RoundUp, Leaf, Bottom, Copied, Holds, AddedWith, Kept, OnlyNodes, MapsKept, Ppn,
         Flags, LeafPerm, IsRoot, FlagsOf;
    RoundUpBound(sz);
    var v, n := 0, RoundUp(sz);
    ghost var s0 := vm.s;
    SpanNone(vm.s, child, 0);
    while v < n
      invariant 0 <= v <= n && Span(s0, vm.s, child, 0, v)
      invariant forall w: nat :: w < v ==> Copied(s0, vm.s, parent, child, w)
      invariant |s0.free| <= |vm.s.free| + 3 * v
    {
      ghost var s1 := vm.s;
      ParentPage(s0, vm.s, parent, child, v);
      SpanNext(s0, vm.s, child, 0, v);
      var e := FindPte(vm, parent, v);
      LeafFlags(e);
      var ok := vm.AddPage(child, v, vm.s.page[Ppn(e)], Flags(e));
      if !ok {
        SpanFailed(s0, s1, vm.s, child, 0, v);
        vm.Undo(child, 0, v, s0);
        return -1;
      }
      SpanAdded(s0, s1, vm.s, child, 0, v, s1.page[Ppn(e)], Flags(e));
      CopiedOne(s0, vm.s, parent, child, v);
      CopiedMore(s0, s1, vm.s, parent, child, v);
      v := v + 1;
    }
    SpanWf(s0, vm.s, child, 0, v);
    r := 0;
  }

  lemma CopiedOne(s0: Mem, s: Mem, parent: nat, child: nat, v: nat)
    requires var e := Lookup(s0, parent, v); Ppn(e) < |s0.page| && Holds(s, child, v, s0.page[Ppn(e)], Flags(e))
    ensures Copied(s0, s, parent, child, v)
  {
  }

  /** walk(old, i, 0) and the entry there. */
  method FindPte(vm: Vm, root: nat, v: nat) returns (e: nat)
    requires Wf(vm.s) && IsRoot(vm.s, root) && v < MAX_VPN && Bottom(vm.s, root, v) != 0
    modifies vm
    ensures vm.s == old(vm.s) && e == Lookup(vm.s, root, v)
  {
    hide Wf, Lookup, Bottom, IsRoot, Px;
    var t, i, _ := vm.Walk(root, v, false);
    FrameSlotBottom(vm.s, root, v);
    e := vm.s.page[t][i];
  }

  /** After a successful uvmcopy no page of the child is one of the parent's, or was in use at all. */
  lemma CopyDisjoint(s0: Mem, s: Mem, parent: nat, child: nat, n: nat, v: nat, w: nat)
    requires Span(s0, s, child, 0, n) && v < n && w < VPN_LIMIT
    requires IsRoot(s0, parent) && Owned(s0, parent, w) && parent != child
    ensures Lookup(s, parent, w) == Lookup(s0, parent, w)
    ensures Ppn(Lookup(s, child, v)) != Ppn(Lookup(s, parent, w))
  {
    hide Wf, Lookup, Bottom, Px, Ppn, FrameIn;
    assert Fresh(s0, s, child, v);
  }
}

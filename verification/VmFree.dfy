/** vm.c: taking a page-table tree apart. */
module VmFree {
  import opened PageMem
  import opened PageWalk
  import opened VmSpan
  import opened VmCode
  import opened VmCopy

  /** p is table t or a table below it. */
  predicate Under(s: Mem, t: nat, p: nat) {
    IsTable(s, p) && (p == t || Parent(s, p) == t || Parent(s, Parent(s, p)) == t)
  }

  /** The entry of t through which p is reached. */
  function Via(s: Mem, t: nat, p: nat): nat {
    if Parent(s, p) == t then IndexIn(s, p) else IndexIn(s, Parent(s, p))
  }

  /** All leaf mappings under t are gone. */
  ghost predicate NoLeaves(s: Mem, t: nat) {
    forall p: nat, i: nat :: p in s.role && Under(s, t, p) && Level(s.role[p]) == 0 && i < ENTRIES && p < |s.page| ==>
          s.page[p][i] == 0
  }

  /** freewalk of t in state s0 is past the entries below i. */
  ghost predicate Walked(s0: Mem, s: Mem, t: nat, i: nat) {
    && s.lo == s0.lo && |s.page| == |s0.page| && s.dying == s0.dying + {t}
    && (forall p :: p in s.role <==> p in s0.role && !(Under(s0, t, p) && p != t && Via(s0, t, p) < i))
    && (forall p :: p in s.role ==> s.role[p] == s0.role[p])
    && (forall p :: p in s.role && p != t && p < |s.page| ==> s.page[p] == s0.page[p])
    && (t < |s.page| ==> forall k :: i <= k < ENTRIES ==> s.page[t][k] == s0.page[t][k])
  }

  /** Exactly the tables of t's subtree have been freed. */
  ghost predicate Freed(s0: Mem, s: Mem, t: nat) {
    && s.lo == s0.lo && |s.page| == |s0.page| && s.dying == s0.dying
    && (forall p :: p in s.role <==> p in s0.role && !Under(s0, t, p))
    && (forall p :: p in s.role ==> s.role[p] == s0.role[p])
    && (forall p :: p in s.role && p < |s.page| ==> s.page[p] == s0.page[p])
  }

  /** A table that freewalk may take apart. */
  ghost predicate Ripe(s: Mem, t: nat) {
    && t != 0 && Live(s, t) && InRam(s, t) && NoLeaves(s, t)
    && (s.role[t].Node? ==> s.role[t].tab in s.dying)
  }

  lemma WalkedStart(s: Mem, t: nat)
    requires IsTable(s, t)
    ensures Walked(s, Doom(s, t), t, 0)
  {
  }

  lemma BelowLevel(s: Mem, p: nat)
    requires Roles(s) && p in s.role && s.role[p].Node?
    ensures Parent(s, p) in s.role && Level(s.role[Parent(s, p)]) == Level(s.role[p]) + 1
    ensures InRam(s, p) && InRam(s, Parent(s, p)) && IndexIn(s, p) < ENTRIES
    ensures s.page[Parent(s, p)][IndexIn(s, p)] == p * 1024 + PTE_V
    ensures p in s.dying ==> Parent(s, p) in s.dying
  {
    assert RoleOk(s, p);
  }

  /** What is reached through entry i is what is under that entry's table. */
  lemma UnderChild(s0: Mem, s: Mem, t: nat, i: nat, c: nat, p: nat)
    requires Roles(s0) && Roles(s) && Walked(s0, s, t, i) && t != 0 && IsTable(s0, t) && p in s.role
    requires c in s.role && s.role[c].Node? && s.role[c].tab == t && s.role[c].idx == i
    requires c < |s0.page| && t < |s0.page| && i < ENTRIES
    ensures Under(s, c, p) <==> Under(s0, t, p) && p != t && Via(s0, t, p) == i
  {
    BelowLevel(s, c);
    if Under(s, c, p) {
      UnderDown(s0, s, t, i, c, p);
    }
    if Under(s0, t, p) && p != t && Via(s0, t, p) == i {
      UnderUp(s0, s, t, i, c, p);
    }
  }

  lemma UnderDown(s0: Mem, s: Mem, t: nat, i: nat, c: nat, p: nat)
    requires Roles(s0) && Roles(s) && Walked(s0, s, t, i) && t != 0 && IsTable(s0, t) && p in s.role && c != 0
    requires c in s.role && s.role[c].Node? && s.role[c].tab == t && s.role[c].idx == i && Under(s, c, p)
    ensures Under(s0, t, p) && p != t && Via(s0, t, p) == i
  {
    BelowLevel(s, c);
    if p != c {
      BelowLevel(s, p);
      var q := Parent(s, p);
      if q != c {
        BelowLevel(s, q);
      }
    }
  }

  lemma UnderUp(s0: Mem, s: Mem, t: nat, i: nat, c: nat, p: nat)
    requires Roles(s0) && Roles(s) && Walked(s0, s, t, i) && t != 0 && IsTable(s0, t) && p in s.role
    requires c in s.role && s.role[c].Node? && s.role[c].tab == t && s.role[c].idx == i
    requires Under(s0, t, p) && p != t && Via(s0, t, p) == i
    ensures Under(s, c, p)
  {
    BelowLevel(s0, c);
    BelowLevel(s0, p);
    var q := Parent(s0, p);
    if q != t {
      BelowLevel(s0, q);
    }
  }

  /** An empty entry has nothing under it. */
  lemma EmptyEntry(s0: Mem, t: nat, i: nat, p: nat)
    requires Roles(s0) && t != 0 && t < |s0.page| && i < ENTRIES && s0.page[t][i] == 0
    requires p in s0.role && Under(s0, t, p) && p != t
    ensures Via(s0, t, p) != i
  {
    BelowLevel(s0, p);
    var q := Parent(s0, p);
    if q != t {
      BelowLevel(s0, q);
    }
  }

  lemma WalkedSkip(s0: Mem, s: Mem, t: nat, i: nat)
    requires Wf(s0) && Walked(s0, s, t, i) && t != 0 && t < |s0.page| && i < ENTRIES && s0.page[t][i] == 0
    ensures Walked(s0, s, t, i + 1)
  {
    hide Tables, Linked, Partition, Roles, Under, Via;
    forall p | p in s0.role && Under(s0, t, p) && p != t ensures Via(s0, t, p) != i {
      EmptyEntry(s0, t, i, p);
    }
  }

  /** The entry's table: a node, ripe in its turn. */
  lemma ChildRipe(s0: Mem, s: Mem, t: nat, i: nat)
    requires Wf(s0) && Wf(s) && Ripe(s0, t) && Walked(s0, s, t, i) && i < ENTRIES && t < |s.page| && s.page[t][i] != 0
    ensures Level(s0.role[t]) > 0
    ensures var c := Ppn(s.page[t][i]);
            && s.page[t][i] == c * 1024 + PTE_V
            && c in s.role && s.role[c] == Node(t, i, Level(s0.role[t]) - 1) && Ripe(s, c)
  {
    hide Linked, Partition, NoLeaves;
    assert EntryOk(s0, t, i);
    assert Under(s0, t, t);
    NoLeavesAt(s0, t, i);
    var c := Ppn(s0.page[t][i]);
    BelowLevel(s0, c);
    assert c in s.role by {
      assert Parent(s0, c) == t && IndexIn(s0, c) == i;
      assert c != t;
    }
    ChildBare(s0, s, t, i, c);
  }

  lemma NoLeavesAt(s0: Mem, t: nat, i: nat)
    requires NoLeaves(s0, t) && Under(s0, t, t) && t < |s0.page| && i < ENTRIES
    ensures Level(s0.role[t]) == 0 ==> s0.page[t][i] == 0
  {
  }

  lemma ChildBare(s0: Mem, s: Mem, t: nat, i: nat, c: nat)
    requires Roles(s0) && Roles(s) && Walked(s0, s, t, i) && t != 0 && IsTable(s0, t) && NoLeaves(s0, t)
    requires c in s.role && s.role[c].Node? && s.role[c].tab == t && s.role[c].idx == i
    requires c < |s0.page| && t < |s0.page| && i < ENTRIES
    ensures NoLeaves(s, c)
  {
    hide Roles, Under, Via;
    forall p: nat, k: nat | p in s.role && Under(s, c, p) && Level(s.role[p]) == 0 && k < ENTRIES && p < |s.page|
      ensures s.page[p][k] == 0
    {
      UnderChild(s0, s, t, i, c, p);
    }
  }

  /** The child's subtree is freed and the entry cleared. */
  lemma WalkedNext(s0: Mem, s1: Mem, s2: Mem, t: nat, i: nat, c: nat)
    requires i < ENTRIES && t < |s1.page| == |s2.page|
    requires c in s1.role && s1.role[c].Node? && s1.role[c].tab == t && s1.role[c].idx == i
    requires Wf(s0) && Wf(s1) && Wf(s2) && Ripe(s0, t) && Walked(s0, s1, t, i) && Freed(s1, s2, c)
    ensures Wf(Wipe(s2, t, i)) && Walked(s0, Wipe(s2, t, i), t, i + 1)
  {
    hide Roles, Tables, Linked, Partition, Under, Via, NoLeaves, Walked, Freed;
    BelowLevel(s1, c);
    NothingLeft(s0, s1, s2, t, i, c);
    WipeOk(s2, t, i);
    WalkedSize(s0, s1, t, i);
    forall p | p in s1.role ensures Under(s1, c, p) <==> Under(s0, t, p) && p != t && Via(s0, t, p) == i {
      UnderChild(s0, s1, t, i, c, p);
    }
    WalkedWipe(s0, s1, s2, t, i, c);
  }

  lemma WalkedSize(s0: Mem, s: Mem, t: nat, i: nat)
    requires Walked(s0, s, t, i)
    ensures |s.page| == |s0.page|
  {
  }

  lemma WalkedWipe(s0: Mem, s1: Mem, s2: Mem, t: nat, i: nat, c: nat)
    requires Walked(s0, s1, t, i) && i < ENTRIES && t < |s1.page| && Freed(s1, s2, c) && t < |s2.page|
    requires t in s2.role
    requires forall p :: p in s1.role ==> (Under(s1, c, p) <==> Under(s0, t, p) && p != t && Via(s0, t, p) == i)
    ensures Walked(s0, Wipe(s2, t, i), t, i + 1)
  {
    hide Under, Via;
  }

  lemma NothingLeft(s0: Mem, s1: Mem, s2: Mem, t: nat, i: nat, c: nat)
    requires Wf(s1) && Roles(s2) && Walked(s0, s1, t, i) && i < ENTRIES && t != 0 && t in s0.role
    requires c in s1.role && s1.role[c].Node? && s1.role[c].tab == t && s1.role[c].idx == i && Freed(s1, s2, c)
    ensures forall q :: q in s2.role ==> !(s2.role[q].Node? && s2.role[q].tab == t && s2.role[q].idx == i)
    ensures forall q :: q in s2.role ==> s2.role[q] != Frame(t, i)
    ensures t in s2.dying && InRam(s2, t) && t in s2.role
  {
    hide Tables, Linked, Partition, Via;
    BelowLevel(s1, c);
    assert Under(s1, c, c) && !Under(s1, c, t);
    forall q | q in s1.role && s1.role[q].Node? && s1.role[q].tab == t && s1.role[q].idx == i ensures q == c {
      BelowLevel(s1, q);
    }
    forall q | q in s2.role ensures s2.role[q] != Frame(t, i) {
      assert RoleOk(s1, q);
    }
  }

  /** With all entries behind, the table itself can go. */
  lemma WalkedEnd(s0: Mem, s: Mem, t: nat)
    requires Wf(s0) && Wf(s) && Ripe(s0, t) && Walked(s0, s, t, ENTRIES)
    ensures Loose(s, t) && t < |s.page| && Freed(s0, Release(s, t), t)
  {
    hide Tables, Linked, Partition, NoLeaves;
    assert t in s.role;
    ViaBound(s0, t);
    forall q | q in s.role
      ensures !(s.role[q].Node? && s.role[q].tab == t) && !(s.role[q].Frame? && s.role[q].tab == t)
    {
      NoneHangs(s0, s, t, q);
    }
    assert s.dying - {t} == s0.dying;
  }

  lemma ViaBound(s0: Mem, t: nat)
    requires Roles(s0) && t != 0
    ensures forall p :: Under(s0, t, p) && p != t ==> Via(s0, t, p) < ENTRIES
  {
    forall p | Under(s0, t, p) && p != t ensures Via(s0, t, p) < ENTRIES {
      BelowLevel(s0, p);
      var q := Parent(s0, p);
      if q != t {
        BelowLevel(s0, q);
      }
    }
  }

  lemma NoneHangs(s0: Mem, s: Mem, t: nat, q: nat)
    requires Wf(s0) && Wf(s) && Ripe(s0, t) && Walked(s0, s, t, ENTRIES) && q in s.role
    ensures !(s.role[q].Node? && s.role[q].tab == t) && !(s.role[q].Frame? && s.role[q].tab == t)
  {
    hide Tables, Linked, Partition, NoLeaves;
    assert Under(s0, t, t);
    HangsUnder(s0, t, q);
    if s0.role[q].Frame? && s0.role[q].tab == t {
      NoLeavesAt(s0, t, s0.role[q].idx);
    }
  }

  lemma HangsUnder(s0: Mem, t: nat, q: nat)
    requires Roles(s0) && q in s0.role
    ensures s0.role[q].Node? && s0.role[q].tab == t ==> Under(s0, t, q) && Via(s0, t, q) < ENTRIES && q != t
    ensures s0.role[q].Frame? && s0.role[q].tab == t ==>
              && t in s0.role && InRam(s0, t) && Level(s0.role[t]) == 0
              && s0.role[q].idx < ENTRIES && s0.page[t][s0.role[q].idx] != 0
  {
    assert RoleOk(s0, q);
  }

  /** freewalk: frees the tables of t's subtree, those and no others. Neither of its panics can
      happen, and it goes no deeper than the tree. */
  method Freewalk(vm: Vm, t: nat)
    requires Wf(vm.s) && Ripe(vm.s, t)
    modifies vm
    ensures Wf(vm.s) && Freed(old(vm.s), vm.s, t)
    decreases if t in vm.s.role then Level(vm.s.role[t]) + 1 else 0
  {
    hide Wf, Under, Via, NoLeaves, Walked, Freed, Linked, Partition, Roles, Tables;
    ghost var s0 := vm.s;
    DoomOk(vm.s, t);
    vm.s := Doom(vm.s, t);
    WalkedStart(s0, t);
    var i := 0;
    while i < ENTRIES
      invariant 0 <= i <= ENTRIES && Wf(vm.s) && Walked(s0, vm.s, t, i) && t < |vm.s.page|
    {
      var pte := vm.s.page[t][i];
      if pte != 0 {
        ChildRipe(s0, vm.s, t, i);
        NodePte(Ppn(pte));
      } else {
        WalkedSame(s0, vm.s, t, i);
        WalkedSkip(s0, vm.s, t, i);
      }
      if Valid(pte) && !Leaf(pte) {
        ghost var s1 := vm.s;
        Freewalk(vm, Ppn(pte));
        FreedSize(s1, vm.s, Ppn(pte));
        WalkedNext(s0, s1, vm.s, t, i, Ppn(pte));
        vm.s := Wipe(vm.s, t, i);
      } else if Valid(pte) {
        assert false;
      }
      i := i + 1;
    }
    WalkedEnd(s0, vm.s, t);
    vm.Kfree(t);
  }

  lemma NodePte(c: nat)
    ensures Valid(c * 1024 + PTE_V) && !Leaf(c * 1024 + PTE_V)
  {
    PteBits(c, 1);
  }

  lemma WalkedSame(s0: Mem, s: Mem, t: nat, i: nat)
    requires Walked(s0, s, t, i) && t < |s.page| && i < ENTRIES
    ensures s.page[t][i] == s0.page[t][i] && |s.page| == |s0.page|
  {
  }

  lemma FreedSize(s0: Mem, s: Mem, t: nat)
    requires Freed(s0, s, t)
    ensures |s.page| == |s0.page|
  {
  }

  // ---- a whole address space ----

  /** A page of root's tree: one of its tables, or a frame one of its leaves owns. */
  ghost predicate TreePage(s: Mem, root: nat, p: nat) {
    Under(s, root, p) || FrameIn(s, p, root, 0, VPN_LIMIT)
  }

  /** root's tree is gone: exactly its pages are on the free list besides what was there, no other
      page in use has changed role or contents, and all other trees map as before. */
  ghost predicate Destroyed(s0: Mem, s: Mem, root: nat) {
    && |s.page| == |s0.page| && s.lo == s0.lo && s.dying == s0.dying
    && (forall p :: p in s.role <==> p in s0.role && !TreePage(s0, root, p))
    && (forall p :: p in s.role ==>
          s.role[p] == s0.role[p] && (!IsTable(s, p) && p < |s.page| ==> s.page[p] == s0.page[p]))
    && (forall q: nat :: IsRoot(s0, q) && q != root ==> IsRoot(s, q))
    && (forall q: nat, w: nat :: IsRoot(s0, q) && q != root && w < VPN_LIMIT ==> Lookup(s, q, w) == Lookup(s0, q, w))
  }

  /** Freeing a tree leaves the others alone. */
  lemma FreedMaps(s: Mem, u: Mem, root: nat, q: nat, w: nat)
    requires Wf(s) && IsRoot(s, root) && IsRoot(s, q) && q != root && Freed(s, u, root)
    ensures IsRoot(u, q) && Lookup(u, q, w) == Lookup(s, q, w)
  {
    hide Wf, Px;
    RootNotZero(s, root);
    PathOk(s, q, w);
    var a, t := Middle(s, q, w), Bottom(s, q, w);
    assert !Under(s, root, q);
    if a != 0 {
      assert Parent(s, a) == q && !Under(s, root, a);
    }
    if t != 0 {
      assert Parent(s, t) == a && !Under(s, root, t);
    }
  }

  lemma RootNotZero(s: Mem, root: nat)
    requires Wf(s) && IsRoot(s, root)
    ensures root != 0 && 0 !in s.role
  {
    forall p | p in s.role ensures p > 0 {
      assert RoleOk(s, p);
    }
  }

  /** With no page number mapped, no bottom table has an entry. */
  lemma BareTree(s: Mem, root: nat)
    requires Wf(s) && IsRoot(s, root) && forall w: nat :: w < VPN_LIMIT ==> Lookup(s, root, w) == 0
    ensures Ripe(s, root)
  {
    hide Tables, Linked, Partition, Lookup, SlotVpn, RoleOk;
    RootNotZero(s, root);
    forall p: nat, i: nat | p in s.role && Under(s, root, p) && Level(s.role[p]) == 0 && i < ENTRIES && p < |s.page|
      ensures s.page[p][i] == 0
    {
      BelowLevel(s, p);
      if Parent(s, p) != root {
        SlotPath(s, root, p, i);
      }
    }
  }

  /** uvmfree after uvmunmap: together they destroy the tree. */
  lemma FreedAll(s0: Mem, s: Mem, u: Mem, root: nat, n: nat)
    requires Wf(s0) && Wf(s) && Wf(u) && IsRoot(s0, root) && IsRoot(s, root) && n <= VPN_LIMIT
    requires Unmapped(s0, s, root, 0, n, true) && Freed(s, u, root)
    requires forall w: nat :: n <= w < VPN_LIMIT ==> Lookup(s0, root, w) == 0
    ensures Destroyed(s0, u, root)
  {
    hide Wf, Lookup, Under, FrameIn, Freed;
    FramesBelow(s0, root, n);
    forall p | p in s.role ensures Under(s, root, p) == Under(s0, root, p) && IsTable(s, p) == IsTable(s0, p) {
      UnderKept(s0, s, root, n, p);
    }
    forall q: nat, w: nat | IsRoot(s0, q) && q != root && w < VPN_LIMIT ensures Lookup(u, q, w) == Lookup(s0, q, w) {
      FreedMaps(s, u, root, q, w);
    }
    forall q: nat | IsRoot(s0, q) && q != root ensures IsRoot(u, q) {
      FreedMaps(s, u, root, q, 0);
    }
    FreedAllRoles(s0, s, u, root, n);
  }

  lemma FramesBelow(s: Mem, root: nat, n: nat)
    requires Wf(s) && IsRoot(s, root) && forall w: nat :: n <= w < VPN_LIMIT ==> Lookup(s, root, w) == 0
    ensures forall p: nat :: FrameIn(s, p, root, 0, VPN_LIMIT) ==> FrameIn(s, p, root, 0, n)
  {
    hide Wf, Lookup, SlotVpn, Owned;
    forall p: nat | FrameIn(s, p, root, 0, VPN_LIMIT) ensures FrameIn(s, p, root, 0, n) {
      FrameInOwned(s, p, root, 0, VPN_LIMIT);
      OwnedLeaf(s, root, SlotVpn(s, s.role[p].tab, s.role[p].idx));
    }
  }

  lemma OwnedLeaf(s: Mem, root: nat, v: nat)
    requires Owned(s, root, v)
    ensures Lookup(s, root, v) != 0
  {
    hide Lookup;
  }

  lemma UnderKept(s0: Mem, s: Mem, root: nat, n: nat, p: nat)
    requires Wf(s0) && Unmapped(s0, s, root, 0, n, true) && p in s.role
    ensures Under(s, root, p) == Under(s0, root, p) && IsTable(s, p) == IsTable(s0, p) && p in s0.role
    ensures s.role[p] == s0.role[p]
  {
    hide Tables, Linked, Partition, Lookup, RoleOk, SlotVpn;
    TablesStay(s0, s, root, 0, n, true);
    assert !FrameIn(s0, p, root, 0, n);
    if s0.role[p].Node? {
      BelowLevel(s0, p);
      assert IsTable(s0, Parent(s0, p));
    }
  }

  lemma FreedAllRoles(s0: Mem, s: Mem, u: Mem, root: nat, n: nat)
    requires Unmapped(s0, s, root, 0, n, true) && Freed(s, u, root) && n <= VPN_LIMIT
    requires forall p: nat :: FrameIn(s0, p, root, 0, VPN_LIMIT) ==> FrameIn(s0, p, root, 0, n)
    requires forall p :: p in s.role ==> Under(s, root, p) == Under(s0, root, p) && IsTable(s, p) == IsTable(s0, p)
    ensures forall p :: p in u.role <==> p in s0.role && !TreePage(s0, root, p)
    ensures forall p :: p in u.role ==>
              u.role[p] == s0.role[p] && (!IsTable(u, p) && p < |u.page| ==> u.page[p] == s0.page[p])
    ensures |u.page| == |s0.page| && u.lo == s0.lo && u.dying == s0.dying
  {
    hide Lookup, Under, IsRoot;
    assert forall p: nat :: FrameIn(s0, p, root, 0, n) ==> FrameIn(s0, p, root, 0, VPN_LIMIT);
    forall p | p in s0.role && p !in s.role ensures TreePage(s0, root, p) {
      assert FrameIn(s0, p, root, 0, n);
    }
  }

  /** uvmfree. */
  method Uvmfree(vm: Vm, root: nat, sz: nat)
    requires Wf(vm.s) && IsRoot(vm.s, root) && sz <= MAX_VPN * PGSIZE
    requires forall w: nat :: w < RoundUp(sz) ==> Owned(vm.s, root, w)
    requires forall w: nat :: RoundUp(sz) <= w < VPN_LIMIT ==> Lookup(vm.s, root, w) == 0
    modifies vm
    ensures Wf(vm.s) && Destroyed(old(vm.s), vm.s, root)
  {
    hide Wf, Lookup, Owned, Under, Freed, Destroyed, Leaf, RoundUp, IsRoot, Ripe, Unmapped;
    RoundUpBound(sz);
    RoundUpZero();
    ghost var s0 := vm.s;
    if sz > 0 {
      OwnedLeaves(vm.s, root, 0, RoundUp(sz));
      var panics, _ := vm.Uvmunmap(root, 0, RoundUp(sz), true);
      assert !panics;
    } else {
      UnmappedNone(vm.s, root, 0, true);
    }
    ghost var s1 := vm.s;
    UnmappedBare(s0, s1, root, RoundUp(sz));
    BareTree(s1, root);
    Freewalk(vm, root);
    FreedAll(s0, s1, vm.s, root, RoundUp(sz));
  }

  lemma UnmappedBare(s0: Mem, s: Mem, root: nat, n: nat)
    requires IsRoot(s0, root) && Unmapped(s0, s, root, 0, n, true)
    requires forall w: nat :: n <= w < VPN_LIMIT ==> Lookup(s0, root, w) == 0
    ensures forall w: nat :: w < VPN_LIMIT ==> Lookup(s, root, w) == 0
  {
    hide Lookup, IsRoot, FrameIn;
  }

  const TRAMPOLINE: nat := 0x3ff_ffff    // (MAXVA - PGSIZE) / PGSIZE
  const TRAPFRAME: nat := 0x3ff_fffe

  /** Not a page of any tree: kernel text, or held elsewhere in the kernel. */
  predicate KernelPage(s: Mem, p: nat) { p !in s.role || s.role[p] == Held }

  /** A user address space of sz bytes: its pages below sz owned, the trampoline and the trapframe
      mapped to kernel pages, nothing else mapped. */
  ghost predicate UserSpace(s: Mem, root: nat, sz: nat) {
    && IsRoot(s, root) && RoundUp(sz) <= TRAPFRAME
    && (forall w: nat :: w < RoundUp(sz) ==> Owned(s, root, w))
    && KernelLeaf(s, root, TRAPFRAME) && KernelLeaf(s, root, TRAMPOLINE)
    && (forall w: nat :: RoundUp(sz) <= w < VPN_LIMIT && w != TRAPFRAME && w != TRAMPOLINE ==> Lookup(s, root, w) == 0)
  }

  ghost predicate KernelLeaf(s: Mem, root: nat, v: nat) {
    Leaf(Lookup(s, root, v)) && KernelPage(s, Ppn(Lookup(s, root, v)))
  }

  /** Unmapping a kernel page without freeing it changes no role. */
  ghost predicate SameRoles(s: Mem, u: Mem) {
    && u.lo == s.lo && |u.page| == |s.page| && u.dying == s.dying && u.role == s.role
    && (forall p :: p in s.role && !IsTable(s, p) && p < |s.page| ==> u.page[p] == s.page[p])
  }

  lemma KernelUnmapped(s: Mem, u: Mem, root: nat, v: nat)
    requires Wf(s) && IsRoot(s, root) && KernelLeaf(s, root, v) && Unmapped(s, u, root, v, v + 1, false)
    ensures SameRoles(s, u)
  {
    hide Wf, Lookup, FrameIn, Bottom, Ppn, Leaf;
    forall p: nat | p in s.role ensures !FrameIn(s, p, root, v, v + 1) {
      if FrameIn(s, p, root, v, v + 1) {
        FrameInAt(s, p, root, v);
      }
    }
    assert u.role == s.role;
  }

  lemma OwnedSame(s: Mem, u: Mem, root: nat, w: nat)
    requires Wf(s) && Wf(u) && IsRoot(s, root) && SameRoles(s, u) && Owned(s, root, w)
    requires Lookup(u, root, w) == Lookup(s, root, w)
    ensures Owned(u, root, w)
  {
    hide Wf, Lookup, Ppn, Leaf, Bottom;
    BottomKept(s, u, root, w);
  }

  /** One of proc_freepagetable's two calls of uvmunmap. */
  method UnmapKernel(vm: Vm, root: nat, v: nat)
    requires Wf(vm.s) && IsRoot(vm.s, root) && v < MAX_VPN && KernelLeaf(vm.s, root, v)
    modifies vm
    ensures Wf(vm.s) && IsRoot(vm.s, root) && SameRoles(old(vm.s), vm.s)
    ensures Unmapped(old(vm.s), vm.s, root, v, v + 1, false)
    ensures forall w: nat :: w < VPN_LIMIT && Owned(old(vm.s), root, w) && w != v ==> Owned(vm.s, root, w)
  {
    hide Wf, Lookup, Owned, IsRoot, SameRoles, Unmapped, Leaf, Ppn, KernelPage;
    ghost var s0 := vm.s;
    PageSpan(v, 0);
    LeafBits(Lookup(vm.s, root, v));
    var panics, _ := vm.Uvmunmap(root, v * PGSIZE, 1, false);
    assert !panics;
    KernelUnmapped(s0, vm.s, root, v);
    forall w: nat | w < VPN_LIMIT && Owned(s0, root, w) && w != v ensures Owned(vm.s, root, w) {
      UnmappedAt(s0, vm.s, root, v, w);
      OwnedSame(s0, vm.s, root, w);
    }
  }

  lemma UnmappedAt(s: Mem, u: Mem, root: nat, v: nat, w: nat)
    requires Unmapped(s, u, root, v, v + 1, false) && IsRoot(s, root) && w < VPN_LIMIT
    ensures Lookup(u, root, w) == if w == v then 0 else Lookup(s, root, w)
  {
    hide Lookup, IsRoot, FrameIn;
  }

  lemma SameTree(s: Mem, u: Mem, root: nat, p: nat)
    requires u.role == s.role
    ensures TreePage(u, root, p) == TreePage(s, root, p)
  {
  }

  lemma DestroyedFrom(s: Mem, t: Mem, u: Mem, root: nat, v: nat)
    requires SameRoles(s, t) && Unmapped(s, t, root, v, v + 1, false) && Destroyed(t, u, root)
    ensures Destroyed(s, u, root)
  {
    hide Lookup, FrameIn, TreePage, IsRoot;
    forall p | p in s.role ensures TreePage(t, root, p) == TreePage(s, root, p) {
      SameTree(s, t, root, p);
    }
  }

  lemma KernelNotTree(s: Mem, root: nat, p: nat)
    requires KernelPage(s, p)
    ensures !TreePage(s, root, p)
  {
  }

  /** proc_freepagetable (proc.c): exactly the tree's tables and user frames are returned. The
      trampoline's and the trapframe's pages are not among them. */
  method ProcFreePagetable(vm: Vm, root: nat, sz: nat)
    requires Wf(vm.s) && UserSpace(vm.s, root, sz)
    modifies vm
    ensures Wf(vm.s) && Destroyed(old(vm.s), vm.s, root)
    ensures !TreePage(old(vm.s), root, Ppn(Lookup(old(vm.s), root, TRAMPOLINE)))
    ensures !TreePage(old(vm.s), root, Ppn(Lookup(old(vm.s), root, TRAPFRAME)))
  {
    hide Wf, Lookup, Owned, IsRoot, SameRoles, Unmapped, Leaf, Ppn, KernelPage, Destroyed, TreePage, RoundUp;
    ghost var s0 := vm.s;
    KernelNotTree(s0, root, Ppn(Lookup(s0, root, TRAMPOLINE)));
    KernelNotTree(s0, root, Ppn(Lookup(s0, root, TRAPFRAME)));
    UnmapKernel(vm, root, TRAMPOLINE);
    ghost var s1 := vm.s;
    UnmappedAt(s0, s1, root, TRAMPOLINE, TRAPFRAME);
    SamePage(s0, s1, Ppn(Lookup(s0, root, TRAPFRAME)));
    UnmapKernel(vm, root, TRAPFRAME);
    ghost var s2 := vm.s;
    forall w: nat | RoundUp(sz) <= w < VPN_LIMIT ensures Lookup(s2, root, w) == 0 {
      UnmappedAt(s0, s1, root, TRAMPOLINE, w);
      UnmappedAt(s1, s2, root, TRAPFRAME, w);
    }
    SizeBound(sz);
    Uvmfree(vm, root, sz);
    DestroyedFrom(s1, s2, vm.s, root, TRAPFRAME);
    DestroyedFrom(s0, s1, vm.s, root, TRAMPOLINE);
  }

  lemma SamePage(s: Mem, u: Mem, p: nat)
    requires SameRoles(s, u) && KernelPage(s, p)
    ensures KernelPage(u, p)
  {
  }

  lemma SizeBound(sz: nat)
    requires RoundUp(sz) <= TRAPFRAME
    ensures sz <= MAX_VPN * PGSIZE
  {
  }

  /** The pages of a destroyed tree are on the free list. */
  lemma DestroyedFree(s0: Mem, s: Mem, root: nat, p: nat)
    requires Wf(s0) && Wf(s) && Destroyed(s0, s, root) && p in s0.role
    ensures TreePage(s0, root, p) <==> p in s.free
  {
    hide Linked, Tables, Lookup, Under, FrameIn;
    assert RoleOk(s0, p);
    assert InRam(s, p);
  }
}

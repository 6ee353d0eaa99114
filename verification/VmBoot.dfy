/** Where page tables start from: kinit's free list and an empty user page table. */
module VmBoot {
  import opened PageMem
  import opened PageWalk
  import opened VmCode

  /** Before freerange every page from lo on is the kernel's. */
  ghost predicate Unlisted(s: Mem) {
    && 0 < s.lo && s.freelist == 0 && s.free == [] && s.dying == {}
    && (forall p :: p in s.role <==> InRam(s, p)) && (forall p :: p in s.role ==> s.role[p] == Held)
  }

  lemma UnlistedWf(s: Mem)
    requires Unlisted(s)
    ensures Wf(s) && Listing(s, s.lo)
  {
    forall p | p in s.role ensures RoleOk(s, p) {
    }
    assert forall t: nat :: !Live(s, t);
  }

  /** freerange has freed the pages below p. */
  ghost predicate Listing(s: Mem, p: nat) {
    && s.lo <= p && s.dying == {} && (forall q :: q in s.role <==> InRam(s, q) && p <= q)
    && (forall q :: q in s.role ==> s.role[q] == Held)
  }

  /** freerange: afterwards the free list holds exactly the pages that lie wholly between the two
      addresses. */
  method Freerange(vm: Vm, start: nat, end: nat)
    requires Unlisted(vm.s) && vm.s.lo == RoundUp(start) && |vm.s.page| == end / PGSIZE
    modifies vm
    ensures Wf(vm.s) && vm.s.role == map[]
    ensures forall p: nat :: p in vm.s.free <==> start <= p * PGSIZE && (p + 1) * PGSIZE <= end
  {
    hide Wf, Listing, Unlisted, Loose, Release, InRam, RoundUp, TablesKept;
    UnlistedWf(vm.s);
    var a: nat := RoundUp(start) * PGSIZE;
    ghost var p: nat := RoundUp(start);
    while a + PGSIZE <= end
      invariant Wf(vm.s) && Listing(vm.s, p) && a == p * PGSIZE && vm.s.lo == RoundUp(start)
      invariant |vm.s.page| == end / PGSIZE
    {
      AllHeld(vm.s, p);
      vm.Kfree(a / PGSIZE);
      a, p := a + PGSIZE, p + 1;
    }
    AllListed(vm.s, p);
    forall p: nat ensures p in vm.s.free <==> start <= p * PGSIZE && (p + 1) * PGSIZE <= end {
      WholePage(start, end, p);
    }
  }

  lemma AllHeld(s: Mem, p: nat)
    requires Listing(s, p) && p < |s.page|
    ensures Loose(s, p) && Listing(Release(s, p), p + 1)
    ensures Release(s, p).lo == s.lo && |Release(s, p).page| == |s.page|
  {
  }

  /** Pages without a role are free. */
  lemma AllListed(s: Mem, p: nat)
    requires Wf(s) && Listing(s, p) && |s.page| <= p
    ensures s.role == map[] && forall q: nat :: q in s.free <==> s.lo <= q < |s.page|
  {
    hide Roles, Tables;
    assert s.role.Keys == {};
  }

  lemma WholePage(start: nat, end: nat, p: nat)
    ensures RoundUp(start) <= p < end / PGSIZE <==> start <= p * PGSIZE && (p + 1) * PGSIZE <= end
  {
  }

  /** A fresh page becomes the root of a tree. */
  function Plant(s: Mem, p: nat): Mem { s.(role := s.role[p := Root]) }

  lemma PlantOk(s: Mem, p: nat)
    requires Wf(s) && p in s.role && s.role[p] == Held && InRam(s, p) && s.page[p] == Fill(0)
    ensures Wf(Plant(s, p)) && IsRoot(Plant(s, p), p) && TablesKept(s, Plant(s, p))
    ensures forall v: nat :: Lookup(Plant(s, p), p, v) == 0
  {
    hide Px, Roles, Tables;
    var u := Plant(s, p);
    PlantRoles(s, p);
    PlantTables(s, p);
    assert u.role.Keys == s.role.Keys;
    PutFree(s, p, s.page[p], u.role);
    assert u == s.(page := s.page[p := s.page[p]], role := u.role);
  }

  lemma PlantKept(s: Mem, t: Mem, p: nat)
    requires Kept(s, t) && t.role == s.role[p := Held] && p !in s.role
    ensures Kept(s, Plant(t, p)) && Plant(t, p).role == s.role[p := Root]
  {
  }

  lemma PlantRoles(s: Mem, p: nat)
    requires Wf(s) && p in s.role && s.role[p] == Held && InRam(s, p)
    ensures Roles(Plant(s, p)) && p !in s.dying
  {
    hide Tables, Linked, Partition;
    var u := Plant(s, p);
    forall q | q in u.role ensures RoleOk(u, q) {
      assert RoleOk(s, q);
    }
  }

  lemma PlantTables(s: Mem, p: nat)
    requires Wf(s) && p in s.role && s.role[p] == Held && InRam(s, p) && s.page[p] == Fill(0)
    ensures Tables(Plant(s, p))
  {
    hide Roles, Linked, Partition;
    var u := Plant(s, p);
    forall t: nat, i | Live(u, t) && InRam(u, t) && 0 <= i < ENTRIES ensures EntryOk(u, t, i) {
      if t != p {
        assert Live(s, t) && EntryOk(s, t, i);
      }
    }
  }

  /** uvmcreate: an empty user page table on a page from the free list, or 0. */
  method Uvmcreate(vm: Vm) returns (root: nat)
    requires Wf(vm.s)
    modifies vm
    ensures Wf(vm.s) && MapsKept(old(vm.s), vm.s)
    ensures root == 0 ==> vm.s == old(vm.s) && vm.s.free == []
    ensures root != 0 ==> root !in old(vm.s).role && IsRoot(vm.s, root) && forall v: nat :: Lookup(vm.s, root, v) == 0
    ensures root != 0 ==> Kept(old(vm.s), vm.s) && vm.s.role == old(vm.s).role[root := Root]
    ensures root != 0 ==> |old(vm.s).free| == |vm.s.free| + 1
  {
    hide Wf, Lookup, Kept, MapsKept, TablesKept;
    root := vm.Kalloc();
    TablesKeepMaps(old(vm.s), vm.s);
    if root != 0 {
      ghost var s1 := vm.s;
      FreshPage(old(vm.s), root);
      StoreOk(vm.s, root, Fill(0));
      vm.s := Store(vm.s, root, Fill(0));
      ghost var s2 := vm.s;
      StoredFresh(old(vm.s), s2, root, Fill(0));
      PlantKept(old(vm.s), s2, root);
      TablesKeepMaps(s1, s2);
      PlantOk(vm.s, root);
      vm.s := Plant(vm.s, root);
      TablesKeepMaps(s2, vm.s);
      MapsChain(old(vm.s), s1, s2);
      MapsChain(old(vm.s), s2, vm.s);
    }
  }
}

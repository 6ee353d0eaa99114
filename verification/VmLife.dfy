/** proc.c: the pages of all processes over their lives, from allocproc to freeproc. */
module VmLife {
  import opened PageMem
  import opened PageWalk
  import opened VmSpan
  import opened VmCode
  import opened VmCopy
  import opened VmFree
  import opened VmBoot

  const PHYS_PAGES: nat := 0x8_8000       // PHYSTOP / PGSIZE

  /** p->trapframe, as a page number, and p->sz. */
  datatype Proc = Proc(trap: nat, sz: nat)

  /** Exactly the pages in `held` belong to the kernel itself, and exactly those in `roots` are roots. */
  ghost predicate HeldIs(s: Mem, held: set<nat>) {
    forall p :: (p in s.role && s.role[p] == Held) <==> p in held
  }

  ghost predicate RootsAre(s: Mem, roots: set<nat>) {
    forall p :: (p in s.role && s.role[p] == Root) <==> p in roots
  }

  /** The address space at root: x.sz bytes of memory of its own, trampoline and trapframe, which user code
      may not touch, nothing else. */
  ghost predicate Space(s: Mem, tramp: nat, root: nat, x: Proc) {
    && IsRoot(s, root) && RoundUp(x.sz) <= TRAPFRAME
    && (forall w: nat :: w < RoundUp(x.sz) ==> Owned(s, root, w))
    && Leaf(Lookup(s, root, TRAPFRAME)) && Ppn(Lookup(s, root, TRAPFRAME)) == x.trap
    && Leaf(Lookup(s, root, TRAMPOLINE)) && Ppn(Lookup(s, root, TRAMPOLINE)) == tramp
    && Flags(Lookup(s, root, TRAPFRAME)) == PTE_V + PTE_R + PTE_W
    && Flags(Lookup(s, root, TRAMPOLINE)) == PTE_V + PTE_R + PTE_X
    && (forall w: nat :: RoundUp(x.sz) <= w < VPN_LIMIT && w != TRAPFRAME && w != TRAMPOLINE ==>
          Lookup(s, root, w) == 0)
  }

  ghost predicate Spaces(s: Mem, tramp: nat, procs: map<nat, Proc>) {
    forall r :: r in procs ==> Space(s, tramp, r, procs[r])
  }

  /** The first n pages of a process read as before. */
  ghost predicate SameBytes(s: Mem, u: Mem, root: nat, n: nat) {
    forall w: nat :: w < n ==> BytesKept(s, u, root, w)
  }

  ghost predicate BytesKept(s: Mem, u: Mem, root: nat, w: nat) {
    var p := Ppn(Lookup(s, root, w));
    Lookup(u, root, w) == Lookup(s, root, w) && p < |s.page| && p < |u.page| && u.page[p] == s.page[p]
  }

  /** So do all pages of all these processes. */
  ghost predicate AllSame(s: Mem, u: Mem, procs: map<nat, Proc>) {
    forall r :: r in procs ==> SameBytes(s, u, r, RoundUp(procs[r].sz))
  }

  lemma SameBytesTrans(s: Mem, t: Mem, u: Mem, root: nat, n: nat)
    requires SameBytes(s, t, root, n) && SameBytes(t, u, root, n)
    ensures SameBytes(s, u, root, n)
  {
    hide Lookup, Ppn;
    forall w: nat | w < n ensures BytesKept(s, u, root, w) {
      assert BytesKept(s, t, root, w) && BytesKept(t, u, root, w);
    }
  }

  lemma AllSameTrans(s: Mem, t: Mem, u: Mem, procs: map<nat, Proc>)
    requires AllSame(s, t, procs) && AllSame(t, u, procs)
    ensures AllSame(s, u, procs)
  {
    hide SameBytes, RoundUp;
    forall r | r in procs ensures SameBytes(s, u, r, RoundUp(procs[r].sz)) {
      SameBytesTrans(s, t, u, r, RoundUp(procs[r].sz));
    }
  }

  /** Memory with these pages held, these roots, and these finished address spaces; the trampoline is
      in the kernel's text. */
  ghost predicate Parts(s: Mem, tramp: nat, held: set<nat>, roots: set<nat>, procs: map<nat, Proc>) {
    && Wf(s) && s.dying == {} && tramp < s.lo && |s.page| <= PHYS_PAGES
    && HeldIs(s, held) && RootsAre(s, roots) && Spaces(s, tramp, procs)
  }

  // ---- what happens to the others while one tree changes ----

  /** Only root's tree has changed: its frames may have gone, and nodes and frames may be new. */
  ghost predicate Elsewhere(s: Mem, u: Mem, root: nat) {
    && u.lo == s.lo && |u.page| == |s.page| && u.dying == s.dying
    && (forall p :: p in s.role && !FrameIn(s, p, root, 0, VPN_LIMIT) ==> p in u.role && u.role[p] == s.role[p])
    && (forall p :: p in s.role && !FrameIn(s, p, root, 0, VPN_LIMIT) && !IsTable(s, p) && p < |s.page| ==>
          u.page[p] == s.page[p])
    && (forall p :: p in u.role && (p !in s.role || FrameIn(s, p, root, 0, VPN_LIMIT)) ==>
          u.role[p].Node? || u.role[p].Frame?)
    && (forall q: nat :: IsRoot(s, q) ==> IsRoot(u, q))
    && (forall q: nat, w: nat :: IsRoot(s, q) && q != root && w < VPN_LIMIT ==> Lookup(u, q, w) == Lookup(s, q, w))
  }

  lemma SpareElsewhere(s: Mem, u: Mem, root: nat)
    requires Kept(s, u) && OnlyNodes(s, u) && MapsKept(s, u)
    ensures Elsewhere(s, u, root)
  {
    hide Lookup, IsRoot, SlotVpn, SlotRoot;
    forall p | p in u.role && (p !in s.role || FrameIn(s, p, root, 0, VPN_LIMIT))
      ensures u.role[p].Node? || u.role[p].Frame?
    {
      assert p !in s.role ==> New(s, u, p);
    }
  }

  lemma RangeElsewhere(s: Mem, u: Mem, root: nat, first: nat, n: nat, p: nat, perm: nat)
    requires Kept(s, u) && OnlyNodes(s, u) && perm < 1024 && MapsRange(s, u, root, first, n, p, perm)
    ensures Elsewhere(s, u, root)
  {
    hide Lookup, IsRoot, SlotVpn, SlotRoot, Pte;
    forall p | p in u.role && (p !in s.role || FrameIn(s, p, root, 0, VPN_LIMIT))
      ensures u.role[p].Node? || u.role[p].Frame?
    {
      assert p !in s.role ==> New(s, u, p);
    }
  }

  lemma SpanElsewhere(s: Mem, u: Mem, root: nat, lo: nat, hi: nat)
    requires Span(s, u, root, lo, hi)
    ensures Elsewhere(s, u, root)
  {
    hide Lookup, IsRoot, SlotVpn, SlotRoot, Wf, Fresh;
    forall p | p in u.role && (p !in s.role || FrameIn(s, p, root, 0, VPN_LIMIT))
      ensures u.role[p].Node? || u.role[p].Frame?
    {
      assert p !in s.role ==> New(s, u, p);
    }
  }

  lemma UnmappedElsewhere(s: Mem, u: Mem, root: nat, lo: nat, hi: nat)
    requires Unmapped(s, u, root, lo, hi, true) && hi <= VPN_LIMIT
    ensures Elsewhere(s, u, root)
  {
    hide Lookup, IsRoot, SlotVpn, SlotRoot;
    forall p: nat | FrameIn(s, p, root, lo, hi) ensures FrameIn(s, p, root, 0, VPN_LIMIT) {
    }
  }

  lemma SameElsewhere(s: Mem, u: Mem, root: nat, v: nat)
    requires SameRoles(s, u) && Unmapped(s, u, root, v, v + 1, false)
    ensures Elsewhere(s, u, root)
  {
    hide Lookup, IsRoot, SlotVpn, SlotRoot;
  }

  /** Another tree's frames are not root's. */
  lemma NotRoots(s: Mem, root: nat, q: nat, w: nat)
    requires Wf(s) && IsRoot(s, root) && IsRoot(s, q) && q != root && w < VPN_LIMIT && Owned(s, q, w)
    ensures !FrameIn(s, Ppn(Lookup(s, q, w)), root, 0, VPN_LIMIT)
  {
    hide Wf, Lookup, SlotVpn, SlotRoot, Ppn, Owned;
    var p := Ppn(Lookup(s, q, w));
    if FrameIn(s, p, root, 0, VPN_LIMIT) {
      FrameInOwned(s, p, root, 0, VPN_LIMIT);
      FramesDistinct(s, q, w, root, SlotVpn(s, s.role[p].tab, s.role[p].idx));
    }
  }

  /** An owned page whose lookup and roles are as before is still owned. */
  lemma OwnedStays(s: Mem, u: Mem, q: nat, w: nat)
    requires Wf(s) && Wf(u) && IsRoot(s, q) && Owned(s, q, w) && |u.page| == |s.page|
    requires forall p :: IsTable(s, p) ==> p in u.role && u.role[p] == s.role[p]
    requires Lookup(u, q, w) == Lookup(s, q, w)
    requires var p := Ppn(Lookup(s, q, w)); p in u.role && u.role[p] == s.role[p]
    ensures Owned(u, q, w)
  {
    hide Wf, Lookup, Ppn, Leaf, Px;
    BottomKept(s, u, q, w);
  }

  lemma TablesElsewhere(s: Mem, u: Mem, root: nat)
    requires Elsewhere(s, u, root)
    ensures forall p :: IsTable(s, p) ==> p in u.role && u.role[p] == s.role[p]
  {
    hide Lookup, IsRoot, SlotVpn, SlotRoot;
    forall p | IsTable(s, p) ensures p in u.role && u.role[p] == s.role[p] {
      assert !FrameIn(s, p, root, 0, VPN_LIMIT);
    }
  }

  lemma SpaceElsewhere(s: Mem, u: Mem, root: nat, tramp: nat, q: nat, x: Proc)
    requires Wf(s) && Wf(u) && IsRoot(s, root) && Elsewhere(s, u, root) && q != root && Space(s, tramp, q, x)
    ensures Space(u, tramp, q, x) && SameBytes(s, u, q, RoundUp(x.sz))
  {
    hide Wf, Lookup, IsRoot, FrameIn, Leaf, Ppn, Owned, RoundUp;
    TablesElsewhere(s, u, root);
    forall w: nat | w < RoundUp(x.sz) ensures Owned(u, q, w) && BytesKept(s, u, q, w) {
      NotRoots(s, root, q, w);
      OwnedFrame(s, q, w);
      OwnedPlace(s, q, w);
      OwnedStays(s, u, q, w);
    }
  }

  /** So all the others, and the kernel's own pages, stay as they are. */
  lemma Moved(s: Mem, u: Mem, root: nat, tramp: nat, held: set<nat>, roots: set<nat>, procs: map<nat, Proc>)
    requires Parts(s, tramp, held, roots, procs) && Wf(u) && IsRoot(s, root) && Elsewhere(s, u, root) && root !in procs
    ensures Parts(u, tramp, held, roots, procs)
    ensures AllSame(s, u, procs)
  {
    hide Wf, Lookup, IsRoot, SlotVpn, SlotRoot, Space, SameBytes, RoundUp;
    forall r | r in procs ensures Space(u, tramp, r, procs[r]) && SameBytes(s, u, r, RoundUp(procs[r].sz)) {
      SpaceElsewhere(s, u, root, tramp, r, procs[r]);
    }
  }

  /** One address space is finished. */
  lemma Finished(s: Mem, root: nat, tramp: nat, held: set<nat>, roots: set<nat>, procs: map<nat, Proc>, x: Proc)
    requires Parts(s, tramp, held, roots, procs - {root}) && Space(s, tramp, root, x)
    ensures Parts(s, tramp, held, roots, procs[root := x])
  {
    hide Wf, Space, HeldIs, RootsAre;
    var more := procs[root := x];
    forall r | r in more ensures Space(s, tramp, r, more[r]) {
      assert r != root ==> r in procs - {root};
    }
  }

  lemma Others(s: Mem, root: nat, tramp: nat, held: set<nat>, roots: set<nat>, procs: map<nat, Proc>)
    requires Parts(s, tramp, held, roots, procs)
    ensures Parts(s, tramp, held, roots, procs - {root})
  {
    hide Wf, Space, HeldIs, RootsAre;
  }

  // ---- pages taken and given back ----

  lemma Taken(s: Mem, u: Mem, p: nat, tramp: nat, held: set<nat>, roots: set<nat>, procs: map<nat, Proc>)
    requires Parts(s, tramp, held, roots, procs) && s.free != [] && p == s.free[0] && p < |s.page| && p !in s.role
    requires u == Alloc(s) && Wf(u) && Kept(s, u) && TablesKept(s, u)
    ensures Parts(u, tramp, held + {p}, roots, procs) && p !in held
    ensures AllSame(s, u, procs)
  {
    hide Wf, Lookup, IsRoot, Space, SameBytes, RoundUp;
    TablesKeepMaps(s, u);
    forall r | r in procs ensures Space(u, tramp, r, procs[r]) && SameBytes(s, u, r, RoundUp(procs[r].sz)) {
      SpaceKept(s, u, tramp, r, procs[r]);
    }
  }

  lemma SpaceKept(s: Mem, u: Mem, tramp: nat, q: nat, x: Proc)
    requires Wf(s) && Wf(u) && Kept(s, u) && Space(s, tramp, q, x) && MapsKept(s, u)
    ensures Space(u, tramp, q, x) && SameBytes(s, u, q, RoundUp(x.sz))
  {
    hide Wf, Lookup, IsRoot, Leaf, Ppn, Owned, RoundUp;
    forall w: nat | w < RoundUp(x.sz) ensures Owned(u, q, w) && BytesKept(s, u, q, w) {
      OwnedPlace(s, q, w);
      OwnedKept(s, u, q, w);
    }
  }

  /** A page the kernel held goes back to the free list. */
  lemma GivenBack(s: Mem, p: nat, tramp: nat, held: set<nat>, roots: set<nat>, procs: map<nat, Proc>)
    requires Parts(s, tramp, held, roots, procs) && p in held && p < |s.page| && Wf(Release(s, p))
    requires TablesKept(s, Release(s, p))
    ensures Parts(Release(s, p), tramp, held - {p}, roots, procs)
    ensures AllSame(s, Release(s, p), procs)
  {
    hide Wf, Lookup, IsRoot, Space, SameBytes, RoundUp;
    var u := Release(s, p);
    TablesKeepMaps(s, u);
    forall r | r in procs ensures Space(u, tramp, r, procs[r]) && SameBytes(s, u, r, RoundUp(procs[r].sz)) {
      SpaceReleased(s, p, tramp, r, procs[r]);
    }
  }

  lemma SpaceReleased(s: Mem, p: nat, tramp: nat, q: nat, x: Proc)
    requires Wf(s) && p in s.role && s.role[p] == Held && p < |s.page| && Wf(Release(s, p))
    requires Space(s, tramp, q, x) && MapsKept(s, Release(s, p))
    ensures Space(Release(s, p), tramp, q, x) && SameBytes(s, Release(s, p), q, RoundUp(x.sz))
  {
    hide Wf, Lookup, IsRoot, Leaf, Ppn, Owned, RoundUp;
    var u := Release(s, p);
    forall w: nat | w < RoundUp(x.sz) ensures Owned(u, q, w) && BytesKept(s, u, q, w) {
      OwnedFrame(s, q, w);
      OwnedPlace(s, q, w);
      OwnedStays(s, u, q, w);
    }
  }

  lemma OwnedFrame(s: Mem, q: nat, w: nat)
    requires Owned(s, q, w)
    ensures Ppn(Lookup(s, q, w)) in s.role && s.role[Ppn(Lookup(s, q, w))].Frame?
  {
  }

  /** A new root. */
  lemma Rooted(s: Mem, u: Mem, root: nat, tramp: nat, held: set<nat>, roots: set<nat>, procs: map<nat, Proc>)
    requires Parts(s, tramp, held, roots, procs) && Wf(u) && Kept(s, u) && MapsKept(s, u)
    requires root !in s.role && u.role == s.role[root := Root]
    ensures Parts(u, tramp, held, roots + {root}, procs) && root !in procs
    ensures AllSame(s, u, procs)
  {
    hide Wf, Lookup, Space, SameBytes, RoundUp;
    forall r | r in procs ensures Space(u, tramp, r, procs[r]) && SameBytes(s, u, r, RoundUp(procs[r].sz)) {
      SpaceKept(s, u, tramp, r, procs[r]);
    }
    if root in procs {
      assert Space(s, tramp, root, procs[root]);
      SpaceRoot(s, tramp, root, procs[root]);
    }
  }

  lemma SpaceRoot(s: Mem, tramp: nat, q: nat, x: Proc)
    requires Space(s, tramp, q, x)
    ensures IsRoot(s, q) && q in s.role
  {
  }

  /** A tree is gone. */
  lemma Gone(s: Mem, u: Mem, root: nat, tramp: nat, held: set<nat>, roots: set<nat>, procs: map<nat, Proc>)
    requires Parts(s, tramp, held, roots, procs) && Wf(u) && IsRoot(s, root) && Destroyed(s, u, root) && root !in procs
    ensures Parts(u, tramp, held, roots - {root}, procs)
    ensures AllSame(s, u, procs)
  {
    hide Wf, Lookup, Space, SameBytes, RoundUp, SlotVpn, SlotRoot;
    forall r | r in procs ensures Space(u, tramp, r, procs[r]) && SameBytes(s, u, r, RoundUp(procs[r].sz)) {
      SpaceGone(s, u, root, tramp, r, procs[r]);
    }
    forall p | p in s.role && s.role[p] == Root ensures TreePage(s, root, p) <==> p == root {
      RootNotZero(s, root);
    }
    forall p | p in s.role && s.role[p] == Held ensures !TreePage(s, root, p) {
    }
  }

  lemma SpaceGone(s: Mem, u: Mem, root: nat, tramp: nat, q: nat, x: Proc)
    requires Wf(s) && Wf(u) && IsRoot(s, root) && Destroyed(s, u, root) && q != root && Space(s, tramp, q, x)
    ensures Space(u, tramp, q, x) && SameBytes(s, u, q, RoundUp(x.sz))
  {
    hide Wf, Lookup, IsRoot, Leaf, Ppn, Owned, RoundUp, TreePage;
    forall w: nat | w < RoundUp(x.sz) ensures Owned(u, q, w) && BytesKept(s, u, q, w) {
      OwnedPlace(s, q, w);
      OwnedGone(s, u, root, q, w);
    }
  }

  lemma OwnedGone(s: Mem, u: Mem, root: nat, q: nat, w: nat)
    requires Wf(s) && Wf(u) && IsRoot(s, root) && IsRoot(s, q) && Destroyed(s, u, root) && q != root
    requires w < VPN_LIMIT && Owned(s, q, w)
    ensures Owned(u, q, w)
    ensures var p := Ppn(Lookup(s, q, w)); p < |s.page| ==> u.page[p] == s.page[p]
  {
    hide Wf, Lookup, Leaf, Ppn, SlotVpn, SlotRoot;
    NotRoots(s, root, q, w);
    RootNotZero(s, root);
    PathOk(s, q, w);
    var a, t, p := Middle(s, q, w), Bottom(s, q, w), Ppn(Lookup(s, q, w));
    assert !Under(s, root, p);
    assert Parent(s, a) == q && !Under(s, root, a);
    assert Parent(s, t) == a && !Under(s, root, t);
    assert !TreePage(s, root, a) && !TreePage(s, root, t) && !TreePage(s, root, p);
    PathSame(s, u, q, w);
  }

  lemma PathSame(s: Mem, u: Mem, r: nat, v: nat)
    requires Wf(s) && Wf(u) && IsRoot(s, r) && Bottom(s, r, v) != 0 && |u.page| == |s.page|
    requires Middle(s, r, v) in s.role && Bottom(s, r, v) in s.role
    requires Middle(s, r, v) in u.role && u.role[Middle(s, r, v)] == s.role[Middle(s, r, v)]
    requires Bottom(s, r, v) in u.role && u.role[Bottom(s, r, v)] == s.role[Bottom(s, r, v)]
    ensures Bottom(u, r, v) == Bottom(s, r, v)
  {
    hide Linked, Partition, Tables, Px;
    PathOk(s, r, v);
    var a, t := Middle(s, r, v), Bottom(s, r, v);
    assert RoleOk(u, a) && RoleOk(u, t);
    assert Ppn(a * 1024 + PTE_V) == a && Ppn(t * 1024 + PTE_V) == t;
  }

  /** With no root there is no tree: all pages in use are the kernel's. */
  lemma NoTrees(s: Mem, tramp: nat, held: set<nat>)
    requires Parts(s, tramp, held, {}, map[])
    ensures s.role.Keys == held
  {
    hide Tables, Linked, Partition;
    forall p | p in s.role ensures s.role[p] == Held {
      Rootless(s, p);
    }
  }

  lemma Rootless(s: Mem, p: nat)
    requires Roles(s) && p in s.role && forall q :: q in s.role ==> s.role[q] != Root
    ensures s.role[p] == Held
    decreases if s.role[p].Frame? then 3 else 2 - Level(s.role[p])
  {
    assert RoleOk(s, p);
    match s.role[p]
    case Root =>
    case Node(t, i, l) => Rootless(s, t);
    case Frame(t, i) => Rootless(s, t);
    case Held =>
  }
}

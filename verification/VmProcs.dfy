/** proc.c: allocproc, proc_pagetable, growproc, fork and freeproc, as far as they take and give back
    pages. */
module VmProcs {
  import opened Params
  import opened Collections
  import opened PageMem
  import opened PageWalk
  import opened VmSpan
  import opened VmCode
  import opened VmCopy
  import opened VmFree
  import opened VmBoot
  import opened VmLife

  // ---- proc_pagetable ----

  lemma RangeLookup(s: Mem, u: Mem, root: nat, v: nat, n: nat, p: nat, perm: nat, w: nat)
    requires perm < 1024 && MapsRange(s, u, root, v, n, p, perm) && n <= 1 && IsRoot(s, root) && w < VPN_LIMIT
    ensures IsRoot(u, root) && Lookup(u, root, w) == if n == 1 && w == v then Pte(p, perm) else Lookup(s, root, w)
  {
    hide Lookup, IsRoot, Pte;
  }

  /** One of proc_pagetable's two mappings: page p at page number v, or no lookup changed. */
  method MapKernel(vm: Vm, root: nat, v: nat, p: nat, perm: nat, tramp: nat, ghost held: set<nat>,
                   ghost roots: set<nat>, ghost procs: map<nat, Proc>) returns (ok: bool)
    requires Parts(vm.s, tramp, held, roots, procs) && IsRoot(vm.s, root) && root !in procs
    requires v < MAX_VPN && Lookup(vm.s, root, v) == 0 && LeafPerm(perm)
    modifies vm
    ensures Parts(vm.s, tramp, held, roots, procs) && IsRoot(vm.s, root)
    ensures AllSame(old(vm.s), vm.s, procs)
    ensures forall w: nat :: w < VPN_LIMIT && w != v ==> Lookup(vm.s, root, w) == Lookup(old(vm.s), root, w)
    ensures Leaf(Lookup(vm.s, root, v)) == ok && (ok ==> Ppn(Lookup(vm.s, root, v)) == p)
    ensures ok ==> Flags(Lookup(vm.s, root, v)) == FlagsOf(perm)
    ensures !ok ==> Lookup(vm.s, root, v) == 0
    ensures |old(vm.s).free| <= |vm.s.free| + 2 && (!ok ==> |old(vm.s).free| <= 1)
  {
    hide Wf, Lookup, IsRoot, Leaf, Ppn, Flags, LeafPerm, Pte, MapsRange, HeldIs, RootsAre, Spaces, AllSame, Elsewhere,
         Kept, OnlyNodes;
    ghost var s0 := vm.s;
    PermSmall(perm);
    PageSpan(v, p);
    var r, panics, n := vm.Mappages(root, v * PGSIZE, PGSIZE, p * PGSIZE, perm, false);
    assert !panics;
    RangeElsewhere(s0, vm.s, root, v, n, p, perm);
    Moved(s0, vm.s, root, tramp, held, roots, procs);
    forall w: nat | w < VPN_LIMIT
      ensures IsRoot(vm.s, root)
      ensures Lookup(vm.s, root, w) == if n == 1 && w == v then Pte(p, perm) else Lookup(s0, root, w)
    {
      RangeLookup(s0, vm.s, root, v, n, p, perm, w);
    }
    assert IsRoot(vm.s, root) by { RangeLookup(s0, vm.s, root, v, n, p, perm, 0); }
    PteParts(p, perm);
    LeafBits(0);
    ok := r == 0;
  }

  /** uvmfree of a tree with nothing mapped. */
  method FreeBare(vm: Vm, root: nat, tramp: nat, ghost held: set<nat>, ghost roots: set<nat>,
                  ghost procs: map<nat, Proc>)
    requires Parts(vm.s, tramp, held, roots, procs) && IsRoot(vm.s, root) && root !in procs
    requires forall w: nat :: w < VPN_LIMIT ==> Lookup(vm.s, root, w) == 0
    modifies vm
    ensures Parts(vm.s, tramp, held, roots - {root}, procs)
    ensures AllSame(old(vm.s), vm.s, procs)
  {
    hide Wf, Lookup, IsRoot, Destroyed, HeldIs, RootsAre, Spaces, AllSame;
    RoundUpZero();
    Uvmfree(vm, root, 0);
    Gone(old(vm.s), vm.s, root, tramp, held, roots, procs);
  }

  /** proc_pagetable: an address space of no bytes, or 0 with the root and its tree gone again. */
  method ProcPagetable(vm: Vm, trap: nat, tramp: nat, ghost held: set<nat>, ghost roots: set<nat>,
                       ghost procs: map<nat, Proc>) returns (root: nat)
    requires Parts(vm.s, tramp, held, roots, procs) && procs.Keys <= roots
    modifies vm
    ensures AllSame(old(vm.s), vm.s, procs)
    ensures root == 0 ==> Parts(vm.s, tramp, held, roots, procs) && |old(vm.s).free| < 5
    ensures root != 0 ==> |old(vm.s).free| <= |vm.s.free| + 5
    ensures root != 0 ==> root !in roots && Parts(vm.s, tramp, held, roots + {root}, procs[root := Proc(trap, 0)])
  {
    hide Wf, Lookup, IsRoot, Leaf, Ppn, Flags, HeldIs, RootsAre, Spaces, AllSame, Space, Kept, MapsKept;
    ghost var s0 := vm.s;
    root := Uvmcreate(vm);
    if root == 0 {
      NothingMoved(s0, tramp, held, roots, procs);
      return;
    }
    NotARoot(old(vm.s), tramp, held, roots, procs, root);
    ghost var s1 := vm.s;
    Rooted(s0, s1, root, tramp, held, roots, procs);
    var ok := MapKernel(vm, root, TRAMPOLINE, tramp, PTE_R + PTE_X, tramp, held, roots + {root}, procs);
    ghost var s2 := vm.s;
    AllSameTrans(s0, s1, s2, procs);
    if !ok {
      FreeBare(vm, root, tramp, held, roots + {root}, procs);
      AllSameTrans(s0, s2, vm.s, procs);
      assert roots + {root} - {root} == roots;
      return 0;
    }
    ok := MapKernel(vm, root, TRAPFRAME, trap, PTE_R + PTE_W, tramp, held, roots + {root}, procs);
    ghost var s3 := vm.s;
    AllSameTrans(s0, s2, s3, procs);
    if !ok {
      UnmapTrampoline(vm, root, tramp, held, roots + {root}, procs);
      AllSameTrans(s0, s3, vm.s, procs);
      ghost var s4 := vm.s;
      FreeBare(vm, root, tramp, held, roots + {root}, procs);
      AllSameTrans(s0, s4, vm.s, procs);
      assert roots + {root} - {root} == roots;
      return 0;
    }
    NewSpace(vm.s, tramp, root, trap);
    assert procs - {root} == procs;
    Finished(vm.s, root, tramp, held, roots + {root}, procs, Proc(trap, 0));
  }

  lemma NothingMoved(s: Mem, tramp: nat, held: set<nat>, roots: set<nat>, procs: map<nat, Proc>)
    requires Parts(s, tramp, held, roots, procs)
    ensures AllSame(s, s, procs)
  {
    hide HeldIs, RootsAre, Wf, Space, SameBytes, RoundUp;
    forall r | r in procs ensures SameBytes(s, s, r, RoundUp(procs[r].sz)) {
      SpaceSame(s, tramp, r, procs[r]);
    }
  }

  lemma SpaceSame(s: Mem, tramp: nat, root: nat, x: Proc)
    requires Wf(s) && Space(s, tramp, root, x)
    ensures SameBytes(s, s, root, RoundUp(x.sz))
  {
    hide Wf, Lookup, IsRoot, Owned, Leaf, Ppn, RoundUp;
    forall w: nat | w < RoundUp(x.sz) ensures BytesKept(s, s, root, w) {
      OwnedPlace(s, root, w);
    }
  }

  lemma NotARoot(s: Mem, tramp: nat, held: set<nat>, roots: set<nat>, procs: map<nat, Proc>, p: nat)
    requires Parts(s, tramp, held, roots, procs) && p !in s.role
    ensures p !in roots && p !in held
  {
    hide Wf, Spaces;
  }

  lemma NewSpace(s: Mem, tramp: nat, root: nat, trap: nat)
    requires IsRoot(s, root) && Leaf(Lookup(s, root, TRAPFRAME)) && Ppn(Lookup(s, root, TRAPFRAME)) == trap
    requires Leaf(Lookup(s, root, TRAMPOLINE)) && Ppn(Lookup(s, root, TRAMPOLINE)) == tramp
    requires Flags(Lookup(s, root, TRAPFRAME)) == PTE_V + PTE_R + PTE_W
    requires Flags(Lookup(s, root, TRAMPOLINE)) == PTE_V + PTE_R + PTE_X
    requires forall w: nat :: w < VPN_LIMIT && w != TRAPFRAME && w != TRAMPOLINE ==> Lookup(s, root, w) == 0
    ensures Space(s, tramp, root, Proc(trap, 0))
  {
    hide Lookup, Leaf, Ppn, Flags;
    RoundUpZero();
  }

  /** uvmunmap of the trampoline where the trapframe could not be mapped. */
  method UnmapTrampoline(vm: Vm, root: nat, tramp: nat, ghost held: set<nat>, ghost roots: set<nat>,
                         ghost procs: map<nat, Proc>)
    requires Parts(vm.s, tramp, held, roots, procs) && IsRoot(vm.s, root) && root !in procs
    requires Leaf(Lookup(vm.s, root, TRAMPOLINE)) && Ppn(Lookup(vm.s, root, TRAMPOLINE)) == tramp
    requires forall w: nat :: w < VPN_LIMIT && w != TRAMPOLINE ==> Lookup(vm.s, root, w) == 0
    modifies vm
    ensures Parts(vm.s, tramp, held, roots, procs) && IsRoot(vm.s, root)
    ensures AllSame(old(vm.s), vm.s, procs)
    ensures forall w: nat :: w < VPN_LIMIT ==> Lookup(vm.s, root, w) == 0
  {
    hide Wf, Lookup, IsRoot, Leaf, Ppn, HeldIs, RootsAre, Spaces, AllSame, SameRoles, Unmapped, Elsewhere, Owned;
    ghost var s0 := vm.s;
    assert KernelPage(s0, tramp) by { BelowRam(s0, tramp); }
    UnmapKernel(vm, root, TRAMPOLINE);
    SameElsewhere(s0, vm.s, root, TRAMPOLINE);
    Moved(s0, vm.s, root, tramp, held, roots, procs);
    forall w: nat | w < VPN_LIMIT ensures Lookup(vm.s, root, w) == 0 {
      UnmappedAt(s0, vm.s, root, TRAMPOLINE, w);
    }
  }

  lemma BelowRam(s: Mem, p: nat)
    requires Wf(s) && p < s.lo
    ensures p !in s.role && KernelPage(s, p)
  {
    assert p in s.role ==> RoleOk(s, p);
  }

  // ---- the sizes of address spaces ----

  /** The frames of the first n pages. */
  ghost function Frames(s: Mem, root: nat, n: nat): set<nat> {
    if n == 0 then {} else Frames(s, root, n - 1) + {Ppn(Lookup(s, root, n - 1))}
  }

  /** A later page's frame is not among them. */
  lemma {:induction false} NotAmong(s: Mem, root: nat, n: nat, v: nat)
    requires Wf(s) && IsRoot(s, root) && n <= v < VPN_LIMIT && forall w: nat :: w <= v ==> Owned(s, root, w)
    ensures Ppn(Lookup(s, root, v)) !in Frames(s, root, n)
  {
    hide Wf, Lookup, IsRoot, Ppn, Owned;
    if n > 0 {
      NotAmong(s, root, n - 1, v);
      if Ppn(Lookup(s, root, n - 1)) == Ppn(Lookup(s, root, v)) {
        FramesDistinct(s, root, n - 1, root, v);
      }
    }
  }

  lemma {:induction false} FramesSize(s: Mem, root: nat, n: nat)
    requires Wf(s) && IsRoot(s, root) && n <= VPN_LIMIT && forall w: nat :: w < n ==> Owned(s, root, w)
    ensures |Frames(s, root, n)| == n && forall p :: p in Frames(s, root, n) ==> p < |s.page|
  {
    hide Wf, Lookup, IsRoot, Ppn, Owned;
    if n > 0 {
      FramesSize(s, root, n - 1);
      OwnedPlace(s, root, n - 1);
      NotAmong(s, root, n - 1, n - 1);
    }
  }

  ghost function Below(n: nat): (r: set<nat>)
    ensures |r| == n && forall p: nat :: p in r <==> p < n
  {
    if n == 0 then {} else Below(n - 1) + {n - 1}
  }

  /** No process has more pages than there are. */
  lemma SizeFits(s: Mem, tramp: nat, root: nat, x: Proc)
    requires Wf(s) && Space(s, tramp, root, x)
    ensures RoundUp(x.sz) <= |s.page|
  {
    hide Wf, Lookup, IsRoot, Leaf, Ppn, Owned, RoundUp;
    FramesSize(s, root, RoundUp(x.sz));
    SubsetSize(Frames(s, root, RoundUp(x.sz)), Below(|s.page|));
  }

  // ---- one address space changes ----

  lemma GrownSpace(s: Mem, u: Mem, tramp: nat, root: nat, x: Proc, sz: nat)
    requires Space(s, tramp, root, x) && Span(s, u, root, RoundUp(x.sz), RoundUp(sz)) && x.sz <= sz
    requires RoundUp(sz) <= TRAPFRAME
    ensures Space(u, tramp, root, x.(sz := sz)) && SameBytes(s, u, root, RoundUp(x.sz))
  {
    hide Wf, Lookup, IsRoot, Leaf, Ppn, Owned, RoundUp, FrameIn;
    RoundUpMono(x.sz, sz);
    forall w: nat | w < RoundUp(sz) ensures Owned(u, root, w) && (w < RoundUp(x.sz) ==> BytesKept(s, u, root, w)) {
      if w < RoundUp(x.sz) {
        OwnedPlace(s, root, w);
        OwnedKept(s, u, root, w);
      } else {
        assert Fresh(s, u, root, w);
      }
    }
  }

  lemma ShrunkSpace(s: Mem, u: Mem, tramp: nat, root: nat, x: Proc, sz: nat)
    requires Wf(s) && Wf(u) && IsRoot(u, root) && Space(s, tramp, root, x) && sz <= x.sz
    requires Unmapped(s, u, root, RoundUp(sz), RoundUp(x.sz), true)
    ensures Space(u, tramp, root, x.(sz := sz)) && SameBytes(s, u, root, RoundUp(sz))
  {
    hide Wf, Lookup, IsRoot, Leaf, Ppn, Owned, RoundUp, FrameIn;
    RoundUpMono(sz, x.sz);
    TablesStay(s, u, root, RoundUp(sz), RoundUp(x.sz), true);
    forall w: nat | w < RoundUp(sz) ensures Owned(u, root, w) && BytesKept(s, u, root, w) {
      OwnedFrameIn(s, root, w);
      OwnedFrame(s, root, w);
      OwnedPlace(s, root, w);
      OwnedStays(s, u, root, w);
    }
  }

  lemma IsUserSpace(s: Mem, tramp: nat, root: nat, x: Proc)
    requires Wf(s) && Space(s, tramp, root, x) && tramp < s.lo && KernelPage(s, x.trap)
    ensures UserSpace(s, root, x.sz)
  {
    hide Wf, Lookup, IsRoot, Leaf, Ppn, Owned, RoundUp;
    BelowRam(s, tramp);
  }

  // ---- the process table ----

  ghost function Traps(procs: map<nat, Proc>): set<nat> { set r | r in procs :: procs[r].trap }

  /** Every process has a trapframe of its own, apart from what the rest of the kernel holds. */
  ghost predicate Apart(base: set<nat>, procs: map<nat, Proc>) {
    && (forall r :: r in procs ==> procs[r].trap !in base)
    && (forall r, q :: r in procs && q in procs && r != q ==> procs[r].trap != procs[q].trap)
  }

  ghost predicate Life(s: Mem, tramp: nat, base: set<nat>, procs: map<nat, Proc>) {
    Parts(s, tramp, base + Traps(procs), procs.Keys, procs) && Apart(base, procs)
  }

  /** Every page in use belongs to the rest of the kernel, or to a process: its trapframe, a table of its
      tree, or a page of its memory. */
  lemma Accounted(s: Mem, tramp: nat, base: set<nat>, procs: map<nat, Proc>, p: nat)
    requires Life(s, tramp, base, procs) && p in s.role
    ensures p in base || exists r :: r in procs && (p == procs[r].trap || TreePage(s, r, p))
  {
    hide Tables, Linked, Partition, Spaces;
    assert RoleOk(s, p);
    if s.role[p] == Held {
      if p !in base {
        var r :| r in procs && procs[r].trap == p;
      }
    } else {
      var r := TreeOf(s, p);
      assert r in procs;
    }
  }

  lemma TreeOf(s: Mem, p: nat) returns (r: nat)
    requires Roles(s) && p in s.role && s.role[p] != Held
    ensures r in s.role && s.role[r] == Root && TreePage(s, r, p)
  {
    assert RoleOk(s, p);
    match s.role[p]
    case Root => r := p;
    case Node(t, i, l) =>
      assert RoleOk(s, t);
      r := if l == 1 then t else Parent(s, t);
    case Frame(t, i) =>
      assert RoleOk(s, t);
      assert RoleOk(s, Parent(s, t));
      r := SlotRoot(s, t);
  }

  /** When the last process is gone, what is in use is what was in use before the first. */
  lemma AllReturned(s: Mem, tramp: nat, base: set<nat>)
    requires Life(s, tramp, base, map[])
    ensures s.role.Keys == base && forall p: nat :: InRam(s, p) ==> (p in s.free <==> p !in base)
  {
    hide HeldIs, RootsAre, Wf, Spaces;
    var none: map<nat, Proc> := map[];
    assert Traps(none) == {} && none.Keys == {} && base + Traps(none) == base;
    NoTrees(s, tramp, base);
    Free(s);
  }

  lemma Free(s: Mem)
    requires Wf(s)
    ensures forall p: nat :: InRam(s, p) ==> (p in s.free <==> p !in s.role)
  {
    hide Roles, Tables, Linked;
  }

  /** A process more, or one less. */
  lemma TrapsMore(procs: map<nat, Proc>, root: nat, x: Proc, base: set<nat>)
    requires root !in procs && Apart(base, procs) && x.trap !in base + Traps(procs)
    ensures base + Traps(procs[root := x]) == base + Traps(procs) + {x.trap}
    ensures procs[root := x].Keys == procs.Keys + {root} && Apart(base, procs[root := x])
  {
    var more := procs[root := x];
    forall p | p in Traps(procs) + {x.trap} ensures p in Traps(more) {
      if p in Traps(procs) {
        var r :| r in procs && procs[r].trap == p;
        assert r in more && more[r].trap == p;
      } else {
        assert root in more && more[root].trap == p;
      }
    }
    forall r | r in procs ensures procs[r].trap in Traps(procs) {
    }
  }

  lemma TrapsLess(procs: map<nat, Proc>, root: nat, base: set<nat>)
    requires root in procs && Apart(base, procs)
    ensures base + Traps(procs) - {procs[root].trap} == base + Traps(procs - {root})
    ensures (procs - {root}).Keys == procs.Keys - {root} && Apart(base, procs - {root})
    ensures procs[root].trap in Traps(procs)
  {
    var less := procs - {root};
    forall p | p in Traps(procs) && p != procs[root].trap ensures p in Traps(less) {
      var r :| r in procs && procs[r].trap == p;
      assert r in less && less[r].trap == p;
    }
  }

  lemma TrapsSame(procs: map<nat, Proc>, root: nat, x: Proc, base: set<nat>)
    requires root in procs && x.trap == procs[root].trap && Apart(base, procs)
    ensures Traps(procs[root := x]) == Traps(procs) && procs[root := x].Keys == procs.Keys
    ensures Apart(base, procs[root := x])
  {
    var more := procs[root := x];
    assert forall r :: r in procs ==> r in more && more[r].trap == procs[r].trap;
    assert forall r :: r in more ==> r in procs;
  }

  /** b's page w has the bytes and flags of a's. */
  ghost predicate Twins(s: Mem, a: nat, b: nat, w: nat) {
    var e, f := Lookup(s, a, w), Lookup(s, b, w);
    Ppn(e) < |s.page| && Ppn(f) < |s.page| && s.page[Ppn(f)] == s.page[Ppn(e)] && Flags(f) == Flags(e)
  }

  class Procs {
    const vm: Vm
    const tramp: nat
    /** The processes, by the root of their page table. */
    var procs: map<nat, Proc>
    /** The pages the rest of the kernel holds. */
    ghost const base: set<nat>

    ghost predicate Ok()
      reads this, vm
    {
      Life(vm.s, tramp, base, procs)
    }

    /** Before the first process. */
    constructor (vm: Vm, tramp: nat)
      requires Wf(vm.s) && vm.s.dying == {} && tramp < vm.s.lo && |vm.s.page| <= PHYS_PAGES
      requires forall p :: p in vm.s.role ==> vm.s.role[p] == Held
      ensures Ok() && procs == map[] && this.vm == vm && base == vm.s.role.Keys
    {
      this.vm, this.tramp, procs, base := vm, tramp, map[], vm.s.role.Keys;
      new;
      hide Wf;
      assert Traps(procs) == {} && base + Traps(procs) == base;
    }

    /** allocproc: a trapframe and an empty address space, or 0 with neither kept; six free pages are
        always enough. */
    method Allocproc() returns (root: nat)
      requires Ok()
      modifies this`procs, vm
      ensures Ok() && AllSame(old(vm.s), vm.s, old(procs))
      ensures root == 0 ==> procs == old(procs) && |old(vm.s).free| < 6
      ensures root != 0 ==> |old(vm.s).free| <= |vm.s.free| + 6
      ensures root != 0 ==> root !in old(procs) && exists t: nat :: procs == old(procs)[root := Proc(t, 0)]
    {
      hide Wf, Parts, AllSame, Apart, Traps, Kept, TablesKept, Alloc, Loose, Release;
      ghost var s0, held := vm.s, base + Traps(procs);
      NoChange(s0, tramp, held, procs.Keys, procs);
      var trap := vm.Kalloc();
      if trap == 0 {
        return 0;
      }
      ghost var s1 := vm.s;
      Take(s0, s1, trap, tramp, held, procs.Keys, procs);
      root := ProcPagetable(vm, trap, tramp, held + {trap}, procs.Keys, procs);
      ghost var s2 := vm.s;
      AllSameTrans(s0, s1, s2, procs);
      if root == 0 {
        GiveBack(trap, held + {trap}, procs.Keys, procs);
        assert held + {trap} - {trap} == held;
        AllSameTrans(s0, s2, vm.s, procs);
        return 0;
      }
      TrapsMore(procs, root, Proc(trap, 0), base);
      procs := procs[root := Proc(trap, 0)];
    }

    /** kfree of a page the kernel holds. */
    method GiveBack(p: nat, ghost held: set<nat>, ghost roots: set<nat>, ghost others: map<nat, Proc>)
      requires Parts(vm.s, tramp, held, roots, others) && p in held
      modifies vm
      ensures Parts(vm.s, tramp, held - {p}, roots, others) && AllSame(old(vm.s), vm.s, others)
      ensures p < |old(vm.s).page| && vm.s == Release(old(vm.s), p) && p !in vm.s.role
      ensures Wf(vm.s) && TablesKept(old(vm.s), vm.s)
    {
      hide Wf, Spaces, AllSame, TablesKept, Lookup;
      Stay(vm.s);
      HeldLoose(vm.s, vm.s, p);
      vm.Kfree(p);
      GivenBack(old(vm.s), p, tramp, held, roots, others);
    }

    /** freeproc: the trapframe, then the page table with all it maps. */
    method Freeproc(root: nat)
      requires Ok() && root in procs
      modifies this`procs, vm
      ensures Ok() && procs == old(procs) - {root} && AllSame(old(vm.s), vm.s, procs)
    {
      hide Wf, Parts, AllSame, Apart, Traps, Kept, TablesKept, Release, Space, UserSpace, Destroyed, HeldIs, RootsAre,
           RoundUp;
      ghost var s0, held, others := vm.s, base + Traps(procs), procs - {root};
      var x := procs[root];
      SpaceOf(s0, tramp, held, procs.Keys, procs, root);
      Others(s0, root, tramp, held, procs.Keys, procs);
      TrapsLess(procs, root, base);
      GiveBack(x.trap, held, procs.Keys, others);
      ghost var s1 := vm.s;
      ReleasedSpace(s0, s1, tramp, held, procs.Keys, procs, root);
      ProcFreePagetable(vm, root, x.sz);
      Gone(s1, vm.s, root, tramp, held - {x.trap}, procs.Keys, others);
      AllSameTrans(s0, s1, vm.s, others);
      procs := procs - {root};
    }

    /** growproc(n). */
    method Growproc(root: nat, n: int) returns (r: int)
      requires Ok() && root in procs && 0 - INT_LIMIT <= n < INT_LIMIT
      modifies this`procs, vm
      ensures Ok() && AllSame(old(vm.s), vm.s, old(procs) - {root})
      ensures r == 0 || r == -1
      ensures r == -1 ==> n > 0 && procs == old(procs) && AllSame(old(vm.s), vm.s, procs)
      ensures r == -1 ==> |old(vm.s).free| < 3 * (RoundUp(procs[root].sz + n) - RoundUp(procs[root].sz))
      ensures r == 0 ==> procs == old(procs)[root := old(procs)[root].(sz := NewSize(old(procs)[root].sz, n))]
      ensures r == 0 ==> SameBytes(old(vm.s), vm.s, root, RoundUp(Smaller(old(procs)[root].sz, procs[root].sz)))
      ensures r == 0 && n > 0 ==> forall w: nat :: RoundUp(old(procs)[root].sz) <= w < RoundUp(procs[root].sz) ==>
                                    Zeroed(vm.s, root, w, PTE_W)
    {
      hide Wf, Parts, AllSame, Apart, Traps, Space, SameBytes, RoundUp, Zeroed, Kept, OnlyNodes, MapsKept, Span,
           Unmapped, Lookup, IsRoot, Owned, Elsewhere;
      ghost var s0, held, others := vm.s, base + Traps(procs), procs - {root};
      var x := procs[root];
      SpaceOf(s0, tramp, held, procs.Keys, procs, root);
      Others(s0, root, tramp, held, procs.Keys, procs);
      SpaceSame(s0, tramp, root, x);
      NoChange(s0, tramp, held, procs.Keys, others);
      TrapsSame(procs, root, x.(sz := NewSize(x.sz, n)), base);
      r := 0;
      if n > 0 {
        RoomToGrow(s0, tramp, root, x, n);
        var sz := vm.Uvmalloc(root, x.sz, x.sz + n, PTE_W);
        if sz == 0 {
          SpareElsewhere(s0, vm.s, root);
          Moved(s0, vm.s, root, tramp, held, procs.Keys, others);
          SpaceKept(s0, vm.s, tramp, root, x);
          Finished(vm.s, root, tramp, held, procs.Keys, procs, x);
          Unaltered(procs, root);
          WholeTable(s0, vm.s, procs, root);
          return -1;
        }
        SpanElsewhere(s0, vm.s, root, RoundUp(x.sz), RoundUp(sz));
        Moved(s0, vm.s, root, tramp, held, procs.Keys, others);
        GrownSpace(s0, vm.s, tramp, root, x, sz);
        Finished(vm.s, root, tramp, held, procs.Keys, procs, x.(sz := sz));
        procs := procs[root := x.(sz := sz)];
      } else if n < 0 && x.sz + n >= 0 {
        SpaceOwned(s0, tramp, root, x, x.sz + n);
        var sz := Uvmdealloc(vm, root, x.sz, x.sz + n);
        UnmappedElsewhere(s0, vm.s, root, RoundUp(sz), RoundUp(x.sz));
        Moved(s0, vm.s, root, tramp, held, procs.Keys, others);
        ShrunkSpace(s0, vm.s, tramp, root, x, sz);
        Finished(vm.s, root, tramp, held, procs.Keys, procs, x.(sz := sz));
        procs := procs[root := x.(sz := sz)];
      } else {
        Unaltered(procs, root);
      }
    }

    /** fork's copy of an address space: the child has the parent's bytes and flags, or there is no
        child, and what it had is given back. */
    method Fork(root: nat) returns (child: nat)
      requires Ok() && root in procs
      modifies this`procs, vm
      ensures Ok() && AllSame(old(vm.s), vm.s, old(procs))
      ensures child == 0 ==> procs == old(procs) && |old(vm.s).free| < 6 + 3 * RoundUp(old(procs)[root].sz)
      ensures child != 0 ==>
                child !in old(procs)
                && exists t: nat :: procs == old(procs)[child := Proc(t, old(procs)[root].sz)]
      ensures child != 0 ==> forall w: nat :: w < RoundUp(procs[root].sz) ==> Twins(vm.s, root, child, w)
    {
      hide Wf, Parts, AllSame, Apart, Traps, Space, RoundUp, Kept, OnlyNodes, MapsKept, Span, Lookup, IsRoot,
           Owned, Elsewhere, Copied, Twins;
      ghost var s0, was := vm.s, procs;
      child := Allocproc();
      if child == 0 {
        return;
      }
      ghost var s1, held, others := vm.s, base + Traps(procs), procs - {child};
      var x := procs[root];
      SpaceOf(s1, tramp, held, procs.Keys, procs, root);
      SpaceOf(s1, tramp, held, procs.Keys, procs, child);
      CopyReady(s1, tramp, root, x, child, procs[child]);
      Others(s1, child, tramp, held, procs.Keys, procs);
      assert others == was;
      var r := Uvmcopy(vm, root, child, x.sz);
      ghost var s2 := vm.s;
      if r != 0 {
        SpareElsewhere(s1, s2, child);
        Moved(s1, s2, child, tramp, held, procs.Keys, others);
        SpaceKept(s1, s2, tramp, child, procs[child]);
        Finished(s2, child, tramp, held, procs.Keys, procs, procs[child]);
        Unaltered(procs, child);
        AllSameTrans(s0, s1, s2, was);
        Freeproc(child);
        AllSameTrans(s0, s2, vm.s, was);
        return 0;
      }
      SpanElsewhere(s1, s2, child, 0, RoundUp(x.sz));
      Moved(s1, s2, child, tramp, held, procs.Keys, others);
      RoundUpZero();
      GrownSpace(s1, s2, tramp, child, procs[child], x.sz);
      Finished(s2, child, tramp, held, procs.Keys, procs, procs[child].(sz := x.sz));
      TrapsSame(procs, child, procs[child].(sz := x.sz), base);
      AllSameTrans(s0, s1, s2, was);
      AreTwins(s1, s2, root, child, was);
      procs := procs[child := procs[child].(sz := x.sz)];
      assert procs == was[child := Proc(procs[child].trap, x.sz)];
    }
  }

  function NewSize(sz: nat, n: int): nat { if sz + n >= 0 then sz + n else sz }

  function Smaller(a: nat, b: nat): nat { if a < b then a else b }

  lemma NoChange(s: Mem, tramp: nat, held: set<nat>, roots: set<nat>, procs: map<nat, Proc>)
    requires Parts(s, tramp, held, roots, procs)
    ensures AllSame(s, s, procs) && Wf(s) && tramp < s.lo
  {
    NothingMoved(s, tramp, held, roots, procs);
  }

  lemma Take(s: Mem, u: Mem, p: nat, tramp: nat, held: set<nat>, roots: set<nat>, procs: map<nat, Proc>)
    requires Parts(s, tramp, held, roots, procs) && s.free != [] && p == s.free[0] && p < |s.page| && p !in s.role
    requires u == Alloc(s) && Wf(u) && Kept(s, u) && TablesKept(s, u)
    ensures Parts(u, tramp, held + {p}, roots, procs) && p !in held && AllSame(s, u, procs) && |u.page| == |s.page|
  {
    hide Parts, AllSame, Wf;
    Taken(s, u, p, tramp, held, roots, procs);
  }

  lemma SpaceOf(s: Mem, tramp: nat, held: set<nat>, roots: set<nat>, procs: map<nat, Proc>, root: nat)
    requires Parts(s, tramp, held, roots, procs) && root in procs
    ensures Space(s, tramp, root, procs[root]) && IsRoot(s, root) && Wf(s) && tramp < s.lo && |s.page| <= PHYS_PAGES
  {
    hide Wf, HeldIs, RootsAre, Lookup, Owned;
  }

  lemma Unaltered(procs: map<nat, Proc>, root: nat)
    requires root in procs
    ensures procs[root := procs[root]] == procs && procs[root].(sz := procs[root].sz) == procs[root]
  {
  }

  lemma WholeTable(s: Mem, u: Mem, procs: map<nat, Proc>, root: nat)
    requires root in procs && AllSame(s, u, procs - {root}) && SameBytes(s, u, root, RoundUp(procs[root].sz))
    ensures AllSame(s, u, procs)
  {
    hide SameBytes, RoundUp;
    forall r | r in procs ensures SameBytes(s, u, r, RoundUp(procs[r].sz)) {
      assert r != root ==> r in procs - {root};
    }
  }

  lemma ReleasedSpace(s: Mem, u: Mem, tramp: nat, held: set<nat>, roots: set<nat>, procs: map<nat, Proc>, root: nat)
    requires Parts(s, tramp, held, roots, procs) && root in procs && procs[root].trap in held
    requires var p := procs[root].trap; p < |s.page| && u == Release(s, p) && Wf(u) && TablesKept(s, u)
    ensures UserSpace(u, root, procs[root].sz) && IsRoot(u, root)
  {
    hide Wf, Lookup, Space, Owned, UserSpace;
    var x := procs[root];
    TablesKeepMaps(s, u);
    SpaceReleased(s, x.trap, tramp, root, x);
    IsUserSpace(u, tramp, root, x);
    SpaceRoot(u, tramp, root, x);
  }

  lemma RoomToGrow(s: Mem, tramp: nat, root: nat, x: Proc, n: nat)
    requires Wf(s) && |s.page| <= PHYS_PAGES && Space(s, tramp, root, x) && n < INT_LIMIT
    ensures x.sz + n <= MAX_VPN * PGSIZE && RoundUp(x.sz + n) <= TRAPFRAME
    ensures forall w: nat :: RoundUp(x.sz) <= w < RoundUp(x.sz + n) ==> Lookup(s, root, w) == 0
  {
    hide Wf, Lookup, IsRoot, Leaf, Ppn, Owned;
    SizeFits(s, tramp, root, x);
  }

  lemma SpaceOwned(s: Mem, tramp: nat, root: nat, x: Proc, sz: nat)
    requires Space(s, tramp, root, x) && sz <= x.sz
    ensures x.sz <= MAX_VPN * PGSIZE && RoundUp(x.sz) <= VPN_LIMIT
    ensures forall w: nat :: RoundUp(sz) <= w < RoundUp(x.sz) ==> Owned(s, root, w)
  {
    hide Lookup, IsRoot, Leaf, Ppn, Owned;
    SizeBound(x.sz);
  }

  lemma CopyReady(s: Mem, tramp: nat, root: nat, x: Proc, child: nat, y: Proc)
    requires Space(s, tramp, root, x) && Space(s, tramp, child, y) && y.sz == 0
    ensures x.sz <= MAX_VPN * PGSIZE && RoundUp(x.sz) <= TRAPFRAME
    ensures forall v: nat :: v < RoundUp(x.sz) ==> Owned(s, root, v) && Lookup(s, child, v) == 0
  {
    hide Lookup, IsRoot, Leaf, Ppn, Owned;
    RoundUpZero();
    SizeBound(x.sz);
  }

  lemma AreTwins(s: Mem, u: Mem, root: nat, child: nat, procs: map<nat, Proc>)
    requires root in procs && AllSame(s, u, procs)
    requires forall v: nat :: v < RoundUp(procs[root].sz) ==> Copied(s, u, root, child, v)
    ensures forall w: nat :: w < RoundUp(procs[root].sz) ==> Twins(u, root, child, w)
  {
    hide Lookup, Ppn, Flags, RoundUp;
    assert SameBytes(s, u, root, RoundUp(procs[root].sz));
    forall w: nat | w < RoundUp(procs[root].sz) ensures Twins(u, root, child, w) {
      assert BytesKept(s, u, root, w) && Copied(s, u, root, child, w);
    }
  }

  // ---- any sequence of calls ----

  datatype Call = Begin | Grow(root: nat, n: int) | Copy(root: nat) | Exit(root: nat)

  /** One call, on a process that is there. */
  method Perform(p: Procs, c: Call)
    requires p.Ok()
    modifies p, p.vm
    ensures p.Ok()
    ensures AllSame(old(p.vm.s), p.vm.s, if c.Grow? || c.Exit? then old(p.procs) - {c.root} else old(p.procs))
  {
    hide Life, AllSame;
    match c
    case Begin =>
      var _ := p.Allocproc();
    case Grow(root, n) =>
      if root in p.procs && 0 - INT_LIMIT <= n < INT_LIMIT {
        var _ := p.Growproc(root, n);
      } else {
        Idle(p.vm.s, p.tramp, p.base, p.procs, root);
      }
    case Copy(root) =>
      if root in p.procs {
        var _ := p.Fork(root);
      } else {
        Idle(p.vm.s, p.tramp, p.base, p.procs, root);
      }
    case Exit(root) =>
      if root in p.procs {
        p.Freeproc(root);
      } else {
        Idle(p.vm.s, p.tramp, p.base, p.procs, root);
      }
  }

  lemma Idle(s: Mem, tramp: nat, base: set<nat>, procs: map<nat, Proc>, root: nat)
    requires Life(s, tramp, base, procs)
    ensures AllSame(s, s, procs) && AllSame(s, s, procs - {root})
  {
    hide Parts, SameBytes, Apart;
    NothingMoved(s, tramp, base + Traps(procs), procs.Keys, procs);
  }

  /** Any sequence of calls: the kernel's own pages stay its own, every other page in use belongs to a
      process, and when no process is left exactly the pages in use at the start are in use. */
  method Run(p: Procs, calls: seq<Call>)
    requires p.Ok()
    modifies p, p.vm
    ensures p.Ok()
    ensures forall q :: q in p.vm.s.role ==>
              q in p.base || exists r :: r in p.procs && (q == p.procs[r].trap || TreePage(p.vm.s, r, q))
    ensures p.procs == map[] ==>
              p.vm.s.role.Keys == p.base && forall q: nat :: InRam(p.vm.s, q) ==> (q in p.vm.s.free <==> q !in p.base)
  {
    hide Life, TreePage;
    var k := 0;
    while k < |calls|
      invariant 0 <= k <= |calls| && p.Ok()
    {
      Perform(p, calls[k]);
      k := k + 1;
    }
    forall q | q in p.vm.s.role
      ensures q in p.base || exists r :: r in p.procs && (q == p.procs[r].trap || TreePage(p.vm.s, r, q))
    {
      Accounted(p.vm.s, p.tramp, p.base, p.procs, q);
    }
    if p.procs == map[] {
      AllReturned(p.vm.s, p.tramp, p.base);
    }
  }
}

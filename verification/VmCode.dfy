/** vm.c and kalloc.c: page tables and the page allocator. Addresses are page numbers times PGSIZE;
    a physical page is passed as its number. */
module VmCode {
  import opened Arith
  import opened PageMem
  import opened PageWalk
  import opened VmSpan

  /** PA2PTE(pa) | perm | PTE_V */
  function Pte(p: nat, perm: nat): nat
    requires perm < 1024
  {
    p * 1024 + (if perm % 2 == 0 then perm + PTE_V else perm)
  }

  predicate LeafPerm(perm: nat) { perm < 1024 && perm / 2 % 8 != 0 }

  lemma PteParts(p: nat, perm: nat)
    requires LeafPerm(perm)
    ensures Ppn(Pte(p, perm)) == p && Leaf(Pte(p, perm)) && Valid(Pte(p, perm)) && Pte(p, perm) != 0
    ensures Flags(Pte(p, perm)) == if perm % 2 == 0 then perm + PTE_V else perm
  {
    var f := if perm % 2 == 0 then perm + PTE_V else perm;
    assert f / 2 == perm / 2 && f < 1024;
    PteBits(p, f);
  }

  lemma PteBits(p: nat, f: nat)
    requires f < 1024
    ensures var e := p * 1024 + f; e / 1024 == p && e % 1024 == f && e % 2 == f % 2 && e / 2 % 8 == f / 2 % 8
  {
    var e, h := p * 1024 + f, f / 2;
    DivMod(p, 1024, f);
    assert e == (p * 512 + h) * 2 + f % 2;
    DivMod(p * 512 + h, 2, f % 2);
    assert p * 512 + h == (p * 64 + h / 8) * 8 + h % 8;
    DivMod(p * 64 + h / 8, 8, h % 8);
  }

  class Vm {
    var s: Mem

    /** kalloc: the first free page, filled with junk; 0 if there is none. */
    method Kalloc() returns (p: nat)
      requires Wf(s)
      modifies this
      ensures Wf(s) && Kept(old(s), s) && TablesKept(old(s), s)
      ensures p == 0 ==> s == old(s) && s.free == []
      ensures p != 0 ==> old(s).free != [] && p == old(s).free[0] && p < |s.page| == |old(s).page| && s == Alloc(old(s))
      ensures p != 0 ==> p !in old(s).role && InRam(old(s), p)
      ensures p != 0 ==> s.free == old(s).free[1..] && s.role == old(s).role[p := Held] && s.dying == old(s).dying
      ensures forall x: nat :: x < |old(s).page| && x != p ==> x < |s.page| && s.page[x] == old(s).page[x]
    {
      hide Roles, Tables, Partition;
      var r := s.freelist;
      if s.free != [] {
        AllocOk(s);
        assert InRam(s, s.free[0]);
      }
      assert r == 0 <==> s.free == [];
      if r != 0 {
        p := r / PGSIZE;
        s := Alloc(s);
      } else {
        p := 0;
      }
    }

    /** kfree: the page, which nothing may use any more, goes to the head of the list. */
    method Kfree(p: nat)
      requires Wf(s) && Loose(s, p)
      modifies this
      ensures p < |old(s).page| == |s.page| && s == Release(old(s), p)
      ensures Wf(s) && TablesKept(old(s), s)
      ensures s.free == [p] + old(s).free && s.role == old(s).role - {p}
      ensures forall x: nat :: x < |s.page| && x != p ==> s.page[x] == old(s).page[x]
    {
      ReleaseOk(s, p);
      s := Release(s, p);
    }

    /** walk: the bottom table and index for page number v, or table 0. With alloc, missing tables
        are created; no lookup changes. It panics at and past MAXVA. */
    method Walk(root: nat, v: nat, alloc: bool) returns (t: nat, i: nat, panics: bool)
      requires Wf(s) && IsRoot(s, root)
      modifies this
      ensures Wf(s) && IsRoot(s, root) && Kept(old(s), s) && OnlyNodes(old(s), s) && MapsKept(old(s), s)
      ensures panics <==> v >= MAX_VPN
      ensures panics ==> s == old(s)
      ensures i == Px(0, v)
      ensures !panics ==> t == Bottom(s, root, v)
      ensures !panics && t == 0 && alloc ==> s.free == [] && |old(s).free| <= 1
      ensures !alloc ==> s == old(s)
      ensures |s.free| <= |old(s).free| <= |s.free| + 2
    {
      hide Wf, Kept, OnlyNodes, MapsKept, IsRoot, Px, Lookup;
      i := Px(0, v);
      panics := v >= MAX_VPN;
      Stay(s);
      t := root;
      if panics {
        return;
      }
      WalkStart(s, root, v);
      var level := 2;
      while level > 0
        invariant 0 <= level <= 2 && Wf(s) && IsRoot(s, root)
        invariant Kept(old(s), s) && OnlyNodes(old(s), s) && MapsKept(old(s), s)
        invariant !alloc ==> s == old(s)
        invariant OnPath(s, root, v, level, t)
        invariant |s.free| <= |old(s).free| <= |s.free| + 2 - level
      {
        ghost var s1 := s;
        OnPathLive(s, root, v, level, t);
        var c := Child(s, t, Px(level, v));
        if !Valid(s.page[t][Px(level, v)]) {
          if alloc {
            c := Grow(t, Px(level, v));
            Chain(old(s), s1, s);
            GrowPath(s1, s, root, v, level, t, c);
          }
          if !alloc || c == 0 {
            DeadEnd(s, root, v, level, t);
            t := 0;
            return;
          }
        } else {
          OnPathNext(s, root, v, level, t);
        }
        t := c;
        level := level - 1;
      }
    }

    /** walk's allocation of a table for entry i of t. */
    method Grow(t: nat, i: nat) returns (c: nat)
      requires Wf(s) && Live(s, t) && InRam(s, t) && i < ENTRIES && Level(s.role[t]) > 0 && s.page[t][i] == 0
      modifies this
      ensures Wf(s) && Kept(old(s), s) && OnlyNodes(old(s), s) && MapsKept(old(s), s)
      ensures c == 0 ==> s == old(s) && s.free == []
      ensures c != 0 ==> |old(s).free| == |s.free| + 1
      ensures c != 0 ==> t < |s.page| && s.page[t][i] == c * 1024 + PTE_V && c in s.role && s.role[c].Node?
      ensures forall x: nat :: x < |s.page| && x != t && x in old(s).role ==> s.page[x] == old(s).page[x]
      ensures c != 0 ==> forall k :: 0 <= k < ENTRIES && k != i ==> s.page[t][k] == old(s).page[t][k]
    {
      hide Wf, Kept, MapsKept;
      c := Kalloc();
      TablesKeepMaps(old(s), s);
      if c != 0 {
        ghost var s1 := s;
        StoreOk(s, c, Fill(0));
        TablesKeepMaps(s, Store(s, c, Fill(0)));
        s := Store(s, c, Fill(0));
        ghost var s2 := s;
        AttachOk(s, t, i, c);
        AttachKeeps(s, t, i, c);
        s := Attach(s, t, i, c);
        GrownKept(old(s), s1, s2, s, t, i, c);
        MapsChain(old(s), s1, s2);
        MapsChain(old(s), s2, s);
      } else {
        Stay(s);
      }
    }

    /** One turn of mappages' loop; if `own`, the leaf takes over page p. */
    method MapPage(root: nat, v: nat, p: nat, perm: nat, own: bool) returns (ok: bool, panics: bool)
      requires Wf(s) && IsRoot(s, root) && LeafPerm(perm)
      requires own ==> p in s.role && s.role[p] == Held
      modifies this
      ensures Wf(s) && IsRoot(s, root) && OnlyNodes(old(s), s)
      ensures panics <==> v >= MAX_VPN || Lookup(old(s), root, v) != 0
      ensures panics ==> !ok
      ensures !ok ==> Kept(old(s), s) && MapsKept(old(s), s)
      ensures !ok && !panics ==> s.free == [] && |old(s).free| <= 1
      ensures |s.free| <= |old(s).free| <= |s.free| + 2
      ensures ok ==> MapsPut(old(s), s, root, v, Pte(p, perm))
      ensures ok && !own ==> Kept(old(s), s)
      ensures ok && own ==> p < |s.page| && MappedOwn(old(s), s, root, v, p)
    {
      hide Wf, Kept, OnlyNodes, MapsKept, MapsPut, Px, Lookup, MappedOwn, LeafPerm, Pte;
      var t, i, beyond := Walk(root, v, true);
      if beyond {
        return false, true;
      }
      LookupSame(old(s), s, root, v);
      EntryThere(s, root, v);
      if t == 0 {
        return false, false;
      }
      if Valid(s.page[t][i]) {
        return false, true;
      }
      ghost var s1 := s;
      PteParts(p, perm);
      HeldStays(old(s), s, p, own);
      BottomCanMap(s, root, v, Pte(p, perm), own);
      MapLeafOk(s, t, i, Pte(p, perm), own);
      s := MapLeaf(s, t, i, Pte(p, perm), own);
      MapLeafEffect(old(s), s1, s, root, v, p, Pte(p, perm), own);
      ok, panics := true, false;
    }

    /** mappages. On success page numbers from va's on map to consecutive pages from pa's on with
        the given permissions, and no other lookup changes; on failure the first n are mapped. It
        panics if there is nothing to map, and at the first page that is mapped already or lies past
        MAXVA, unless memory runs out before. */
    method Mappages(root: nat, va: nat, size: nat, pa: nat, perm: nat, own: bool)
      returns (r: int, panics: bool, ghost n: nat)
      requires Wf(s) && IsRoot(s, root) && LeafPerm(perm)
      requires own ==> size == PGSIZE && va % PGSIZE == 0 && pa / PGSIZE in s.role && s.role[pa / PGSIZE] == Held
      modifies this
      ensures Wf(s) && IsRoot(s, root) && OnlyNodes(old(s), s)
      ensures r == 0 || (r == -1 && (panics || s.free == []))
      ensures n <= PageCount(va, size)
      ensures r == 0 <==> size > 0 && n == PageCount(va, size)
      ensures panics <==> size == 0 || (n < PageCount(va, size) && Refused(old(s), root, va / PGSIZE + n))
      ensures MapsRange(old(s), s, root, va / PGSIZE, n, pa / PGSIZE, perm)
      ensures !own || r == -1 ==> Kept(old(s), s)
      ensures own && r == 0 ==> pa / PGSIZE < |s.page| && MappedOwn(old(s), s, root, va / PGSIZE, pa / PGSIZE)
      ensures |s.free| <= |old(s).free|
      ensures !panics ==> |old(s).free| <= |s.free| + 2 * n + if r == 0 then 0 else 1
    {
      hide Wf, Kept, OnlyNodes, MapsKept, MapsPut, Px, Lookup, MappedOwn, LeafPerm, Pte, IsRoot, MapsRange;
      PermSmall(perm);
      Stay(s);
      n, panics := 0, size == 0;
      RangeNone(s, root, va / PGSIZE, pa / PGSIZE, perm);
      if panics {
        return -1, true, 0;
      }
      var a, last, p := va / PGSIZE, (va + size - 1) / PGSIZE, pa / PGSIZE;
      while true
        invariant va / PGSIZE <= a <= last && n == a - va / PGSIZE && p == pa / PGSIZE + n
        invariant Wf(s) && IsRoot(s, root) && OnlyNodes(old(s), s) && Kept(old(s), s)
        invariant own ==> s == old(s) && a == last
        invariant MapsRange(old(s), s, root, va / PGSIZE, n, pa / PGSIZE, perm)
        invariant |s.free| <= |old(s).free| <= |s.free| + 2 * n
        decreases last - a
      {
        ghost var s1 := s;
        RangeFree(old(s), s, root, va / PGSIZE, n, pa / PGSIZE, perm);
        var ok;
        ok, panics := MapPage(root, a, p, perm, own);
        if !ok || !own {
          NodesChain(old(s), s1, s);
        }
        if !ok {
          KeptTrans(old(s), s1, s);
          RangeSame(old(s), s1, s, root, va / PGSIZE, n, pa / PGSIZE, perm);
          return -1, panics, n;
        }
        RangeNext(old(s), s1, s, root, va / PGSIZE, n, pa / PGSIZE, perm);
        n := n + 1;
        if a == last {
          if !own {
            KeptTrans(old(s), s1, s);
          }
          return 0, false, n;
        }
        KeptTrans(old(s), s1, s);
        a, p := a + 1, p + 1;
      }
    }

    /** One turn of uvmunmap's loop, or one of its panics. */
    method UnmapPage(root: nat, v: nat, doFree: bool) returns (panics: bool)
      requires Wf(s) && IsRoot(s, root) && (doFree && v < MAX_VPN && Lookup(s, root, v) != 0 ==> Owned(s, root, v))
      modifies this
      ensures panics <==> v >= MAX_VPN || Lookup(old(s), root, v) == 0
      ensures panics ==> s == old(s)
      ensures !panics ==> Wf(s) && IsRoot(s, root) && Unmapped(old(s), s, root, v, v + 1, doFree)
    {
      hide Wf, Px, Lookup, Unmapped, Owned, Leaf, Ppn, Kept, OnlyNodes, MapsKept;
      var t, i, beyond := Walk(root, v, false);
      EntryThere(s, root, v);
      if beyond || t == 0 {
        return true;
      }
      var e := s.page[t][i];
      if !Valid(e) || Flags(e) == PTE_V {
        return true;
      }
      panics := false;
      MappedBottom(s, root, v);
      ghost var s0 := s;
      if doFree {
        FrameLoose(s, root, v);
        Kfree(Ppn(e));
        FreedFrame(s0, s, root, v);
      }
      ghost var s1 := s;
      UnmapLeafOk(s, t, i);
      s := UnmapLeaf(s, t, i);
      if doFree {
        UnmapFreed(s0, s1, s, root, v);
      } else {
        UnmapHeld(s0, s, root, v);
      }
    }

    /** uvmunmap of n pages. The lookups of the first m become 0, frames go back to the free list if
        doFree, and nothing else changes; m is n unless the address is not aligned or a page is not
        mapped, where it panics. */
    method Uvmunmap(root: nat, va: nat, n: nat, doFree: bool) returns (panics: bool, ghost m: nat)
      requires Wf(s) && IsRoot(s, root)
      requires doFree ==> forall w: nat :: va / PGSIZE <= w < va / PGSIZE + n && w < MAX_VPN ==>
                            Lookup(s, root, w) == 0 || Owned(s, root, w)
      modifies this
      ensures Wf(s) && IsRoot(s, root) && m <= n && Unmapped(old(s), s, root, va / PGSIZE, va / PGSIZE + m, doFree)
      ensures panics <==> va % PGSIZE != 0 || (m < n && NotThere(old(s), root, va / PGSIZE + m))
      ensures !panics ==> m == n
    {
      hide Wf, Px, Lookup, Unmapped, Owned, Leaf, Ppn, IsRoot;
      m := 0;
      UnmappedNone(s, root, va / PGSIZE, doFree);
      if va % PGSIZE != 0 {
        return true, 0;
      }
      var v := va / PGSIZE;
      var a := v;
      while a < v + n
        invariant v <= a <= v + n && m == a - v && Wf(s) && IsRoot(s, root)
        invariant Unmapped(old(s), s, root, v, a, doFree)
      {
        ghost var s1 := s;
        AheadSame(old(s), s, root, v, a, doFree);
        panics := UnmapPage(root, a, doFree);
        if panics {
          return true, m;
        }
        UnmappedChain(old(s), s1, s, root, v, a, a + 1, doFree);
        a, m := a + 1, m + 1;
      }
      panics := false;
    }

    /** kalloc, fill, mappages: one more page of user memory, holding `data`. On failure the page
        allocated for it is freed again. Three free pages are always enough. */
    method AddPage(root: nat, v: nat, data: Page, perm: nat) returns (ok: bool)
      requires Wf(s) && IsRoot(s, root) && v < MAX_VPN && LeafPerm(perm) && Lookup(s, root, v) == 0
      modifies this
      ensures Wf(s)
      ensures !ok ==> Kept(old(s), s) && OnlyNodes(old(s), s) && MapsKept(old(s), s) && |old(s).free| < 3
      ensures ok ==> AddedWith(old(s), s, root, v, data, perm) && |old(s).free| <= |s.free| + 3
    {
      hide Wf, Px, Lookup, Kept, OnlyNodes, MapsKept, LeafPerm, Pte, MapsPut, MappedOwn, TablesKept, IsRoot, MapsRange,
           AddedWith;
      var p := Kalloc();
      TablesKeepMaps(old(s), s);
      if p == 0 {
        Stay(s);
        return false;
      }
      ghost var s1 := s;
      FreshPage(old(s), p);
      StoreOk(s, p, data);
      TablesKeepMaps(s, Store(s, p, data));
      s := Store(s, p, data);
      ghost var s2 := s;
      StoredFresh(old(s), s, p, data);
      MapsChain(old(s), s1, s2);
      LookupSame(old(s), s2, root, v);
      RootStays(old(s), s2, root);
      PageSpan(v, p);
      var r, panics, n := Mappages(root, v * PGSIZE, PGSIZE, p * PGSIZE, perm, true);
      assert !panics;
      RangeOne(s2, s, root, v, n, p, perm);
      if r != 0 {
        ghost var s3 := s;
        HeldLoose(s2, s, p);
        Kfree(p);
        TablesKeepMaps(s3, s);
        MapsChain(old(s), s2, s3);
        MapsChain(old(s), s3, s);
        Undone(old(s), s2, s3, s, p);
        return false;
      }
      Placed(old(s), s2, s, root, v, p, data, perm);
      ok := true;
    }

    /** uvmalloc. On success the pages from oldsz's end to newsz are mapped to zeroed pages from the
        free list; on failure every lookup and every page in use is as before the call, but for
        spare table nodes. It fails only with fewer than three free pages per page asked for. */
    method Uvmalloc(root: nat, oldsz: nat, newsz: nat, xperm: nat) returns (r: nat)
      requires Wf(s) && IsRoot(s, root) && newsz <= MAX_VPN * PGSIZE && xperm in {0, PTE_W, PTE_X, PTE_W + PTE_X}
      requires forall w: nat :: RoundUp(oldsz) <= w < RoundUp(newsz) ==> Lookup(s, root, w) == 0
      modifies this
      ensures Wf(s)
      ensures newsz < oldsz ==> r == oldsz && s == old(s)
      ensures newsz >= oldsz ==> r == newsz || r == 0
      ensures newsz >= oldsz && r == newsz != 0 ==>
                Span(old(s), s, root, RoundUp(oldsz), RoundUp(newsz))
                && forall w: nat :: RoundUp(oldsz) <= w < RoundUp(newsz) ==> Zeroed(s, root, w, xperm)
      ensures newsz >= oldsz && r == 0 ==> Kept(old(s), s) && OnlyNodes(old(s), s) && MapsKept(old(s), s)
      ensures newsz >= oldsz && r == 0 != newsz ==> |old(s).free| < 3 * (RoundUp(newsz) - RoundUp(oldsz))
    {
      hide Wf, Px, Lookup, Kept, OnlyNodes, MapsKept, Span, AddedWith, Holds, Zeroed, RoundUp, LeafPerm, IsRoot;
      Stay(s);
      if newsz < oldsz {
        return oldsz;
      }
      RoundUpMono(oldsz, newsz);
      RoundUpBound(newsz);
      var a, hi := RoundUp(oldsz), RoundUp(newsz);
      SpanNone(s, root, a);
      UserPerm(xperm);
      while a < hi
        invariant RoundUp(oldsz) <= a <= hi && Span(old(s), s, root, RoundUp(oldsz), a)
        invariant forall w: nat :: RoundUp(oldsz) <= w < a ==> Zeroed(s, root, w, xperm)
        invariant |old(s).free| <= |s.free| + 3 * (a - RoundUp(oldsz))
      {
        ghost var s1 := s;
        SpanNext(old(s), s, root, RoundUp(oldsz), a);
        var ok := AddPage(root, a, Fill(0), PTE_R + PTE_U + xperm);
        if !ok {
          SpanFailed(old(s), s1, s, root, RoundUp(oldsz), a);
          Undo(root, RoundUp(oldsz), a, old(s));
          return 0;
        }
        SpanAdded(old(s), s1, s, root, RoundUp(oldsz), a, Fill(0), PTE_R + PTE_U + xperm);
        ZeroedMore(s1, s, root, RoundUp(oldsz), a, xperm);
        a := a + 1;
      }
      SpanWf(old(s), s, root, RoundUp(oldsz), a);
      if newsz == 0 {
        RoundUpZero();
        SpanEmpty(old(s), s, root, RoundUp(oldsz));
      }
      r := newsz;
    }

    /** The undo of uvmalloc and uvmcopy: unmap and free what was mapped so far. */
    method Undo(root: nat, lo: nat, hi: nat, ghost s0: Mem)
      requires Span(s0, s, root, lo, hi) && lo <= hi <= MAX_VPN
      modifies this
      ensures Wf(s) && Kept(s0, s) && OnlyNodes(s0, s) && MapsKept(s0, s)
    {
      hide Wf, Px, Lookup, Kept, OnlyNodes, MapsKept, Unmapped, Owned, Leaf, Ppn;
      ghost var s1 := s;
      forall w: nat | lo <= w < hi ensures Owned(s, root, w) {
        assert Fresh(s0, s, root, w);
      }
      OwnedLeaves(s, root, lo, hi);
      PageSpan(lo, 0);
      var panics, _ := Uvmunmap(root, lo * PGSIZE, hi - lo, true);
      assert !panics;
      SpanUndo(s0, s1, s, root, lo, hi);
    }
  }

  /** The table that walk stands on at each level. */
  ghost predicate OnPath(s: Mem, root: nat, v: nat, level: nat, t: nat) {
    t != 0 && if level == 2 then t == root else if level == 1 then t == Middle(s, root, v) else t == Bottom(s, root, v)
  }

  lemma WalkStart(s: Mem, root: nat, v: nat)
    requires Wf(s) && IsRoot(s, root)
    ensures OnPath(s, root, v, 2, root)
  {
  }

  lemma OnPathLive(s: Mem, root: nat, v: nat, level: nat, t: nat)
    requires Wf(s) && IsRoot(s, root) && 0 < level <= 2 && OnPath(s, root, v, level, t)
    ensures Live(s, t) && InRam(s, t) && Level(s.role[t]) == level && (level == 1 ==> t != root)
    ensures s.page[t][Px(level, v)] == 0 <==> !Valid(s.page[t][Px(level, v)])
  {
    hide Wf, Px;
    PathOk(s, root, v);
    ChildOk(s, t, Px(level, v));
  }

  lemma OnPathNext(s: Mem, root: nat, v: nat, level: nat, t: nat)
    requires Wf(s) && IsRoot(s, root) && 0 < level <= 2 && OnPath(s, root, v, level, t)
    requires t < |s.page| && Valid(s.page[t][Px(level, v)])
    ensures OnPath(s, root, v, level - 1, Child(s, t, Px(level, v)))
  {
    hide Wf, Px;
    PathOk(s, root, v);
    ChildOk(s, t, Px(level, v));
  }

  lemma DeadEnd(s: Mem, root: nat, v: nat, level: nat, t: nat)
    requires 0 < level <= 2 && OnPath(s, root, v, level, t) && t < |s.page| && s.page[t][Px(level, v)] == 0
    ensures Bottom(s, root, v) == 0
  {
    hide Px;
  }

  lemma Stay(s: Mem)
    ensures Kept(s, s) && OnlyNodes(s, s) && MapsKept(s, s)
  {
  }

  lemma MapsChain(s: Mem, t: Mem, u: Mem)
    requires MapsKept(s, t) && MapsKept(t, u)
    ensures MapsKept(s, u)
  {
    hide Lookup, IsRoot;
  }

  lemma Chain(s: Mem, t: Mem, u: Mem)
    requires Kept(s, t) && OnlyNodes(s, t) && MapsKept(s, t)
    requires Kept(t, u) && OnlyNodes(t, u) && MapsKept(t, u)
    ensures Kept(s, u) && OnlyNodes(s, u) && MapsKept(s, u)
  {
    hide Lookup, IsRoot, MapsKept;
    MapsChain(s, t, u);
  }

  lemma GrownKept(s: Mem, s1: Mem, s2: Mem, u: Mem, t: nat, i: nat, c: nat)
    requires Kept(s, s1) && c !in s.role && c < |s1.page| && s.free != [] && s.free[0] == c && s1 == Alloc(s)
    requires s2 == Store(s1, c, Fill(0)) && IsTable(s, t) && IsTable(s2, t) && t < |s2.page| && i < ENTRIES
    requires Level(s2.role[t]) > 0 && u == Attach(s2, t, i, c)
    ensures Kept(s, u) && OnlyNodes(s, u)
  {
  }

  lemma GrowPath(s: Mem, u: Mem, root: nat, v: nat, level: nat, t: nat, c: nat)
    requires Wf(s) && Wf(u) && IsRoot(s, root) && MapsKept(s, u) && 0 < level <= 2 && OnPath(s, root, v, level, t)
    requires t < |s.page| && s.page[t][Px(level, v)] == 0 && (c == 0 ==> u == s)
    requires c != 0 ==> t < |u.page| && u.page[t][Px(level, v)] == c * 1024 + PTE_V
    requires Kept(s, u) && forall x: nat :: x < |u.page| && x != t && x in s.role ==> u.page[x] == s.page[x]
    requires t in s.role && (level == 1 ==> t != root)
    ensures IsRoot(u, root)
    ensures c != 0 ==> OnPath(u, root, v, level - 1, c)
  {
    hide Wf, Px, Lookup;
    assert Ppn(c * 1024 + PTE_V) == c;
  }

  // ---- mapping ----

  /** Page p, held before, is now the frame of v's leaf, with its contents. */
  ghost predicate MappedOwn(s: Mem, u: Mem, root: nat, v: nat, p: nat) {
    && KeptBut(s, u, p) && Bottom(u, root, v) != 0
    && p in u.role && u.role[p] == Frame(Bottom(u, root, v), Px(0, v))
    && p < |s.page| == |u.page| && u.page[p] == s.page[p]
  }

  lemma LookupSame(s: Mem, u: Mem, root: nat, v: nat)
    requires IsRoot(s, root) && v < VPN_LIMIT && MapsKept(s, u)
    ensures Lookup(u, root, v) == Lookup(s, root, v)
  {
  }

  lemma HeldStays(s: Mem, u: Mem, p: nat, own: bool)
    requires Kept(s, u) && (own ==> p in s.role && s.role[p] == Held)
    ensures own ==> p in u.role && u.role[p] == Held
  {
  }

  lemma BottomCanMap(s: Mem, root: nat, v: nat, e: nat, own: bool)
    requires Wf(s) && IsRoot(s, root) && Bottom(s, root, v) != 0 && Lookup(s, root, v) == 0 && Leaf(e)
    requires own ==> Ppn(e) in s.role && s.role[Ppn(e)] == Held
    ensures CanMap(s, Bottom(s, root, v), Px(0, v), e, own)
  {
    hide Wf, Px, Leaf, Ppn;
    PathOk(s, root, v);
  }

  lemma MapLeafEffect(s0: Mem, s: Mem, u: Mem, root: nat, v: nat, p: nat, e: nat, own: bool)
    requires Wf(s0) && Wf(s) && Wf(u) && IsRoot(s0, root) && v < VPN_LIMIT && Bottom(s, root, v) != 0
    requires Kept(s0, s) && OnlyNodes(s0, s) && MapsKept(s0, s)
    requires CanMap(s, Bottom(s, root, v), Px(0, v), e, own) && Ppn(e) == p
    requires u == MapLeaf(s, Bottom(s, root, v), Px(0, v), e, own)
    requires own ==> p in s0.role && s0.role[p] == Held
    ensures IsRoot(u, root) && OnlyNodes(s0, u) && MapsPut(s0, u, root, v, e)
    ensures !own ==> Kept(s0, u)
    ensures own ==> p < |u.page| && MappedOwn(s0, u, root, v, p)
  {
    hide Wf, Px, Lookup, Leaf, Ppn, Bottom;
    assert IsRoot(s, root);
    PutLeafMaps(s, u, root, v, e);
    PutChain(s0, s, u, root, v, e);
    if own {
      PutLeafAt(s, u, root, v, e, root, v);
      HeldRam(s, p);
    }
  }

  lemma HeldRam(s: Mem, p: nat)
    requires Wf(s) && p in s.role
    ensures InRam(s, p)
  {
    assert RoleOk(s, p);
  }

  lemma PutChain(s0: Mem, s: Mem, u: Mem, root: nat, v: nat, e: nat)
    requires MapsKept(s0, s) && MapsPut(s, u, root, v, e)
    ensures MapsPut(s0, u, root, v, e)
  {
    hide Lookup, IsRoot;
  }

  lemma NodesChain(s: Mem, t: Mem, u: Mem)
    requires OnlyNodes(s, t) && OnlyNodes(t, u) && Kept(t, u)
    ensures OnlyNodes(s, u)
  {
  }

  /** root maps the n page numbers from first on to pages p, p + 1, ...; all other lookups are as
      before. */
  ghost predicate MapsRange(s: Mem, u: Mem, root: nat, first: nat, n: nat, p: nat, perm: nat)
    requires perm < 1024
  {
    && (forall q: nat :: IsRoot(s, q) ==> IsRoot(u, q))
    && (forall q: nat, w: nat :: IsRoot(s, q) && w < VPN_LIMIT ==>
          Lookup(u, q, w) == if q == root && first <= w < first + n then Pte(p + w - first, perm) else Lookup(s, q, w))
  }

  /** The pages that [va, va + size) touches. */
  function PageCount(va: nat, size: nat): nat {
    if size == 0 then 0 else (va + size - 1) / PGSIZE - va / PGSIZE + 1
  }

  /** mappages panics at this page. */
  predicate Refused(s: Mem, root: nat, v: nat) { v >= MAX_VPN || Lookup(s, root, v) != 0 }

  /** uvmunmap panics at this page. */
  predicate NotThere(s: Mem, root: nat, v: nat) { v >= MAX_VPN || Lookup(s, root, v) == 0 }

  /** Bottom-level entries are 0 or leaves. */
  lemma EntryThere(s: Mem, root: nat, v: nat)
    requires Wf(s) && IsRoot(s, root)
    ensures var t := Bottom(s, root, v);
            && (t == 0 ==> Lookup(s, root, v) == 0)
            && (t != 0 ==> t < |s.page| && s.page[t][Px(0, v)] == Lookup(s, root, v))
    ensures Lookup(s, root, v) == 0 || Leaf(Lookup(s, root, v))
    ensures Valid(Lookup(s, root, v)) && Flags(Lookup(s, root, v)) != PTE_V <==> Lookup(s, root, v) != 0
    ensures Valid(Lookup(s, root, v)) <==> Lookup(s, root, v) != 0
  {
    hide Partition, Linked, Roles, Px, Leaf, Valid, Flags;
    PathOk(s, root, v);
    var t := Bottom(s, root, v);
    LeafBits(Lookup(s, root, v));
    if t != 0 {
      assert EntryOk(s, t, Px(0, v));
    }
  }

  lemma LeafBits(e: nat)
    ensures Leaf(e) ==> e != 0 && Valid(e) && Flags(e) != PTE_V
    ensures Valid(e) ==> e != 0
  {
    if Flags(e) == PTE_V {
      var q := e / 1024;
      assert e == (q * 512) * 2 + 1;
      DivMod(q * 512, 2, 1);
      assert q * 512 == (q * 64) * 8 + 0;
      DivMod(q * 64, 8, 0);
    }
  }

  lemma PermSmall(perm: nat)
    requires LeafPerm(perm)
    ensures perm < 1024
  {
  }

  lemma RangeNone(s: Mem, root: nat, first: nat, p: nat, perm: nat)
    requires perm < 1024
    ensures MapsRange(s, s, root, first, 0, p, perm)
  {
    hide Lookup, IsRoot, Pte;
  }

  lemma RangeFree(s: Mem, u: Mem, root: nat, first: nat, n: nat, p: nat, perm: nat)
    requires perm < 1024 && IsRoot(s, root) && MapsRange(s, u, root, first, n, p, perm)
    ensures Refused(u, root, first + n) == Refused(s, root, first + n)
  {
    hide Lookup, IsRoot, Pte;
  }

  lemma RangeSame(s: Mem, t: Mem, u: Mem, root: nat, first: nat, n: nat, p: nat, perm: nat)
    requires perm < 1024 && MapsRange(s, t, root, first, n, p, perm) && MapsKept(t, u)
    ensures MapsRange(s, u, root, first, n, p, perm)
  {
    hide Lookup, IsRoot, Pte;
  }

  lemma RangeNext(s: Mem, t: Mem, u: Mem, root: nat, first: nat, n: nat, p: nat, perm: nat)
    requires perm < 1024 && MapsRange(s, t, root, first, n, p, perm) && MapsPut(t, u, root, first + n, Pte(p + n, perm))
    ensures MapsRange(s, u, root, first, n + 1, p, perm)
  {
    hide Lookup, IsRoot, Pte;
  }

  // ---- unmapping ----

  lemma MappedBottom(s: Mem, root: nat, v: nat)
    requires Wf(s) && IsRoot(s, root) && Leaf(Lookup(s, root, v))
    ensures var t := Bottom(s, root, v);
            t != 0 && t < |s.page| && CanUnmap(s, t, Px(0, v)) && s.page[t][Px(0, v)] == Lookup(s, root, v)
  {
    hide Wf, Px;
    PathOk(s, root, v);
  }

  lemma FrameLoose(s: Mem, root: nat, v: nat)
    requires Wf(s) && Owned(s, root, v)
    ensures Loose(s, Ppn(Lookup(s, root, v))) && Ppn(Lookup(s, root, v)) !in s.dying
  {
    hide Linked, Partition, Tables, Px, Leaf, Lookup;
    var p := Ppn(Lookup(s, root, v));
    assert RoleOk(s, p);
    forall q | q in s.role
      ensures !(s.role[q].Node? && s.role[q].tab == p) && !(s.role[q].Frame? && s.role[q].tab == p)
    {
      assert RoleOk(s, q);
    }
  }

  /** kfree of the frame leaves the tree, and the leaf, as they are. */
  lemma FreedFrame(s: Mem, u: Mem, root: nat, v: nat)
    requires Wf(s) && IsRoot(s, root) && Owned(s, root, v) && Ppn(Lookup(s, root, v)) < |s.page|
    requires u == Release(s, Ppn(Lookup(s, root, v))) && Wf(u) && TablesKept(s, u)
    ensures IsRoot(u, root) && Bottom(u, root, v) == Bottom(s, root, v) && Lookup(u, root, v) == Lookup(s, root, v)
    ensures CanUnmap(u, Bottom(s, root, v), Px(0, v))
  {
    hide Wf, Px, Leaf, Ppn;
    PathOk(s, root, v);
    assert Live(s, root);
    assert Live(s, Middle(s, root, v)) && Live(s, Bottom(s, root, v));
  }

  lemma UnmapFreed(s: Mem, s1: Mem, u: Mem, root: nat, v: nat)
    requires Wf(s) && Wf(s1) && Wf(u) && IsRoot(s, root) && v < VPN_LIMIT && Owned(s, root, v)
    requires Ppn(Lookup(s, root, v)) < |s.page| && s1 == Release(s, Ppn(Lookup(s, root, v))) && TablesKept(s, s1)
    requires Bottom(s, root, v) < |s1.page| && u == UnmapLeaf(s1, Bottom(s, root, v), Px(0, v))
    ensures IsRoot(u, root) && Unmapped(s, u, root, v, v + 1, true)
  {
    hide Wf, Px, Leaf, Lookup, Bottom, Unmapped;
    FreedFrame(s, s1, root, v);
    FrameLoose(s, root, v);
    assert s1.dying == s.dying;
    TablesKeepMaps(s, s1);
    UnmapMaps(s1, u, root, v);
    PutChain(s, s1, u, root, v, 0);
    var p := Ppn(Lookup(s, root, v));
    FrameSlotBottom(s1, root, v);
    UnmapRoles(s, u, root, v, true);
  }

  lemma FrameSlotBottom(s: Mem, root: nat, v: nat)
    requires Wf(s) && IsRoot(s, root) && Bottom(s, root, v) != 0
    ensures Bottom(s, root, v) < |s.page| && IsTable(s, Bottom(s, root, v))
    ensures s.page[Bottom(s, root, v)][Px(0, v)] == Lookup(s, root, v)
  {
    hide Wf, Px;
    PathOk(s, root, v);
  }

  lemma UnmapMaps(s: Mem, u: Mem, root: nat, v: nat)
    requires Wf(s) && IsRoot(s, root) && v < VPN_LIMIT && CanUnmap(s, Bottom(s, root, v), Px(0, v))
    requires Bottom(s, root, v) != 0
    requires u == UnmapLeaf(s, Bottom(s, root, v), Px(0, v))
    ensures MapsPut(s, u, root, v, 0)
  {
    hide Wf, Px, Lookup, Ppn, MapsPut, Bottom;
    PutLeafMaps(s, u, root, v, 0);
  }

  lemma UnmapHeld(s: Mem, u: Mem, root: nat, v: nat)
    requires Wf(s) && IsRoot(s, root) && v < VPN_LIMIT && CanUnmap(s, Bottom(s, root, v), Px(0, v))
    requires Bottom(s, root, v) != 0
    requires Wf(u) && u == UnmapLeaf(s, Bottom(s, root, v), Px(0, v)) && Leaf(Lookup(s, root, v))
    ensures IsRoot(u, root) && Unmapped(s, u, root, v, v + 1, false)
  {
    hide Wf, Px, Leaf, Lookup, Bottom, Unmapped;
    UnmapMaps(s, u, root, v);
    FrameSlotBottom(s, root, v);
    UnmapRoles(s, u, root, v, false);
  }

  /** The roles after one leaf went. */
  lemma UnmapRoles(s: Mem, u: Mem, root: nat, v: nat, free: bool)
    requires Wf(s) && IsRoot(s, root) && v < VPN_LIMIT && Leaf(Lookup(s, root, v)) && Bottom(s, root, v) != 0
    requires MapsPut(s, u, root, v, 0) && u.lo == s.lo && |u.page| == |s.page| && u.dying == s.dying
    requires var p := Ppn(Lookup(s, root, v));
             u.role == if !Owned(s, root, v) then s.role else if free then s.role - {p} else s.role[p := Held]
    requires forall q :: q in s.role && !IsTable(s, q) && q < |s.page| && q != Ppn(Lookup(s, root, v)) ==>
              u.page[q] == s.page[q]
    requires !free || !Owned(s, root, v) ==>
              forall q :: q in s.role && !IsTable(s, q) && q < |s.page| ==> u.page[q] == s.page[q]
    ensures Unmapped(s, u, root, v, v + 1, free)
  {
    hide Wf, Px, Leaf, Lookup, Bottom, Owned, FrameIn, Ppn;
    var p := Ppn(Lookup(s, root, v));
    forall q: nat | FrameIn(s, q, root, v, v + 1) ensures q == p && Owned(s, root, v) && q in s.role {
      FrameInAt(s, q, root, v);
    }
    if Owned(s, root, v) {
      OwnedFrameIn(s, root, v);
    }
  }

  lemma FrameInAt(s: Mem, q: nat, root: nat, v: nat)
    requires Wf(s) && IsRoot(s, root) && FrameIn(s, q, root, v, v + 1)
    ensures Owned(s, root, v) && Ppn(Lookup(s, root, v)) == q && q in s.role
  {
    hide Wf, Px, Leaf, Lookup, Bottom, Owned, Ppn, SlotVpn;
    FrameInOwned(s, q, root, v, v + 1);
  }

  /** Pages not reached yet are as they were. */
  lemma AheadSame(s: Mem, u: Mem, root: nat, lo: nat, a: nat, free: bool)
    requires Wf(s) && Wf(u) && IsRoot(s, root) && lo <= a && Unmapped(s, u, root, lo, a, free)
    ensures a < MAX_VPN ==> Lookup(u, root, a) == Lookup(s, root, a)
    ensures a < MAX_VPN && free && Owned(s, root, a) ==> Owned(u, root, a)
  {
    hide Wf, Px, Leaf, Lookup, Bottom, FrameIn, Ppn;
    if a < MAX_VPN && free && Owned(s, root, a) {
      TablesStay(s, u, root, lo, a, free);
      BottomKept(s, u, root, a);
      OwnedFrameIn(s, root, a);
    }
  }

  // ---- user memory ----

  /** Pages needed for sz bytes: PGROUNDUP(sz) / PGSIZE. */
  function RoundUp(sz: nat): nat { (sz + PGSIZE - 1) / PGSIZE }

  lemma RoundUpMono(a: nat, b: nat)
    requires a <= b
    ensures RoundUp(a) <= RoundUp(b)
  {
  }

  lemma RoundUpBound(sz: nat)
    requires sz <= MAX_VPN * PGSIZE
    ensures RoundUp(sz) <= MAX_VPN
  {
  }

  lemma RoundUpZero()
    ensures RoundUp(0) == 0
  {
  }

  function FlagsOf(perm: nat): nat { if perm % 2 == 0 then perm + PTE_V else perm }

  /** v's page in tree root holds `data`, and its leaf has these flags. */
  ghost predicate Holds(s: Mem, root: nat, v: nat, data: Page, flags: nat) {
    var e := Lookup(s, root, v);
    Ppn(e) < |s.page| && s.page[Ppn(e)] == data && Flags(e) == flags
  }

  /** v's page is zeroed user memory with permissions xperm besides reading. */
  ghost predicate Zeroed(s: Mem, root: nat, v: nat, xperm: nat) {
    Holds(s, root, v, Fill(0), PTE_R + PTE_U + xperm + PTE_V)
  }

  lemma ZeroedMore(s: Mem, u: Mem, root: nat, lo: nat, hi: nat, xperm: nat)
    requires forall w: nat :: lo <= w < hi ==> Zeroed(s, root, w, xperm)
    requires Holds(u, root, hi, Fill(0), PTE_R + PTE_U + xperm + PTE_V)
    requires forall w: nat, d: Page, f: nat :: lo <= w < hi && Holds(s, root, w, d, f) ==> Holds(u, root, w, d, f)
    ensures forall w: nat :: lo <= w < hi + 1 ==> Zeroed(u, root, w, xperm)
  {
    hide Holds;
    forall w: nat | lo <= w < hi + 1 ensures Zeroed(u, root, w, xperm) {
      if w < hi {
        assert Zeroed(s, root, w, xperm);
      }
    }
  }

  ghost predicate AddedWith(s: Mem, u: Mem, root: nat, v: nat, data: Page, perm: nat) {
    Added(s, u, root, v, Lookup(u, root, v)) && Holds(u, root, v, data, FlagsOf(perm))
  }

  lemma FreshPage(s: Mem, p: nat)
    requires Wf(s) && s.free != [] && p == s.free[0] && p < |s.page| && p !in s.role && InRam(s, p)
    ensures Writable(Alloc(s), p)
  {
  }

  lemma StoredFresh(s: Mem, u: Mem, p: nat, data: Page)
    requires s.free != [] && p == s.free[0] && p < |s.page| && p !in s.role && u == Store(Alloc(s), p, data)
    ensures KeptBut(s, u, p) && Kept(s, u) && u.role == s.role[p := Held] && u.page[p] == data && |u.page| == |s.page|
  {
  }

  lemma RootStays(s: Mem, u: Mem, root: nat)
    requires IsRoot(s, root) && MapsKept(s, u)
    ensures IsRoot(u, root)
  {
  }

  lemma PageSpan(v: nat, p: nat)
    ensures v * PGSIZE / PGSIZE == v && (v * PGSIZE + PGSIZE - 1) / PGSIZE == v && v * PGSIZE % PGSIZE == 0
    ensures p * PGSIZE / PGSIZE == p
  {
  }

  lemma RangeOne(s: Mem, u: Mem, root: nat, v: nat, n: nat, p: nat, perm: nat)
    requires LeafPerm(perm) && MapsRange(s, u, root, v, n, p, perm) && IsRoot(s, root) && v < VPN_LIMIT
    ensures n == 1 ==> MapsPut(s, u, root, v, Pte(p, perm))
    ensures n == 0 ==> MapsKept(s, u)
  {
    hide Lookup, IsRoot, Pte;
  }

  lemma HeldLoose(s: Mem, u: Mem, p: nat)
    requires Kept(s, u) && Wf(u) && p in s.role && s.role[p] == Held
    ensures Loose(u, p) && p !in u.dying
  {
    hide Linked, Partition, Tables;
    assert RoleOk(u, p);
    forall q | q in u.role
      ensures !(u.role[q].Node? && u.role[q].tab == p) && !(u.role[q].Frame? && u.role[q].tab == p)
    {
      assert RoleOk(u, q);
    }
  }

  lemma Undone(s: Mem, s2: Mem, s3: Mem, u: Mem, p: nat)
    requires Kept(s, s2) && s2.role == s.role[p := Held] && p !in s.role && Kept(s2, s3) && OnlyNodes(s2, s3)
    requires p < |s3.page| && u == Release(s3, p) && p !in s3.dying
    ensures Kept(s, u) && OnlyNodes(s, u)
  {
    assert s3.dying - {p} == s3.dying;
  }

  lemma Placed(s: Mem, s2: Mem, u: Mem, root: nat, v: nat, p: nat, data: Page, perm: nat)
    requires Wf(s) && Wf(u) && IsRoot(s, root) && v < VPN_LIMIT && LeafPerm(perm) && Lookup(s, root, v) == 0
    requires Kept(s, s2) && MapsKept(s, s2) && p !in s.role && s2.role == s.role[p := Held]
    requires p < |s2.page| && s2.page[p] == data
    requires MapsPut(s2, u, root, v, Pte(p, perm)) && OnlyNodes(s2, u) && MappedOwn(s2, u, root, v, p)
    ensures AddedWith(s, u, root, v, data, perm)
  {
    hide Wf, Px, Lookup, Bottom, Pte, LeafPerm, Leaf, Ppn, IsRoot;
    PteParts(p, perm);
    PutChain(s, s2, u, root, v, Pte(p, perm));
    assert Lookup(u, root, v) == Pte(p, perm);
    assert Owned(u, root, v);
    assert Kept(s, u);
  }

  lemma UserPerm(xperm: nat)
    requires xperm in {0, PTE_W, PTE_X, PTE_W + PTE_X}
    ensures LeafPerm(PTE_R + PTE_U + xperm) && FlagsOf(PTE_R + PTE_U + xperm) == PTE_R + PTE_U + xperm + PTE_V
  {
  }

  lemma SpanNext(s0: Mem, s: Mem, root: nat, lo: nat, a: nat)
    requires Span(s0, s, root, lo, a) && a < VPN_LIMIT
    ensures Wf(s) && IsRoot(s, root) && IsRoot(s0, root) && Kept(s0, s) && Lookup(s, root, a) == Lookup(s0, root, a)
  {
    hide Wf, Lookup, IsRoot, Kept;
  }

  lemma SpanWf(s0: Mem, s: Mem, root: nat, lo: nat, a: nat)
    requires Span(s0, s, root, lo, a)
    ensures Wf(s)
  {
  }

  lemma SpanEmpty(s0: Mem, s: Mem, root: nat, lo: nat)
    requires Span(s0, s, root, lo, lo)
    ensures Kept(s0, s) && OnlyNodes(s0, s) && MapsKept(s0, s)
  {
    hide Wf, Lookup, IsRoot, Kept, SlotVpn;
  }

  /** A failed AddPage leaves the span as it was. */
  lemma SpanFailed(s0: Mem, s: Mem, u: Mem, root: nat, lo: nat, hi: nat)
    requires Span(s0, s, root, lo, hi) && Wf(u) && Kept(s, u) && OnlyNodes(s, u) && MapsKept(s, u)
    ensures Span(s0, u, root, lo, hi)
  {
    hide Wf, Lookup, FrameIn, Owned, Ppn;
    KeptTrans(s0, s, u);
    forall w: nat | lo <= w < hi ensures Fresh(s0, u, root, w) {
      assert Fresh(s0, s, root, w) && IsRoot(s, root);
      OwnedKept(s, u, root, w);
    }
    forall p | New(s0, u, p) && !u.role[p].Node? ensures FrameIn(u, p, root, lo, hi) {
      assert p in s.role;
      FrameInSame(s, u, p, root, lo, hi);
    }
  }

  lemma SpanAdded(s0: Mem, s: Mem, u: Mem, root: nat, lo: nat, hi: nat, data: Page, perm: nat)
    requires Span(s0, s, root, lo, hi) && lo <= hi && AddedWith(s, u, root, hi, data, perm)
    ensures Span(s0, u, root, lo, hi + 1) && Wf(u)
    ensures Holds(u, root, hi, data, FlagsOf(perm))
    ensures forall w: nat, d: Page, f: nat :: lo <= w < hi && Holds(s, root, w, d, f) ==> Holds(u, root, w, d, f)
  {
    hide Wf, Lookup, FrameIn, Owned, Ppn, Span, Flags;
    SpanGrow(s0, s, u, root, lo, hi, Lookup(u, root, hi));
  }

  lemma OwnedLeaves(s: Mem, root: nat, lo: nat, hi: nat)
    requires forall w: nat :: lo <= w < hi ==> Owned(s, root, w)
    ensures forall w: nat :: lo <= w < hi ==> Leaf(Lookup(s, root, w)) && Lookup(s, root, w) != 0
  {
    hide Lookup, Bottom;
    forall w: nat | lo <= w < hi ensures Leaf(Lookup(s, root, w)) && Lookup(s, root, w) != 0 {
      assert Owned(s, root, w);
    }
  }
}

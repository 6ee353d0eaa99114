/** Ranges of a page table: what mapping and unmapping whole ranges leaves behind. */
module VmSpan {
  import opened PageMem
  import opened PageWalk

  /** All pages in use but x keep their roles, and their contents unless they are tables. */
  ghost predicate KeptBut(s: Mem, u: Mem, x: nat) {
    && u.lo == s.lo && |u.page| == |s.page| && u.dying == s.dying
    && (forall p :: p in s.role && p != x ==> p in u.role && u.role[p] == s.role[p])
    && (forall p :: p in s.role && p != x && !IsTable(s, p) && p < |s.page| ==> u.page[p] == s.page[p])
  }

  /** The entries of root for page numbers in [lo, hi) are cleared and nothing else changes. The
      frames they owned are free again, or merely held if `free` is off. */
  ghost predicate Unmapped(s: Mem, u: Mem, root: nat, lo: nat, hi: nat, free: bool) {
    && u.lo == s.lo && |u.page| == |s.page| && u.dying == s.dying
    && (forall q: nat :: IsRoot(s, q) ==> IsRoot(u, q))
    && (forall q: nat, w: nat :: IsRoot(s, q) && w < VPN_LIMIT ==>
          Lookup(u, q, w) == if q == root && lo <= w < hi then 0 else Lookup(s, q, w))
    && (forall p :: p in u.role ==> p in s.role)
    && (forall p :: p in s.role && !FrameIn(s, p, root, lo, hi) ==>
          p in u.role && u.role[p] == s.role[p] && (!IsTable(s, p) && p < |s.page| ==> u.page[p] == s.page[p]))
    && (forall p :: p in s.role && FrameIn(s, p, root, lo, hi) ==>
          if free then p !in u.role else p in u.role && u.role[p] == Held)
  }

  lemma UnmappedNone(s: Mem, root: nat, lo: nat, free: bool)
    ensures Unmapped(s, s, root, lo, lo, free)
  {
  }

  /** The same slot in two states whose tables agree. */
  lemma FrameInSame(s: Mem, u: Mem, p: nat, root: nat, lo: nat, hi: nat)
    requires Wf(s) && p in s.role && p in u.role && u.role[p] == s.role[p]
    requires forall t :: IsTable(s, t) ==> t in u.role && u.role[t] == s.role[t]
    ensures FrameIn(u, p, root, lo, hi) == FrameIn(s, p, root, lo, hi)
  {
    hide Linked, Partition, Tables;
    if s.role[p].Frame? {
      var t := s.role[p].tab;
      assert RoleOk(s, p);
      assert RoleOk(s, t);
      assert IsTable(s, t) && IsTable(s, Parent(s, t));
    }
  }

  lemma UnmappedChain(s: Mem, t: Mem, u: Mem, root: nat, lo: nat, mid: nat, hi: nat, free: bool)
    requires Wf(s) && Wf(t) && lo <= mid <= hi
    requires Unmapped(s, t, root, lo, mid, free) && Unmapped(t, u, root, mid, hi, free)
    ensures Unmapped(s, u, root, lo, hi, free)
  {
    hide Wf, Lookup, IsRoot, FrameIn;
    FrameInSplit(s, root, lo, mid, hi);
    TablesStay(s, t, root, lo, mid, free);
    forall p | p in s.role && !FrameIn(s, p, root, lo, mid)
      ensures FrameIn(t, p, root, mid, hi) == FrameIn(s, p, root, mid, hi)
    {
      FrameInSame(s, t, p, root, mid, hi);
    }
    forall p | p in s.role && FrameIn(s, p, root, lo, mid) && p in t.role ensures !FrameIn(t, p, root, mid, hi) {
      HeldNotFrame(t, p, root, mid, hi);
    }
  }

  lemma HeldNotFrame(t: Mem, p: nat, root: nat, lo: nat, hi: nat)
    requires p in t.role && t.role[p] == Held
    ensures !FrameIn(t, p, root, lo, hi)
  {
  }

  lemma FrameInSplit(s: Mem, root: nat, lo: nat, mid: nat, hi: nat)
    requires lo <= mid <= hi
    ensures forall p: nat ::
              FrameIn(s, p, root, lo, hi) <==> FrameIn(s, p, root, lo, mid) || FrameIn(s, p, root, mid, hi)
    ensures forall p: nat :: !(FrameIn(s, p, root, lo, mid) && FrameIn(s, p, root, mid, hi))
    ensures forall p: nat :: FrameIn(s, p, root, lo, hi) ==> p in s.role && s.role[p].Frame?
  {
  }

  lemma TablesStay(s: Mem, t: Mem, root: nat, lo: nat, hi: nat, free: bool)
    requires Unmapped(s, t, root, lo, hi, free)
    ensures forall p :: IsTable(s, p) ==> p in t.role && t.role[p] == s.role[p]
  {
    forall p | IsTable(s, p) ensures p in t.role && t.role[p] == s.role[p] {
      assert !FrameIn(s, p, root, lo, hi);
    }
  }

  // ---- growing ----

  /** Since s0, root's page numbers in [lo, hi), unmapped before, have been mapped to pages that
      were free, and nothing else is different; any other page newly in use is a table node. */
  ghost predicate Span(s0: Mem, s: Mem, root: nat, lo: nat, hi: nat) {
    && Wf(s0) && Wf(s) && IsRoot(s0, root) && Kept(s0, s)
    && (forall q: nat :: IsRoot(s0, q) ==> IsRoot(s, q))
    && (forall q: nat, w: nat :: IsRoot(s0, q) && w < VPN_LIMIT && !(q == root && lo <= w < hi) ==>
          Lookup(s, q, w) == Lookup(s0, q, w))
    && (forall w: nat :: lo <= w < hi ==> Fresh(s0, s, root, w))
    && (forall p :: New(s0, s, p) ==> s.role[p].Node? || FrameIn(s, p, root, lo, hi))
  }

  ghost predicate Fresh(s0: Mem, s: Mem, root: nat, w: nat) {
    w < VPN_LIMIT && Lookup(s0, root, w) == 0 && Owned(s, root, w) && Ppn(Lookup(s, root, w)) !in s0.role
  }

  lemma SpanNone(s: Mem, root: nat, lo: nat)
    requires Wf(s) && IsRoot(s, root)
    ensures Span(s, s, root, lo, lo)
  {
  }

  /** One more page: v of root maps to page p, taken from the free list. */
  ghost predicate Added(s: Mem, u: Mem, root: nat, v: nat, e: nat) {
    && Wf(s) && Wf(u) && IsRoot(s, root) && v < VPN_LIMIT && Kept(s, u)
    && MapsPut(s, u, root, v, e) && Owned(u, root, v) && Lookup(s, root, v) == 0
    && Ppn(e) !in s.role
    && (forall p :: New(s, u, p) ==> u.role[p].Node? || p == Ppn(e))
  }

  lemma SpanGrow(s0: Mem, s: Mem, u: Mem, root: nat, lo: nat, hi: nat, e: nat)
    requires Span(s0, s, root, lo, hi) && lo <= hi && Added(s, u, root, hi, e)
    ensures Span(s0, u, root, lo, hi + 1)
    ensures forall w: nat :: lo <= w < hi ==>
              Lookup(u, root, w) == Lookup(s, root, w)
              && Ppn(Lookup(s, root, w)) < |s.page| == |u.page|
              && u.page[Ppn(Lookup(s, root, w))] == s.page[Ppn(Lookup(s, root, w))]
  {
    hide Wf, Lookup, FrameIn, Owned, Ppn;
    KeptTrans(s0, s, u);
    assert IsRoot(s, root);
    forall w: nat | lo <= w < hi
      ensures Fresh(s0, u, root, w) && Ppn(Lookup(s, root, w)) < |s.page|
              && u.page[Ppn(Lookup(s, root, w))] == s.page[Ppn(Lookup(s, root, w))]
    {
      assert Fresh(s0, s, root, w);
      OwnedPlace(s, root, w);
      OwnedKept(s, u, root, w);
    }
    SpanNew(s0, s, u, root, lo, hi, e);
  }

  lemma OwnedPlace(s: Mem, r: nat, v: nat)
    requires Wf(s) && Owned(s, r, v)
    ensures Ppn(Lookup(s, r, v)) < |s.page|
  {
    assert RoleOk(s, Ppn(Lookup(s, r, v)));
  }

  lemma SpanNew(s0: Mem, s: Mem, u: Mem, root: nat, lo: nat, hi: nat, e: nat)
    requires Span(s0, s, root, lo, hi) && lo <= hi && Added(s, u, root, hi, e)
    ensures forall p :: New(s0, u, p) ==> u.role[p].Node? || FrameIn(u, p, root, lo, hi + 1)
  {
    hide Wf, Lookup, FrameIn, Owned, Ppn;
    FrameInSplit(u, root, lo, hi, hi + 1);
    OwnedFrameIn(u, root, hi);
    forall p | New(s0, u, p) && !u.role[p].Node? ensures FrameIn(u, p, root, lo, hi + 1) {
      if p in s.role {
        FrameInSame(s, u, p, root, lo, hi);
      }
    }
  }

  /** Unmapping what a span mapped leaves only spare table nodes behind. */
  lemma SpanUndo(s0: Mem, s: Mem, u: Mem, root: nat, lo: nat, hi: nat)
    requires Span(s0, s, root, lo, hi) && Unmapped(s, u, root, lo, hi, true)
    ensures Kept(s0, u) && OnlyNodes(s0, u) && MapsKept(s0, u)
  {
    hide Wf, Lookup, FrameIn, Owned, Ppn, Fresh;
    forall q: nat, w: nat | IsRoot(s0, q) && w < VPN_LIMIT ensures Lookup(u, q, w) == Lookup(s0, q, w) {
      if q == root && lo <= w < hi {
        FreshWas(s0, s, root, w);
      }
    }
    forall p | p in s0.role ensures !FrameIn(s, p, root, lo, hi) {
      if FrameIn(s, p, root, lo, hi) {
        NewFrame(s0, s, root, lo, hi, p);
      }
    }
  }

  lemma FreshWas(s0: Mem, s: Mem, root: nat, w: nat)
    requires Fresh(s0, s, root, w)
    ensures Lookup(s0, root, w) == 0
  {
  }

  lemma NewFrame(s0: Mem, s: Mem, root: nat, lo: nat, hi: nat, p: nat)
    requires Span(s0, s, root, lo, hi) && FrameIn(s, p, root, lo, hi)
    ensures p !in s0.role
  {
    hide Wf, Lookup, Owned, Ppn, SlotVpn;
    FrameInOwned(s, p, root, lo, hi);
    assert Fresh(s0, s, root, SlotVpn(s, s.role[p].tab, s.role[p].idx));
  }
}

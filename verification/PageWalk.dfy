/** A three-level tree as a flat map: which entry a virtual page number leads to, and how each step
    on the tree changes the map. Virtual page numbers are addresses divided by PGSIZE. */
module PageWalk {
  import opened PageMem

  const MAX_VPN: nat := 0x400_0000      // MAXVA / PGSIZE
  const VPN_LIMIT: nat := 0x800_0000    // three nine-bit indices

  /** PX(level, va) */
  function Px(level: nat, v: nat): (i: nat)
    requires level < 3
    ensures i < ENTRIES
  {
    (if level == 0 then v else if level == 1 then v / 512 else v / 262144) % 512
  }

  lemma PxSplit(v: nat)
    requires v < VPN_LIMIT
    ensures v == Px(2, v) * 262144 + Px(1, v) * 512 + Px(0, v)
  {
    assert v / 512 == v / 262144 * 512 + v / 512 % 512;
  }

  /** Two page numbers below VPN_LIMIT with the same three indices are the same. */
  lemma PxInjective(v: nat, w: nat)
    requires v < VPN_LIMIT && w < VPN_LIMIT && Px(0, v) == Px(0, w) && Px(1, v) == Px(1, w) && Px(2, v) == Px(2, w)
    ensures v == w
  {
    hide Px;
    PxSplit(v);
    PxSplit(w);
  }

  /** The table that entry i of t points to, or 0. */
  function Child(s: Mem, t: nat, i: nat): nat
    requires i < ENTRIES
  {
    if t < |s.page| && s.page[t][i] != 0 then Ppn(s.page[t][i]) else 0
  }

  function Middle(s: Mem, root: nat, v: nat): nat { Child(s, root, Px(2, v)) }

  /** The bottom table for page number v, or 0 if the tree has none. */
  function Bottom(s: Mem, root: nat, v: nat): nat {
    var a := Middle(s, root, v);
    if a == 0 then 0 else Child(s, a, Px(1, v))
  }

  /** The flat map: v's leaf entry, 0 if unmapped. */
  function Lookup(s: Mem, root: nat, v: nat): nat {
    var t := Bottom(s, root, v);
    if t == 0 || t >= |s.page| then 0 else s.page[t][Px(0, v)]
  }

  ghost predicate IsRoot(s: Mem, r: nat) { r in s.role && s.role[r] == Root && r !in s.dying && InRam(s, r) }

  ghost predicate IsNode(s: Mem, p: nat, t: nat, i: nat, l: nat) {
    p in s.role && s.role[p] == Node(t, i, l) && p !in s.dying && InRam(s, p) && p != 0
  }

  /** A live table's entry above level 0 is 0 or leads to its node. */
  lemma ChildOk(s: Mem, t: nat, i: nat)
    requires Wf(s) && Live(s, t) && i < ENTRIES && Level(s.role[t]) > 0
    ensures InRam(s, t) && (Child(s, t, i) == 0 <==> s.page[t][i] == 0)
    ensures s.page[t][i] != 0 ==> Valid(s.page[t][i]) && IsNode(s, Child(s, t, i), t, i, Level(s.role[t]) - 1)
  {
    hide Linked, Partition;
    assert RoleOk(s, t);
    assert EntryOk(s, t, i);
    var c := Child(s, t, i);
    if s.page[t][i] != 0 {
      assert RoleOk(s, c);
    }
  }

  /** The path of v: the middle and bottom tables are nodes of this very path. */
  lemma PathOk(s: Mem, r: nat, v: nat)
    requires Wf(s) && IsRoot(s, r)
    ensures Middle(s, r, v) != 0 ==> IsNode(s, Middle(s, r, v), r, Px(2, v), 1)
    ensures Bottom(s, r, v) != 0 ==> Middle(s, r, v) != 0 && IsNode(s, Bottom(s, r, v), Middle(s, r, v), Px(1, v), 0)
  {
    hide Wf, Px;
    ChildOk(s, r, Px(2, v));
    var a := Middle(s, r, v);
    if a != 0 {
      ChildOk(s, a, Px(1, v));
    }
  }

  /** Distinct pages of live trees never share a leaf entry. */
  lemma NoAlias(s: Mem, r: nat, v: nat, r': nat, v': nat)
    requires Wf(s) && IsRoot(s, r) && IsRoot(s, r') && v < VPN_LIMIT && v' < VPN_LIMIT
    requires Bottom(s, r, v) == Bottom(s, r', v') != 0 && Px(0, v) == Px(0, v')
    ensures r == r' && v == v'
  {
    hide Wf, Px;
    PathOk(s, r, v);
    PathOk(s, r', v');
    PxInjective(v, v');
  }

  // ---- what the steps do to the map ----

  /** All live trees map as before. */
  ghost predicate MapsKept(s: Mem, u: Mem) {
    && (forall r: nat :: IsRoot(s, r) ==> IsRoot(u, r))
    && (forall r: nat, v: nat :: IsRoot(s, r) && v < VPN_LIMIT ==> Lookup(u, r, v) == Lookup(s, r, v))
  }

  lemma TablesKeepMaps(s: Mem, u: Mem)
    requires Wf(s) && TablesKept(s, u)
    ensures MapsKept(s, u)
  {
    hide Wf, Px;
    forall r: nat | IsRoot(s, r) ensures IsRoot(u, r) {
      assert Live(s, r);
    }
    forall r: nat, v: nat | IsRoot(s, r) && v < VPN_LIMIT ensures Lookup(u, r, v) == Lookup(s, r, v) {
      PathOk(s, r, v);
      assert Live(s, r) && Live(u, r);
      var a, t := Middle(s, r, v), Bottom(s, r, v);
      if a != 0 {
        assert Live(s, a) && Live(u, a);
      }
      if t != 0 {
        assert Live(s, t) && Live(u, t);
      }
    }
  }

  /** A zeroed node changes no lookup. */
  lemma AttachKeeps(s: Mem, t: nat, i: nat, c: nat)
    requires Wf(s) && CanAttach(s, t, i, c)
    ensures MapsKept(s, Attach(s, t, i, c))
  {
    hide Wf, Px;
    var u := Attach(s, t, i, c);
    forall r: nat, v: nat | IsRoot(s, r) && v < VPN_LIMIT ensures Lookup(u, r, v) == Lookup(s, r, v) {
      AttachLookup(s, t, i, c, r, v);
    }
  }

  lemma AttachLookup(s: Mem, t: nat, i: nat, c: nat, r: nat, v: nat)
    requires Wf(s) && CanAttach(s, t, i, c) && IsRoot(s, r)
    ensures var u := Attach(s, t, i, c);
            IsRoot(u, r) && Lookup(u, r, v) == Lookup(s, r, v)
    ensures var u := Attach(s, t, i, c);
            Middle(u, r, v) == if t == r && Px(2, v) == i then c else Middle(s, r, v)
  {
    hide Wf, Px;
    PathOk(s, r, v);
    var u := Attach(s, t, i, c);
    assert Ppn(c * 1024 + PTE_V) == c;
    assert u.page[c] == Fill(0) || c == t;
  }

  /** One entry changes: (r, v) maps to e in u, all else as in s. */
  ghost predicate MapsPut(s: Mem, u: Mem, r: nat, v: nat, e: nat) {
    && IsRoot(u, r) && Lookup(u, r, v) == e
    && (forall q: nat :: IsRoot(s, q) ==> IsRoot(u, q))
    && (forall q: nat, w: nat :: IsRoot(s, q) && w < VPN_LIMIT && !(q == r && w == v) ==>
          Lookup(u, q, w) == Lookup(s, q, w))
  }

  /** Writing a bottom entry changes the map at its page number only. */
  lemma PutLeafMaps(s: Mem, u: Mem, r: nat, v: nat, e: nat)
    requires Wf(s) && IsRoot(s, r) && v < VPN_LIMIT && Bottom(s, r, v) != 0
    requires Bottom(s, r, v) < |s.page| && u.page == s.page[Bottom(s, r, v) := s.page[Bottom(s, r, v)][Px(0, v) := e]]
    requires u.lo == s.lo && u.dying == s.dying
    requires forall q :: IsTable(s, q) ==> q in u.role && u.role[q] == s.role[q]
    ensures MapsPut(s, u, r, v, e)
  {
    hide Wf, Px;
    PutLeafAt(s, u, r, v, e, r, v);
    forall q: nat, w: nat | IsRoot(s, q) && w < VPN_LIMIT && !(q == r && w == v)
      ensures Lookup(u, q, w) == Lookup(s, q, w)
    {
      PutLeafAt(s, u, r, v, e, q, w);
    }
  }

  lemma PutLeafAt(s: Mem, u: Mem, r: nat, v: nat, e: nat, q: nat, w: nat)
    requires Wf(s) && IsRoot(s, r) && v < VPN_LIMIT && Bottom(s, r, v) != 0 && IsRoot(s, q) && w < VPN_LIMIT
    requires Bottom(s, r, v) < |s.page| && u.page == s.page[Bottom(s, r, v) := s.page[Bottom(s, r, v)][Px(0, v) := e]]
    requires u.lo == s.lo && u.dying == s.dying
    requires forall x :: IsTable(s, x) ==> x in u.role && u.role[x] == s.role[x]
    ensures IsRoot(u, q) && Lookup(u, q, w) == if q == r && w == v then e else Lookup(s, q, w)
    ensures Bottom(u, q, w) == Bottom(s, q, w)
  {
    hide Wf, Px;
    PathOk(s, r, v);
    PathOk(s, q, w);
    var t := Bottom(s, q, w);
    assert Middle(u, q, w) == Middle(s, q, w);
    assert Bottom(u, q, w) == t;
    if t != 0 && t == Bottom(s, r, v) && Px(0, w) == Px(0, v) {
      NoAlias(s, r, v, q, w);
    }
  }

  // ---- ownership ----

  /** Roles only appear: every page in use keeps its role, and its contents unless it is a table. */
  ghost predicate Kept(s: Mem, u: Mem) {
    && u.lo == s.lo && |u.page| == |s.page| && u.dying == s.dying
    && (forall p :: p in s.role ==> p in u.role && u.role[p] == s.role[p])
    && (forall p :: p in s.role && !IsTable(s, p) && p < |s.page| ==> u.page[p] == s.page[p])
  }

  lemma KeptTrans(s: Mem, t: Mem, u: Mem)
    requires Kept(s, t) && Kept(t, u)
    ensures Kept(s, u)
  {
  }

  /** Pages that have come into use since s. */
  predicate New(s: Mem, u: Mem, p: nat) { p in u.role && p !in s.role }

  /** Since s, only table nodes have come into use. */
  ghost predicate OnlyNodes(s: Mem, u: Mem) {
    forall p :: New(s, u, p) ==> u.role[p].Node?
  }

  /** Tables stay where they are while their roles do. */
  lemma BottomKept(s: Mem, u: Mem, r: nat, v: nat)
    requires Wf(s) && Wf(u) && IsRoot(s, r) && Bottom(s, r, v) != 0 && |u.page| == |s.page|
    requires forall p :: IsTable(s, p) ==> p in u.role && u.role[p] == s.role[p]
    ensures Bottom(u, r, v) == Bottom(s, r, v)
  {
    hide Linked, Partition, Tables, Px;
    PathOk(s, r, v);
    var a, t := Middle(s, r, v), Bottom(s, r, v);
    assert RoleOk(u, a) && RoleOk(u, t);
    assert Ppn(a * 1024 + PTE_V) == a && Ppn(t * 1024 + PTE_V) == t;
  }

  /** v's leaf in tree r owns the page it points to. */
  ghost predicate Owned(s: Mem, r: nat, v: nat) {
    && Bottom(s, r, v) != 0 && Leaf(Lookup(s, r, v))
    && Ppn(Lookup(s, r, v)) in s.role && s.role[Ppn(Lookup(s, r, v))] == Frame(Bottom(s, r, v), Px(0, v))
  }

  lemma OwnedKept(s: Mem, u: Mem, r: nat, v: nat)
    requires Wf(s) && Wf(u) && IsRoot(s, r) && Kept(s, u) && Owned(s, r, v)
    requires Lookup(u, r, v) == Lookup(s, r, v)
    ensures Owned(u, r, v) && u.page[Ppn(Lookup(u, r, v))] == s.page[Ppn(Lookup(s, r, v))]
  {
    hide Linked, Partition, Tables, Px, Leaf;
    BottomKept(s, u, r, v);
    assert RoleOk(s, Ppn(Lookup(s, r, v)));
  }

  /** Each frame has one owner: distinct pages, of one tree or of two, own distinct frames. */
  lemma FramesDistinct(s: Mem, r: nat, v: nat, r': nat, v': nat)
    requires Wf(s) && IsRoot(s, r) && IsRoot(s, r') && v < VPN_LIMIT && v' < VPN_LIMIT
    requires Owned(s, r, v) && Owned(s, r', v') && Ppn(Lookup(s, r, v)) == Ppn(Lookup(s, r', v'))
    ensures r == r' && v == v'
  {
    hide Wf, Px, Leaf, Lookup;
    NoAlias(s, r, v, r', v');
  }

  // ---- from a frame back to its page number ----

  function Parent(s: Mem, t: nat): nat { if t in s.role && s.role[t].Node? then s.role[t].tab else 0 }

  function IndexIn(s: Mem, t: nat): nat { if t in s.role && s.role[t].Node? then s.role[t].idx else 0 }

  function SlotRoot(s: Mem, t: nat): nat { Parent(s, Parent(s, t)) }

  function SlotVpn(s: Mem, t: nat, i: nat): nat { IndexIn(s, Parent(s, t)) * 262144 + IndexIn(s, t) * 512 + i }

  lemma PxOf(a: nat, b: nat, c: nat)
    requires a < 512 && b < 512 && c < 512
    ensures var v := a * 262144 + b * 512 + c;
            v < VPN_LIMIT && Px(2, v) == a && Px(1, v) == b && Px(0, v) == c
  {
  }

  /** The bottom table t of tree r is where its page numbers lead. */
  lemma SlotPath(s: Mem, r: nat, t: nat, i: nat)
    requires Wf(s) && IsRoot(s, r) && t in s.role && Level(s.role[t]) == 0 && SlotRoot(s, t) == r && i < ENTRIES
    ensures var v := SlotVpn(s, t, i);
            v < VPN_LIMIT && Bottom(s, r, v) == t && Px(0, v) == i && InRam(s, t) && Lookup(s, r, v) == s.page[t][i]
  {
    hide Linked, Partition, Tables, Px;
    var a := Parent(s, t);
    assert RoleOk(s, t);
    assert RoleOk(s, a);
    assert RoleOk(s, r);
    assert s.role[a].Node?;
    PxOf(s.role[a].idx, s.role[t].idx, i);
    assert Ppn(a * 1024 + PTE_V) == a && Ppn(t * 1024 + PTE_V) == t;
  }

  /** ... and a page number's slot leads back to it. */
  lemma PathSlot(s: Mem, r: nat, v: nat)
    requires Wf(s) && IsRoot(s, r) && v < VPN_LIMIT && Bottom(s, r, v) != 0
    ensures var t := Bottom(s, r, v);
            t in s.role && Level(s.role[t]) == 0 && SlotRoot(s, t) == r && SlotVpn(s, t, Px(0, v)) == v
  {
    hide Wf, Px;
    PathOk(s, r, v);
    PxSplit(v);
  }

  /** Page p is a frame of tree r, for a page number in [lo, hi). */
  predicate FrameIn(s: Mem, p: nat, r: nat, lo: nat, hi: nat) {
    && p in s.role && s.role[p].Frame?
    && SlotRoot(s, s.role[p].tab) == r && lo <= SlotVpn(s, s.role[p].tab, s.role[p].idx) < hi
  }

  lemma FrameInOwned(s: Mem, p: nat, r: nat, lo: nat, hi: nat)
    requires Wf(s) && IsRoot(s, r) && FrameIn(s, p, r, lo, hi)
    ensures var v := SlotVpn(s, s.role[p].tab, s.role[p].idx);
            v < VPN_LIMIT && Owned(s, r, v) && Ppn(Lookup(s, r, v)) == p
  {
    hide Linked, Partition, Px, Leaf, SlotVpn;
    assert RoleOk(s, p);
    var t, i := s.role[p].tab, s.role[p].idx;
    SlotPath(s, r, t, i);
    PathOk(s, r, SlotVpn(s, t, i));
    assert EntryOk(s, t, i);
  }

  lemma OwnedFrameIn(s: Mem, r: nat, v: nat)
    requires Wf(s) && IsRoot(s, r) && v < VPN_LIMIT && Owned(s, r, v)
    ensures forall lo: nat, hi: nat :: FrameIn(s, Ppn(Lookup(s, r, v)), r, lo, hi) <==> lo <= v < hi
  {
    hide Wf, Px, Leaf, SlotVpn, SlotRoot, Lookup;
    PathSlot(s, r, v);
  }
}

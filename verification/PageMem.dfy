/** Physical pages and who holds them: the free list, the nodes of page-table trees, the frames
    their leaves own, and everything else the kernel has allocated. Pages are named by number. */
module PageMem {
  const PGSIZE: nat := 4096
  const ENTRIES: nat := 512

  /** A page as 512 words: page-table entries, or any data. */
  type Page = p: seq<nat> | |p| == 512 witness Fill(0)

  function Fill(w: nat): (p: seq<nat>)
    ensures |p| == 512 && forall i :: 0 <= i < 512 ==> p[i] == w
  {
    seq(512, i => w)
  }

  const FREE_JUNK: nat := 0x0101_0101_0101_0101   // memset(pa, 1, PGSIZE)
  const ALLOC_JUNK: nat := 0x0505_0505_0505_0505  // memset(r, 5, PGSIZE)

  /** Who holds an allocated page. A Node is the page-table page that entry idx of page tab points
      to; a Frame belongs to the leaf in entry idx of tab; Held pages belong to the rest of the
      kernel (stacks, trapframes, or a page just allocated). */
  datatype Role = Root | Node(tab: nat, idx: nat, lvl: nat) | Frame(tab: nat, idx: nat) | Held

  function Level(r: Role): int {
    if r.Root? then 2 else if r.Node? then r.lvl else -1
  }

  // Page-table entries: page number above ten flag bits.
  const PTE_V: nat := 1
  const PTE_R: nat := 2
  const PTE_W: nat := 4
  const PTE_X: nat := 8
  const PTE_U: nat := 16

  function Ppn(pte: nat): nat { pte / 1024 }

  function Flags(pte: nat): nat { pte % 1024 }

  predicate Valid(pte: nat) { pte % 2 == 1 }

  /** Readable, writable or executable: not a pointer to a lower table. */
  predicate Leaf(pte: nat) { Valid(pte) && pte / 2 % 8 != 0 }

  /** RAM pages below `lo` hold the kernel; kmem.freelist is the address of the first free page,
      and `free` lists the pages on it. Tables in `dying` are being torn down. */
  datatype Mem = Mem(lo: nat, page: seq<Page>, freelist: nat, free: seq<nat>, role: map<nat, Role>, dying: set<nat>)

  predicate InRam(s: Mem, p: nat) { s.lo <= p < |s.page| }

  predicate IsTable(s: Mem, p: nat) { p in s.role && Level(s.role[p]) >= 0 }

  predicate Live(s: Mem, t: nat) { IsTable(s, t) && t !in s.dying }

  /** Each node and frame is where its role says. */
  predicate RoleOk(s: Mem, p: nat)
    requires p in s.role
  {
    && InRam(s, p)
    && match s.role[p]
       case Node(t, i, l) =>
         l < 2 && i < ENTRIES && InRam(s, t) && t in s.role && Level(s.role[t]) == l + 1
         && s.page[t][i] == p * 1024 + PTE_V && (p in s.dying ==> t in s.dying)
       case Frame(t, i) =>
         i < ENTRIES && InRam(s, t) && t in s.role && Level(s.role[t]) == 0
         && Valid(s.page[t][i]) && Ppn(s.page[t][i]) == p
       case _ => true
  }

  ghost predicate Roles(s: Mem) {
    && 0 < s.lo
    && (forall p :: p in s.role ==> RoleOk(s, p))
    && (forall t :: t in s.dying ==> IsTable(s, t))
  }

  /** Entry i of live table t: empty, a pointer to a node of ours, or at level 0 a leaf. */
  predicate EntryOk(s: Mem, t: nat, i: nat)
    requires IsTable(s, t) && InRam(s, t) && i < ENTRIES
  {
    var e := s.page[t][i];
    e == 0 || if Level(s.role[t]) == 0 then Leaf(e)
              else Ppn(e) in s.role && s.role[Ppn(e)] == Node(t, i, Level(s.role[t]) - 1)
  }

  ghost predicate Tables(s: Mem) {
    forall t, i :: Live(s, t) && InRam(s, t) && 0 <= i < ENTRIES ==> EntryOk(s, t, i)
  }

  /** What the k-th free page links to. */
  function Next(free: seq<nat>, k: nat): nat {
    if k + 1 < |free| then free[k + 1] * PGSIZE else 0
  }

  /** The list threaded through the first words of free pages. */
  ghost predicate Linked(s: Mem) {
    && s.freelist == (if s.free == [] then 0 else s.free[0] * PGSIZE)
    && forall k :: 0 <= k < |s.free| ==>
         InRam(s, s.free[k])
         && s.page[s.free[k]][0] == Next(s.free, k)
  }

  /** Every page is on the free list, once, or has a role, and not both. */
  ghost predicate Partition(s: Mem) {
    && (forall j, k :: 0 <= j < k < |s.free| ==> s.free[j] != s.free[k])
    && (forall p :: InRam(s, p) ==> (p in s.role <==> p !in s.free))
  }

  ghost predicate Wf(s: Mem) { Roles(s) && Tables(s) && Linked(s) && Partition(s) }

  // ---- kalloc ----

  function Alloc(s: Mem): Mem
    requires s.free != [] && s.free[0] < |s.page|
  {
    var p := s.free[0];
    Mem(s.lo, s.page[p := Fill(ALLOC_JUNK)], s.page[p][0], s.free[1..], s.role[p := Held], s.dying)
  }

  /** Live tables are as before, and no new one has appeared. */
  ghost predicate TablesKept(s: Mem, u: Mem) {
    |u.page| == |s.page| && u.lo == s.lo
    && forall t: nat :: Live(s, t) && InRam(s, t) ==> Live(u, t) && u.role[t] == s.role[t] && u.page[t] == s.page[t]
  }

  lemma AllocOk(s: Mem)
    requires Wf(s) && s.free != []
    ensures s.free[0] < |s.page| && s.free[0] != 0 && s.free[0] * PGSIZE == s.freelist
    ensures s.free[0] !in s.role
    ensures Wf(Alloc(s)) && TablesKept(s, Alloc(s))
  {
    hide Roles, Tables, EntryOk;
    var p := s.free[0];
    assert InRam(s, p) && p in s.free && p !in s.role;
    AllocRoles(s);
    AllocFree(s);
    AllocTables(s);
  }

  lemma AllocRoles(s: Mem)
    requires s.free != [] && Roles(s) && InRam(s, s.free[0]) && s.free[0] !in s.role
    ensures Roles(Alloc(s)) && 0 < s.lo
  {
    var p, u := s.free[0], Alloc(s);
    forall q | q in u.role ensures RoleOk(u, q) {
      if q != p { assert RoleOk(s, q); }
    }
  }

  lemma AllocTables(s: Mem)
    requires s.free != [] && Tables(s) && InRam(s, s.free[0]) && s.free[0] !in s.role
    ensures Tables(Alloc(s))
  {
    var u := Alloc(s);
    forall t, i | Live(u, t) && InRam(u, t) && 0 <= i < ENTRIES ensures EntryOk(u, t, i) {
      assert Live(s, t) && EntryOk(s, t, i);
    }
  }

  lemma AllocFree(s: Mem)
    requires Linked(s) && Partition(s) && s.free != []
    ensures s.free[0] < |s.page| && Linked(Alloc(s)) && Partition(Alloc(s))
  {
    AllocLinked(s);
    AllocPartition(s);
  }

  lemma AllocLinked(s: Mem)
    requires Linked(s) && Partition(s) && s.free != []
    ensures s.free[0] < |s.page| && Linked(Alloc(s))
  {
    var u := Alloc(s);
    assert s.page[s.free[0]][0] == Next(s.free, 0);
    forall k | 0 <= k < |u.free| ensures InRam(u, u.free[k]) && u.page[u.free[k]][0] == Next(u.free, k) {
      assert u.free[k] == s.free[k + 1] && Next(u.free, k) == Next(s.free, k + 1);
      assert s.free[k + 1] != s.free[0];
    }
  }

  lemma AllocPartition(s: Mem)
    requires Partition(s) && s.free != [] && s.free[0] < |s.page|
    ensures Partition(Alloc(s))
  {
    var u := Alloc(s);
    assert s.free[0] !in u.free;
    forall q | InRam(u, q) ensures q in u.role <==> q !in u.free {
      assert s.free == [s.free[0]] + u.free;
      assert InRam(s, q);
    }
  }

  // ---- kfree ----

  function FreePage(next: nat): Page { [next] + Fill(FREE_JUNK)[1..] }

  function Release(s: Mem, p: nat): Mem
    requires p < |s.page|
  {
    Mem(s.lo, s.page[p := FreePage(s.freelist)], p * PGSIZE, [p] + s.free, s.role - {p}, s.dying - {p})
  }

  /** p can go: it is not a table in use, and no node or frame hangs off it. */
  ghost predicate Loose(s: Mem, p: nat) {
    && p in s.role && InRam(s, p) && !Live(s, p)
    && (forall q :: q in s.role ==>
          !(s.role[q].Node? && s.role[q].tab == p) && !(s.role[q].Frame? && s.role[q].tab == p))
    && (s.role[p].Node? ==> s.role[p].tab in s.dying)
  }

  lemma ReleaseOk(s: Mem, p: nat)
    requires Wf(s) && Loose(s, p)
    ensures Wf(Release(s, p)) && TablesKept(s, Release(s, p))
  {
    hide Roles, Tables, Linked, Partition;
    ReleaseRoles(s, p);
    ReleaseTables(s, p);
    ReleaseFree(s, p);
  }

  lemma ReleaseRoles(s: Mem, p: nat)
    requires Roles(s) && Loose(s, p)
    ensures Roles(Release(s, p))
  {
    var u := Release(s, p);
    forall q | q in u.role ensures RoleOk(u, q) {
      assert RoleOk(s, q);
    }
  }

  lemma ReleaseTables(s: Mem, p: nat)
    requires Roles(s) && Tables(s) && Loose(s, p)
    ensures Tables(Release(s, p))
  {
    var u := Release(s, p);
    forall t: nat, i | Live(u, t) && InRam(u, t) && 0 <= i < ENTRIES ensures EntryOk(u, t, i) {
      assert Live(s, t) && EntryOk(s, t, i) && u.page[t] == s.page[t];
      var e := s.page[t][i];
      if e != 0 && Level(s.role[t]) != 0 {
        assert RoleOk(s, Ppn(e));
      }
    }
  }

  lemma ReleaseFree(s: Mem, p: nat)
    requires Linked(s) && Partition(s) && p in s.role && InRam(s, p)
    ensures Linked(Release(s, p)) && Partition(Release(s, p))
  {
    ReleaseLinked(s, p);
    ReleasePartition(s, p);
  }

  lemma ReleaseLinked(s: Mem, p: nat)
    requires Linked(s) && Partition(s) && p in s.role && InRam(s, p)
    ensures Linked(Release(s, p))
  {
    var u := Release(s, p);
    forall k | 0 <= k < |u.free| ensures InRam(u, u.free[k]) && u.page[u.free[k]][0] == Next(u.free, k) {
      if k > 0 {
        assert u.free[k] == s.free[k - 1] && s.free[k - 1] in s.free;
        assert Next(u.free, k) == Next(s.free, k - 1);
      }
    }
  }

  lemma ReleasePartition(s: Mem, p: nat)
    requires Partition(s) && p in s.role && InRam(s, p)
    ensures Partition(Release(s, p))
  {
    var u := Release(s, p);
    forall q | InRam(u, q) ensures q in u.role <==> q !in u.free {
      assert InRam(s, q) && (q in u.free <==> q == p || q in s.free);
    }
    forall j, k | 0 <= j < k < |u.free| ensures u.free[j] != u.free[k] {
      assert u.free[k] == s.free[k - 1] && s.free[k - 1] in s.free;
    }
  }

  // ---- writing entries ----

  /** Entry i of table t becomes e, and page p takes role r. */
  function PutEntry(s: Mem, t: nat, i: nat, e: nat, p: nat, r: Role): Mem
    requires t < |s.page| && i < ENTRIES
  {
    s.(page := s.page[t := s.page[t][i := e]], role := s.role[p := r])
  }

  /** Writing a page that is in use leaves the free list alone. */
  lemma PutFree(s: Mem, t: nat, pg: Page, role: map<nat, Role>)
    requires Linked(s) && Partition(s) && t in s.role && InRam(s, t) && role.Keys == s.role.Keys
    ensures var u := s.(page := s.page[t := pg], role := role); Linked(u) && Partition(u)
  {
    var u := s.(page := s.page[t := pg], role := role);
    forall k | 0 <= k < |u.free| ensures InRam(u, u.free[k]) && u.page[u.free[k]][0] == Next(u.free, k) {
      assert s.free[k] in s.free;
    }
    forall p | InRam(u, p) ensures p in u.role <==> p !in u.free {
      assert InRam(s, p) && (p in s.role <==> p in s.role.Keys) && (p in role <==> p in role.Keys);
    }
  }

  /** walk with alloc: a zeroed page becomes a node. */
  ghost predicate CanAttach(s: Mem, t: nat, i: nat, c: nat) {
    && Live(s, t) && InRam(s, t) && Level(s.role[t]) > 0 && i < ENTRIES && s.page[t][i] == 0
    && c in s.role && s.role[c] == Held && InRam(s, c) && s.page[c] == Fill(0)
  }

  function Attach(s: Mem, t: nat, i: nat, c: nat): Mem
    requires IsTable(s, t) && Level(s.role[t]) > 0 && t < |s.page| && i < ENTRIES
  {
    PutEntry(s, t, i, c * 1024 + PTE_V, c, Node(t, i, Level(s.role[t]) - 1))
  }

  lemma AttachOk(s: Mem, t: nat, i: nat, c: nat)
    requires Wf(s) && CanAttach(s, t, i, c)
    ensures Wf(Attach(s, t, i, c))
  {
    hide Roles, Tables, Linked, Partition;
    AttachRoles(s, t, i, c);
    AttachTables(s, t, i, c);
    var r := Node(t, i, Level(s.role[t]) - 1);
    assert s.role[c := r].Keys == s.role.Keys;
    PutFree(s, t, s.page[t][i := c * 1024 + PTE_V], s.role[c := r]);
  }

  lemma AttachRoles(s: Mem, t: nat, i: nat, c: nat)
    requires Roles(s) && CanAttach(s, t, i, c)
    ensures Roles(Attach(s, t, i, c))
  {
    var u := Attach(s, t, i, c);
    assert RoleOk(s, t);
    forall q | q in u.role ensures RoleOk(u, q) {
      assert RoleOk(s, q);
    }
  }

  lemma AttachTables(s: Mem, t: nat, i: nat, c: nat)
    requires Tables(s) && CanAttach(s, t, i, c)
    ensures Tables(Attach(s, t, i, c))
  {
    var u := Attach(s, t, i, c);
    forall x: nat, k | Live(u, x) && InRam(u, x) && 0 <= k < ENTRIES ensures EntryOk(u, x, k) {
      if x != c && !(x == t && k == i) {
        assert Live(s, x) && EntryOk(s, x, k) && u.page[x][k] == s.page[x][k];
      }
    }
  }

  // ---- leaves ----

  ghost predicate CanMap(s: Mem, t: nat, i: nat, e: nat, own: bool) {
    && Live(s, t) && InRam(s, t) && Level(s.role[t]) == 0 && i < ENTRIES && s.page[t][i] == 0 && Leaf(e)
    && (own ==> Ppn(e) in s.role && s.role[Ppn(e)] == Held)
  }

  /** mappages: the entry becomes a leaf, which may take over a held page. */
  function MapLeaf(s: Mem, t: nat, i: nat, e: nat, own: bool): Mem
    requires t < |s.page| && i < ENTRIES
  {
    if own then PutEntry(s, t, i, e, Ppn(e), Frame(t, i)) else s.(page := s.page[t := s.page[t][i := e]])
  }

  lemma MapLeafOk(s: Mem, t: nat, i: nat, e: nat, own: bool)
    requires Wf(s) && CanMap(s, t, i, e, own)
    ensures Wf(MapLeaf(s, t, i, e, own))
  {
    hide Roles, Tables, Linked, Partition;
    MapLeafRoles(s, t, i, e, own);
    MapLeafTables(s, t, i, e, own);
    var role := if own then s.role[Ppn(e) := Frame(t, i)] else s.role;
    assert role.Keys == s.role.Keys;
    PutFree(s, t, s.page[t][i := e], role);
    assert MapLeaf(s, t, i, e, own) == s.(page := s.page[t := s.page[t][i := e]], role := role);
  }

  lemma MapLeafRoles(s: Mem, t: nat, i: nat, e: nat, own: bool)
    requires Roles(s) && CanMap(s, t, i, e, own)
    ensures Roles(MapLeaf(s, t, i, e, own))
  {
    var u := MapLeaf(s, t, i, e, own);
    forall q | q in u.role ensures RoleOk(u, q) {
      assert RoleOk(s, q);
    }
  }

  lemma MapLeafTables(s: Mem, t: nat, i: nat, e: nat, own: bool)
    requires Tables(s) && CanMap(s, t, i, e, own)
    ensures Tables(MapLeaf(s, t, i, e, own))
  {
    hide Leaf;
    var u := MapLeaf(s, t, i, e, own);
    forall x: nat, k | Live(u, x) && InRam(u, x) && 0 <= k < ENTRIES ensures EntryOk(u, x, k) {
      if !(x == t && k == i) {
        assert Live(s, x) && EntryOk(s, x, k) && u.page[x][k] == s.page[x][k];
      }
    }
  }

  ghost predicate CanUnmap(s: Mem, t: nat, i: nat) {
    Live(s, t) && InRam(s, t) && Level(s.role[t]) == 0 && i < ENTRIES
  }

  /** The entry is cleared; a frame it owned is merely held from then on. */
  function UnmapLeaf(s: Mem, t: nat, i: nat): Mem
    requires t < |s.page| && i < ENTRIES
  {
    var p := Ppn(s.page[t][i]);
    if p in s.role && s.role[p] == Frame(t, i) then PutEntry(s, t, i, 0, p, Held)
    else s.(page := s.page[t := s.page[t][i := 0]])
  }

  lemma UnmapLeafOk(s: Mem, t: nat, i: nat)
    requires Wf(s) && CanUnmap(s, t, i)
    ensures Wf(UnmapLeaf(s, t, i))
  {
    hide Roles, Tables, Linked, Partition, Ppn;
    UnmapLeafRoles(s, t, i);
    UnmapLeafTables(s, t, i);
    var p := Ppn(s.page[t][i]);
    var role := if p in s.role && s.role[p] == Frame(t, i) then s.role[p := Held] else s.role;
    assert role.Keys == s.role.Keys;
    PutFree(s, t, s.page[t][i := 0], role);
    assert UnmapLeaf(s, t, i) == s.(page := s.page[t := s.page[t][i := 0]], role := role);
  }

  lemma UnmapLeafRoles(s: Mem, t: nat, i: nat)
    requires Roles(s) && CanUnmap(s, t, i)
    ensures Roles(UnmapLeaf(s, t, i))
  {
    hide Valid, Ppn;
    var u := UnmapLeaf(s, t, i);
    forall q | q in u.role ensures RoleOk(u, q) {
      assert RoleOk(s, q);
    }
  }

  lemma UnmapLeafTables(s: Mem, t: nat, i: nat)
    requires Tables(s) && CanUnmap(s, t, i)
    ensures Tables(UnmapLeaf(s, t, i))
  {
    hide Leaf;
    var u := UnmapLeaf(s, t, i);
    forall x: nat, k | Live(u, x) && InRam(u, x) && 0 <= k < ENTRIES ensures EntryOk(u, x, k) {
      if !(x == t && k == i) {
        assert Live(s, x) && EntryOk(s, x, k) && u.page[x][k] == s.page[x][k];
      }
    }
  }

  // ---- data ----

  ghost predicate Writable(s: Mem, p: nat) { p in s.role && InRam(s, p) && !IsTable(s, p) }

  /** memset or memmove into a page that is no table. */
  function Store(s: Mem, p: nat, data: Page): Mem
    requires p < |s.page|
  {
    s.(page := s.page[p := data])
  }

  lemma StoreOk(s: Mem, p: nat, data: Page)
    requires Wf(s) && Writable(s, p)
    ensures Wf(Store(s, p, data)) && TablesKept(s, Store(s, p, data))
  {
    hide Linked, Partition;
    var u := Store(s, p, data);
    PutFree(s, p, data, s.role);
    assert u == s.(page := s.page[p := data], role := s.role);
    forall q | q in u.role ensures RoleOk(u, q) {
      assert RoleOk(s, q);
    }
    forall x: nat, k | Live(u, x) && InRam(u, x) && 0 <= k < ENTRIES ensures EntryOk(u, x, k) {
      assert Live(s, x) && EntryOk(s, x, k);
    }
  }

  // ---- tearing down ----

  /** Table t is about to be freed: its entries need no longer lead anywhere. */
  function Doom(s: Mem, t: nat): Mem { s.(dying := s.dying + {t}) }

  lemma DoomOk(s: Mem, t: nat)
    requires Wf(s) && IsTable(s, t) && (s.role[t].Node? ==> s.role[t].tab in s.dying)
    ensures Wf(Doom(s, t))
  {
    var u := Doom(s, t);
    forall q | q in u.role ensures RoleOk(u, q) {
      assert RoleOk(s, q);
    }
    forall x: nat, k | Live(u, x) && InRam(u, x) && 0 <= k < ENTRIES ensures EntryOk(u, x, k) {
      assert Live(s, x) && EntryOk(s, x, k);
    }
    assert Linked(u) && Partition(u);
  }

  /** freewalk's pagetable[i] = 0, once nothing hangs off the entry. */
  function Wipe(s: Mem, t: nat, i: nat): Mem
    requires t < |s.page| && i < ENTRIES
  {
    s.(page := s.page[t := s.page[t][i := 0]])
  }

  lemma WipeOk(s: Mem, t: nat, i: nat)
    requires Wf(s) && t in s.dying && InRam(s, t) && i < ENTRIES
    requires forall q :: q in s.role ==> !(s.role[q].Node? && s.role[q].tab == t && s.role[q].idx == i)
    requires forall q :: q in s.role ==> s.role[q] != Frame(t, i)
    ensures Wf(Wipe(s, t, i)) && TablesKept(s, Wipe(s, t, i))
  {
    hide Linked, Partition, Roles, Tables;
    var u := Wipe(s, t, i);
    WipeRoles(s, t, i);
    WipeTables(s, t, i);
    assert u == s.(page := s.page[t := s.page[t][i := 0]], role := s.role);
    PutFree(s, t, s.page[t][i := 0], s.role);
  }

  lemma WipeRoles(s: Mem, t: nat, i: nat)
    requires Roles(s) && t in s.dying && InRam(s, t) && i < ENTRIES
    requires forall q :: q in s.role ==> !(s.role[q].Node? && s.role[q].tab == t && s.role[q].idx == i)
    requires forall q :: q in s.role ==> s.role[q] != Frame(t, i)
    ensures Roles(Wipe(s, t, i)) && IsTable(s, t)
  {
    hide Valid, Ppn;
    var u := Wipe(s, t, i);
    forall q | q in u.role ensures RoleOk(u, q) {
      assert RoleOk(s, q);
    }
  }

  lemma WipeTables(s: Mem, t: nat, i: nat)
    requires Tables(s) && t in s.dying && InRam(s, t) && i < ENTRIES
    ensures Tables(Wipe(s, t, i))
  {
    hide Leaf, Ppn;
    var u := Wipe(s, t, i);
    forall x: nat, k | Live(u, x) && InRam(u, x) && 0 <= k < ENTRIES ensures EntryOk(u, x, k) {
      assert Live(s, x) && EntryOk(s, x, k);
    }
  }
}

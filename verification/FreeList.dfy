/** The Kernighan-Ritchie free list as a sequence of blocks in address order. Addresses and sizes
    count units of sizeof(Header) bytes. */
module FreeList {
  datatype Blk = Blk(a: nat, n: nat)

  function End(b: Blk): nat { b.a + b.n }

  /** The first element is the empty base header. Blocks are in address order, disjoint, and never
      adjacent. */
  ghost predicate Ordered(f: seq<Blk>) {
    && |f| >= 1 && f[0].n == 0
    && (forall i :: 1 <= i < |f| ==> f[i].n >= 1)
    && (forall i, j :: 0 <= i < j < |f| ==> End(f[i]) < f[j].a)
  }

  function Succ(f: seq<Blk>, i: nat): nat { if i + 1 == |f| then 0 else i + 1 }

  /** The headers in memory form one circular list through these blocks. */
  ghost predicate Ring(ptr: map<nat, nat>, size: map<nat, nat>, f: seq<Blk>) {
    forall i :: 0 <= i < |f| ==> RingAt(ptr, size, f, i)
  }

  ghost predicate RingAt(ptr: map<nat, nat>, size: map<nat, nat>, f: seq<Blk>, i: nat)
    requires i < |f|
  {
    f[i].a in ptr && f[i].a in size && ptr[f[i].a] == f[Succ(f, i)].a && size[f[i].a] == f[i].n
  }

  function Sum(f: seq<Blk>): nat {
    if f == [] then 0 else f[0].n + Sum(f[1..])
  }

  lemma {:induction false} SumConcat(f: seq<Blk>, g: seq<Blk>)
    ensures Sum(f + g) == Sum(f) + Sum(g)
  {
    if f == [] {
      assert f + g == g;
    } else {
      assert (f + g)[1..] == f[1..] + g;
      SumConcat(f[1..], g);
    }
  }

  lemma SumAt(f: seq<Blk>, i: nat)
    requires i < |f|
    ensures Sum(f) == Sum(f[..i]) + f[i].n + Sum(f[i + 1..])
  {
    assert f == f[..i] + f[i..];
    SumConcat(f[..i], f[i..]);
    assert f[i..][1..] == f[i + 1..];
  }

  lemma SumUpdate(f: seq<Blk>, i: nat, b: Blk)
    requires i < |f|
    ensures Sum(f[i := b]) == Sum(f) - f[i].n + b.n
  {
    SumAt(f, i);
    SumAt(f[i := b], i);
    assert f[i := b][..i] == f[..i] && f[i := b][i + 1..] == f[i + 1..];
  }

  function Remove(f: seq<Blk>, i: nat): (g: seq<Blk>)
    requires i < |f|
    ensures |g| == |f| - 1 && forall j :: 0 <= j < |g| ==> g[j] == f[if j < i then j else j + 1]
  {
    f[..i] + f[i + 1..]
  }

  lemma SumRemove(f: seq<Blk>, i: nat)
    requires i < |f|
    ensures Sum(Remove(f, i)) == Sum(f) - f[i].n
  {
    SumAt(f, i);
    SumConcat(f[..i], f[i + 1..]);
  }

  function Insert(f: seq<Blk>, i: nat, b: Blk): (g: seq<Blk>)
    requires i <= |f|
    ensures |g| == |f| + 1 && forall j :: 0 <= j < |g| ==> g[j] == if j == i then b else f[if j < i then j else j - 1]
  {
    f[..i] + [b] + f[i..]
  }

  lemma SumInsert(f: seq<Blk>, i: nat, b: Blk)
    requires i <= |f|
    ensures Sum(Insert(f, i, b)) == Sum(f) + b.n
  {
    SumBetween(f[..i], b, f[i..]);
    SumConcat(f[..i], f[i..]);
    assert f == f[..i] + f[i..];
  }

  lemma SumBetween(f: seq<Blk>, b: Blk, g: seq<Blk>)
    ensures Sum(f + [b] + g) == Sum(f) + b.n + Sum(g)
  {
    SumConcat(f + [b], g);
    SumConcat(f, [b]);
    assert Sum([b]) == b.n + Sum([b][1..]);
  }

  // ---- inserting a freed block ----

  /** b lies between elements k and k + 1, touching them at most. */
  ghost predicate Between(f: seq<Blk>, k: nat, b: Blk) {
    && k < |f| && b.n >= 1 && f[k].a < b.a && End(f[k]) <= b.a
    && (k == 0 ==> End(f[0]) < b.a)
    && (k + 1 < |f| ==> End(b) <= f[k + 1].a)
  }

  /** b joined with the element after k if they touch. */
  function JoinUp(f: seq<Blk>, k: nat, b: Blk): seq<Blk>
    requires k < |f|
  {
    if k + 1 < |f| && End(b) == f[k + 1].a then f[k + 1 := Blk(b.a, b.n + f[k + 1].n)] else Insert(f, k + 1, b)
  }

  /** Elements k and k + 1 joined if they touch. */
  function JoinDown(f: seq<Blk>, k: nat): seq<Blk>
    requires k + 1 < |f|
  {
    if End(f[k]) == f[k + 1].a then Remove(f, k + 1)[k := Blk(f[k].a, f[k].n + f[k + 1].n)] else f
  }

  /** free's result. */
  function Merge(f: seq<Blk>, k: nat, b: Blk): seq<Blk>
    requires k < |f|
  {
    JoinDown(JoinUp(f, k, b), k)
  }

  /** Ordered, except that elements k and k + 1 may touch. */
  ghost predicate OrderedBut(f: seq<Blk>, k: nat) {
    && k + 1 < |f| && f[0].n == 0
    && (forall i :: 1 <= i < |f| ==> f[i].n >= 1)
    && (forall i, j :: 0 <= i < j < |f| ==> if i == k && j == k + 1 then End(f[i]) <= f[j].a else End(f[i]) < f[j].a)
    && (k == 0 ==> End(f[0]) < f[1].a)
  }

  lemma JoinUpOk(f: seq<Blk>, k: nat, b: Blk)
    requires Ordered(f) && Between(f, k, b)
    ensures OrderedBut(JoinUp(f, k, b), k) && JoinUp(f, k, b)[k] == f[k] && JoinUp(f, k, b)[k + 1].a == b.a
    ensures Sum(JoinUp(f, k, b)) == Sum(f) + b.n
  {
    hide Insert, Sum;
    if k + 1 < |f| && End(b) == f[k + 1].a {
      SumUpdate(f, k + 1, JoinUp(f, k, b)[k + 1]);
    } else {
      SumInsert(f, k + 1, b);
      InsertOk(f, k, b);
    }
  }

  lemma InsertOk(f: seq<Blk>, k: nat, b: Blk)
    requires Ordered(f) && Between(f, k, b) && (k + 1 < |f| ==> End(b) < f[k + 1].a)
    ensures OrderedBut(Insert(f, k + 1, b), k)
  {
    hide Insert;
    var g := Insert(f, k + 1, b);
    forall i, j | 0 <= i < j < |g|
      ensures if i == k && j == k + 1 then End(g[i]) <= g[j].a else End(g[i]) < g[j].a
    {
      if j > k + 1 {
        assert End(f[k]) < f[j - 1].a;
      }
    }
  }

  lemma JoinDownOk(f: seq<Blk>, k: nat)
    requires OrderedBut(f, k)
    ensures Ordered(JoinDown(f, k)) && JoinDown(f, k)[k].a == f[k].a && Sum(JoinDown(f, k)) == Sum(f)
  {
    hide Remove, Sum;
    var g := JoinDown(f, k);
    if End(f[k]) == f[k + 1].a {
      SumRemove(f, k + 1);
      SumUpdate(Remove(f, k + 1), k, g[k]);
    }
  }

  lemma MergeOk(f: seq<Blk>, k: nat, b: Blk)
    requires Ordered(f) && Between(f, k, b)
    ensures Ordered(Merge(f, k, b)) && Merge(f, k, b)[k].a == f[k].a
    ensures Sum(Merge(f, k, b)) == Sum(f) + b.n
  {
    hide JoinUp, JoinDown, Sum;
    JoinUpOk(f, k, b);
    JoinDownOk(JoinUp(f, k, b), k);
  }

  // ---- blocks apart ----

  predicate Clear(b: Blk, c: Blk) { End(b) <= c.a || End(c) <= b.a }

  /** c overlaps no block of f. */
  ghost predicate Apart(f: seq<Blk>, c: Blk) {
    forall i :: 0 <= i < |f| ==> Clear(f[i], c)
  }

  lemma MergeApart(f: seq<Blk>, k: nat, b: Blk, c: Blk)
    requires k < |f| && Apart(f, c) && Clear(b, c) && c.n >= 1
    ensures Apart(Merge(f, k, b), c)
  {
    hide Insert, Remove;
    var g := JoinUp(f, k, b);
    assert Apart(g, c);
    assert Apart(Merge(f, k, b), c);
  }

  /** Where the freed block's units end up. */
  function Home(f: seq<Blk>, k: nat, b: Blk): nat
    requires k < |f|
  {
    if End(f[k]) == b.a then k else k + 1
  }

  lemma MergeCovers(f: seq<Blk>, k: nat, b: Blk)
    requires Ordered(f) && Between(f, k, b)
    ensures Home(f, k, b) < |Merge(f, k, b)| && Merge(f, k, b)[Home(f, k, b)].n >= b.n
  {
    hide Insert, Remove;
    JoinUpOk(f, k, b);
  }

  // ---- the ring in memory ----

  /** Every block's address is different. */
  lemma Distinct(f: seq<Blk>, i: nat, j: nat)
    requires Ordered(f) && i < |f| && j < |f| && f[i].a == f[j].a
    ensures i == j
  {
  }

  lemma NotListed(f: seq<Blk>, k: nat, b: Blk, i: nat)
    requires Ordered(f) && Between(f, k, b) && i < |f|
    ensures f[i].a != b.a
  {
    if i > k {
      assert f[k + 1].a <= f[i].a;
    }
  }

  /** free's first test: p's successor, and whether bp touches it. */
  lemma UpTest(ptr: map<nat, nat>, size: map<nat, nat>, f: seq<Blk>, k: nat, b: Blk)
    requires Ordered(f) && Between(f, k, b) && Ring(ptr, size, f)
    ensures f[k].a in ptr && ptr[f[k].a] == f[Succ(f, k)].a && f[Succ(f, k)].a in ptr && f[Succ(f, k)].a in size
    ensures f[k].a in size && size[f[k].a] == f[k].n
    ensures End(b) == f[Succ(f, k)].a <==> k + 1 < |f| && End(b) == f[k + 1].a
  {
    assert RingAt(ptr, size, f, k) && RingAt(ptr, size, f, Succ(f, k));
    assert f[0].a <= f[k].a;
  }

  /** bp joined with what followed p, and p pointing at bp. */
  lemma RingJoined(ptr: map<nat, nat>, size: map<nat, nat>, f: seq<Blk>, k: nat, b: Blk)
    requires Ordered(f) && Between(f, k, b) && Ring(ptr, size, f) && k + 1 < |f| && End(b) == f[k + 1].a
    ensures f[k + 1].a in ptr && f[k + 1].a in size
    ensures Ring(ptr[b.a := ptr[f[k + 1].a]][f[k].a := b.a], size[b.a := b.n + size[f[k + 1].a]], JoinUp(f, k, b))
  {
    assert RingAt(ptr, size, f, k + 1);
    var ptr' := ptr[b.a := ptr[f[k + 1].a]][f[k].a := b.a];
    var size' := size[b.a := b.n + size[f[k + 1].a]];
    var g := JoinUp(f, k, b);
    forall i | 0 <= i < |g| ensures RingAt(ptr', size', g, i) {
      assert RingAt(ptr, size, f, i);
      NotListed(f, k, b, i);
      if f[i].a == f[k].a {
        Distinct(f, i, k);
      }
    }
  }

  /** bp inserted between p and what followed it. */
  lemma RingInserted(ptr: map<nat, nat>, size: map<nat, nat>, f: seq<Blk>, k: nat, b: Blk)
    requires Ordered(f) && Between(f, k, b) && Ring(ptr, size, f) && b.a in size && size[b.a] == b.n
    ensures Ring(ptr[b.a := f[Succ(f, k)].a][f[k].a := b.a], size, Insert(f, k + 1, b))
  {
    hide Insert, Ordered, Between, Ring, RingAt;
    PlaceBelow(f, k, b);
    var g, ptr' := Insert(f, k + 1, b), ptr[b.a := f[Succ(f, k)].a][f[k].a := b.a];
    forall i | 0 <= i < |g| ensures RingAt(ptr', size, g, i) {
      RingInsertedAt(ptr, size, f, k, b, i);
    }
    RingAll(ptr', size, g);
  }

  lemma PlaceBelow(f: seq<Blk>, k: nat, b: Blk)
    requires Between(f, k, b)
    ensures k < |f|
  {
  }

  lemma RingAll(ptr: map<nat, nat>, size: map<nat, nat>, f: seq<Blk>)
    requires forall i :: 0 <= i < |f| ==> RingAt(ptr, size, f, i)
    ensures Ring(ptr, size, f)
  {
  }

  lemma RingInsertedAt(ptr: map<nat, nat>, size: map<nat, nat>, f: seq<Blk>, k: nat, b: Blk, i: nat)
    requires Ordered(f) && Between(f, k, b) && Ring(ptr, size, f) && b.a in size && size[b.a] == b.n
    requires i < |Insert(f, k + 1, b)|
    ensures RingAt(ptr[b.a := f[Succ(f, k)].a][f[k].a := b.a], size, Insert(f, k + 1, b), i)
  {
    hide Insert, Ordered, Between, Ring;
    PlaceBelow(f, k, b);
    var g := Insert(f, k + 1, b);
    NotListed(f, k, b, k);
    if i != k + 1 {
      var j := if i <= k then i else i - 1;
      RingIs(ptr, size, f, j);
      NotListed(f, k, b, j);
      if f[j].a == f[k].a {
        Distinct(f, j, k);
      }
      assert g[i] == f[j];
    }
  }

  /** p joined with the bp it points at. */
  lemma RingDown(ptr: map<nat, nat>, size: map<nat, nat>, f: seq<Blk>, k: nat)
    requires OrderedBut(f, k) && Ring(ptr, size, f) && End(f[k]) == f[k + 1].a
    ensures f[k + 1].a in ptr && f[k + 1].a in size
    ensures Ring(ptr[f[k].a := ptr[f[k + 1].a]], size[f[k].a := f[k].n + size[f[k + 1].a]], JoinDown(f, k))
  {
    hide Remove;
    assert RingAt(ptr, size, f, k + 1);
    var ptr', size' := ptr[f[k].a := ptr[f[k + 1].a]], size[f[k].a := f[k].n + size[f[k + 1].a]];
    var g := JoinDown(f, k);
    forall i | 0 <= i < |g| ensures RingAt(ptr', size', g, i) {
      RingDownAt(ptr, size, f, k, i);
    }
  }

  lemma RingDownAt(ptr: map<nat, nat>, size: map<nat, nat>, f: seq<Blk>, k: nat, i: nat)
    requires OrderedBut(f, k) && Ring(ptr, size, f) && End(f[k]) == f[k + 1].a && i < |JoinDown(f, k)|
    requires f[k + 1].a in ptr && f[k + 1].a in size
    ensures RingAt(ptr[f[k].a := ptr[f[k + 1].a]], size[f[k].a := f[k].n + size[f[k + 1].a]], JoinDown(f, k), i)
  {
    hide Remove, Ring;
    var j := if i <= k then i else i + 1;
    RingIs(ptr, size, f, j);
    RingIs(ptr, size, f, k + 1);
    JoinDownAt(f, k, i);
    if j != k {
      FarApart(f, k, j);
    }
  }

  lemma FarApart(f: seq<Blk>, k: nat, j: nat)
    requires OrderedBut(f, k) && j < |f| && j != k && j != k + 1
    ensures f[j].a != f[k].a
  {
    if j < k {
      assert End(f[j]) < f[k].a;
    } else {
      assert End(f[k]) < f[j].a;
    }
  }

  lemma JoinDownAt(f: seq<Blk>, k: nat, i: nat)
    requires k + 1 < |f| && End(f[k]) == f[k + 1].a && i < |JoinDown(f, k)|
    ensures var g := JoinDown(f, k);
            && |g| == |f| - 1
            && g[i] == (if i == k then Blk(f[k].a, f[k].n + f[k + 1].n) else f[if i < k then i else i + 1])
            && g[Succ(g, i)].a == f[Succ(f, if i < k then i else i + 1)].a
  {
    hide Remove;
  }

  lemma RingIs(ptr: map<nat, nat>, size: map<nat, nat>, f: seq<Blk>, i: nat)
    requires Ring(ptr, size, f) && i < |f|
    ensures RingAt(ptr, size, f, i)
  {
  }

  // ---- taking a block out ----

  lemma RemoveOk(f: seq<Blk>, i: nat)
    requires Ordered(f) && 1 <= i < |f|
    ensures Ordered(Remove(f, i))
  {
    hide Remove;
  }

  lemma RingRemove(ptr: map<nat, nat>, size: map<nat, nat>, f: seq<Blk>, i: nat)
    requires Ordered(f) && 1 <= i < |f| && Ring(ptr, size, f)
    ensures f[i].a in ptr && Ring(ptr[f[i - 1].a := ptr[f[i].a]], size, Remove(f, i))
  {
    hide Remove;
    assert RingAt(ptr, size, f, i);
    var ptr' := ptr[f[i - 1].a := ptr[f[i].a]];
    var g := Remove(f, i);
    forall x | 0 <= x < |g| ensures RingAt(ptr', size, g, x) {
      var j := if x < i then x else x + 1;
      assert RingAt(ptr, size, f, j);
      if f[j].a == f[i - 1].a {
        Distinct(f, j, i - 1);
      }
    }
  }

  /** The tail n units of block i are split off. */
  function Shrink(f: seq<Blk>, i: nat, n: nat): seq<Blk>
    requires i < |f| && n < f[i].n
  {
    f[i := Blk(f[i].a, f[i].n - n)]
  }

  lemma ShrinkOk(f: seq<Blk>, i: nat, n: nat)
    requires Ordered(f) && 1 <= i < |f| && 1 <= n < f[i].n
    ensures Ordered(Shrink(f, i, n)) && Sum(Shrink(f, i, n)) == Sum(f) - n
  {
    hide Sum, Ordered;
    SumUpdate(f, i, Blk(f[i].a, f[i].n - n));
    ShrinkOrdered(f, i, n);
  }

  lemma ShrinkOrdered(f: seq<Blk>, i: nat, n: nat)
    requires Ordered(f) && 1 <= i < |f| && 1 <= n < f[i].n
    ensures Ordered(Shrink(f, i, n))
  {
    var g := Shrink(f, i, n);
    forall j | 0 <= j < |g| ensures g[j].a == f[j].a && End(g[j]) <= End(f[j]) && (j >= 1 ==> g[j].n >= 1) {
    }
    forall j, k | 0 <= j < k < |g| ensures End(g[j]) < g[k].a {
      assert End(f[j]) < f[k].a;
    }
  }

  lemma RingShrink(ptr: map<nat, nat>, size: map<nat, nat>, f: seq<Blk>, i: nat, n: nat)
    requires Ordered(f) && 1 <= i < |f| && 1 <= n < f[i].n && Ring(ptr, size, f)
    ensures f[i].a in size && size[f[i].a] == f[i].n
    ensures Ring(ptr, size[f[i].a := f[i].n - n][f[i].a + f[i].n - n := n], Shrink(f, i, n))
  {
    assert RingAt(ptr, size, f, i);
    var size' := size[f[i].a := f[i].n - n][f[i].a + f[i].n - n := n];
    var g := Shrink(f, i, n);
    forall j | 0 <= j < |g| ensures RingAt(ptr, size', g, j) {
      assert RingAt(ptr, size, f, j);
      assert j < i ==> End(f[j]) < f[i].a;
      assert j > i ==> End(f[i]) < f[j].a;
    }
  }
}

/** umalloc.c: malloc and free over sbrk. Addresses and sizes count units of sizeof(Header) bytes. */
module Umalloc {
  import opened Params
  import opened FreeList

  const HEADER: nat := 16              // sizeof(Header)
  const CORE: nat := 4096              // morecore's least request

  /** The allocator's state: the header words in memory, freep, the end of what it takes for its own,
      the free list as blocks, the blocks handed out, and the units it takes for granted by sbrk. */
  datatype Heap = Heap(ptr: map<nat, nat>, size: map<nat, nat>, freep: nat, top: nat,
                       free: seq<Blk>, live: seq<Blk>, core: nat)

  ghost predicate LiveOk(base: nat, h: Heap) {
    && (forall j :: 0 <= j < |h.live| ==>
          && base < h.live[j].a && h.live[j].n >= 1 && End(h.live[j]) <= h.top
          && h.live[j].a in h.size && h.size[h.live[j].a] == h.live[j].n
          && Apart(h.free, h.live[j]))
    && (forall i, j :: 0 <= i < j < |h.live| ==> Clear(h.live[i], h.live[j]))
  }

  ghost predicate Listed(f: seq<Blk>, a: nat) { exists i :: 0 <= i < |f| && f[i].a == a }

  ghost predicate FreeOk(base: nat, h: Heap) {
    && Ordered(h.free) && h.free[0] == Blk(base, 0) && Ring(h.ptr, h.size, h.free) && Listed(h.free, h.freep)
    && (forall i :: 0 <= i < |h.free| ==> End(h.free[i]) <= h.top)
  }

  /** What every call keeps: one circular, address-ordered list of disjoint, never adjacent free
      blocks; live blocks disjoint from those and from each other; every granted unit free or live. */
  ghost predicate Inv(base: nat, h: Heap) {
    && 0 < base < h.top
    && if h.freep == 0 then h.free == [] && h.live == [] && h.core == 0
       else FreeOk(base, h) && LiveOk(base, h) && Sum(h.free) + Sum(h.live) == h.core
  }

  // ---- sbrk's argument ----

  /** The int that sbrk receives for n bytes. */
  function AsInt(n: nat): int {
    var m := n % UINT_LIMIT;
    if m < INT_LIMIT then m else m - UINT_LIMIT
  }

  /** The block morecore believes it got at unit p lies below the new break exactly when nu units
      are less than 2 GiB: from 0x800_0000 units on, the request is truncated. */
  lemma MorecoreBacked(p: nat, nu: nat)
    requires 0 < nu <= 0x1000_0001
    ensures (p + nu) * HEADER <= p * HEADER + AsInt(nu * HEADER) <==> nu < 0x800_0000
  {
    var n := nu * HEADER;
    if n >= UINT_LIMIT {
      assert n % UINT_LIMIT == n - UINT_LIMIT;
    }
  }

  /** malloc of the largest uint asks for 0x1000_0001 units, and sbrk is called with 16 bytes. */
  lemma LargestRequest()
    ensures Units(0xffff_ffff) == 0x1000_0001 && AsInt(Units(0xffff_ffff) * HEADER) == HEADER
  {
  }

  /** malloc's nunits: the payload and one header. */
  function Units(nbytes: nat): (n: nat)
    ensures n >= 1 && (n - 1) * HEADER >= nbytes && (n >= 2 ==> (n - 2) * HEADER < nbytes)
  {
    (nbytes + HEADER - 1) / HEADER + 1
  }

  // ---- headers and payloads ----

  predicate SameWords(ptr: map<nat, nat>, size: map<nat, nat>, ptr': map<nat, nat>, size': map<nat, nat>, a: nat) {
    && (a in ptr <==> a in ptr') && (a in ptr ==> ptr'[a] == ptr[a])
    && (a in size <==> a in size') && (a in size ==> size'[a] == size[a])
  }

  /** Unit a belongs to the payload of one of these blocks. */
  ghost predicate Inside(live: seq<Blk>, a: nat) { exists j :: 0 <= j < |live| && live[j].a < a < End(live[j]) }

  /** No word of a payload has been written. */
  ghost predicate PayloadKept(h: Heap, u: Heap, live: seq<Blk>) {
    forall a {:trigger SameWords(h.ptr, h.size, u.ptr, u.size, a)} :: Inside(live, a) ==>
          SameWords(h.ptr, h.size, u.ptr, u.size, a)
  }

  /** A payload unit is no header of a free or live block, nor part of a free block. */
  lemma PayloadApart(base: nat, h: Heap, a: nat)
    requires Inv(base, h) && Inside(h.live, a)
    ensures a < h.top && forall i :: 0 <= i < |h.free| ==> !(h.free[i].a <= a < End(h.free[i])) && a != h.free[i].a
    ensures forall i :: 0 <= i < |h.live| ==> a != h.live[i].a
  {
    var j :| 0 <= j < |h.live| && h.live[j].a < a < End(h.live[j]);
    assert Apart(h.free, h.live[j]);
    forall i | 0 <= i < |h.live| ensures a != h.live[i].a {
      if i != j {
        assert Clear(h.live[i], h.live[j]) || Clear(h.live[j], h.live[i]);
      }
    }
  }

  /** The allocator relies on no word of a payload: whatever the program writes there, all stays well. */
  lemma ScribbleOk(base: nat, h: Heap, a: nat, x: nat, y: nat)
    requires Inv(base, h) && Inside(h.live, a)
    ensures Inv(base, h.(ptr := h.ptr[a := x], size := h.size[a := y]))
  {
    hide Sum, Ordered;
    PayloadApart(base, h, a);
    var u := h.(ptr := h.ptr[a := x], size := h.size[a := y]);
    forall i | 0 <= i < |h.free| ensures RingAt(u.ptr, u.size, h.free, i) {
      assert RingAt(h.ptr, h.size, h.free, i);
    }
  }

  // ---- where a freed block goes ----

  ghost function PlaceFrom(f: seq<Blk>, bp: nat, i: nat): (k: nat)
    requires i < |f| && f[i].a < bp
    ensures k < |f| && f[k].a < bp && (k + 1 < |f| ==> bp <= f[k + 1].a)
    decreases |f| - i
  {
    if i + 1 < |f| && f[i + 1].a < bp then PlaceFrom(f, bp, i + 1) else i
  }

  function Steps(f: seq<Blk>, i: nat, k: nat): nat
    requires i < |f| && k < |f|
  {
    if i <= k then k - i else |f| - i + k
  }

  /** bp belongs right after element i: exactly free's two ways out of its loop. */
  predicate Found(f: seq<Blk>, bp: nat, i: nat)
    requires i < |f|
  {
    f[i].a < bp && (i + 1 < |f| ==> bp < f[i + 1].a)
  }

  lemma FoundIff(f: seq<Blk>, bp: nat, i: nat)
    requires Ordered(f) && f[0].a < bp && i < |f|
    ensures var p, nx := f[i].a, f[Succ(f, i)].a;
            Found(f, bp, i) <==> (bp > p && bp < nx) || (p >= nx && (bp > p || bp < nx))
  {
    assert i > 0 ==> f[0].a < f[i].a;
    assert i + 1 < |f| ==> f[i].a < f[i + 1].a;
  }

  /** Unless element i is the place, the next one is a step nearer to it. */
  lemma Nearer(f: seq<Blk>, bp: nat, i: nat, t: nat)
    requires i < |f| && t < |f| && Found(f, bp, t) && !Found(f, bp, i)
    ensures Steps(f, Succ(f, i), t) < Steps(f, i, t)
  {
  }

  lemma LiveBetween(base: nat, h: Heap, j: nat, k: nat)
    requires FreeOk(base, h) && LiveOk(base, h) && j < |h.live| && k < |h.free|
    requires h.free[k].a < h.live[j].a && (k + 1 < |h.free| ==> h.live[j].a <= h.free[k + 1].a)
    ensures Between(h.free, k, h.live[j])
  {
    var b := h.live[j];
    assert Clear(h.free[k], b);
    if k + 1 < |h.free| {
      assert Clear(h.free[k + 1], b) && h.free[k + 1].n >= 1;
    }
  }

  class Allocator {
    const base: nat
    var ptr: map<nat, nat>
    var size: map<nat, nat>
    var freep: nat
    var brk: nat            // the process's break, in units
    ghost var top: nat
    ghost var free: seq<Blk>
    ghost var live: seq<Blk>
    ghost var core: nat

    ghost function State(): Heap
      reads this
    {
      Heap(ptr, size, freep, top, free, live, core)
    }

    /** Before the first call of malloc; the base header is a static of the program. */
    constructor (base: nat, brk: nat)
      requires 0 < base < brk
      ensures this.base == base && this.brk == brk && Inv(base, State()) && top <= brk && live == [] && freep == 0
    {
      this.base, this.brk, top, freep := base, brk, brk, 0;
      ptr, size := map[], map[];
      free, live, core := [], [], 0;
    }

    /** free's search for the block that bp follows. */
    method FindPlace(bp: nat) returns (p: nat, ghost k: nat)
      requires Inv(base, State()) && freep != 0 && base < bp && forall i :: 0 <= i < |free| ==> free[i].a != bp
      ensures k < |free| && p == free[k].a && Found(free, bp, k)
    {
      hide LiveOk, Sum, Ring, PlaceFrom, Ordered, Found, Steps;
      p := freep;
      ghost var i :| 0 <= i < |free| && free[i].a == p;
      ghost var t := PlaceFrom(free, bp, 0);
      assert Found(free, bp, t) by { FoundHere(free, bp, t); }
      RingIs(ptr, size, free, i);
      FoundIff(free, bp, i);
      while !(bp > p && bp < ptr[p])
        invariant 0 <= i < |free| && p == free[i].a && RingAt(ptr, size, free, i)
        invariant Found(free, bp, i) <==> (bp > p && bp < ptr[p]) || (p >= ptr[p] && (bp > p || bp < ptr[p]))
        decreases Steps(free, i, t)
      {
        if p >= ptr[p] && (bp > p || bp < ptr[p]) {
          break;
        }
        Nearer(free, bp, i, t);
        p := ptr[p];
        i := Succ(free, i);
        RingIs(ptr, size, free, i);
        FoundIff(free, bp, i);
      }
      k := i;
    }

    /** free's first test: bp takes over the block after p if it touches it. */
    method LinkUp(p: nat, bp: nat, ghost k: nat, ghost b: Blk)
      requires Ordered(free) && Between(free, k, b) && Ring(ptr, size, free)
      requires p == free[k].a && bp == b.a && bp in size && size[bp] == b.n
      modifies `ptr, `size
      ensures Ring(ptr[p := bp], size, JoinUp(free, k, b))
      ensures bp in size && forall a :: a != bp ==> SameWords(old(ptr), old(size), ptr, size, a)
    {
      hide Ordered, Ring, Between, Insert;
      UpTest(ptr, size, free, k, b);
      PlaceApart(free, k, b);
      if bp + size[bp] == ptr[p] {
        RingJoined(ptr, size, free, k, b);
        size := size[bp := size[bp] + size[ptr[p]]];
        ptr := ptr[bp := ptr[ptr[p]]];
      } else {
        RingInserted(ptr, size, free, k, b);
        ptr := ptr[bp := ptr[p]];
      }
    }

    /** free's second test: p takes over bp if they touch. */
    method LinkDown(p: nat, bp: nat, ghost k: nat, ghost g: seq<Blk>)
      requires OrderedBut(g, k) && Ring(ptr[p := bp], size, g) && p == g[k].a && bp == g[k + 1].a && p != bp
      modifies `ptr, `size
      ensures Ring(ptr, size, JoinDown(g, k))
      ensures p in size && forall a :: a != p ==> SameWords(old(ptr), old(size), ptr, size, a)
    {
      hide OrderedBut, Ring, JoinDown;
      ghost var linked := ptr[p := bp];
      assert k + 1 < |g| by { OrderedButSize(g, k); }
      RingIs(linked, size, g, k);
      RingIs(linked, size, g, k + 1);
      if p + size[p] == bp {
        RingDown(linked, size, g, k);
        size := size[p := size[p] + size[bp]];
        ptr := ptr[p := ptr[bp]];
        assert ptr == linked[p := linked[bp]];
      } else {
        ptr := ptr[p := bp];
        JoinDownNot(g, k);
      }
    }

    /** free's linking of bp after p, joining it with either neighbour it touches. */
    method Link(p: nat, bp: nat, ghost k: nat, ghost b: Blk)
      requires Ordered(free) && Between(free, k, b) && Ring(ptr, size, free)
      requires p == free[k].a && bp == b.a && bp in size && size[bp] == b.n
      modifies `ptr, `size
      ensures Ring(ptr, size, Merge(free, k, b))
      ensures p in size && bp in size
      ensures forall a :: a != p && a != bp ==> SameWords(old(ptr), old(size), ptr, size, a)
    {
      hide Ordered, Ring, Between, JoinDown, JoinUp, OrderedBut;
      JoinUpOk(free, k, b);
      PlaceApart(free, k, b);
      LinkUp(p, bp, k, b);
      ghost var ptr1, size1 := ptr, size;
      LinkDown(p, bp, k, JoinUp(free, k, b));
      assert SameWords(ptr1, size1, ptr, size, bp);
      forall a | a != p && a != bp ensures SameWords(old(ptr), old(size), ptr, size, a) {
        assert SameWords(old(ptr), old(size), ptr1, size1, a) && SameWords(ptr1, size1, ptr, size, a);
      }
    }

    /** free of the block whose payload starts at ap. No word of another live block's payload is
        written. */
    method Free(ap: nat, ghost j: nat) returns (ghost k: nat)
      requires Inv(base, State()) && j < |live| && ap == live[j].a + 1
      modifies this
      ensures Inv(base, State()) && top == old(top) && brk == old(brk) && core == old(core) && freep != 0
      ensures live == Remove(old(live), j) && PayloadKept(old(State()), State(), live)
      ensures Between(old(free), k, old(live)[j]) && free == Merge(old(free), k, old(live)[j])
      ensures freep == old(free)[k].a
    {
      hide Inv, Merge, Remove, Ordered, Ring, LiveOk;
      ghost var h0 := State();
      LiveFacts(base, h0, j);
      var bp := ap - 1;
      var p;
      p, k := FindPlace(bp);
      LiveBetween(base, h0, j, k);
      Link(p, bp, k, live[j]);
      freep := p;
      free := Merge(free, k, live[j]);
      live := Remove(live, j);
      forall a | a in h0.size ensures a in size && (a != p && a != bp ==> size[a] == h0.size[a]) {
        assert a == p || a == bp || SameWords(h0.ptr, h0.size, ptr, size, a);
      }
      FreedInv(base, h0, State(), j, k);
      FreedPayload(base, h0, State(), j, k);
    }

    /** sbrk of n bytes, n an int: failure, or the break, which others may have moved up, moves by n
        bytes from the address returned. A shrink past address 0 is ignored. */
    method Sbrk(n: int) returns (p: int)
      modifies `brk
      ensures p == -1 ==> brk == old(brk)
      ensures p != -1 ==> p >= old(brk) && brk == if p + n / HEADER >= 0 then p + n / HEADER else p
    {
      var fails: bool, gap: nat := *, *;
      if fails {
        p := -1;
      } else {
        p := brk + gap;
        brk := if p + n / HEADER >= 0 then p + n / HEADER else p;
      }
    }

    /** morecore: on success some free block has at least nu units, and nothing live has changed. What
        the allocator takes for its own then lies below the break exactly if nu units, or the 4096
        asked for instead, are less than 2 GiB. */
    method Morecore(nu: nat) returns (r: nat)
      requires Inv(base, State()) && top <= brk && freep != 0 && 0 < nu <= 0x1000_0001
      modifies this
      ensures Inv(base, State()) && live == old(live) && freep != 0 && PayloadKept(old(State()), State(), live)
      ensures r == 0 ==> State() == old(State()) && brk == old(brk)
      ensures r != 0 ==> r == freep && Fits(free, nu) && core == old(core) + Most(nu, CORE)
      ensures r != 0 ==> (top <= brk <==> Most(nu, CORE) < 0x800_0000)
    {
      hide Inv, Merge, Remove, Between, LiveOk, Ordered, Ring, Home, PayloadKept, AsInt;
      var n := Most(nu, CORE);
      ghost var h0 := State();
      var p := Sbrk(AsInt(n * HEADER));
      if p == -1 {
        PayloadSame(h0, live);
        return 0;
      }
      ghost var b := Blk(p, n);
      size := size[p := n];
      live := live + [b];
      core := core + n;
      top := p + n;
      GrantedInv(base, h0, State(), b);
      ghost var f0, h1 := free, State();
      assert live[|live| - 1] == b;
      ghost var k := Free(p + 1, |live| - 1);
      RemoveLast(h0.live, b);
      GrantedPayload(base, h0, h1, b);
      PayloadChain(h0, h1, State(), live);
      assert Ordered(f0) by { GrantedOrdered(base, h0); }
      PlaceApart(f0, k, b);
      MergeCovers(f0, k, b);
      r := freep;
      assert free[Home(f0, k, b)].n >= nu;
      MorecoreBacked(p, n);
    }

    /** malloc takes block i whole, or its tail; prevp is the block before it. */
    method Carve(p: nat, prevp: nat, nunits: nat, ghost i: nat) returns (q: nat)
      requires Inv(base, State()) && freep != 0 && 1 <= nunits
      requires 1 <= i < |free| && p == free[i].a && prevp == free[i - 1].a && free[i].n >= nunits
      modifies this
      ensures Inv(base, State()) && freep != 0 && top == old(top) && brk == old(brk) && core == old(core)
      ensures live == old(live) + [Blk(q, nunits)] && PayloadKept(old(State()), State(), old(live))
    {
      hide Inv, Remove, Ordered, Ring, LiveOk, Shrink;
      ghost var h0 := State();
      CarveFacts(base, h0, i);
      if size[p] == nunits {
        RingRemove(ptr, size, free, i);
        ptr := ptr[prevp := ptr[p]];
        q := p;
        free, live := Remove(free, i), live + [free[i]];
        freep := prevp;
        CarvedWhole(base, h0, State(), i);
      } else {
        RingShrink(ptr, size, free, i, nunits);
        size := size[p := size[p] - nunits];
        q := p + size[p];
        size := size[q := nunits];
        live := live + [Blk(q, nunits)];
        free := Shrink(free, i, nunits);
        freep := prevp;
        CarvedTail(base, h0, State(), i, nunits);
      }
      CarvedPayload(base, h0, State(), i, q);
    }

    /** malloc's first call: the list is the base header alone. */
    method Init()
      requires Inv(base, State()) && freep == 0
      modifies this
      ensures Inv(base, State()) && freep != 0 && live == old(live) && core == old(core) && top == old(top)
      ensures brk == old(brk)
      ensures old(free) == [] && PayloadKept(old(State()), State(), live)
    {
      ptr := ptr[base := base];
      freep := base;
      size := size[base := 0];
      free := [Blk(base, 0)];
      assert free[0].a == freep;
    }

    /** malloc. The result is disjoint from all free and live blocks by the invariant, holds at least
        nbytes, and no word of a live payload is written; morecore is called at most once, only if no
        free block is large enough, and 0 is returned only if sbrk refuses. All that the allocator
        takes for its own stays below the break, exactly unless sbrk was asked for 2 GiB or more. */
    method Malloc(nbytes: nat) returns (ap: nat, ghost calls: nat)
      requires Inv(base, State()) && top <= brk && nbytes < UINT_LIMIT
      modifies this
      ensures Inv(base, State()) && calls <= 1 && PayloadKept(old(State()), State(), old(live))
      ensures ap == 0 ==> live == old(live) && core == old(core) && calls == 1 && brk == old(brk)
      ensures calls == 1 ==> !Fits(old(free), Units(nbytes))
      ensures ap != 0 ==> live == old(live) + [Blk(ap - 1, Units(nbytes))]
      ensures core == old(core) + if calls == 1 && ap != 0 then Most(Units(nbytes), CORE) else 0
      ensures top <= brk <==> !(calls == 1 && ap != 0 && Units(nbytes) >= 0x800_0000)
    {
      hide Inv, Units, Scanning, At, Sum, Fits, Waiting, PayloadKept;
      var nunits := Units(nbytes);
      UnitsBound(nbytes);
      PayloadSame(State(), live);
      calls := 0;
      if freep == 0 {
        Init();
        NothingFits(nunits);
      }
      var prevp := freep;
      ghost var f: nat := StartScan(base, State(), nunits);
      var p := ptr[prevp];
      ghost var d: nat, w: nat := 0, 0;
      ghost var fits := Fits(old(free), nunits);
      if fits {
        w := Ahead(State(), f, nunits);
      }
      while true
        invariant Scanning(base, State(), f, d, p, prevp, nunits) && live == old(live) && calls <= 1
        invariant calls == 1 || fits ==> Waiting(State(), f, d, w, nunits)
        invariant calls == 1 ==> !fits
        invariant calls == 0 ==> top == old(top) && brk == old(brk)
        invariant calls == 1 ==> (top <= brk <==> nunits < 0x800_0000)
        invariant PayloadKept(old(State()), State(), live)
        invariant core == old(core) + if calls == 1 then Most(nunits, CORE) else 0
        invariant d <= |free|
        decreases 1 - calls, |free| - d
      {
        ScanHere(base, State(), f, d, p, prevp, nunits);
        ghost var h1 := State();
        if size[p] >= nunits {
          var q := Carve(p, prevp, nunits, At(|free|, f, d));
          PayloadChain(old(State()), h1, State(), old(live));
          return q + 1, calls;
        }
        if p == freep {
          ScanEnd(base, State(), f, d, p, prevp, nunits, w);
          calls := calls + 1;
          p := Morecore(nunits);
          PayloadChain(old(State()), h1, State(), live);
          if p == 0 {
            return 0, calls;
          }
          f := StartScan(base, State(), nunits);
          w := Ahead(State(), f, nunits);
          d := 0;
        } else {
          ScanNext(base, State(), f, d, p, prevp, nunits, w);
          d := d + 1;
        }
        prevp := p;
        p := ptr[p];
      }
    }
  }

  lemma UnitsBound(nbytes: nat)
    requires nbytes < UINT_LIMIT
    ensures Units(nbytes) <= 0x1000_0001
  {
  }

  lemma PayloadSame(h: Heap, live: seq<Blk>)
    ensures PayloadKept(h, h, live)
  {
  }

  lemma PayloadChain(h: Heap, t: Heap, u: Heap, live: seq<Blk>)
    requires PayloadKept(h, t, live) && PayloadKept(t, u, live)
    ensures PayloadKept(h, u, live)
  {
    forall a: nat | Inside(live, a) ensures SameWords(h.ptr, h.size, u.ptr, u.size, a) {
      assert SameWords(h.ptr, h.size, t.ptr, t.size, a) && SameWords(t.ptr, t.size, u.ptr, u.size, a);
    }
  }

  lemma FreedPayload(base: nat, h: Heap, u: Heap, j: nat, k: nat)
    requires Inv(base, h) && j < |h.live| && k < |h.free| && u.live == Remove(h.live, j)
    requires forall a :: a != h.free[k].a && a != h.live[j].a ==> SameWords(h.ptr, h.size, u.ptr, u.size, a)
    ensures PayloadKept(h, u, u.live)
  {
    hide Inv;
    forall a: nat | Inside(u.live, a) ensures SameWords(h.ptr, h.size, u.ptr, u.size, a) {
      var i :| 0 <= i < |u.live| && u.live[i].a < a < End(u.live[i]);
      assert u.live[i] == h.live[if i < j then i else i + 1];
      assert Inside(h.live, a);
      PayloadApart(base, h, a);
    }
  }

  lemma GrantedPayload(base: nat, h: Heap, u: Heap, b: Blk)
    requires Inv(base, h) && b.a >= h.top && u.ptr == h.ptr && u.size == h.size[b.a := b.n]
    ensures PayloadKept(h, u, h.live)
  {
    hide Inv;
    forall a: nat | Inside(h.live, a) ensures SameWords(h.ptr, h.size, u.ptr, u.size, a) {
      PayloadApart(base, h, a);
    }
  }

  lemma CarvedPayload(base: nat, h: Heap, u: Heap, i: nat, q: nat)
    requires Inv(base, h) && 1 <= i < |h.free| && h.free[i].a <= q < End(h.free[i])
    requires forall a :: a != h.free[i - 1].a && a != h.free[i].a && a != q ==>
              SameWords(h.ptr, h.size, u.ptr, u.size, a)
    ensures PayloadKept(h, u, h.live)
  {
    hide Inv;
    forall a: nat | Inside(h.live, a) ensures SameWords(h.ptr, h.size, u.ptr, u.size, a) {
      PayloadApart(base, h, a);
    }
  }

  lemma FoundHere(f: seq<Blk>, bp: nat, t: nat)
    requires t < |f| && f[t].a < bp && (t + 1 < |f| ==> bp <= f[t + 1].a) && forall i :: 0 <= i < |f| ==> f[i].a != bp
    ensures Found(f, bp, t)
  {
  }

  lemma PlaceApart(f: seq<Blk>, k: nat, b: Blk)
    requires Between(f, k, b)
    ensures f[k].a != b.a && k < |f|
  {
  }

  lemma OrderedButSize(g: seq<Blk>, k: nat)
    requires OrderedBut(g, k)
    ensures k + 1 < |g|
  {
  }

  lemma JoinDownNot(g: seq<Blk>, k: nat)
    requires k + 1 < |g| && End(g[k]) != g[k + 1].a
    ensures JoinDown(g, k) == g
  {
  }

  /** What free relies on about the block it is given. */
  lemma LiveFacts(base: nat, h: Heap, j: nat)
    requires Inv(base, h) && j < |h.live|
    ensures FreeOk(base, h) && LiveOk(base, h) && h.freep != 0 && base < h.live[j].a
    ensures Ordered(h.free) && Ring(h.ptr, h.size, h.free) && h.live[j].a in h.size
    ensures h.size[h.live[j].a] == h.live[j].n
    ensures forall i :: 0 <= i < |h.free| ==> h.free[i].a != h.live[j].a
  {
    hide Ring;
    forall i | 0 <= i < |h.free| ensures h.free[i].a != h.live[j].a {
      assert Clear(h.free[i], h.live[j]);
    }
  }

  lemma FreedInv(base: nat, h: Heap, u: Heap, j: nat, k: nat)
    requires Inv(base, h) && j < |h.live| && Between(h.free, k, h.live[j])
    requires u.free == Merge(h.free, k, h.live[j]) && u.live == Remove(h.live, j) && Ring(u.ptr, u.size, u.free)
    requires u.freep == h.free[k].a && u.top == h.top && u.core == h.core
    requires forall a :: a in h.size ==>
              a in u.size && (a != h.free[k].a && a != h.live[j].a ==> u.size[a] == h.size[a])
    ensures Inv(base, u) && u.freep != 0
  {
    hide Ring, Merge, Remove, Sum;
    var b := h.live[j];
    MergeOk(h.free, k, b);
    SumRemove(h.live, j);
    MergeBase(h.free, k, b);
    MergeBound(h.free, k, b, h.top);
    assert u.free[k].a == u.freep;
    FreedLive(base, h, u, j, k);
  }

  lemma MergeBase(f: seq<Blk>, k: nat, b: Blk)
    requires Ordered(f) && Between(f, k, b)
    ensures Merge(f, k, b)[0] == f[0] && k < |Merge(f, k, b)|
  {
    hide Insert, Remove;
    JoinUpOk(f, k, b);
  }

  lemma MergeBound(f: seq<Blk>, k: nat, b: Blk, top: nat)
    requires k < |f| && End(b) <= top && forall i :: 0 <= i < |f| ==> End(f[i]) <= top
    ensures forall i :: 0 <= i < |Merge(f, k, b)| ==> End(Merge(f, k, b)[i]) <= top
  {
    hide Insert, Remove;
    var g := JoinUp(f, k, b);
    assert forall i :: 0 <= i < |g| ==> End(g[i]) <= top;
  }

  lemma FreedLive(base: nat, h: Heap, u: Heap, j: nat, k: nat)
    requires FreeOk(base, h) && LiveOk(base, h) && j < |h.live| && Between(h.free, k, h.live[j])
    requires u.free == Merge(h.free, k, h.live[j]) && u.live == Remove(h.live, j) && u.top == h.top
    requires forall a :: a in h.size ==>
              a in u.size && (a != h.free[k].a && a != h.live[j].a ==> u.size[a] == h.size[a])
    ensures LiveOk(base, u)
  {
    hide Ring, Merge, Remove, Sum;
    forall i | 0 <= i < |u.live|
      ensures Apart(u.free, u.live[i]) && u.live[i].a in u.size && u.size[u.live[i].a] == u.live[i].n
    {
      var x := if i < j then i else i + 1;
      var c := h.live[x];
      assert u.live[i] == c;
      assert if x < j then Clear(h.live[x], h.live[j]) else Clear(h.live[j], h.live[x]);
      MergeApart(h.free, k, h.live[j], c);
      assert Clear(h.free[k], c) && c.a != h.free[k].a && c.a != h.live[j].a;
    }
  }

  /** Some free block has n units. */
  ghost predicate Fits(f: seq<Blk>, n: nat) { exists i: nat :: i < |f| && f[i].n >= n }

  function Most(a: nat, b: nat): nat { if a < b then b else a }

  // ---- more core ----

  lemma GrantedInv(base: nat, h: Heap, u: Heap, b: Blk)
    requires Inv(base, h) && h.freep != 0 && b.n >= 1 && b.a >= h.top
    requires u == Heap(h.ptr, h.size[b.a := b.n], h.freep, End(b), h.free, h.live + [b], h.core + b.n)
    ensures Inv(base, u)
  {
    hide Sum, Ordered;
    SumConcat(h.live, [b]);
    assert Sum([b]) == b.n by { SumOne(b); }
    RingElsewhere(h.ptr, h.size, h.free, b.a, b.n, h.top);
    forall j | 0 <= j < |u.live|
      ensures base < u.live[j].a && u.live[j].n >= 1 && End(u.live[j]) <= u.top
      ensures u.live[j].a in u.size && u.size[u.live[j].a] == u.live[j].n && Apart(u.free, u.live[j])
    {
      if j < |h.live| {
        assert u.live[j] == h.live[j];
      }
    }
  }

  lemma SumOne(b: Blk)
    ensures Sum([b]) == b.n
  {
    assert [b][1..] == [];
  }

  /** A header at or above the break is no list header... */
  lemma RingElsewhere(ptr: map<nat, nat>, size: map<nat, nat>, f: seq<Blk>, a: nat, n: nat, top: nat)
    requires Ring(ptr, size, f) && Ordered(f) && f[0].a < top && a >= top
    requires forall i :: 0 <= i < |f| ==> End(f[i]) <= top
    ensures Ring(ptr, size[a := n], f)
  {
    var size' := size[a := n];
    forall i | 0 <= i < |f| ensures RingAt(ptr, size', f, i) {
      assert RingAt(ptr, size, f, i);
      assert i >= 1 ==> f[i].n >= 1;
    }
  }

  lemma GrantedOrdered(base: nat, h: Heap)
    requires Inv(base, h) && h.freep != 0
    ensures Ordered(h.free)
  {
  }

  lemma RemoveLast(f: seq<Blk>, b: Blk)
    ensures Remove(f + [b], |f|) == f
  {
  }

  // ---- carving ----

  lemma CarveFacts(base: nat, h: Heap, i: nat)
    requires Inv(base, h) && h.freep != 0 && i < |h.free|
    ensures Ordered(h.free) && Ring(h.ptr, h.size, h.free)
    ensures h.free[i].a in h.size && h.size[h.free[i].a] == h.free[i].n && h.free[i].a in h.ptr
  {
    RingIs(h.ptr, h.size, h.free, i);
  }

  lemma CarvedWhole(base: nat, h: Heap, u: Heap, i: nat)
    requires Inv(base, h) && h.freep != 0 && 1 <= i < |h.free| && Ring(u.ptr, u.size, u.free)
    requires u == Heap(u.ptr, h.size, h.free[i - 1].a, h.top, Remove(h.free, i), h.live + [h.free[i]], h.core)
    ensures Inv(base, u) && u.freep != 0
  {
    hide Sum, Ring, Remove;
    var b := h.free[i];
    RemoveOk(h.free, i);
    SumRemove(h.free, i);
    SumConcat(h.live, [b]);
    SumOne(b);
    CarveFacts(base, h, i);
    assert u.free[i - 1].a == u.freep;
    assert u.free[0] == h.free[0] && h.free[0].a <= h.free[i - 1].a;
    assert Apart(u.free, b) by { RemovedApart(h.free, i); }
    LiveMore(base, h, u, b);
  }

  lemma RemovedApart(f: seq<Blk>, i: nat)
    requires Ordered(f) && i < |f|
    ensures Apart(Remove(f, i), f[i])
  {
    hide Remove;
  }

  /** A block carved out of the free list joins the live ones. */
  lemma LiveMore(base: nat, h: Heap, u: Heap, b: Blk)
    requires LiveOk(base, h) && u.live == h.live + [b] && u.top == h.top
    requires base < b.a && b.n >= 1 && End(b) <= h.top && b.a in u.size && u.size[b.a] == b.n && Apart(u.free, b)
    requires forall j :: 0 <= j < |h.live| ==>
               && Clear(h.live[j], b) && Apart(u.free, h.live[j])
               && h.live[j].a in u.size && u.size[h.live[j].a] == h.live[j].n
    ensures LiveOk(base, u)
  {
    hide Apart, Clear;
    forall j | 0 <= j < |u.live|
      ensures base < u.live[j].a && u.live[j].n >= 1 && End(u.live[j]) <= u.top
      ensures u.live[j].a in u.size && u.size[u.live[j].a] == u.live[j].n && Apart(u.free, u.live[j])
    {
      assert u.live[j] == if j < |h.live| then h.live[j] else b;
    }
    forall x, j | 0 <= x < j < |u.live| ensures Clear(u.live[x], u.live[j]) {
      assert u.live[x] == h.live[x] && u.live[j] == if j < |h.live| then h.live[j] else b;
    }
  }

  lemma CarvedTail(base: nat, h: Heap, u: Heap, i: nat, n: nat)
    requires Inv(base, h) && h.freep != 0 && 1 <= i < |h.free| && 1 <= n < h.free[i].n && Ring(u.ptr, u.size, u.free)
    requires var q := h.free[i].a + h.free[i].n - n;
             u == Heap(h.ptr, h.size[h.free[i].a := h.free[i].n - n][q := n], h.free[i - 1].a, h.top,
                       Shrink(h.free, i, n), h.live + [Blk(q, n)], h.core)
    ensures Inv(base, u) && u.freep != 0
  {
    hide Sum, Ring;
    var b := Blk(h.free[i].a + h.free[i].n - n, n);
    ShrinkOk(h.free, i, n);
    SumConcat(h.live, [b]);
    SumOne(b);
    assert u.free[i - 1].a == u.freep;
    assert h.free[0].a <= h.free[i - 1].a && End(h.free[0]) < h.free[i].a;
    forall j | 0 <= j < |h.live|
      ensures Clear(h.live[j], b) && Apart(u.free, h.live[j])
      ensures h.live[j].a in u.size && u.size[h.live[j].a] == h.live[j].n
    {
      assert Clear(h.free[i], h.live[j]);
    }
    LiveMore(base, h, u, b);
  }

  // ---- the scan ----

  /** The index visited e steps after the one following f, around a ring of n. */
  function At(n: nat, f: nat, e: nat): (i: nat)
    requires f < n && e < n
    ensures i < n
  {
    if f + 1 + e < n then f + 1 + e else f + 1 + e - n
  }

  function Before(n: nat, f: nat, e: nat): (i: nat)
    requires f < n && e < n
    ensures i < n
  {
    if e == 0 then f else if f + e < n then f + e else f + e - n
  }

  function Distance(n: nat, f: nat, i: nat): nat
    requires f < n && i < n
  {
    if i > f then i - f - 1 else n + i - f - 1
  }

  lemma DistanceAt(n: nat, f: nat, i: nat)
    requires f < n && i < n
    ensures Distance(n, f, i) < n && At(n, f, Distance(n, f, i)) == i
  {
  }

  /** malloc has passed d blocks after freep, all too small, and stands at p, after prevp. */
  ghost predicate Scanning(base: nat, h: Heap, f: nat, d: nat, p: nat, prevp: nat, n: nat) {
    && Inv(base, h) && h.freep != 0 && f < |h.free| && d < |h.free| && h.freep == h.free[f].a
    && p == h.free[At(|h.free|, f, d)].a && prevp == h.free[Before(|h.free|, f, d)].a
    && (forall e :: 0 <= e < d ==> h.free[At(|h.free|, f, e)].n < n)
  }

  /** A block that is large enough lies ahead. */
  ghost predicate Waiting(h: Heap, f: nat, d: nat, w: nat, n: nat) {
    f < |h.free| && d <= w < |h.free| && h.free[At(|h.free|, f, w)].n >= n
  }

  lemma NothingFits(n: nat)
    ensures !Fits([], n)
  {
  }

  ghost method Ahead(h: Heap, f: nat, n: nat) returns (w: nat)
    requires f < |h.free| && Fits(h.free, n)
    ensures Waiting(h, f, 0, w, n)
  {
    var big: nat :| big < |h.free| && h.free[big].n >= n;
    w := Distance(|h.free|, f, big);
    DistanceAt(|h.free|, f, big);
  }

  ghost method StartScan(base: nat, h: Heap, n: nat) returns (f: nat)
    requires Inv(base, h) && h.freep != 0
    ensures f < |h.free| && h.freep in h.ptr && Scanning(base, h, f, 0, h.ptr[h.freep], h.freep, n)
  {
    hide Sum, LiveOk, Ordered, Ring;
    f :| 0 <= f < |h.free| && h.free[f].a == h.freep;
    RingIs(h.ptr, h.size, h.free, f);
  }

  lemma ScanHere(base: nat, h: Heap, f: nat, d: nat, p: nat, prevp: nat, n: nat)
    requires Scanning(base, h, f, d, p, prevp, n) && n >= 1
    ensures Inv(base, h) && h.freep != 0 && f < |h.free| && d < |h.free| && p in h.size && p in h.ptr
    ensures var i := At(|h.free|, f, d);
            && p == h.free[i].a && h.size[p] == h.free[i].n
            && (h.size[p] >= n ==> i >= 1 && prevp == h.free[i - 1].a)
  {
    hide Sum, LiveOk, Ring;
    CarveFacts(base, h, At(|h.free|, f, d));
  }

  /** Back at freep with nothing found: no block is large enough. */
  lemma ScanEnd(base: nat, h: Heap, f: nat, d: nat, p: nat, prevp: nat, n: nat, w: nat)
    requires Scanning(base, h, f, d, p, prevp, n) && p == h.freep && p in h.size && h.size[p] < n
    ensures !Waiting(h, f, d, w, n)
  {
    hide Sum, LiveOk, Ring;
    var i := At(|h.free|, f, d);
    CarveFacts(base, h, i);
    Distinct(h.free, i, f);
  }

  lemma ScanNext(base: nat, h: Heap, f: nat, d: nat, p: nat, prevp: nat, n: nat, w: nat)
    requires Scanning(base, h, f, d, p, prevp, n) && p != h.freep && p in h.size && h.size[p] < n
    ensures d + 1 < |h.free| && p in h.ptr && Scanning(base, h, f, d + 1, h.ptr[p], p, n)
    ensures Waiting(h, f, d, w, n) ==> Waiting(h, f, d + 1, w, n)
  {
    hide Sum, LiveOk, Ring;
    var i := At(|h.free|, f, d);
    CarveFacts(base, h, i);
    RingIs(h.ptr, h.size, h.free, i);
  }
}

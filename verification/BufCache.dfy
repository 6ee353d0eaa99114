/** bio.c: the LRU buffer cache over a disk. The list head is the index after the last buffer. */
module BufCache {
  import opened Collections
  import opened Blocks
  import opened LruRing

  datatype Key = Key(dev: nat, blockno: nat)

  datatype Buf = Buf(key: Key, valid: bool, refcnt: nat, data: Block)

  datatype Cache = Cache(next: seq<nat>, prev: seq<nat>, buf: seq<Buf>, disk: map<Key, Block>)

  /** What the disk holds. */
  function Stored(disk: map<Key, Block>, k: Key): Block { if k in disk then disk[k] else seq(BSIZE, i => 0) }

  /** At most one buffer per block of a real device. */
  ghost predicate Unique(c: Cache) {
    forall i, j :: 0 <= i < j < |c.buf| && c.buf[i].key.dev >= 1 ==> c.buf[i].key != c.buf[j].key
  }

  /** A buffer nobody refers to holds what the disk holds. */
  ghost predicate CleanAt(c: Cache, i: nat)
    requires i < |c.buf|
  {
    c.buf[i].key.dev >= 1 && c.buf[i].valid ==> c.buf[i].data == Stored(c.disk, c.buf[i].key)
  }

  ghost predicate Clean(c: Cache) {
    forall i :: 0 <= i < |c.buf| && c.buf[i].refcnt == 0 ==> CleanAt(c, i)
  }

  /** The list is one ring of all the buffers, headed by |buf|. */
  ghost predicate RingOk(c: Cache, ring: seq<nat>) {
    && |c.next| == |c.prev| == |c.buf| + 1 && Whole(ring, |c.buf| + 1) && ring[0] == |c.buf|
    && Linked(c.next, c.prev, ring)
  }

  /** When each buffer was last let go: the list is in order, most recent first. */
  ghost predicate ByAge(ring: seq<nat>, stamp: seq<nat>, clock: nat) {
    && |stamp| + 1 == |ring| && (forall i :: 0 <= i < |stamp| ==> stamp[i] <= clock)
    && (forall j, k :: 1 <= j < k < |ring| && ring[j] < |stamp| && ring[k] < |stamp| ==>
          stamp[ring[j]] > stamp[ring[k]])
  }

  /** The structure is right; some unreferenced buffer may differ from the disk. */
  ghost predicate Sound(c: Cache, ring: seq<nat>, stamp: seq<nat>, clock: nat) {
    RingOk(c, ring) && Unique(c) && ByAge(ring, stamp, clock)
  }

  ghost predicate Inv(c: Cache, ring: seq<nat>, stamp: seq<nat>, clock: nat) {
    Sound(c, ring, stamp, clock) && Clean(c)
  }

  // ---- the map that the cache stands for ----

  ghost predicate Holds(c: Cache, i: nat, k: Key)
    requires i < |c.buf|
  {
    c.buf[i].key == k && c.buf[i].valid
  }

  /** What bread returns for block k. */
  ghost function View(c: Cache, k: Key): Block {
    if exists i :: 0 <= i < |c.buf| && Holds(c, i, k)
    then var i :| 0 <= i < |c.buf| && Holds(c, i, k); c.buf[i].data
    else Stored(c.disk, k)
  }

  lemma ViewIs(c: Cache, i: nat, k: Key)
    requires Unique(c) && i < |c.buf| && Holds(c, i, k) && k.dev >= 1
    ensures View(c, k) == c.buf[i].data
  {
    var j :| 0 <= j < |c.buf| && Holds(c, j, k) && View(c, k) == c.buf[j].data;
    assert j < i ==> c.buf[j].key != c.buf[i].key;
    assert i < j ==> c.buf[i].key != c.buf[j].key;
  }

  /** Nothing that readers can see has changed. */
  ghost predicate SameView(c: Cache, d: Cache) { forall k: Key :: k.dev >= 1 ==> View(d, k) == View(c, k) }

  /** Buffers agree, up to reference counts. */
  lemma SameBufs(c: Cache, d: Cache)
    requires Unique(c) && Unique(d) && |d.buf| == |c.buf| && d.disk == c.disk
    requires forall i :: 0 <= i < |c.buf| ==> d.buf[i] == c.buf[i].(refcnt := d.buf[i].refcnt)
    ensures SameView(c, d)
  {
    forall k: Key | k.dev >= 1 ensures View(d, k) == View(c, k) {
      if exists i :: 0 <= i < |c.buf| && Holds(c, i, k) {
        var i :| 0 <= i < |c.buf| && Holds(c, i, k);
        ViewIs(c, i, k);
        assert Holds(d, i, k);
        ViewIs(d, i, k);
      } else {
        assert forall i :: 0 <= i < |d.buf| ==> Holds(d, i, k) == Holds(c, i, k);
      }
    }
  }

  // ---- the steps on states ----

  /** bget's recycling of buffer i. */
  function Recycle(c: Cache, i: nat, k: Key): Cache
    requires i < |c.buf|
  {
    c.(buf := c.buf[i := Buf(k, false, 1, c.buf[i].data)])
  }

  ghost predicate Cached(c: Cache, k: Key) { exists i :: 0 <= i < |c.buf| && c.buf[i].key == k }

  lemma RecycleOk(c: Cache, i: nat, k: Key)
    requires Unique(c) && Clean(c) && i < |c.buf| && c.buf[i].refcnt == 0 && !Cached(c, k) && k.dev >= 1
    ensures Unique(Recycle(c, i, k)) && Clean(Recycle(c, i, k)) && SameView(c, Recycle(c, i, k))
  {
    var d := Recycle(c, i, k);
    forall q: Key | q.dev >= 1 ensures View(d, q) == View(c, q) {
      RecycleView(c, i, k, q);
    }
    forall x | 0 <= x < |d.buf| && d.buf[x].refcnt == 0 ensures CleanAt(d, x) {
      assert CleanAt(c, x);
    }
  }

  lemma RecycleView(c: Cache, i: nat, k: Key, q: Key)
    requires Unique(c) && i < |c.buf| && CleanAt(c, i) && !Cached(c, k) && k.dev >= 1 && q.dev >= 1
    requires Unique(Recycle(c, i, k))
    ensures View(Recycle(c, i, k), q) == View(c, q)
  {
    var d := Recycle(c, i, k);
    if j :| 0 <= j < |c.buf| && Holds(c, j, q) {
      ViewIs(c, j, q);
      if j != i {
        assert Holds(d, j, q);
        ViewIs(d, j, q);
      } else {
        assert CleanAt(c, i);
        assert forall x :: 0 <= x < |d.buf| ==> !Holds(d, x, q);
      }
    } else {
      forall x | 0 <= x < |d.buf| ensures !Holds(d, x, q) { assert !Holds(c, x, q); }
    }
  }

  /** Recycling a buffer is invisible if and only if it agreed with the disk. */
  lemma RecycleExactly(c: Cache, i: nat, k: Key)
    requires Unique(c) && i < |c.buf| && !Cached(c, k) && k.dev >= 1
    ensures SameView(c, Recycle(c, i, k)) <==> CleanAt(c, i)
  {
    var d, q := Recycle(c, i, k), c.buf[i].key;
    assert Unique(d);
    if CleanAt(c, i) {
      forall q: Key | q.dev >= 1 ensures View(d, q) == View(c, q) {
        RecycleView(c, i, k, q);
      }
    } else {
      assert Holds(c, i, q);
      ViewIs(c, i, q);
      assert forall x :: 0 <= x < |d.buf| ==> !Holds(d, x, q);
      assert View(d, q) == Stored(c.disk, q);
    }
  }

  /** virtio_disk_rw(b, 0) and b->valid = 1 */
  function Load(c: Cache, i: nat): Cache
    requires i < |c.buf|
  {
    c.(buf := c.buf[i := c.buf[i].(valid := true, data := Stored(c.disk, c.buf[i].key))])
  }

  lemma LoadOk(c: Cache, i: nat)
    requires Unique(c) && Clean(c) && i < |c.buf| && !c.buf[i].valid && c.buf[i].key.dev >= 1
    ensures Unique(Load(c, i)) && Clean(Load(c, i)) && SameView(c, Load(c, i))
  {
    var d := Load(c, i);
    forall q: Key | q.dev >= 1 ensures View(d, q) == View(c, q) {
      LoadView(c, i, q);
    }
    forall x | 0 <= x < |d.buf| && d.buf[x].refcnt == 0 ensures CleanAt(d, x) {
      assert x != i ==> CleanAt(c, x);
    }
  }

  lemma LoadView(c: Cache, i: nat, q: Key)
    requires Unique(c) && i < |c.buf| && !c.buf[i].valid && c.buf[i].key.dev >= 1 && q.dev >= 1 && Unique(Load(c, i))
    ensures View(Load(c, i), q) == View(c, q)
  {
    var d := Load(c, i);
    if j :| 0 <= j < |c.buf| && Holds(c, j, q) {
      ViewIs(c, j, q);
      assert Holds(d, j, q);
      ViewIs(d, j, q);
    } else if q == c.buf[i].key {
      assert Holds(d, i, q);
      ViewIs(d, i, q);
    } else {
      forall x | 0 <= x < |d.buf| ensures !Holds(d, x, q) { assert !Holds(c, x, q); }
    }
  }

  /** bwrite: the disk gets the buffer's data. */
  function Flush(c: Cache, i: nat): Cache
    requires i < |c.buf|
  {
    c.(disk := c.disk[c.buf[i].key := c.buf[i].data])
  }

  lemma FlushOk(c: Cache, i: nat)
    requires Unique(c) && Clean(c) && i < |c.buf| && c.buf[i].valid && c.buf[i].key.dev >= 1
    ensures Unique(Flush(c, i)) && Clean(Flush(c, i)) && SameView(c, Flush(c, i)) && CleanAt(Flush(c, i), i)
  {
    var d := Flush(c, i);
    forall q: Key | q.dev >= 1 ensures View(d, q) == View(c, q) {
      if j :| 0 <= j < |c.buf| && Holds(c, j, q) {
        ViewIs(c, j, q);
        assert Holds(d, j, q);
        ViewIs(d, j, q);
      } else {
        assert Holds(c, i, c.buf[i].key);
        forall x | 0 <= x < |d.buf| ensures !Holds(d, x, q) { assert !Holds(c, x, q); }
      }
    }
    forall x | 0 <= x < |d.buf| && d.buf[x].refcnt == 0 ensures CleanAt(d, x) {
      assert CleanAt(c, x);
      assert x < i ==> c.buf[x].key.dev >= 1 ==> c.buf[x].key != c.buf[i].key;
      assert i < x ==> c.buf[i].key != c.buf[x].key;
    }
  }

  /** The holder changes the data. */
  function Modify(c: Cache, i: nat, data: Block): Cache
    requires i < |c.buf|
  {
    c.(buf := c.buf[i := c.buf[i].(data := data)])
  }

  lemma ModifyOk(c: Cache, i: nat, data: Block)
    requires Unique(c) && Clean(c) && i < |c.buf| && c.buf[i].valid && c.buf[i].refcnt > 0 && c.buf[i].key.dev >= 1
    ensures var d := Modify(c, i, data);
            && Unique(d) && Clean(d)
            && forall q: Key :: q.dev >= 1 ==> View(d, q) == if q == c.buf[i].key then data else View(c, q)
  {
    var d := Modify(c, i, data);
    forall q: Key | q.dev >= 1 ensures View(d, q) == if q == c.buf[i].key then data else View(c, q) {
      if q == c.buf[i].key {
        assert Holds(d, i, q);
        ViewIs(d, i, q);
      } else if j :| 0 <= j < |c.buf| && Holds(c, j, q) {
        ViewIs(c, j, q);
        assert Holds(d, j, q);
        ViewIs(d, j, q);
      } else {
        forall x | 0 <= x < |d.buf| ensures !Holds(d, x, q) { assert !Holds(c, x, q); }
      }
    }
    forall x | 0 <= x < |d.buf| && d.buf[x].refcnt == 0 ensures CleanAt(d, x) {
      assert CleanAt(c, x);
    }
  }

  function SetRef(c: Cache, i: nat, n: nat): Cache
    requires i < |c.buf|
  {
    c.(buf := c.buf[i := c.buf[i].(refcnt := n)])
  }

  lemma SetRefOk(c: Cache, i: nat, n: nat)
    requires Unique(c) && Clean(c) && i < |c.buf|
    ensures Unique(SetRef(c, i, n)) && SameView(c, SetRef(c, i, n))
    ensures Clean(SetRef(c, i, n)) <==> n > 0 || CleanAt(c, i)
  {
    var d := SetRef(c, i, n);
    assert Unique(d);
    assert CleanAt(d, i) == CleanAt(c, i);
    if n > 0 || CleanAt(c, i) {
      forall x | 0 <= x < |d.buf| && d.buf[x].refcnt == 0 ensures CleanAt(d, x) {
        assert x != i ==> CleanAt(c, x);
      }
    }
    SameBufs(c, d);
  }

  // ---- the code ----

  class Bcache {
    var c: Cache
    ghost var ring: seq<nat>
    ghost var stamp: seq<nat>
    ghost var clock: nat

    ghost predicate Ok()
      reads this
    {
      Inv(c, ring, stamp, clock)
    }

    /** binit: n buffers of no device, each put at the front of the list in turn. */
    constructor (n: nat, disk: map<Key, Block>)
      ensures Ok() && |c.buf| == n && c.disk == disk && forall k: Key :: k.dev >= 1 ==> View(c, k) == Stored(disk, k)
    {
      c := Cache(seq(n + 1, i => n), seq(n + 1, i => n),
                 seq(n, i => Buf(Key(0, 0), false, 0, Stored(disk, Key(0, 0)))), disk);
      ring, stamp, clock := [n], [], 0;
      new;
      hide Whole, Linked;
      Fresh(c, n);
      var b := 0;
      while b < n
        invariant b <= n && Building(c, ring, stamp, clock, n, b)
        invariant |c.buf| == n && c.disk == disk
        invariant forall i :: 0 <= i < n ==> c.buf[i].key == Key(0, 0) && !c.buf[i].valid
      {
        BuildStep(c, ring, stamp, clock, n, b);
        c := Cache(FrontNext(c.next, n, b), FrontPrev(c.next, c.prev, n, b), c.buf, c.disk);
        ring, stamp, clock := [n, b] + ring[1..], stamp + [clock + 1], clock + 1;
        b := b + 1;
      }
      Built(c, ring, stamp, clock, n);
      forall k: Key | k.dev >= 1 ensures View(c, k) == Stored(disk, k) {
        assert forall i :: 0 <= i < |c.buf| ==> !Holds(c, i, k);
      }
    }

    /** bget's first loop: the buffer of block k, or -1 if it is not cached. */
    method Lookup(k: Key) returns (i: int)
      requires Ok()
      ensures i == -1 <==> !Cached(c, k)
      ensures i != -1 ==> 0 <= i < |c.buf| && c.buf[i].key == k
    {
      hide Unique, Clean, ByAge, Linked, Whole;
      var head := |c.buf|;
      RingSize(c, ring);
      ghost var at: nat := 1;
      if at == |ring| { at := 0; }
      LinkedIs(c.next, c.prev, ring, 0);
      var b := c.next[head];
      RingElement(c, ring, at);
      while b != head
        invariant at < |ring| && b == ring[at] <= head && (at == 0 <==> b == head)
        invariant forall j :: 1 <= j < (if at == 0 then |ring| else at) ==> ring[j] < head && c.buf[ring[j]].key != k
        decreases if at == 0 then 0 else |ring| - at
      {
        if c.buf[b].key == k {
          return b;
        }
        LinkedIs(c.next, c.prev, ring, at);
        b := c.next[b];
        at := Succ(ring, at);
        RingElement(c, ring, at);
      }
      i := -1;
      forall x | 0 <= x < |c.buf| ensures c.buf[x].key != k {
        RingHas(c, ring, x);
      }
    }

    /** bget's second loop: the unreferenced buffer nearest the tail, or -1 if there is none. */
    method Victim() returns (i: int, ghost p: nat)
      requires Ok()
      ensures i == -1 <==> forall x :: 0 <= x < |c.buf| ==> c.buf[x].refcnt > 0
      ensures i != -1 ==> 0 <= i < |c.buf| && c.buf[i].refcnt == 0 && 1 <= p < |ring| && ring[p] == i
      ensures i != -1 ==> forall j :: p < j < |ring| ==> ring[j] < |c.buf| && c.buf[ring[j]].refcnt > 0
    {
      hide Unique, Clean, ByAge, Linked, Whole;
      var head := |c.buf|;
      RingSize(c, ring);
      p := |ring| - 1;
      LinkedIs(c.next, c.prev, ring, p);
      var b := c.prev[head];
      RingElement(c, ring, p);
      while b != head
        invariant p < |ring| && b == ring[p] <= head && (p == 0 <==> b == head)
        invariant forall j :: p < j < |ring| ==> ring[j] < head && c.buf[ring[j]].refcnt > 0
        decreases p
      {
        if c.buf[b].refcnt == 0 {
          return b, p;
        }
        LinkedIs(c.next, c.prev, ring, p - 1);
        b := c.prev[b];
        p := p - 1;
        RingElement(c, ring, p);
      }
      i := -1;
      forall x | 0 <= x < |c.buf| ensures c.buf[x].refcnt > 0 {
        RingHas(c, ring, x);
      }
    }

    /** bget: the block's buffer with one more reference. An uncached block takes over the least
        recently used buffer that nobody refers to; -1 stands for the panic when there is none.
        Buffers in use are never recycled, and no reader can see a difference. */
    method Bget(k: Key) returns (i: int)
      requires Ok() && k.dev >= 1
      modifies this`c
      ensures Ok() && |c.buf| == |old(c).buf| && c.disk == old(c).disk && SameView(old(c), c)
      ensures i == -1 <==> !Cached(old(c), k) && forall x :: 0 <= x < |c.buf| ==> old(c).buf[x].refcnt > 0
      ensures i == -1 ==> c == old(c)
      ensures i != -1 ==> 0 <= i < |c.buf| && c.buf[i].key == k && c.buf[i].refcnt == old(c).buf[i].refcnt + 1
      ensures forall x :: 0 <= x < |c.buf| && x != i ==> c.buf[x] == old(c).buf[x]
      ensures i != -1 && Cached(old(c), k) ==> c.buf[i] == old(c).buf[i].(refcnt := old(c).buf[i].refcnt + 1)
      ensures i != -1 && !Cached(old(c), k) ==>
                && old(c).buf[i].refcnt == 0 && !c.buf[i].valid
                && forall x :: 0 <= x < |c.buf| && old(c).buf[x].refcnt == 0 ==> stamp[i] <= stamp[x]
    {
      hide Unique, Clean, Linked, Whole, Cached, SameView, ByAge;
      i := Lookup(k);
      if i != -1 {
        SetRefOk(c, i, c.buf[i].refcnt + 1);
        c := SetRef(c, i, c.buf[i].refcnt + 1);
        return;
      }
      ghost var p;
      i, p := Victim();
      if i != -1 {
        Oldest(c, ring, stamp, clock, p);
        RecycleOk(c, i, k);
        c := Recycle(c, i, k);
      } else {
        SameSelf(c);
      }
    }

    /** bread: the returned buffer holds what the map says, which does not change. */
    method Bread(k: Key) returns (i: int)
      requires Ok() && k.dev >= 1
      modifies this`c
      ensures Ok() && |c.buf| == |old(c).buf| && c.disk == old(c).disk && SameView(old(c), c)
      ensures i == -1 <==> !Cached(old(c), k) && forall x :: 0 <= x < |c.buf| ==> old(c).buf[x].refcnt > 0
      ensures i != -1 ==> 0 <= i < |c.buf| && c.buf[i].key == k && c.buf[i].valid && c.buf[i].data == View(old(c), k)
      ensures i != -1 ==> c.buf[i].refcnt == old(c).buf[i].refcnt + 1
      ensures forall x :: 0 <= x < |c.buf| && x != i ==> c.buf[x] == old(c).buf[x]
    {
      hide Clean, Linked, Whole, Cached, SameView, ByAge, View, Unique;
      i := Bget(k);
      if i == -1 {
        return;
      }
      ghost var mid := c;
      if !c.buf[i].valid {
        LoadOk(c, i);
        c := Load(c, i);
        SameTrans(old(c), mid, c);
      }
      ViewIs(c, i, k);
      SeesSame(old(c), c, k);
    }

    /** bwrite: the disk catches up with the buffer. */
    method Bwrite(i: nat)
      requires Ok() && i < |c.buf| && c.buf[i].refcnt > 0 && c.buf[i].valid && c.buf[i].key.dev >= 1
      modifies this`c
      ensures Ok() && c == Flush(old(c), i) && SameView(old(c), c) && CleanAt(c, i)
      ensures c == old(c).(disk := c.disk)
      ensures forall q: Key :: Stored(c.disk, q) ==
                if q == c.buf[i].key then c.buf[i].data else Stored(old(c).disk, q)
    {
      FlushOk(c, i);
      c := Flush(c, i);
    }

    /** A holder's change to its buffer: the map changes at that block and nowhere else. */
    method Write(i: nat, data: Block)
      requires Ok() && i < |c.buf| && c.buf[i].refcnt > 0 && c.buf[i].valid && c.buf[i].key.dev >= 1
      modifies this`c
      ensures Ok() && c == Modify(old(c), i, data)
      ensures forall q: Key :: q.dev >= 1 ==> View(c, q) == if q == c.buf[i].key then data else View(old(c), q)
      ensures c == old(c).(buf := c.buf) && c.buf == old(c).buf[i := old(c).buf[i].(data := data)]
    {
      hide View;
      ModifyOk(c, i, data);
      c := Modify(c, i, data);
    }

    method Bpin(i: nat)
      requires Ok() && i < |c.buf|
      modifies this`c
      ensures Ok() && c == SetRef(old(c), i, old(c).buf[i].refcnt + 1) && SameView(old(c), c)
      ensures c == old(c).(buf := c.buf) && c.buf[i].refcnt == old(c).buf[i].refcnt + 1
    {
      SetRefOk(c, i, c.buf[i].refcnt + 1);
      c := SetRef(c, i, c.buf[i].refcnt + 1);
    }

    /** bunpin. The invariant stays if and only if the disk is up to date when the last reference
        goes. */
    method Bunpin(i: nat)
      requires Ok() && i < |c.buf| && c.buf[i].refcnt > 0
      modifies this`c
      ensures Sound(c, ring, stamp, clock)
      ensures Ok() <==> old(c).buf[i].refcnt > 1 || CleanAt(old(c), i)
      ensures c == SetRef(old(c), i, old(c).buf[i].refcnt - 1) && SameView(old(c), c)
      ensures c == old(c).(buf := c.buf) && c.buf[i].refcnt == old(c).buf[i].refcnt - 1
    {
      hide SameView, Unique, Clean, Linked, Whole;
      SetRefOk(c, i, c.buf[i].refcnt - 1);
      c := SetRef(c, i, c.buf[i].refcnt - 1);
    }

    /** brelse: a buffer whose last reference goes moves to the head of the list. The invariant stays
        if and only if its change has been written, or pinned by the log, before. */
    method Brelse(i: nat)
      requires Ok() && i < |c.buf| && c.buf[i].refcnt > 0
      modifies this
      ensures Sound(c, ring, stamp, clock) && c.disk == old(c).disk && SameView(old(c), c)
      ensures Ok() <==> old(c).buf[i].refcnt > 1 || CleanAt(old(c), i)
      ensures c.buf == old(c).buf[i := old(c).buf[i].(refcnt := old(c).buf[i].refcnt - 1)]
      ensures if c.buf[i].refcnt == 0
              then |ring| > 1 && ring[1] == i && clock == old(clock) + 1
                   && |stamp| == |old(stamp)| && stamp == old(stamp)[i := clock]
              else ring == old(ring) && stamp == old(stamp) && clock == old(clock) && c == old(c).(buf := c.buf)
    {
      hide Unique, Clean, Linked, Whole, SameView, ByAge;
      SetRefOk(c, i, c.buf[i].refcnt - 1);
      c := SetRef(c, i, c.buf[i].refcnt - 1);
      if c.buf[i].refcnt == 0 {
        ghost var c1 := c;
        ghost var p := PlaceOf(c, ring, i);
        var head := |c.buf|;
        Unlink(c.next, c.prev, ring, p);
        MovedRing(c, ring, p);
        var next, prev := c.next, c.prev;
        next, prev := next[prev[i] := next[i]], prev[next[i] := prev[i]];
        next, prev := FrontNext(next, head, i), FrontPrev(next, prev, head, i);
        c := Cache(next, prev, c.buf, c.disk);
        Aged(ring, stamp, clock, p, |c.buf|);
        ring, stamp, clock := ToFront(ring, p), stamp[i := clock + 1], clock + 1;
        SameButLinks(c1, c);
        SameTrans(old(c), c1, c);
      }
    }
  }

  // ---- about the list ----

  lemma RingSize(c: Cache, ring: seq<nat>)
    requires RingOk(c, ring)
    ensures |ring| == |c.buf| + 1
  {
  }

  lemma RingElement(c: Cache, ring: seq<nat>, at: nat)
    requires RingOk(c, ring) && at < |ring|
    ensures ring[at] <= |c.buf| && (at == 0 <==> ring[at] == |c.buf|)
  {
    assert ring[at] in ring;
  }

  lemma RingHas(c: Cache, ring: seq<nat>, x: nat)
    requires RingOk(c, ring) && x < |c.buf|
    ensures exists j :: 1 <= j < |ring| && ring[j] == x
  {
    assert x in ring;
    var j :| 0 <= j < |ring| && ring[j] == x;
  }

  ghost method PlaceOf(c: Cache, ring: seq<nat>, x: nat) returns (p: nat)
    requires RingOk(c, ring) && x < |c.buf|
    ensures 1 <= p < |ring| && ring[p] == x && Distinct(ring)
  {
    RingHas(c, ring, x);
    p :| 1 <= p < |ring| && ring[p] == x;
  }

  /** Nothing unreferenced is older than the buffer nearest the tail. */
  lemma Oldest(c: Cache, ring: seq<nat>, stamp: seq<nat>, clock: nat, p: nat)
    requires RingOk(c, ring) && ByAge(ring, stamp, clock) && 1 <= p < |ring|
    requires forall j :: p < j < |ring| ==> ring[j] < |c.buf| && c.buf[ring[j]].refcnt > 0
    ensures |stamp| == |c.buf| && ring[p] < |stamp|
    ensures forall x :: 0 <= x < |c.buf| && c.buf[x].refcnt == 0 ==> stamp[ring[p]] <= stamp[x]
  {
    RingElement(c, ring, p);
    forall x | 0 <= x < |c.buf| && c.buf[x].refcnt == 0 ensures stamp[ring[p]] <= stamp[x] {
      RingHas(c, ring, x);
    }
  }

  lemma SameSelf(c: Cache)
    ensures SameView(c, c)
  {
  }

  lemma SameTrans(c: Cache, d: Cache, e: Cache)
    requires SameView(c, d) && SameView(d, e)
    ensures SameView(c, e)
  {
    hide View;
  }

  lemma SeesSame(c: Cache, d: Cache, k: Key)
    requires SameView(c, d) && k.dev >= 1
    ensures View(d, k) == View(c, k)
  {
    hide View;
  }

  lemma SameButLinks(c: Cache, d: Cache)
    requires Unique(c) && d.buf == c.buf && d.disk == c.disk
    ensures Unique(d) && SameView(c, d) && (Clean(d) <==> Clean(c))
  {
    assert forall x :: 0 <= x < |d.buf| ==> CleanAt(d, x) == CleanAt(c, x);
    SameBufs(c, d);
  }

  /** The six assignments of brelse move the element at p to the front. */
  lemma MovedRing(c: Cache, ring: seq<nat>, p: nat)
    requires RingOk(c, ring) && 1 <= p < |ring|
    requires ring[p] < |c.next| && ring[p] < |c.prev| && c.next[ring[p]] < |c.prev| && c.prev[ring[p]] < |c.next|
    ensures var next := c.next[c.prev[ring[p]] := c.next[ring[p]]];
            var prev := c.prev[c.next[ring[p]] := c.prev[ring[p]]];
            && next[|c.buf|] < |prev|
            && RingOk(Cache(FrontNext(next, |c.buf|, ring[p]), FrontPrev(next, prev, |c.buf|, ring[p]), c.buf, c.disk),
                      ToFront(ring, p))
  {
    hide Linked, Whole, Without;
    assert Distinct(ring) by { WholeDistinct(ring, |c.buf| + 1); }
    Unlink(c.next, c.prev, ring, p);
    ToFrontWhole(ring, p, |c.buf| + 1);
    var next := c.next[c.prev[ring[p]] := c.next[ring[p]]];
    var prev := c.prev[c.next[ring[p]] := c.prev[ring[p]]];
    LinkFront(next, prev, Without(ring, p), ring[p]);
  }

  lemma WholeDistinct(r: seq<nat>, n: nat)
    requires Whole(r, n)
    ensures Distinct(r) && |r| == n
  {
  }

  /** Letting a buffer go makes it the youngest. */
  lemma Aged(ring: seq<nat>, stamp: seq<nat>, clock: nat, p: nat, n: nat)
    requires ByAge(ring, stamp, clock) && Whole(ring, n + 1) && ring[0] == n && 1 <= p < |ring|
    ensures ring[p] < |stamp| && ByAge(ToFront(ring, p), stamp[ring[p] := clock + 1], clock + 1)
  {
    hide Without;
    assert ring[p] in ring && ring[p] != ring[0];
    var w, t, st := Without(ring, p), ToFront(ring, p), stamp[ring[p] := clock + 1];
    assert forall j :: 2 <= j < |t| ==> t[j] == w[j - 1];
    forall j, k | 1 <= j < k < |t| && t[j] < |st| && t[k] < |st| ensures st[t[j]] > st[t[k]] {
      var k' := if k - 1 < p then k - 1 else k;
      assert t[k] == ring[k'] && ring[k'] != ring[p];
      if j > 1 {
        var j' := if j - 1 < p then j - 1 else j;
        assert t[j] == ring[j'] && ring[j'] != ring[p];
      }
    }
  }

  // ---- building the list ----

  /** binit has linked the first b buffers. */
  ghost predicate Building(c: Cache, ring: seq<nat>, stamp: seq<nat>, clock: nat, n: nat, b: nat) {
    && |c.next| == |c.prev| == n + 1 && |ring| == b + 1 && ring[0] == n && Distinct(ring)
    && (forall x: nat :: x in ring <==> x == n || x < b)
    && Linked(c.next, c.prev, ring) && ByAge(ring, stamp, clock)
  }

  lemma Fresh(c: Cache, n: nat)
    requires c.next == seq(n + 1, i => n) && c.prev == seq(n + 1, i => n)
    ensures Building(c, [n], [], 0, n, 0)
  {
    assert LinkedAt(c.next, c.prev, [n], 0);
  }

  lemma BuildStep(c: Cache, ring: seq<nat>, stamp: seq<nat>, clock: nat, n: nat, b: nat)
    requires Building(c, ring, stamp, clock, n, b) && b < n
    ensures n < |c.next| && c.next[n] < |c.prev|
    ensures Building(Cache(FrontNext(c.next, n, b), FrontPrev(c.next, c.prev, n, b), c.buf, c.disk),
                     [n, b] + ring[1..], stamp + [clock + 1], clock + 1, n, b + 1)
  {
    hide Linked;
    LinkFront(c.next, c.prev, ring, b);
    var t, st := [n, b] + ring[1..], stamp + [clock + 1];
    assert forall j :: 2 <= j < |t| ==> t[j] == ring[j - 1];
    BuildHas(ring, n, b);
    BuildAge(ring, stamp, clock, n, b);
  }

  lemma BuildHas(ring: seq<nat>, n: nat, b: nat)
    requires |ring| == b + 1 && ring[0] == n && b < n && forall x: nat :: x in ring <==> x == n || x < b
    ensures forall x: nat :: x in [n, b] + ring[1..] <==> x == n || x < b + 1
  {
    var t := [n, b] + ring[1..];
    forall x: nat ensures x in t <==> x == n || x < b + 1 {
      assert ring == [ring[0]] + ring[1..];
      assert x in ring <==> x == n || x in ring[1..];
    }
  }

  lemma BuildAge(ring: seq<nat>, stamp: seq<nat>, clock: nat, n: nat, b: nat)
    requires |ring| == b + 1 && ring[0] == n && b < n && Distinct(ring) && ByAge(ring, stamp, clock)
    requires forall x: nat :: x in ring <==> x == n || x < b
    ensures ByAge([n, b] + ring[1..], stamp + [clock + 1], clock + 1) && Distinct([n, b] + ring[1..])
  {
    var t, st := [n, b] + ring[1..], stamp + [clock + 1];
    assert forall j :: 2 <= j < |t| ==> t[j] == ring[j - 1];
    forall j | 2 <= j < |t| ensures t[j] < b {
      assert ring[j - 1] in ring && ring[j - 1] != ring[0];
    }
    forall j, k | 1 <= j < k < |t| && t[j] < |st| && t[k] < |st| ensures st[t[j]] > st[t[k]] {
      if j > 1 {
        assert st[t[j]] == stamp[ring[j - 1]] && st[t[k]] == stamp[ring[k - 1]];
      }
    }
  }

  lemma Built(c: Cache, ring: seq<nat>, stamp: seq<nat>, clock: nat, n: nat)
    requires Building(c, ring, stamp, clock, n, n) && |c.buf| == n
    requires forall i :: 0 <= i < n ==> c.buf[i].key == Key(0, 0) && !c.buf[i].valid
    ensures Inv(c, ring, stamp, clock)
  {
    hide Linked, ByAge;
    forall x | 0 <= x < |c.buf| && c.buf[x].refcnt == 0 ensures CleanAt(c, x) {
    }
  }
}

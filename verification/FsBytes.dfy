/** Inodes as byte sequences: which byte of which block holds byte p of a file, and how
    allocation and block writes change the bytes of all files. */
module FsBytes {
  import opened Params
  import opened Blocks
  import opened FsOwner

  const MAXBYTES: nat := 274432       // MAXFILE * BSIZE

  predicate Sized(s: State) { Shape(s.nodes, s.disk) }

  function FileVal(s: State, i: nat, bn: nat): nat
    requires Sized(s) && i < |s.nodes| && bn < MAXFILE
  {
    Val(s.nodes, s.disk, i, FileSlot(bn))
  }

  /** Byte p of inode i has a block. */
  predicate Mapped(s: State, i: nat, p: nat)
    requires Sized(s) && i < |s.nodes| && p < MAXBYTES
  {
    0 != FileVal(s, i, p / BSIZE) < |s.disk|
  }

  function ByteAt(s: State, i: nat, p: nat): Byte
    requires Sized(s) && i < |s.nodes| && p < MAXBYTES && Mapped(s, i, p)
  {
    s.disk[FileVal(s, i, p / BSIZE)][p % BSIZE]
  }

  /** Every byte below a file's size is mapped. */
  ghost predicate NoHoles(s: State)
    requires Sized(s)
  {
    forall i :: 0 <= i < |s.nodes| ==>
      s.nodes[i].size <= MAXBYTES && forall p :: 0 <= p < s.nodes[i].size ==> Mapped(s, i, p)
  }

  /** The file's contents. */
  ghost function Content(s: State, i: nat): (c: seq<Byte>)
    requires Sized(s) && NoHoles(s) && i < |s.nodes|
    ensures |c| == s.nodes[i].size
    ensures forall p :: 0 <= p < |c| ==> c[p] == ByteAt(s, i, p)
  {
    seq(s.nodes[i].size, p requires 0 <= p < s.nodes[i].size => ByteAt(s, i, p))
  }

  /** All mapped bytes are as before, except those of inode i in [lo, hi). */
  ghost predicate BytesKept(s: State, t: State, i: nat, lo: nat, hi: nat)
    requires Sized(s) && Sized(t)
  {
    && |t.nodes| == |s.nodes|
    && forall j, p :: 0 <= j < |s.nodes| && 0 <= p < MAXBYTES && Mapped(s, j, p) ==>
         && Mapped(t, j, p)
         && ((j == i && lo <= p < hi) || ByteAt(t, j, p) == ByteAt(s, j, p))
  }

  /** The bytes of inode i from lo on are src. */
  ghost predicate BytesAre(s: State, i: nat, lo: nat, src: seq<Byte>)
    requires Sized(s) && i < |s.nodes| && lo + |src| <= MAXBYTES
  {
    forall p :: lo <= p < lo + |src| ==> Mapped(s, i, p) && ByteAt(s, i, p) == src[p - lo]
  }

  lemma AllocKeepsBytes(sb: Super, s: State, t: State, i: nat, lo: nat)
    requires Good(sb, s) && Good(sb, t) && Kept(s, t)
    ensures Sized(s) && Sized(t) && BytesKept(s, t, i, lo, lo)
  {
    forall j, p | 0 <= j < |s.nodes| && 0 <= p < MAXBYTES && Mapped(s, j, p)
      ensures Mapped(t, j, p) && ByteAt(t, j, p) == ByteAt(s, j, p)
    {
      var k := FileSlot(p / BSIZE);
      KeptVal(sb, s, t, j, k);
      assert s.owner[Val(s.nodes, s.disk, j, k)] == Slot(j, k);
    }
  }

  lemma SlotInjective(a: nat, b: nat)
    requires a < MAXFILE && b < MAXFILE && FileSlot(a) == FileSlot(b)
    ensures a == b
  {
  }

  /** addr is the bn-th data block of inode i. */
  ghost predicate DataBlock(sb: Super, s: State, i: nat, bn: nat, addr: nat) {
    Good(sb, s) && i < |s.nodes| && bn < MAXFILE && addr in s.owner && s.owner[addr] == Slot(i, FileSlot(bn))
  }

  lemma DataBlockIs(sb: Super, s: State, i: nat, bn: nat, addr: nat)
    requires DataBlock(sb, s, i, bn, addr)
    ensures Sized(s) && FileVal(s, i, bn) == addr && 0 < sb.meta <= addr < |s.disk|
  {
  }

  /** A block's new contents, logged. */
  function Rewrite(s: State, b: nat, data: Block): State
    requires b < |s.disk|
  {
    State(s.nodes, s.disk[b := data], s.owner, s.logged + {b})
  }

  lemma RewriteGood(sb: Super, s: State, i: nat, bn: nat, addr: nat, blk: Block)
    requires DataBlock(sb, s, i, bn, addr)
    ensures addr < |s.disk| && Good(sb, Rewrite(s, addr, blk))
  {
    assert sb.meta <= addr < sb.size;
    hide BitsAre;
    BlockWrite(sb, s.nodes, s.disk, s.owner, addr, blk);
    DataWriteBits(sb, s.disk, s.owner.Keys, addr, blk);
  }

  /** Writing one data block changes the bytes of that block only. */
  lemma RewriteBytes(sb: Super, s: State, i: nat, bn: nat, addr: nat, blk: Block)
    requires DataBlock(sb, s, i, bn, addr)
    ensures addr < |s.disk|
    ensures var t := Rewrite(s, addr, blk);
            && Sized(s) && Sized(t)
            && (forall j, p :: 0 <= j < |s.nodes| && 0 <= p < MAXBYTES ==> (Mapped(t, j, p) <==> Mapped(s, j, p)))
            && (forall j, p :: 0 <= j < |s.nodes| && 0 <= p < MAXBYTES && Mapped(s, j, p) ==>
                  ByteAt(t, j, p) == if j == i && p / BSIZE == bn then blk[p % BSIZE] else ByteAt(s, j, p))
  {
    BlockWrite(sb, s.nodes, s.disk, s.owner, addr, blk);
    var t := Rewrite(s, addr, blk);
    forall j, p | 0 <= j < |s.nodes| && 0 <= p < MAXBYTES && Mapped(s, j, p)
      ensures ByteAt(t, j, p) == if j == i && p / BSIZE == bn then blk[p % BSIZE] else ByteAt(s, j, p)
    {
      var k := FileSlot(p / BSIZE);
      if Val(s.nodes, s.disk, j, k) == addr {
        assert s.owner[addr] == Slot(j, k);
        SlotInjective(bn, p / BSIZE);
      }
    }
  }

  // ---- chunks ----

  /** m bytes from position q lie in one block. */
  predicate Fits(q: nat, m: nat) { q % BSIZE + m <= BSIZE }

  /** A chunk inside one block: position p of the file is position p % BSIZE of the block. */
  lemma ChunkPosition(off: nat, m: nat, p: nat)
    requires Fits(off, m) && off <= p < off + m
    ensures p / BSIZE == off / BSIZE && p % BSIZE == off % BSIZE + (p - off)
  {
  }

  lemma NotInChunk(off: nat, m: nat, p: nat)
    requires Fits(off, m) && p / BSIZE == off / BSIZE && !(off <= p < off + m)
    ensures !(off % BSIZE <= p % BSIZE < off % BSIZE + m)
  {
  }

  /** memmove(bp->data + o, chunk). */
  function Overwrite(b: Block, o: nat, chunk: seq<Byte>): Block
    requires o + |chunk| <= BSIZE
  {
    b[..o] + chunk + b[o + |chunk|..]
  }

  /** writei copies a chunk into its block and logs the block. */
  function StoreChunk(s: State, addr: nat, off: nat, chunk: seq<Byte>): State
    requires addr < |s.disk| && Fits(off, |chunk|)
  {
    Rewrite(s, addr, Overwrite(s.disk[addr], off % BSIZE, chunk))
  }

  lemma ChunkStored(sb: Super, s: State, i: nat, off: nat, addr: nat, chunk: seq<Byte>)
    requires Fits(off, |chunk|) && off < MAXBYTES && off + |chunk| <= MAXBYTES
    requires DataBlock(sb, s, i, off / BSIZE, addr)
    ensures Sized(s) && addr < |s.disk|
    ensures var t := StoreChunk(s, addr, off, chunk);
            Good(sb, t) && Sized(t) && BytesKept(s, t, i, off, off + |chunk|) && BytesAre(t, i, off, chunk)
  {
    DataBlockIs(sb, s, i, off / BSIZE, addr);
    var bn := off / BSIZE;
    var blk := Overwrite(s.disk[addr], off % BSIZE, chunk);
    RewriteGood(sb, s, i, bn, addr, blk);
    RewriteBytes(sb, s, i, bn, addr, blk);
    hide Good, DataBlock;
    var t := StoreChunk(s, addr, off, chunk);
    forall j, p | 0 <= j < |s.nodes| && 0 <= p < MAXBYTES && Mapped(s, j, p)
      ensures (j == i && off <= p < off + |chunk|) || ByteAt(t, j, p) == ByteAt(s, j, p)
    {
      if j == i && p / BSIZE == bn && !(off <= p < off + |chunk|) {
        NotInChunk(off, |chunk|, p);
      }
    }
    forall p | off <= p < off + |chunk| ensures Mapped(t, i, p) && ByteAt(t, i, p) == chunk[p - off] {
      ChunkPosition(off, |chunk|, p);
    }
  }

  /** Two writes in a row. */
  lemma BytesKeptTrans(s: State, t: State, u: State, i: nat, lo: nat, mid: nat, hi: nat)
    requires Sized(s) && Sized(t) && Sized(u) && lo <= mid <= hi
    requires BytesKept(s, t, i, lo, mid) && BytesKept(t, u, i, mid, hi)
    ensures BytesKept(s, u, i, lo, hi)
  {
  }

  lemma BytesAreMore(t: State, u: State, i: nat, lo: nat, a: seq<Byte>, b: seq<Byte>)
    requires Sized(t) && Sized(u) && i < |t.nodes| == |u.nodes| && lo + |a| + |b| <= MAXBYTES
    requires BytesAre(t, i, lo, a) && BytesAre(u, i, lo + |a|, b)
    requires BytesKept(t, u, i, lo + |a|, lo + |a| + |b|)
    ensures BytesAre(u, i, lo, a + b)
  {
  }

  // ---- a write in progress ----

  /** What inode bookkeeping a write leaves alone until its end. */
  ghost predicate Extends(s: State, t: State) {
    && |t.nodes| == |s.nodes|
    && (forall b :: b in s.owner ==> b in t.owner && t.owner[b] == s.owner[b])
    && (forall i :: 0 <= i < |s.nodes| ==>
          && t.nodes[i].kind == s.nodes[i].kind && t.nodes[i].nlink == s.nodes[i].nlink
          && t.nodes[i].size == s.nodes[i].size)
  }

  /** The bytes of src have gone to inode i from off on, and nothing else has changed. */
  ghost predicate Written(sb: Super, s: State, t: State, i: nat, off: nat, src: seq<Byte>) {
    && Good(sb, s) && Good(sb, t) && Sized(s) && Sized(t) && i < |s.nodes| == |t.nodes| && off + |src| <= MAXBYTES
    && Extends(s, t)
    && BytesKept(s, t, i, off, off + |src|)
    && BytesAre(t, i, off, src)
  }

  lemma NothingWritten(sb: Super, s: State, t: State, i: nat, off: nat)
    requires Good(sb, s) && Good(sb, t) && Kept(s, t) && i < |s.nodes| && off <= MAXBYTES
    ensures Written(sb, s, t, i, off, [])
  {
    AllocKeepsBytes(sb, s, t, i, off);
  }

  lemma WriteMore(sb: Super, s: State, t: State, u: State, i: nat, off: nat, a: seq<Byte>, b: seq<Byte>)
    requires Written(sb, s, t, i, off, a) && Written(sb, t, u, i, off + |a|, b)
    ensures Written(sb, s, u, i, off, a + b)
  {
    hide Good, Mapped;
    BytesKeptTrans(s, t, u, i, off, off + |a|, off + |a| + |b|);
    BytesAreMore(t, u, i, off, a, b);
  }

  lemma ChunkIsWritten(sb: Super, s: State, i: nat, off: nat, addr: nat, chunk: seq<Byte>)
    requires Fits(off, |chunk|) && off < MAXBYTES && off + |chunk| <= MAXBYTES
    requires DataBlock(sb, s, i, off / BSIZE, addr)
    ensures addr < |s.disk| && Written(sb, s, StoreChunk(s, addr, off, chunk), i, off, chunk)
  {
    ChunkStored(sb, s, i, off, addr, chunk);
  }

  /** The block logged or not makes no difference to what is read. */
  lemma WrittenAnyway(sb: Super, s: State, t: State, i: nat, off: nat, src: seq<Byte>, l: set<nat>)
    requires Written(sb, s, t, i, off, src)
    ensures Written(sb, s, t.(logged := l), i, off, src)
  {
    hide Good, Mapped, ByteAt;
    var u := t.(logged := l);
    RelogGood(sb, t, l);
    forall j, p | 0 <= j < |s.nodes| && 0 <= p < MAXBYTES
      ensures Mapped(u, j, p) == Mapped(t, j, p) && (Mapped(t, j, p) ==> ByteAt(u, j, p) == ByteAt(t, j, p))
    {
      SameByte(t, u, j, p);
    }
    assert Extends(s, u) && BytesKept(s, u, i, off, off + |src|) && BytesAre(u, i, off, src);
  }

  lemma SameByte(s: State, t: State, i: nat, p: nat)
    requires Sized(s) && Sized(t) && t.nodes == s.nodes && t.disk == s.disk && i < |s.nodes| && p < MAXBYTES
    ensures Mapped(t, i, p) == Mapped(s, i, p) && (Mapped(s, i, p) ==> ByteAt(t, i, p) == ByteAt(s, i, p))
  {
  }

  /** writei's m = min(n - tot, BSIZE - off % BSIZE). */
  function ChunkLength(left: nat, q: nat): nat {
    if left < BSIZE - q % BSIZE then left else BSIZE - q % BSIZE
  }

  /** How many blocks the bytes [off, end) touch. */
  function Touched(off: nat, end: nat): nat
    requires off <= end
  {
    if off == end then 0 else (end - 1) / BSIZE - off / BSIZE + 1
  }

  lemma TouchedNext(off: nat, q: nat, m: nat, end: nat)
    requires off <= q && 0 < m && q % BSIZE + m <= BSIZE && q + m <= end
    requires q == off || q % BSIZE == 0
    ensures Touched(off, q + m) == Touched(off, q) + 1 <= Touched(off, end)
  {
    assert (q + m - 1) / BSIZE == q / BSIZE;
    assert q > off ==> (q - 1) / BSIZE == q / BSIZE - 1;
    assert (q + m - 1) / BSIZE <= (end - 1) / BSIZE;
  }

  /** A write of n bytes at off pauses at its start, its end, or a block boundary. */
  predicate Pause(off: nat, tot: nat, n: nat) { tot == 0 || tot == n || (off + tot) % BSIZE == 0 }

  lemma ChunkStep(off: nat, tot: nat, n: nat)
    requires tot < n && Pause(off, tot, n)
    ensures var m := ChunkLength(n - tot, off + tot);
            && 0 < m <= n - tot && m <= BSIZE && Fits(off + tot, m) && Pause(off, tot + m, n)
            && Touched(off, off + (tot + m)) == Touched(off, off + tot) + 1 <= Touched(off, off + n)
  {
    TouchedNext(off, off + tot, ChunkLength(n - tot, off + tot), off + n);
  }

  /** A write of at most three blocks' worth of bytes touches four blocks, or three if aligned. */
  lemma TouchedBound(off: nat, n: nat)
    requires n <= 3 * BSIZE
    ensures Touched(off, off + n) <= if n == 0 then 0 else if off % BSIZE == 0 then 3 else 4
  {
  }

  // ---- a finished write ----

  /** writei's first two tests, in 32-bit arithmetic. */
  predicate Refused(size: nat, off: nat, n: nat) {
    off > size || (off + n) % UINT_LIMIT < off || off + n > MAXBYTES
  }

  function Max(a: nat, b: nat): nat { if a > b then a else b }

  function SetSize(s: State, i: nat, n: nat): State
    requires i < |s.nodes|
  {
    State(s.nodes[i := s.nodes[i].(size := n)], s.disk, s.owner, s.logged)
  }

  /** c with src in place of its bytes from off on. */
  function Splice(c: seq<Byte>, off: nat, src: seq<Byte>): seq<Byte>
    requires off <= |c|
  {
    c[..off] + src + if off + |src| < |c| then c[off + |src|..] else []
  }

  /** Changing an inode's type, link count or size moves no block. */
  lemma SetNodeGood(sb: Super, s: State, i: nat, n: Inode)
    requires Good(sb, s) && i < |s.nodes| && n.addrs == s.nodes[i].addrs
    ensures var t := s.(nodes := s.nodes[i := n]); Good(sb, t) && Sized(s) && Sized(t)
    ensures forall j, k :: 0 <= j < |s.nodes| && 0 <= k < SLOTS ==>
              Val(s.nodes[i := n], s.disk, j, k) == Val(s.nodes, s.disk, j, k)
  {
    hide BitsAre, GetWord;
    var t := s.(nodes := s.nodes[i := n]);
    assert t.nodes == s.nodes[i := n] && t.disk == s.disk && t.owner == s.owner;
    forall j, k | 0 <= j < |s.nodes| && 0 <= k < SLOTS
      ensures Val(t.nodes, s.disk, j, k) == Val(s.nodes, s.disk, j, k)
    {
    }
    assert Owned(sb, t.nodes, t.disk, t.owner);
  }

  lemma SetNodeBytes(sb: Super, s: State, i: nat, n: Inode)
    requires Good(sb, s) && Sized(s) && i < |s.nodes| && n.addrs == s.nodes[i].addrs
    ensures var t := s.(nodes := s.nodes[i := n]);
            && Sized(t)
            && forall j, p :: 0 <= j < |s.nodes| && 0 <= p < MAXBYTES ==>
                 (Mapped(t, j, p) <==> Mapped(s, j, p)) && (Mapped(s, j, p) ==> ByteAt(t, j, p) == ByteAt(s, j, p))
  {
    hide Good;
    SetNodeGood(sb, s, i, n);
  }

  lemma SetSizeGood(sb: Super, s: State, i: nat, n: nat)
    requires Good(sb, s) && i < |s.nodes|
    ensures Good(sb, SetSize(s, i, n)) && Sized(s) && Sized(SetSize(s, i, n))
  {
    SetNodeGood(sb, s, i, s.nodes[i].(size := n));
  }

  lemma SetSizeBytes(sb: Super, s: State, i: nat, n: nat)
    requires Good(sb, s) && Sized(s) && i < |s.nodes|
    ensures Sized(SetSize(s, i, n))
    ensures forall j, p :: 0 <= j < |s.nodes| && 0 <= p < MAXBYTES ==>
              (Mapped(SetSize(s, i, n), j, p) <==> Mapped(s, j, p))
              && (Mapped(s, j, p) ==> ByteAt(SetSize(s, i, n), j, p) == ByteAt(s, j, p))
  {
    hide Good;
    SetNodeBytes(sb, s, i, s.nodes[i].(size := n));
  }

  /** c after src was copied over it at off and its size raised for the first n bytes of src. */
  function Partly(c: seq<Byte>, off: nat, src: seq<Byte>, n: nat): seq<Byte>
    requires off <= |c| && n <= |src|
  {
    Splice(c, off, src)[..Max(|c|, off + n)]
  }

  lemma PartlyAll(c: seq<Byte>, off: nat, src: seq<Byte>)
    requires off <= |c|
    ensures Partly(c, off, src, |src|) == Splice(c, off, src)
  {
  }

  /** The n bytes that count are all that was written, if and only if what was copied besides them lay
      past the end or was there already. */
  lemma PartlyExactly(c: seq<Byte>, off: nat, src: seq<Byte>, n: nat)
    requires off <= |c| && n <= |src|
    ensures Partly(c, off, src, n) == Splice(c, off, src[..n])
            <==> forall p :: n <= p < |src| && off + p < |c| ==> src[p] == c[off + p]
  {
    var l, r := Partly(c, off, src, n), Splice(c, off, src[..n]);
    assert |l| == |r|;
    forall p | n <= p < |src| && off + p < |c| ensures l[off + p] == src[p] && r[off + p] == c[off + p] {
    }
    if forall p :: n <= p < |src| && off + p < |c| ==> src[p] == c[off + p] {
      forall q | 0 <= q < |l| ensures l[q] == r[q] {
        if off + n <= q < off + |src| {
          var p := q - off;
          assert src[p] == c[off + p];
        }
      }
    }
  }

  /** After src went to inode i at off <= size, and size was raised for n of its bytes if need be,
      inode i reads as its old contents with src over them, cut at its size, every other inode reads
      as before, and there are still no holes. */
  lemma WriteStopped(sb: Super, s: State, t: State, i: nat, off: nat, src: seq<Byte>, n: nat)
    requires Written(sb, s, t, i, off, src) && NoHoles(s) && off <= s.nodes[i].size && n <= |src|
    ensures var u := SetSize(t, i, Max(s.nodes[i].size, off + n));
            && Sized(u) && NoHoles(u)
            && Content(u, i) == Partly(Content(s, i), off, src, n)
            && forall j :: 0 <= j < |s.nodes| && j != i ==> Content(u, j) == Content(s, j)
  {
    hide Good, Mapped, ByteAt;
    var size := Max(s.nodes[i].size, off + n);
    var u := SetSize(t, i, size);
    SetSizeBytes(sb, t, i, size);
    forall p | 0 <= p < size ensures Mapped(u, i, p) {
    }
    assert Content(u, i) == Partly(Content(s, i), off, src, n);
  }

  /** A write that was not cut short: src is spliced in. */
  lemma WriteFinished(sb: Super, s: State, t: State, i: nat, off: nat, src: seq<Byte>)
    requires Written(sb, s, t, i, off, src) && NoHoles(s) && off <= s.nodes[i].size
    ensures var u := SetSize(t, i, Max(s.nodes[i].size, off + |src|));
            && Sized(u) && NoHoles(u)
            && Content(u, i) == Splice(Content(s, i), off, src)
            && forall j :: 0 <= j < |s.nodes| && j != i ==> Content(u, j) == Content(s, j)
  {
    hide Good, Mapped, ByteAt, Splice, Partly;
    WriteStopped(sb, s, t, i, off, src, |src|);
    PartlyAll(Content(s, i), off, src);
  }

  /** With no holes, a write at an unaligned offset within the file starts in a mapped block. */
  lemma UnalignedMapped(s: State, i: nat, off: nat)
    requires Sized(s) && NoHoles(s) && i < |s.nodes| && off <= s.nodes[i].size && off < MAXBYTES && off % BSIZE != 0
    ensures Mapped(s, i, off)
  {
    assert Mapped(s, i, off - 1);
    assert (off - 1) / BSIZE == off / BSIZE;
  }

  // ---- reading ----

  /** What readi of n bytes at off returns: the slice clipped at the size, nothing past the end
      or when off + n wraps. */
  function ReadSlice(c: seq<Byte>, off: nat, n: nat): seq<Byte> {
    if off > |c| || (off + n) % UINT_LIMIT < off then []
    else if off + n > |c| then c[off..]
    else c[off..off + n]
  }

  /** A chunk of a block of a file without holes is that part of the contents. */
  lemma ReadChunk(s: State, i: nat, q: nat, m: nat)
    requires Sized(s) && NoHoles(s) && i < |s.nodes| && 0 < m && Fits(q, m) && q + m <= s.nodes[i].size
    ensures q < MAXBYTES && 0 != FileVal(s, i, q / BSIZE) < |s.disk|
    ensures s.disk[FileVal(s, i, q / BSIZE)][q % BSIZE..q % BSIZE + m] == Content(s, i)[q..q + m]
  {
    assert Mapped(s, i, q);
    var a, c := s.disk[FileVal(s, i, q / BSIZE)][q % BSIZE..q % BSIZE + m], Content(s, i)[q..q + m];
    forall k | 0 <= k < m ensures a[k] == c[k] {
      ChunkPosition(q, m, q + k);
    }
  }
}

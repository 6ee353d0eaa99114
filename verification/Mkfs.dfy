/** mkfs.c: the image the kernel starts from. Blocks are handed out in order from `freeblock`, and
    the bitmap is written once at the end. The proofs run the kernel's allocation lemmas on the
    image as it would be with the bitmap already written. */
module Mkfs {
  import opened Params
  import opened Blocks
  import opened Bitmap
  import opened FsOwner
  import opened FsBytes
  import opened FsInode
  import opened FsTrunc

  /** balloc's buffer after `used` turns. */
  function Bits(used: nat): Block
    requires used <= BPB
  {
    if used == 0 then ZeroBlock() else PutBit(Bits(used - 1), used - 1, true)
  }

  lemma {:induction false} ZeroByteBit(m: nat)
    ensures !ByteBit(0, m)
  {
    if m > 0 {
      ZeroByteBit(m - 1);
    }
  }

  lemma ZeroBits(x: nat)
    requires x < BPB
    ensures !Bit(ZeroBlock(), x)
  {
    ZeroByteBit(x % 8);
  }

  /** Exactly the first `used` bits are set. */
  lemma {:induction false} BitsAt(used: nat, x: nat)
    requires used <= BPB && x < BPB
    ensures Bit(Bits(used), x) <==> x < used
  {
    hide Bit, PutBit;
    if used == 0 {
      ZeroBits(x);
    } else {
      BitsAt(used - 1, x);
    }
  }

  /** The image with its bitmap written for the first f blocks. */
  function Marked(sb: Super, s: State, f: nat): State
    requires SuperOk(sb) && |s.disk| == sb.size && f <= BPB
  {
    State(s.nodes, s.disk[sb.bmapstart := Bits(f)], s.owner, {})
  }

  /** Blocks from f on are untouched, and with the bitmap written the image is sound. */
  ghost predicate Ready(sb: Super, s: State, f: nat) {
    && SuperOk(sb) && sb.size <= BPB && sb.meta <= f <= sb.size && |s.disk| == sb.size
    && Good(sb, Marked(sb, s, f))
    && (forall b :: f <= b < sb.size ==> s.disk[b] == ZeroBlock())
  }

  lemma ReadySizes(sb: Super, s: State, f: nat)
    requires Ready(sb, s, f)
    ensures |s.nodes| == sb.ninodes && Sized(s) && Sized(Marked(sb, s, f))
  {
    assert Good(sb, Marked(sb, s, f));
  }

  lemma RelogKept(s: State, t: State)
    requires Kept(s, t)
    ensures Kept(s, t.(logged := {}))
  {
  }

  lemma MarkedBit(sb: Super, s: State, f: nat, b: nat)
    requires SuperOk(sb) && sb.size <= BPB && |s.disk| == sb.size && f <= BPB && b < sb.size
    ensures DiskBit(sb, Marked(sb, s, f).disk, b) <==> b < f
  {
    hide PutBit, Bit, Bits;
    BitsAt(f, b);
    assert b % BPB == b && BitmapBlock(sb, b) == sb.bmapstart;
  }

  lemma PutMarked(sb: Super, s: State, f: nat)
    requires SuperOk(sb) && sb.size <= BPB && |s.disk| == sb.size && f < sb.size
    ensures PutDiskBit(sb, Marked(sb, s, f).disk, f, true) == Marked(sb, s, f + 1).disk
    ensures BitmapBlock(sb, f) == sb.bmapstart
  {
    hide PutBit;
    assert f % BPB == f;
  }

  /** Block f is free, and marking it is what moving freeblock on does. */
  lemma TakeIsMarked(sb: Super, s: State, f: nat)
    requires SuperOk(sb) && sb.size <= BPB && |s.disk| == sb.size && sb.meta <= f < sb.size
    requires s.disk[f] == ZeroBlock()
    ensures !DiskBit(sb, Marked(sb, s, f).disk, f)
    ensures Take(sb, Marked(sb, s, f), f).(logged := {}) == Marked(sb, s, f + 1)
  {
    hide PutDiskBit, DiskBit, Bits;
    MarkedBit(sb, s, f, f);
    PutMarked(sb, s, f);
    var d := Marked(sb, s, f + 1).disk;
    assert d[f] == ZeroBlock() && d[f := ZeroBlock()] == d;
  }

  /** din.addrs[k] = freeblock++ */
  function PlaceAddr(s: State, f: nat, i: nat, k: nat): State
    requires i < |s.nodes| && k < |s.nodes[i].addrs|
  {
    State(PutAddr(s.nodes, i, k, f), s.disk, s.owner[f := Slot(i, k)], {})
  }

  lemma PlaceAddrOk(sb: Super, s: State, f: nat, i: nat, k: nat)
    requires Ready(sb, s, f) && Sized(s) && f < sb.size && i < |s.nodes| && k <= NDIRECT && s.nodes[i].addrs[k] == 0
    ensures Ready(sb, PlaceAddr(s, f, i, k), f + 1)
    ensures Kept(Marked(sb, s, f), Marked(sb, PlaceAddr(s, f, i, k), f + 1))
  {
    hide Good, Kept, Reserved, DiskBit, PutBit, Bit, PutDiskBit, Bits;
    var m, s' := Marked(sb, s, f), PlaceAddr(s, f, i, k);
    TakeIsMarked(sb, s, f);
    TakeOk(sb, m, f);
    var t := Take(sb, m, f);
    InstallOk(sb, t, i, k, f);
    var u := Install(t, i, k, f);
    KeptTrans(m, t, u);
    RelogGood(sb, u, {});
    RelogKept(m, u);
    assert t.(logged := {}) == Marked(sb, s, f + 1);
    assert u.(logged := {}) == Marked(sb, s', f + 1);
  }

  /** indirect[j] = freeblock++, and the indirect block written back. */
  function PlaceEntry(s: State, f: nat, i: nat, j: nat): State
    requires Sized(s) && i < |s.nodes| && j < NINDIRECT && f < UINT_LIMIT
  {
    var a := s.nodes[i].addrs[NDIRECT];
    State(s.nodes, s.disk[a := SetWord(s.disk[a], j, f)], s.owner[f := Slot(i, NDIRECT + 1 + j)], {})
  }

  /** An inode's indirect block is neither the bitmap nor untouched. */
  lemma IndirectPlace(sb: Super, s: State, f: nat, i: nat)
    requires Ready(sb, s, f) && Sized(s) && i < |s.nodes| && s.nodes[i].addrs[NDIRECT] != 0
    ensures sb.meta <= s.nodes[i].addrs[NDIRECT] < f
    ensures Marked(sb, s, f).disk[s.nodes[i].addrs[NDIRECT]] == s.disk[s.nodes[i].addrs[NDIRECT]]
  {
    hide PutBit, Bit, Bits;
    var m, a := Marked(sb, s, f), s.nodes[i].addrs[NDIRECT];
    assert Val(m.nodes, m.disk, i, NDIRECT) == a;
    assert a in m.owner;
    OwnedBelow(sb, s, f, a);
  }

  /** The blocks handed out so far are exactly those with a slot. */
  lemma OwnedBelow(sb: Super, s: State, f: nat, b: nat)
    requires Ready(sb, s, f)
    ensures b in s.owner <==> sb.meta <= b < f
  {
    hide PutBit, Bit, Bits, DiskBit, GetWord;
    assert Good(sb, Marked(sb, s, f));
    if sb.meta <= b < sb.size {
      MarkedBit(sb, s, f, b);
    }
  }

  lemma PlaceEntryOk(sb: Super, s: State, f: nat, i: nat, j: nat)
    requires Ready(sb, s, f) && Sized(s) && f < sb.size && i < |s.nodes| && j < NINDIRECT
    requires s.nodes[i].addrs[NDIRECT] != 0
    requires GetWord(s.disk[s.nodes[i].addrs[NDIRECT]], j) == 0
    ensures Ready(sb, PlaceEntry(s, f, i, j), f + 1)
    ensures Kept(Marked(sb, s, f), Marked(sb, PlaceEntry(s, f, i, j), f + 1))
  {
    hide Good, Kept, DiskBit, PutBit, Bit, PutDiskBit, Bits, GetWord, SetWord, Owned, BitsAre;
    var m, s', a := Marked(sb, s, f), PlaceEntry(s, f, i, j), s.nodes[i].addrs[NDIRECT];
    TakeIsMarked(sb, s, f);
    TakeOk(sb, m, f);
    var t := Take(sb, m, f);
    assert t.(logged := {}) == Marked(sb, s, f + 1);
    ReservedSizes(sb, t, f);
    IndirectPlace(sb, s, f, i);
    assert t.disk[a] == s.disk[a];
    assert Val(t.nodes, t.disk, i, NDIRECT + 1 + j) == 0;
    InstallEntryOk(sb, t, i, j, f);
    var u := InstallEntry(t, i, j, f);
    KeptTrans(m, t, u);
    RelogGood(sb, u, {});
    RelogKept(m, u);
    assert u.(logged := {}) == Marked(sb, s', f + 1);
  }

  // ---- one chunk ----

  /** wsect */
  function PutBlock(s: State, b: nat, data: Block): State
    requires b < |s.disk|
  {
    State(s.nodes, s.disk[b := data], s.owner, {})
  }

  lemma RelogWritten(sb: Super, s: State, t: State, i: nat, off: nat, src: seq<Byte>)
    requires Written(sb, s, t, i, off, src)
    ensures Written(sb, s, t.(logged := {}), i, off, src)
  {
    hide Good, Mapped, ByteAt;
    RelogGood(sb, t, {});
    var u := t.(logged := {});
    RelogBytes(t);
    assert BytesKept(s, u, i, off, off + |src|);
    assert BytesAre(u, i, off, src);
  }

  lemma RelogBytes(t: State)
    requires Sized(t)
    ensures var u := t.(logged := {});
            && Sized(u)
            && forall j, p :: 0 <= j < |t.nodes| && 0 <= p < MAXBYTES ==>
                 (Mapped(u, j, p) <==> Mapped(t, j, p)) && (Mapped(t, j, p) ==> ByteAt(u, j, p) == ByteAt(t, j, p))
  {
  }

  /** x is the fbn-th data block of inode i, in an image whose next block is f. */
  ghost predicate At(sb: Super, s: State, f: nat, i: nat, fbn: nat, x: nat) {
    Ready(sb, s, f) && sb.meta <= x < f && DataBlock(sb, Marked(sb, s, f), i, fbn, x)
  }

  lemma StoreOk(sb: Super, s: State, f: nat, i: nat, off: nat, x: nat, chunk: seq<Byte>)
    requires At(sb, s, f, i, off / BSIZE, x) && Fits(off, |chunk|) && off < MAXBYTES && off + |chunk| <= MAXBYTES
    ensures x < |s.disk|
    ensures var t := PutBlock(s, x, Overwrite(s.disk[x], off % BSIZE, chunk));
            Ready(sb, t, f) && Written(sb, Marked(sb, s, f), Marked(sb, t, f), i, off, chunk)
  {
    hide Good, DataBlock, Written, Bits, Overwrite;
    var m := Marked(sb, s, f);
    ChunkIsWritten(sb, m, i, off, x, chunk);
    var u := StoreChunk(m, x, off, chunk);
    var t := PutBlock(s, x, Overwrite(s.disk[x], off % BSIZE, chunk));
    RelogWritten(sb, m, u, i, off, chunk);
    assert u.(logged := {}) == Marked(sb, t, f);
    WrittenSound(sb, m, u.(logged := {}), i, off, chunk);
  }

  lemma WrittenSound(sb: Super, s: State, t: State, i: nat, off: nat, src: seq<Byte>)
    requires Written(sb, s, t, i, off, src)
    ensures Good(sb, s) && Good(sb, t) && |t.nodes| == |s.nodes| && off + |src| <= MAXBYTES
  {
  }

  // ---- which blocks a file has ----

  /** The file block number of data slot k. */
  function SlotBlock(k: nat): nat { if k < NDIRECT then k else k - 1 }

  function Limit(s: State, i: nat, off: nat, j: nat): nat
    requires j < |s.nodes|
  {
    if j == i then off else s.nodes[j].size
  }

  /** No file has a block past its end, where inode i ends at off. */
  ghost predicate Tight(s: State, i: nat, off: nat) {
    forall b :: b in s.owner && s.owner[b].k != NDIRECT ==>
      s.owner[b].inum < |s.nodes| && SlotBlock(s.owner[b].k) * BSIZE < Limit(s, i, off, s.owner[b].inum)
  }

  /** Block fbn of inode i, and its indirect block, are all that is new. */
  ghost predicate OnlyNew(s: State, t: State, i: nat, fbn: nat) {
    && |t.nodes| == |s.nodes|
    && (forall j :: 0 <= j < |s.nodes| ==> t.nodes[j].size == s.nodes[j].size && (j != i ==> t.nodes[j] == s.nodes[j]))
    && forall b :: b in t.owner && t.owner[b].k != NDIRECT ==>
         (b in s.owner && t.owner[b] == s.owner[b])
         || (t.owner[b].inum == i && SlotBlock(t.owner[b].k) == fbn)
  }

  lemma OnlyNewTrans(s: State, t: State, u: State, i: nat, fbn: nat)
    requires OnlyNew(s, t, i, fbn) && OnlyNew(t, u, i, fbn)
    ensures OnlyNew(s, u, i, fbn)
  {
  }

  lemma StillTight(s: State, t: State, i: nat, off: nat, m: nat)
    requires Tight(s, i, off) && OnlyNew(s, t, i, off / BSIZE) && m > 0 && i < |s.nodes|
    ensures Tight(t, i, off + m)
  {
    assert off / BSIZE * BSIZE <= off;
  }

  /** mkfs.c:163-168 rounds the root directory's size up past its end. That leaves the image
      without holes exactly when the directory's length was not a multiple of BSIZE. */
  lemma RootRounding(sb: Super, s: State, i: nat)
    requires Good(sb, s) && Sized(s) && NoHoles(s) && i < |s.nodes| && Tight(s, i, s.nodes[i].size)
    ensures var u := SetSize(s, i, (s.nodes[i].size / BSIZE + 1) * BSIZE);
            && Sized(u) && Good(sb, u) && (NoHoles(u) <==> s.nodes[i].size % BSIZE != 0)
  {
    hide Good, Mapped;
    var n := s.nodes[i].size;
    var n' := (n / BSIZE + 1) * BSIZE;
    var u := SetSize(s, i, n');
    SetSizeGood(sb, s, i, n');
    SetSizeBytes(sb, s, i, n');
    if n % BSIZE != 0 {
      forall p | n <= p < n' ensures p < MAXBYTES && Mapped(s, i, p) {
        SameBlockMapped(s, i, n - 1, p);
      }
    } else if n' <= MAXBYTES {
      assert n < n' == u.nodes[i].size;
      assert !Mapped(s, i, n) by {
        if Mapped(s, i, n) {
          MappedBelowEnd(sb, s, i, n);
        }
      }
      assert !Mapped(u, i, n);
    } else {
      assert u.nodes[i].size > MAXBYTES;
    }
  }

  lemma SameBlockMapped(s: State, i: nat, q: nat, p: nat)
    requires Sized(s) && i < |s.nodes| && q <= p && q < MAXBYTES && Mapped(s, i, q) && p / BSIZE == q / BSIZE
    ensures p < MAXBYTES && Mapped(s, i, p)
  {
  }

  lemma MappedBelowEnd(sb: Super, s: State, i: nat, p: nat)
    requires Good(sb, s) && Sized(s) && i < |s.nodes| && Tight(s, i, s.nodes[i].size)
    requires p < MAXBYTES && Mapped(s, i, p)
    ensures p / BSIZE * BSIZE < s.nodes[i].size
  {
    hide BitsAre, GetWord;
    var bn := p / BSIZE;
    var b := FileVal(s, i, bn);
    assert s.owner[b] == Slot(i, FileSlot(bn));
    assert SlotBlock(FileSlot(bn)) == bn;
  }

  // ---- the program ----

  datatype Source = Source(entry: seq<Byte>, data: seq<Byte>)

  function NewInode(kind: nat): Inode { Inode(kind, 1, 0, Unmapped()) }

  /** An inode of a zeroed inode block. */
  function Blank(): Inode { Inode(0, 0, 0, Unmapped()) }

  const T_DIR: nat := 1
  const T_FILE: nat := 2
  const ROOTINO: nat := 1

  function SetInode(s: State, i: nat, n: Inode): State
    requires i < |s.nodes|
  {
    State(s.nodes[i := n], s.disk, s.owner, {})
  }

  ghost predicate SameContent(s: State, t: State)
    requires Sized(s) && NoHoles(s) && Sized(t) && NoHoles(t)
  {
    |t.nodes| == |s.nodes| && forall j :: 0 <= j < |s.nodes| ==> Content(t, j) == Content(s, j)
  }

  /** The image under construction: sound once marked, no holes, no spare blocks. */
  ghost predicate Building(sb: Super, s: State, f: nat) {
    && Ready(sb, s, f) && Sized(Marked(sb, s, f)) && NoHoles(Marked(sb, s, f)) && Tight(s, |s.nodes|, 0)
    && Saved(sb, s)
  }

  // ---- winode ----

  /** winode, of the inode as it is. */
  function Winode(sb: Super, s: State, i: nat): State
    requires InodeBlock(sb, i) < |s.disk| && i < |s.nodes| && |s.nodes[i].addrs| == NDIRECT + 1
  {
    Update(sb, s, i).(logged := {})
  }

  lemma WinodeFits(sb: Super, s: State, f: nat, i: nat)
    requires Ready(sb, s, f) && i < |s.nodes|
    ensures InodeBlock(sb, i) < |s.disk| && |s.nodes[i].addrs| == NDIRECT + 1 && |s.nodes| == sb.ninodes
  {
    ReadySizes(sb, s, f);
    InodeInside(sb, i);
  }

  /** The image with the inode written, and marked, is the marked image with the inode written. */
  lemma WinodeMarked(sb: Super, s: State, f: nat, i: nat)
    requires Ready(sb, s, f) && i < |s.nodes| && InodeBlock(sb, i) < |s.disk| && |s.nodes[i].addrs| == NDIRECT + 1
    ensures Marked(sb, Winode(sb, s, i), f) == Update(sb, Marked(sb, s, f), i).(logged := {})
  {
    ReadySizes(sb, s, f);
    InodeInside(sb, i);
    hide Bits, PutDinode;
    var b := InodeBlock(sb, i);
    var d := PutDinode(s.disk[b], i % IPB, s.nodes[i]);
    assert s.disk[b := d][sb.bmapstart := Bits(f)] == s.disk[sb.bmapstart := Bits(f)][b := d];
  }

  lemma WinodeReady(sb: Super, s: State, f: nat, i: nat)
    requires Ready(sb, s, f) && i < |s.nodes| && InodeBlock(sb, i) < |s.disk| && |s.nodes[i].addrs| == NDIRECT + 1
    ensures Ready(sb, Winode(sb, s, i), f)
  {
    ReadySizes(sb, s, f);
    InodeInside(sb, i);
    hide Bits, PutDinode, Good;
    WinodeMarked(sb, s, f, i);
    UpdateGood(sb, Marked(sb, s, f), i);
    RelogGood(sb, Update(sb, Marked(sb, s, f), i), {});
  }

  /** No byte of any file is changed by it. */
  lemma WinodeBytes(sb: Super, s: State, f: nat, i: nat)
    requires Ready(sb, s, f) && i < |s.nodes| && InodeBlock(sb, i) < |s.disk| && |s.nodes[i].addrs| == NDIRECT + 1
    ensures Sized(Marked(sb, s, f)) && Sized(Marked(sb, Winode(sb, s, i), f))
    ensures var m, u := Marked(sb, s, f), Marked(sb, Winode(sb, s, i), f);
            forall j, p :: 0 <= j < |s.nodes| && 0 <= p < MAXBYTES ==>
              Mapped(u, j, p) == Mapped(m, j, p) && (Mapped(m, j, p) ==> ByteAt(u, j, p) == ByteAt(m, j, p))
  {
    ReadySizes(sb, s, f);
    InodeInside(sb, i);
    hide Bits, PutDinode, Good, Mapped, ByteAt;
    var m := Marked(sb, s, f);
    WinodeMarked(sb, s, f, i);
    UpdateGood(sb, m, i);
    RelogBytes(Update(sb, m, i));
    forall j, p | 0 <= j < |s.nodes| && 0 <= p < MAXBYTES
      ensures var v := Update(sb, m, i);
              Mapped(v, j, p) == Mapped(m, j, p) && (Mapped(m, j, p) ==> ByteAt(v, j, p) == ByteAt(m, j, p))
    {
      UpdateByte(sb, m, i, j, p);
    }
  }

  lemma WinodeContents(sb: Super, s: State, f: nat, i: nat)
    requires Ready(sb, s, f) && i < |s.nodes| && InodeBlock(sb, i) < |s.disk| && |s.nodes[i].addrs| == NDIRECT + 1
    ensures Ready(sb, Winode(sb, s, i), f) && Sized(Marked(sb, s, f)) && Sized(Marked(sb, Winode(sb, s, i), f))
    ensures var m, u := Marked(sb, s, f), Marked(sb, Winode(sb, s, i), f);
            && (NoHoles(u) <==> NoHoles(m))
            && (NoHoles(m) ==> forall j :: 0 <= j < |s.nodes| ==> Content(u, j) == Content(m, j))
  {
    WinodeReady(sb, s, f, i);
    WinodeBytes(sb, s, f, i);
    hide Bits, PutDinode, Good, Mapped, ByteAt, Ready;
    var m, u := Marked(sb, s, f), Marked(sb, Winode(sb, s, i), f);
    assert u.nodes == m.nodes;
    SameHoles(m, u);
    SameHoles(u, m);
    if NoHoles(m) {
      forall j | 0 <= j < |s.nodes| ensures Content(u, j) == Content(m, j) {
      }
    }
  }

  lemma SameHoles(m: State, u: State)
    requires Sized(m) && Sized(u) && u.nodes == m.nodes
    requires forall j, p :: 0 <= j < |m.nodes| && 0 <= p < MAXBYTES ==> Mapped(u, j, p) == Mapped(m, j, p)
    ensures NoHoles(m) ==> NoHoles(u)
  {
    hide Mapped;
  }

  /** winode of the only inode that has changed since all were saved. */
  lemma WinodeSaves(sb: Super, s: State, t: State, i: nat)
    requires Saved(sb, s) && LowSame(sb, s, t) && |t.nodes| == |s.nodes| && i < |s.nodes| && Storable(t.nodes[i])
    requires forall j :: 0 <= j < |s.nodes| && j != i ==> t.nodes[j] == s.nodes[j]
    ensures InodeBlock(sb, i) < |t.disk| && Saved(sb, Winode(sb, t, i))
  {
    hide Update, OnDisk;
    UpdateSaves(sb, s, t, i);
    RelogSaved(sb, Update(sb, t, i));
  }

  lemma RelogSaved(sb: Super, s: State)
    requires Saved(sb, s)
    ensures Saved(sb, s.(logged := {}))
  {
  }

  class Builder {
    const sb: Super
    var s: State
    var freeblock: nat

    /** main's first part: every sector zero, the first free block after the metadata. */
    constructor (sb: Super)
      requires SuperOk(sb) && sb.size <= BPB && 2 <= sb.ninodes
      ensures this.sb == sb && Fresh(sb, s) && freeblock == sb.meta
    {
      this.sb := sb;
      s := State(seq(sb.ninodes, i => Blank()), seq(sb.size, i => ZeroBlock()), map[], {});
      freeblock := sb.meta;
    }

    /** iappend's choice of block for file block fbn; !ok only if the image is full. */
    method Place(i: nat, fbn: nat) returns (ok: bool, x: nat)
      requires Ready(sb, s, freeblock) && Sized(s) && i < |s.nodes| && fbn < MAXFILE
      modifies this
      ensures ok ==> At(sb, s, freeblock, i, fbn, x) && Sized(s) && OnlyNew(old(s), s, i, fbn)
      ensures ok ==> LowSame(sb, old(s), s)
      ensures ok ==> Kept(Marked(sb, old(s), old(freeblock)), Marked(sb, s, freeblock))
      ensures !ok ==> freeblock == sb.size
    {
      if fbn < NDIRECT {
        ok, x := PlaceDirect(i, fbn);
      } else {
        ok, x := PlaceIndirect(i, fbn - NDIRECT);
      }
    }

    method PlaceDirect(i: nat, fbn: nat) returns (ok: bool, x: nat)
      requires Ready(sb, s, freeblock) && Sized(s) && i < |s.nodes| && fbn < NDIRECT
      modifies this
      ensures ok ==> At(sb, s, freeblock, i, fbn, x) && Sized(s) && OnlyNew(old(s), s, i, fbn)
      ensures ok ==> LowSame(sb, old(s), s)
      ensures ok ==> Kept(Marked(sb, old(s), old(freeblock)), Marked(sb, s, freeblock))
      ensures !ok ==> freeblock == sb.size
    {
      hide Kept, Ready, At;
      ReadyBounds(sb, s, freeblock);
      KeptSelf(Marked(sb, s, freeblock));
      if s.nodes[i].addrs[fbn] == 0 {
        if freeblock == sb.size {
          return false, 0;
        }
        PlaceAddrOk(sb, s, freeblock, i, fbn);
        s := PlaceAddr(s, freeblock, i, fbn);
        freeblock := freeblock + 1;
        ReadySizes(sb, s, freeblock);
      }
      ok, x := true, s.nodes[i].addrs[fbn];
      MappedAt(sb, s, freeblock, i, fbn);
    }

    method PlaceIndirect(i: nat, j: nat) returns (ok: bool, x: nat)
      requires Ready(sb, s, freeblock) && Sized(s) && i < |s.nodes| && j < NINDIRECT
      modifies this
      ensures ok ==> At(sb, s, freeblock, i, NDIRECT + j, x) && Sized(s) && OnlyNew(old(s), s, i, NDIRECT + j)
      ensures ok ==> LowSame(sb, old(s), s)
      ensures ok ==> Kept(Marked(sb, old(s), old(freeblock)), Marked(sb, s, freeblock))
      ensures !ok ==> freeblock == sb.size
    {
      hide Kept, Ready, At, GetWord, SetWord, OnlyNew;
      ReadyBounds(sb, s, freeblock);
      KeptSelf(Marked(sb, s, freeblock));
      ok := PlaceTable(i, NDIRECT + j);
      if !ok {
        return false, 0;
      }
      ghost var mid, f := s, freeblock;
      ReadyBounds(sb, s, freeblock);
      var a := s.nodes[i].addrs[NDIRECT];
      if GetWord(s.disk[a], j) == 0 {
        if freeblock == sb.size {
          return false, 0;
        }
        PlaceEntryOk(sb, s, freeblock, i, j);
        KeptTrans(Marked(sb, old(s), old(freeblock)), Marked(sb, s, freeblock),
                  Marked(sb, PlaceEntry(s, freeblock, i, j), freeblock + 1));
        s := PlaceEntry(s, freeblock, i, j);
        freeblock := freeblock + 1;
        ReadySizes(sb, s, freeblock);
        EntryPlaced(mid, f, i, j);
        EntryLow(sb, mid, f, i, j);
        OnlyNewTrans(old(s), mid, s, i, NDIRECT + j);
      }
      x := GetWord(s.disk[a], j);
      EntryAt(sb, s, freeblock, i, j);
    }

    /** The indirect block itself. */
    method PlaceTable(i: nat, ghost fbn: nat) returns (ok: bool)
      requires Ready(sb, s, freeblock) && Sized(s) && i < |s.nodes|
      modifies this
      ensures ok ==> Ready(sb, s, freeblock) && Sized(s) && |s.nodes| == |old(s).nodes|
      ensures ok ==> s.nodes[i].addrs[NDIRECT] != 0
      ensures ok ==> OnlyNew(old(s), s, i, fbn) && LowSame(sb, old(s), s)
      ensures ok ==> Kept(Marked(sb, old(s), old(freeblock)), Marked(sb, s, freeblock))
      ensures !ok ==> freeblock == sb.size
    {
      hide Kept, Ready;
      ReadyBounds(sb, s, freeblock);
      KeptSelf(Marked(sb, s, freeblock));
      if s.nodes[i].addrs[NDIRECT] == 0 {
        if freeblock == sb.size {
          return false;
        }
        PlaceAddrOk(sb, s, freeblock, i, NDIRECT);
        s := PlaceAddr(s, freeblock, i, NDIRECT);
        freeblock := freeblock + 1;
        ReadySizes(sb, s, freeblock);
      }
      ok := true;
    }

    /** iappend's loop body: one chunk of at most a block. */
    method AppendTurn(i: nat, src: seq<Byte>, off: nat, tot: nat, ghost s0: State, ghost f0: nat)
      returns (ok: bool, m: nat)
      requires Appending(sb, s0, f0, s, freeblock, i, off, src, tot) && tot < |src|
      modifies this
      ensures ok ==> 0 < m <= |src| - tot && Appending(sb, s0, f0, s, freeblock, i, off, src, tot + m)
      ensures !ok ==> freeblock == sb.size || off + |src| > MAXBYTES
    {
      hide Ready, Written, Tight, OnlyNew, At, Kept, Fits, Overwrite;
      if off + tot >= MAXBYTES {
        return false, 0;
      }
      m := ChunkLength(|src| - tot, off + tot);
      ChunkFits(|src| - tot, off + tot);
      var x;
      ghost var s1, f1 := s, freeblock;
      ok, x := Place(i, (off + tot) / BSIZE);
      if ok {
        ghost var s2 := s;
        var chunk := src[tot..tot + m];
        AtBounds(sb, s, freeblock, i, (off + tot) / BSIZE, x);
        s := PutBlock(s, x, Overwrite(s.disk[x], (off + tot) % BSIZE, chunk));
        AppendNext(sb, s0, f0, s1, f1, s2, s, freeblock, i, off, src, tot, x, m);
      }
    }

    /** iappend: the file grows by src, other files keep their contents; !ok only if the image is full
        or the file would be too long. */
    method Iappend(i: nat, src: seq<Byte>) returns (ok: bool)
      requires Building(sb, s, freeblock) && i < |s.nodes|
      modifies this
      ensures ok ==> Appended(sb, old(s), old(freeblock), s, freeblock, i, src)
      ensures !ok ==> freeblock == sb.size || old(s).nodes[i].size + |src| > MAXBYTES
    {
      hide Building, Appending, Appended, Ready;
      BuildingSizes(sb, s, freeblock);
      var off := s.nodes[i].size;
      var tot := 0;
      AppendStart(sb, s, freeblock, i, src);
      ghost var s0, f0 := s, freeblock;
      while tot < |src|
        invariant 0 <= tot <= |src| && Appending(sb, s0, f0, s, freeblock, i, off, src, tot)
      {
        var m;
        ok, m := AppendTurn(i, src, off, tot, s0, f0);
        if !ok {
          return;
        }
        tot := tot + m;
      }
      AppendDone(sb, s0, f0, s, freeblock, i, src);
      s := SetSize(s, i, off + tot);
      s := Winode(sb, s, i);
      ok := true;
    }

    /** ialloc: the next inode, empty. */
    method Ialloc(kind: nat, inum: nat)
      requires Building(sb, s, freeblock) && inum < |s.nodes| && s.nodes[inum] == Blank() && kind < 0x1_0000
      modifies this`s
      ensures s.nodes == old(s).nodes[inum := NewInode(kind)]
      ensures Building(sb, s, freeblock) && SameContent(Marked(sb, old(s), freeblock), Marked(sb, s, freeblock))
    {
      hide Building, SameContent, Winode;
      NewInodeOk(sb, s, freeblock, inum, kind);
      s := SetInode(s, inum, NewInode(kind));
      WinodeIs(sb, s, inum);
      s := Winode(sb, s, inum);
    }

    /** main's loop that copies one input file, a block's worth at a time. */
    method CopyFile(inum: nat, data: seq<Byte>) returns (ok: bool)
      requires Building(sb, s, freeblock) && inum < |s.nodes| && s.nodes[inum].size == 0
      modifies this
      ensures ok ==> Appended(sb, old(s), old(freeblock), s, freeblock, inum, data)
      ensures !ok ==> freeblock == sb.size || |data| > MAXBYTES
    {
      hide Building, Appended;
      AppendedNothing(sb, s, freeblock, inum);
      var at := 0;
      while at < |data|
        invariant 0 <= at <= |data| && Appended(sb, old(s), old(freeblock), s, freeblock, inum, data[..at])
      {
        var cc := if |data| - at < BSIZE then |data| - at else BSIZE;
        AppendedSound(sb, old(s), old(freeblock), s, freeblock, inum, data[..at]);
        ghost var s1, f1 := s, freeblock;
        ok := Iappend(inum, data[at..at + cc]);
        if !ok {
          return;
        }
        AppendedMore(sb, old(s), old(freeblock), s1, f1, s, freeblock, inum, data[..at], data[at..at + cc]);
        assert data[..at] + data[at..at + cc] == data[..at + cc];
        at := at + cc;
      }
      assert data[..at] == data;
      ok := true;
    }

    /** main's loop body for one input file: allocate its inode, name it in the root directory,
        copy it. */
    method AddFile(dots: seq<Byte>, files: seq<Source>, n: nat) returns (ok: bool)
      requires Filed(sb, s, freeblock, dots, files, n, n, n + 2) && n < |files| && n + 2 < |s.nodes|
      modifies this
      ensures ok ==> Filed(sb, s, freeblock, dots, files, n + 1, n + 1, n + 3) && |s.nodes| == |old(s).nodes|
      ensures !ok ==> freeblock == sb.size || TooLong(dots, files)
    {
      hide Building, Appended, Filed, SameContent;
      FiledSound(sb, s, freeblock, dots, files, n, n, n + 2);
      Ialloc(T_FILE, n + 2);
      FiledInode(sb, old(s), s, freeblock, dots, files, n);
      ghost var s1, f1 := s, freeblock;
      FiledSound(sb, s, freeblock, dots, files, n, n, n + 3);
      EntriesGrow(dots, files, n + 1, |files|);
      ok := Iappend(ROOTINO, files[n].entry);
      if !ok {
        return;
      }
      FiledEntry(sb, s1, f1, s, freeblock, dots, files, n);
      ghost var s2, f2 := s, freeblock;
      FiledSound(sb, s, freeblock, dots, files, n + 1, n, n + 3);
      ok := CopyFile(n + 2, files[n].data);
      if ok {
        FiledData(sb, s2, f2, s, freeblock, dots, files, n);
        FiledSound(sb, s, freeblock, dots, files, n + 1, n + 1, n + 3);
      }
    }

    /** main from a zeroed image: the root directory with its two dot entries, then the files. */
    method AddFiles(dot: seq<Byte>, dotdot: seq<Byte>, files: seq<Source>) returns (ok: bool)
      requires Fresh(sb, s) && freeblock == sb.meta
      modifies this
      ensures ok ==> Filed(sb, s, freeblock, dot + dotdot, files, |files|, |files|, |files| + 2)
      ensures !ok ==> freeblock == sb.size || TooLong(dot + dotdot, files) || |files| + 2 > sb.ninodes
    {
      hide Building, Appended, Filed, SameContent;
      FreshBuilding(sb, s);
      EntriesGrow(dot + dotdot, files, 0, |files|);
      Ialloc(T_DIR, ROOTINO);
      ghost var s1, f1 := s, freeblock;
      ok := Iappend(ROOTINO, dot);
      if !ok {
        return;
      }
      ghost var s2, f2 := s, freeblock;
      AppendedSound(sb, s1, f1, s, freeblock, ROOTINO, dot);
      ok := Iappend(ROOTINO, dotdot);
      if !ok {
        return;
      }
      AppendedMore(sb, s1, f1, s2, f2, s, freeblock, ROOTINO, dot, dotdot);
      FiledRoot(sb, old(s), s1, s, freeblock, dot + dotdot, files);
      ghost var n0 := |s1.nodes|;
      var n := 0;
      FiledSound(sb, s, freeblock, dot + dotdot, files, 0, 0, 2);
      while n < |files|
        invariant 0 <= n <= |files| && Filed(sb, s, freeblock, dot + dotdot, files, n, n, n + 2)
        invariant |s.nodes| == n0 == sb.ninodes && n + 2 <= |s.nodes|
      {
        if n + 2 == |s.nodes| {
          return false;
        }
        ok := AddFile(dot + dotdot, files, n);
        if !ok {
          return;
        }
        n := n + 1;
      }
      ok := true;
    }

    /** balloc: builds the bitmap block bit by bit and writes it. */
    method WriteBitmap()
      requires Ready(sb, s, freeblock)
      modifies this`s
      ensures s == Marked(sb, old(s), freeblock)
    {
      hide Good, PutBit, Bit;
      var buf := ZeroBlock();
      var i := 0;
      while i < freeblock
        invariant 0 <= i <= freeblock && buf == Bits(i)
      {
        buf := PutBit(buf, i, true);
        i := i + 1;
      }
      s := PutBlock(s, sb.bmapstart, buf);
    }

    /** All of main. The image's bitmap and block slots agree, the files hold their data, and there
        are no holes exactly when the root directory's length is not a multiple of BSIZE. It fails
        only if the image is full, it has too few inodes, or a file or the root directory is too
        long. */
    method Make(dot: seq<Byte>, dotdot: seq<Byte>, files: seq<Source>) returns (ok: bool)
      requires Fresh(sb, s) && freeblock == sb.meta
      modifies this
      ensures ok ==> Good(sb, s) && Sized(s) && FreeBare(s) && Saved(sb, s)
      ensures ok ==> (NoHoles(s) <==> |Entries(dot + dotdot, files, |files|)| % BSIZE != 0)
      ensures ok && NoHoles(s) ==> Holds(s, dot + dotdot, files)
      ensures !ok ==> freeblock == sb.size || TooLong(dot + dotdot, files) || |files| + 2 > sb.ninodes
    {
      hide FreeBare, Good, Filed, NoHoles, Holds, Ready, Saved, Winode;
      ok := AddFiles(dot, dotdot, files);
      if !ok {
        return;
      }
      FiledDone(sb, s, freeblock, dot + dotdot, files);
      ReadyBounds(sb, s, freeblock);
      if freeblock >= BPB {
        return false;
      }
      var off := s.nodes[ROOTINO].size;
      s := SetSize(s, ROOTINO, (off / BSIZE + 1) * BSIZE);
      s := Winode(sb, s, ROOTINO);
      WriteBitmap();
    }
  }

  lemma ReadyBounds(sb: Super, s: State, f: nat)
    requires Ready(sb, s, f)
    ensures SuperOk(sb) && sb.size <= BPB && 0 < sb.meta <= f <= sb.size == |s.disk|
    ensures |s.nodes| == sb.ninodes && Sized(s)
  {
    ReadySizes(sb, s, f);
  }

  lemma MappedAt(sb: Super, s: State, f: nat, i: nat, k: nat)
    requires Ready(sb, s, f) && Sized(s) && i < |s.nodes| && k < NDIRECT && s.nodes[i].addrs[k] != 0
    ensures At(sb, s, f, i, k, s.nodes[i].addrs[k])
  {
    hide PutBit, Bit, Bits, BitsAre, GetWord;
    var m := Marked(sb, s, f);
    assert Val(m.nodes, m.disk, i, k) == s.nodes[i].addrs[k];
    OwnedBelow(sb, s, f, s.nodes[i].addrs[k]);
  }

  lemma EntryAt(sb: Super, s: State, f: nat, i: nat, j: nat)
    requires Ready(sb, s, f) && Sized(s) && i < |s.nodes| && j < NINDIRECT && s.nodes[i].addrs[NDIRECT] != 0
    requires GetWord(s.disk[s.nodes[i].addrs[NDIRECT]], j) != 0
    ensures At(sb, s, f, i, NDIRECT + j, GetWord(s.disk[s.nodes[i].addrs[NDIRECT]], j))
  {
    hide PutBit, Bit, Bits, BitsAre, GetWord;
    IndirectPlace(sb, s, f, i);
    var m := Marked(sb, s, f);
    var x := Val(m.nodes, m.disk, i, NDIRECT + 1 + j);
    assert x == GetWord(s.disk[s.nodes[i].addrs[NDIRECT]], j);
    OwnedBelow(sb, s, f, x);
  }

  lemma EntryLow(sb: Super, s: State, f: nat, i: nat, j: nat)
    requires Ready(sb, s, f) && Sized(s) && i < |s.nodes| && j < NINDIRECT && f < UINT_LIMIT
    requires s.nodes[i].addrs[NDIRECT] != 0
    ensures LowSame(sb, s, PlaceEntry(s, f, i, j))
  {
    IndirectPlace(sb, s, f, i);
    Regions(sb);
    hide SetWord, Good, Bits, SuperOk;
  }

  lemma EntryPlaced(s: State, f: nat, i: nat, j: nat)
    requires Sized(s) && i < |s.nodes| && j < NINDIRECT && 0 < f < UINT_LIMIT
    ensures GetWord(PlaceEntry(s, f, i, j).disk[s.nodes[i].addrs[NDIRECT]], j) == f
    ensures OnlyNew(s, PlaceEntry(s, f, i, j), i, NDIRECT + j)
  {
  }

  // ---- appending ----

  /** From state s0, tot bytes of src have gone to the end of inode i, whose size was off. */
  ghost predicate Appending(sb: Super, s0: State, f0: nat, s: State, f: nat, i: nat, off: nat, src: seq<Byte>,
                            tot: nat) {
    && Ready(sb, s0, f0) && Ready(sb, s, f) && Sized(s) && i < |s0.nodes| == |s.nodes| && tot <= |src|
    && Written(sb, Marked(sb, s0, f0), Marked(sb, s, f), i, off, src[..tot])
    && Tight(s, i, off + tot)
    && (forall j :: 0 <= j < |s.nodes| && j != i ==> s.nodes[j] == s0.nodes[j])
    && LowSame(sb, s0, s)
  }

  /** src has been appended to inode i and nothing else has changed. */
  ghost predicate Appended(sb: Super, s0: State, f0: nat, s: State, f: nat, i: nat, src: seq<Byte>) {
    && Building(sb, s0, f0) && Building(sb, s, f) && i < |s0.nodes| == |s.nodes|
    && (forall j :: 0 <= j < |s.nodes| && j != i ==> s.nodes[j] == s0.nodes[j])
    && s.nodes[i].kind == s0.nodes[i].kind
    && Content(Marked(sb, s, f), i) == Content(Marked(sb, s0, f0), i) + src
    && (forall j :: 0 <= j < |s.nodes| && j != i ==> Content(Marked(sb, s, f), j) == Content(Marked(sb, s0, f0), j))
  }

  lemma ChunkFits(left: nat, q: nat)
    requires 0 < left && q < MAXBYTES
    ensures var m := ChunkLength(left, q); 0 < m <= left && Fits(q, m) && q + m <= MAXBYTES
  {
  }

  lemma AtBounds(sb: Super, s: State, f: nat, i: nat, fbn: nat, x: nat)
    requires At(sb, s, f, i, fbn, x)
    ensures x < |s.disk|
  {
  }

  lemma BuildingSizes(sb: Super, s: State, f: nat)
    requires Building(sb, s, f)
    ensures Ready(sb, s, f) && Sized(s) && |s.nodes| == sb.ninodes
    ensures |s.disk| == sb.size && SuperOk(sb) && sb.meta <= f <= sb.size <= BPB
  {
    ReadySizes(sb, s, f);
  }

  lemma AppendStart(sb: Super, s: State, f: nat, i: nat, src: seq<Byte>)
    requires Building(sb, s, f) && i < |s.nodes|
    ensures Appending(sb, s, f, s, f, i, s.nodes[i].size, src, 0)
  {
    hide Good, Bits;
    ReadySizes(sb, s, f);
    var m := Marked(sb, s, f);
    KeptSelf(m);
    NothingWritten(sb, m, m, i, s.nodes[i].size);
    assert src[..0] == [];
  }

  lemma AppendNext(sb: Super, s0: State, f0: nat, s1: State, f1: nat, s2: State, s3: State, f: nat,
                   i: nat, off: nat, src: seq<Byte>, tot: nat, x: nat, m: nat)
    requires Appending(sb, s0, f0, s1, f1, i, off, src, tot) && tot + m <= |src| && 0 < m
    requires off + tot < MAXBYTES && off + tot + m <= MAXBYTES && Fits(off + tot, m)
    requires At(sb, s2, f, i, (off + tot) / BSIZE, x) && Sized(s2) && OnlyNew(s1, s2, i, (off + tot) / BSIZE)
    requires Kept(Marked(sb, s1, f1), Marked(sb, s2, f)) && x < |s2.disk| && LowSame(sb, s1, s2)
    requires s3 == PutBlock(s2, x, Overwrite(s2.disk[x], (off + tot) % BSIZE, src[tot..tot + m]))
    ensures Appending(sb, s0, f0, s3, f, i, off, src, tot + m)
  {
    hide Good, Written, Tight, Kept, Fits, Overwrite, Bits, DataBlock, LowSame;
    var m0, m1, m2, m3 := Marked(sb, s0, f0), Marked(sb, s1, f1), Marked(sb, s2, f), Marked(sb, s3, f);
    var chunk := src[tot..tot + m];
    StoreOk(sb, s2, f, i, off + tot, x, chunk);
    ReadySizes(sb, s3, f);
    NothingWritten(sb, m1, m2, i, off + tot);
    WriteMore(sb, m1, m2, m3, i, off + tot, [], chunk);
    assert [] + chunk == chunk;
    WriteMore(sb, m0, m1, m3, i, off, src[..tot], chunk);
    assert src[..tot] + chunk == src[..tot + m];
    StillTight(s1, s2, i, off + tot, m);
    TightPut(s2, s3, i, off + tot + m);
    LowPut(sb, s0, s1, s2, x, s3);
  }

  lemma LowPut(sb: Super, s0: State, s1: State, s2: State, x: nat, s3: State)
    requires LowSame(sb, s0, s1) && LowSame(sb, s1, s2) && SuperOk(sb) && sb.meta <= x < |s2.disk|
    requires |s3.disk| == |s2.disk| && s3.disk == s2.disk[x := s3.disk[x]]
    ensures LowSame(sb, s0, s3)
  {
  }

  lemma TightPut(s: State, t: State, i: nat, off: nat)
    requires Tight(s, i, off) && t.owner == s.owner && t.nodes == s.nodes
    ensures Tight(t, i, off)
  {
  }

  lemma AppendDone(sb: Super, s0: State, f0: nat, s: State, f: nat, i: nat, src: seq<Byte>)
    requires i < |s0.nodes| && Building(sb, s0, f0) && Appending(sb, s0, f0, s, f, i, s0.nodes[i].size, src, |src|)
    ensures i < |s.nodes| && InodeBlock(sb, i) < |s.disk| && |s.nodes[i].addrs| == NDIRECT + 1
    ensures Appended(sb, s0, f0, Winode(sb, SetSize(s, i, s0.nodes[i].size + |src|), i), f, i, src)
  {
    hide Good, Written, NoHoles, Content, Bits, Saved, LowSame, Storable, Winode, Tight;
    var off := s0.nodes[i].size;
    var m0, m := Marked(sb, s0, f0), Marked(sb, s, f);
    assert src[..|src|] == src;
    WriteFinished(sb, m0, m, i, off, src);
    WrittenKind(sb, m0, m, i, off, src);
    SetSizeGood(sb, m, i, off + |src|);
    var u := SetSize(s, i, off + |src|);
    assert Marked(sb, u, f) == SetSize(m, i, off + |src|);
    SpliceEnd(Content(m0, i), src);
    TightDone(s, i, off + |src|);
    WinodeFits(sb, u, f, i);
    WinodeContents(sb, u, f, i);
    AppendSaved(sb, s0, s, u, f, i);
    WinodeIs(sb, u, i);
    TightSame(u, Winode(sb, u, i));
  }

  lemma WinodeIs(sb: Super, s: State, i: nat)
    requires InodeBlock(sb, i) < |s.disk| && i < |s.nodes| && |s.nodes[i].addrs| == NDIRECT + 1
    ensures Winode(sb, s, i).nodes == s.nodes && Winode(sb, s, i).owner == s.owner
  {
  }

  lemma AppendSaved(sb: Super, s0: State, s: State, u: State, f: nat, i: nat)
    requires Saved(sb, s0) && LowSame(sb, s0, s) && |s.nodes| == |s0.nodes| && i < |s.nodes|
    requires |u.nodes| == |s.nodes| && u == SetSize(s, i, u.nodes[i].size) && u.nodes[i].size <= MAXBYTES + BSIZE
    requires Ready(sb, s, f)
    requires s.nodes[i].kind == s0.nodes[i].kind && s.nodes[i].nlink == s0.nodes[i].nlink
    requires forall j :: 0 <= j < |s.nodes| && j != i ==> s.nodes[j] == s0.nodes[j]
    ensures InodeBlock(sb, i) < |u.disk| && |u.nodes[i].addrs| == NDIRECT + 1 && Saved(sb, Winode(sb, u, i))
  {
    SavedStorable(sb, s0, i);
    ReadySizes(sb, s, f);
    AddressesFit(sb, Marked(sb, s, f), i);
    hide Good, Bits, Saved, LowSame, Winode;
    LowKept(sb, s0, s, u);
    WinodeSaves(sb, s0, u, i);
  }

  lemma LowKept(sb: Super, s0: State, s: State, u: State)
    requires LowSame(sb, s0, s) && u.disk == s.disk
    ensures LowSame(sb, s0, u)
  {
  }

  lemma AddressesFit(sb: Super, s: State, i: nat)
    requires Good(sb, s) && i < |s.nodes|
    ensures |s.nodes[i].addrs| == NDIRECT + 1 && forall k :: 0 <= k <= NDIRECT ==> s.nodes[i].addrs[k] < UINT_LIMIT
  {
    hide BitsAre;
    forall k | 0 <= k <= NDIRECT ensures s.nodes[i].addrs[k] < UINT_LIMIT {
      assert Val(s.nodes, s.disk, i, k) == s.nodes[i].addrs[k];
    }
  }

  lemma WrittenKind(sb: Super, s: State, t: State, i: nat, off: nat, src: seq<Byte>)
    requires Written(sb, s, t, i, off, src)
    ensures i < |s.nodes| == |t.nodes| && t.nodes[i].kind == s.nodes[i].kind && t.nodes[i].nlink == s.nodes[i].nlink
    ensures off + |src| <= MAXBYTES
  {
  }

  lemma TightDone(s: State, i: nat, n: nat)
    requires Tight(s, i, n) && i < |s.nodes|
    ensures Tight(SetSize(s, i, n), |s.nodes|, 0)
  {
  }

  lemma SpliceEnd(c: seq<Byte>, src: seq<Byte>)
    ensures Splice(c, |c|, src) == c + src
  {
  }

  lemma NewInodeOk(sb: Super, s: State, f: nat, i: nat, kind: nat)
    requires Building(sb, s, f) && i < |s.nodes| && s.nodes[i] == Blank() && kind < 0x1_0000
    ensures var t := SetInode(s, i, NewInode(kind));
            && InodeBlock(sb, i) < |t.disk| && |t.nodes[i].addrs| == NDIRECT + 1
            && Building(sb, Winode(sb, t, i), f) && SameContent(Marked(sb, s, f), Marked(sb, Winode(sb, t, i), f))
  {
    hide Good, Bits, Mapped, Saved, Winode, Content, NoHoles, Tight;
    var t := SetInode(s, i, NewInode(kind));
    NewInodeReady(sb, s, f, i, kind);
    WinodeFits(sb, t, f, i);
    WinodeContents(sb, t, f, i);
    WinodeIs(sb, t, i);
    TightSame(s, Winode(sb, t, i));
    assert LowSame(sb, s, t);
    WinodeSaves(sb, s, t, i);
  }

  lemma NewInodeReady(sb: Super, s: State, f: nat, i: nat, kind: nat)
    requires Ready(sb, s, f) && Sized(Marked(sb, s, f)) && NoHoles(Marked(sb, s, f))
    requires i < |s.nodes| && s.nodes[i] == Blank()
    ensures var t := SetInode(s, i, NewInode(kind));
            && Ready(sb, t, f) && Sized(Marked(sb, t, f)) && NoHoles(Marked(sb, t, f))
            && SameContent(Marked(sb, s, f), Marked(sb, t, f))
  {
    hide Good, Bits, Mapped;
    var m, t := Marked(sb, s, f), SetInode(s, i, NewInode(kind));
    SetNodeGood(sb, m, i, NewInode(kind));
    SetNodeBytes(sb, m, i, NewInode(kind));
    var u := Marked(sb, t, f);
    assert u == m.(nodes := m.nodes[i := NewInode(kind)]);
    forall j | 0 <= j < |s.nodes| ensures Content(u, j) == Content(m, j) {
    }
  }

  lemma TightSame(s: State, t: State)
    requires Tight(s, |s.nodes|, 0) && t.owner == s.owner && |t.nodes| == |s.nodes|
    requires forall j :: 0 <= j < |s.nodes| ==> t.nodes[j].size == s.nodes[j].size
    ensures Tight(t, |t.nodes|, 0)
  {
  }

  lemma AppendedNothing(sb: Super, s: State, f: nat, i: nat)
    requires Building(sb, s, f) && i < |s.nodes|
    ensures Appended(sb, s, f, s, f, i, [])
  {
    hide Ready;
  }

  lemma AppendedSound(sb: Super, s0: State, f0: nat, s: State, f: nat, i: nat, src: seq<Byte>)
    requires Appended(sb, s0, f0, s, f, i, src)
    ensures Building(sb, s, f) && i < |s0.nodes| == |s.nodes| && s.nodes[i].size == s0.nodes[i].size + |src|
  {
    hide Ready, NoHoles, Tight, Saved;
  }

  lemma AppendedMore(sb: Super, s0: State, f0: nat, s1: State, f1: nat, s2: State, f2: nat, i: nat, a: seq<Byte>,
                     b: seq<Byte>)
    requires Appended(sb, s0, f0, s1, f1, i, a) && Appended(sb, s1, f1, s2, f2, i, b)
    ensures Appended(sb, s0, f0, s2, f2, i, a + b)
  {
    hide Good, NoHoles, Content, Tight, Saved;
    var c := Content(Marked(sb, s0, f0), i);
    assert (c + a) + b == c + (a + b);
  }

  // ---- all the files ----

  /** The root directory's entries for the first n files, after "." and "..". */
  function Entries(dots: seq<Byte>, files: seq<Source>, n: nat): seq<Byte>
    requires n <= |files|
  {
    if n == 0 then dots else Entries(dots, files, n - 1) + files[n - 1].entry
  }

  lemma {:induction false} EntriesGrow(dots: seq<Byte>, files: seq<Source>, m: nat, n: nat)
    requires m <= n <= |files|
    ensures |Entries(dots, files, m)| <= |Entries(dots, files, n)|
    decreases n
  {
    if m < n {
      EntriesGrow(dots, files, m, n - 1);
    }
  }

  /** The root directory or a file does not fit an inode. */
  ghost predicate TooLong(dots: seq<Byte>, files: seq<Source>) {
    |Entries(dots, files, |files|)| > MAXBYTES || exists k :: 0 <= k < |files| && |files[k].data| > MAXBYTES
  }

  /** The first e files are named in the root directory, the first n copied, and the inodes from b
      on are blank. */
  ghost predicate Filed(sb: Super, s: State, f: nat, dots: seq<Byte>, files: seq<Source>, e: nat, n: nat, b: nat) {
    && Building(sb, s, f) && n <= e <= |files| && 2 <= n + 2 <= b <= |s.nodes|
    && Content(Marked(sb, s, f), ROOTINO) == Entries(dots, files, e)
    && (forall k :: 0 <= k < n ==> Content(Marked(sb, s, f), k + 2) == files[k].data)
    && (forall j :: n + 2 <= j < |s.nodes| ==> s.nodes[j].size == 0)
    && (forall j :: b <= j < |s.nodes| ==> s.nodes[j] == Blank())
    && s.nodes[0] == Blank() && (forall j :: 0 < j < b ==> s.nodes[j].kind != 0)
  }

  lemma FiledSound(sb: Super, s: State, f: nat, dots: seq<Byte>, files: seq<Source>, e: nat, n: nat, b: nat)
    requires Filed(sb, s, f, dots, files, e, n, b)
    ensures Building(sb, s, f) && 2 <= b <= |s.nodes|
    ensures b < |s.nodes| ==> s.nodes[b] == Blank()
    ensures n + 2 < |s.nodes| ==> s.nodes[n + 2].size == 0
    ensures e <= |files| && ROOTINO < |s.nodes| && s.nodes[ROOTINO].size == |Entries(dots, files, e)|
  {
    hide Ready, NoHoles, Tight, Saved;
  }

  lemma FiledInode(sb: Super, s0: State, s: State, f: nat, dots: seq<Byte>, files: seq<Source>, n: nat)
    requires Filed(sb, s0, f, dots, files, n, n, n + 2) && n + 2 < |s0.nodes| && Building(sb, s, f)
    requires s.nodes == s0.nodes[n + 2 := NewInode(T_FILE)] && SameContent(Marked(sb, s0, f), Marked(sb, s, f))
    ensures Filed(sb, s, f, dots, files, n, n, n + 3)
  {
    hide Ready, NoHoles, Content, Tight, Saved;
  }

  lemma FiledEntry(sb: Super, s0: State, f0: nat, s: State, f: nat, dots: seq<Byte>, files: seq<Source>, n: nat)
    requires Filed(sb, s0, f0, dots, files, n, n, n + 3) && n < |files|
    requires Appended(sb, s0, f0, s, f, ROOTINO, files[n].entry)
    ensures Filed(sb, s, f, dots, files, n + 1, n, n + 3) && |s.nodes| == |s0.nodes|
  {
    hide Ready, NoHoles, Content, Tight, Saved;
  }

  lemma FiledData(sb: Super, s0: State, f0: nat, s: State, f: nat, dots: seq<Byte>, files: seq<Source>, n: nat)
    requires Filed(sb, s0, f0, dots, files, n + 1, n, n + 3) && n < |files|
    requires Appended(sb, s0, f0, s, f, n + 2, files[n].data)
    ensures Filed(sb, s, f, dots, files, n + 1, n + 1, n + 3) && |s.nodes| == |s0.nodes|
  {
    hide Ready, NoHoles, Tight, Saved, SuperOk, Bits, Content;
    NoBytes(sb, s0, f0, n + 2);
    assert [] + files[n].data == files[n].data;
  }

  lemma NoBytes(sb: Super, s: State, f: nat, i: nat)
    requires Building(sb, s, f) && i < |s.nodes| && s.nodes[i].size == 0
    ensures Content(Marked(sb, s, f), i) == []
  {
  }

  /** Every sector zero, every inode blank. */
  ghost predicate Fresh(sb: Super, s: State) {
    && SuperOk(sb) && sb.size <= BPB && 2 <= sb.ninodes == |s.nodes| && |s.disk| == sb.size
    && (forall b :: 0 <= b < sb.size ==> s.disk[b] == ZeroBlock())
    && (forall j :: 0 <= j < |s.nodes| ==> s.nodes[j] == Blank())
    && s.owner == map[] && s.logged == {}
  }

  lemma FreshBuilding(sb: Super, s: State)
    requires Fresh(sb, s)
    ensures Building(sb, s, sb.meta)
  {
    hide DiskBit, Bits, GetWord;
    var m := Marked(sb, s, sb.meta);
    forall b | 0 <= b < sb.size ensures DiskBit(sb, m.disk, b) <==> b < sb.meta {
      MarkedBit(sb, s, sb.meta, b);
    }
    assert Good(sb, m);
    assert Saved(sb, s) by { FreshSaved(sb, s); }
  }

  lemma FreshSaved(sb: Super, s: State)
    requires Fresh(sb, s)
    ensures Saved(sb, s)
  {
    forall i | 0 <= i < |s.nodes| ensures OnDisk(sb, s.disk, i) == s.nodes[i] {
      InodeInside(sb, i);
      ZeroDinode(i % IPB);
    }
  }

  lemma ZeroDinode(k: nat)
    requires k < IPB
    ensures GetDinode(ZeroBlock(), k) == Blank()
  {
    ZeroWords();
    hide GetWord;
    assert GetDinode(ZeroBlock(), k).addrs == Unmapped();
  }

  lemma FiledRoot(sb: Super, s0: State, s1: State, s: State, f: nat, dots: seq<Byte>, files: seq<Source>)
    requires Fresh(sb, s0) && s1.nodes == s0.nodes[ROOTINO := NewInode(T_DIR)]
    requires Appended(sb, s1, sb.meta, s, f, ROOTINO, dots)
    ensures Filed(sb, s, f, dots, files, 0, 0, 2) && |s.nodes| == |s1.nodes| == sb.ninodes
  {
    hide Ready, NoHoles, Tight, Saved, Bits, Content;
    NoBytes(sb, s1, sb.meta, ROOTINO);
    assert [] + dots == dots;
  }

  /** The root directory starts with the entries, and file k's inode holds its data. */
  ghost predicate Holds(s: State, dots: seq<Byte>, files: seq<Source>)
    requires Sized(s) && NoHoles(s)
  {
    && |files| + 2 <= |s.nodes|
    && Entries(dots, files, |files|) <= Content(s, ROOTINO)
    && forall k :: 0 <= k < |files| ==> Content(s, k + 2) == files[k].data
  }

  /** The image after main's last winode and balloc. */
  function Finished(sb: Super, s: State, f: nat): State
    requires SuperOk(sb) && |s.disk| == sb.size && f <= BPB && ROOTINO < |s.nodes|
    requires InodeBlock(sb, ROOTINO) < |s.disk| && |s.nodes[ROOTINO].addrs| == NDIRECT + 1
  {
    Marked(sb, Winode(sb, SetSize(s, ROOTINO, (s.nodes[ROOTINO].size / BSIZE + 1) * BSIZE), ROOTINO), f)
  }

  lemma FiledDone(sb: Super, s: State, f: nat, dots: seq<Byte>, files: seq<Source>)
    requires Filed(sb, s, f, dots, files, |files|, |files|, |files| + 2)
    ensures ROOTINO < |s.nodes| && Ready(sb, s, f) && SuperOk(sb) && |s.disk| == sb.size && f <= BPB
    ensures InodeBlock(sb, ROOTINO) < |s.disk| && |s.nodes[ROOTINO].addrs| == NDIRECT + 1
    ensures Ready(sb, Winode(sb, SetSize(s, ROOTINO, (s.nodes[ROOTINO].size / BSIZE + 1) * BSIZE), ROOTINO), f)
    ensures var u := Finished(sb, s, f);
            && Good(sb, u) && Sized(u) && (NoHoles(u) <==> |Entries(dots, files, |files|)| % BSIZE != 0)
            && (NoHoles(u) ==> Holds(u, dots, files)) && FreeBare(u) && Saved(sb, u)
  {
    hide Good, Bits, NoHoles, Mapped, Tight, FreeBare, Holds, Filed, Saved, Winode, Content, Ready;
    RoundedRoot(sb, s, f, dots, files);
    var r := SetSize(s, ROOTINO, (s.nodes[ROOTINO].size / BSIZE + 1) * BSIZE);
    var m := Marked(sb, r, f);
    WinodeFits(sb, r, f, ROOTINO);
    WinodeContents(sb, r, f, ROOTINO);
    WinodeIs(sb, r, ROOTINO);
    var u := Finished(sb, s, f);
    MarkedSaved(sb, Winode(sb, r, ROOTINO), f);
    ReadyGood(sb, Winode(sb, r, ROOTINO), f);
    BareSame(m, u);
    if NoHoles(u) {
      HoldsSame(m, u, dots, files);
    }
  }

  lemma ReadyGood(sb: Super, s: State, f: nat)
    requires Ready(sb, s, f)
    ensures SuperOk(sb) && |s.disk| == sb.size && f <= BPB && Good(sb, Marked(sb, s, f))
  {
  }

  lemma MarkedSaved(sb: Super, s: State, f: nat)
    requires Saved(sb, s) && f <= BPB
    ensures Saved(sb, Marked(sb, s, f))
  {
    hide Bits, GetDinode;
    var u := Marked(sb, s, f);
    forall i | 0 <= i < |s.nodes| ensures OnDisk(sb, u.disk, i) == u.nodes[i] {
      InodeInside(sb, i);
      assert OnDisk(sb, s.disk, i) == s.nodes[i];
    }
  }

  lemma BareSame(m: State, u: State)
    requires u.nodes == m.nodes
    ensures FreeBare(m) ==> FreeBare(u)
  {
    if FreeBare(m) {
      forall i | 0 <= i < |u.nodes| && u.nodes[i].kind == 0 ensures Bare(u, i) && u.nodes[i].size == 0 {
        assert Bare(m, i);
      }
    }
  }

  lemma HoldsSame(m: State, u: State, dots: seq<Byte>, files: seq<Source>)
    requires Sized(m) && NoHoles(m) && Sized(u) && NoHoles(u) && |u.nodes| == |m.nodes| && Holds(m, dots, files)
    requires forall j :: 0 <= j < |m.nodes| ==> Content(u, j) == Content(m, j)
    ensures Holds(u, dots, files)
  {
    hide NoHoles, Content;
  }

  /** The root directory's size is rounded up: what that does to the image, before winode. */
  lemma RoundedRoot(sb: Super, s: State, f: nat, dots: seq<Byte>, files: seq<Source>)
    requires Filed(sb, s, f, dots, files, |files|, |files|, |files| + 2)
    ensures ROOTINO < |s.nodes| && Ready(sb, s, f) && SuperOk(sb) && |s.disk| == sb.size && f <= BPB
    ensures var r := SetSize(s, ROOTINO, (s.nodes[ROOTINO].size / BSIZE + 1) * BSIZE);
            && Ready(sb, r, f)
            && InodeBlock(sb, ROOTINO) < |r.disk| && |r.nodes[ROOTINO].addrs| == NDIRECT + 1
            && Saved(sb, Winode(sb, r, ROOTINO))
    ensures var u := Marked(sb, SetSize(s, ROOTINO, (s.nodes[ROOTINO].size / BSIZE + 1) * BSIZE), f);
            && Good(sb, u) && Sized(u) && (NoHoles(u) <==> |Entries(dots, files, |files|)| % BSIZE != 0)
            && (NoHoles(u) ==> Holds(u, dots, files)) && FreeBare(u)
  {
    hide Good, Bits, NoHoles, Mapped, Tight, FreeBare, Holds, Saved, Winode;
    var m := Marked(sb, s, f);
    var n := (m.nodes[ROOTINO].size / BSIZE + 1) * BSIZE;
    var r := SetSize(s, ROOTINO, n);
    FiledBare(sb, s, f, dots, files, Marked(sb, r, f));
    var u := SetSize(m, ROOTINO, n);
    TightRoot(s, m);
    RootRounding(sb, m, ROOTINO);
    assert u == Marked(sb, r, f);
    RootSaved(sb, s, f, r);
    if NoHoles(u) {
      RoundedContents(sb, m, n);
      FiledHolds(sb, s, f, dots, files, u);
    }
  }

  lemma RootSaved(sb: Super, s: State, f: nat, r: State)
    requires Building(sb, s, f) && ROOTINO < |s.nodes|
    requires r == SetSize(s, ROOTINO, (s.nodes[ROOTINO].size / BSIZE + 1) * BSIZE)
    ensures InodeBlock(sb, ROOTINO) < |r.disk| && |r.nodes[ROOTINO].addrs| == NDIRECT + 1
    ensures Saved(sb, Winode(sb, r, ROOTINO))
  {
    hide Good, Bits, Mapped, Tight, Saved, Winode;
    assert s.nodes[ROOTINO].size <= MAXBYTES by { assert Marked(sb, s, f).nodes[ROOTINO].size <= MAXBYTES; }
    AppendSaved(sb, s, s, r, f, ROOTINO);
  }

  lemma FiledBare(sb: Super, s: State, f: nat, dots: seq<Byte>, files: seq<Source>, u: State)
    requires Filed(sb, s, f, dots, files, |files|, |files|, |files| + 2) && |u.nodes| == |s.nodes|
    requires forall j :: 0 <= j < |s.nodes| ==> u.nodes[j] == s.nodes[j].(size := u.nodes[j].size)
    requires forall j :: 0 <= j < |s.nodes| && j != ROOTINO ==> u.nodes[j] == s.nodes[j]
    ensures FreeBare(u)
  {
    hide Building;
  }

  lemma FiledHolds(sb: Super, s: State, f: nat, dots: seq<Byte>, files: seq<Source>, u: State)
    requires Filed(sb, s, f, dots, files, |files|, |files|, |files| + 2) && |u.nodes| == |s.nodes|
    requires Sized(u) && NoHoles(u) && Content(Marked(sb, s, f), ROOTINO) <= Content(u, ROOTINO)
    requires forall j :: 0 <= j < |s.nodes| && j != ROOTINO ==> Content(u, j) == Content(Marked(sb, s, f), j)
    ensures Holds(u, dots, files)
  {
    hide Building, NoHoles, Content;
  }

  lemma TightRoot(s: State, m: State)
    requires Tight(s, |s.nodes|, 0) && m.owner == s.owner && m.nodes == s.nodes && ROOTINO < |s.nodes|
    ensures Tight(m, ROOTINO, m.nodes[ROOTINO].size)
  {
  }

  lemma RoundedContents(sb: Super, m: State, n: nat)
    requires Good(sb, m) && Sized(m) && NoHoles(m) && ROOTINO < |m.nodes| && m.nodes[ROOTINO].size <= n
    requires Sized(SetSize(m, ROOTINO, n)) && NoHoles(SetSize(m, ROOTINO, n))
    ensures var u := SetSize(m, ROOTINO, n);
            && Content(m, ROOTINO) <= Content(u, ROOTINO)
            && forall j :: 0 <= j < |m.nodes| && j != ROOTINO ==> Content(u, j) == Content(m, j)
  {
    hide Good, Mapped;
    SetSizeBytes(sb, m, ROOTINO, n);
    var u := SetSize(m, ROOTINO, n);
    forall j | 0 <= j < |m.nodes| && j != ROOTINO ensures Content(u, j) == Content(m, j) {
    }
  }
}

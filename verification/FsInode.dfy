/** Inodes on the disk: struct dinode in words, sixteen to a block. */
module FsInode {
  import opened Params
  import opened Blocks
  import opened FsOwner
  import opened FsBytes

  const DWORDS: nat := 16            // sizeof(struct dinode) / sizeof(uint)

  /** A short, as two bytes hold it, and back. */
  function Half(x: int): nat { x % 0x1_0000 }

  function Signed(h: nat): int { if h < 0x8000 then h else h - 0x1_0000 }

  /** An inode whose fields fit in a dinode. */
  predicate Storable(n: Inode) {
    && n.kind < 0x1_0000 && -0x8000 <= n.nlink < 0x8000 && n.size < UINT_LIMIT
    && |n.addrs| == NDIRECT + 1 && forall k :: 0 <= k <= NDIRECT ==> n.addrs[k] < UINT_LIMIT
  }

  /** The words of n's dinode. The upper half of the first word and the lower half of the second are
      the device numbers, which stay. */
  function Pack(n: Inode, w0: nat, w1: nat): (ws: seq<nat>)
    requires |n.addrs| == NDIRECT + 1 && w0 < UINT_LIMIT && w1 < UINT_LIMIT
    ensures |ws| == DWORDS && forall j :: 0 <= j < DWORDS ==> ws[j] < UINT_LIMIT
  {
    [w0 / 0x1_0000 * 0x1_0000 + Half(n.kind), Half(n.nlink) * 0x1_0000 + w1 % 0x1_0000, n.size % UINT_LIMIT]
    + seq(NDIRECT + 1, j requires 0 <= j <= NDIRECT => n.addrs[j] % UINT_LIMIT)
  }

  /** m words go into a block from word `at` on. */
  function PutWords(b: Block, at: nat, ws: seq<nat>, m: nat): (r: Block)
    requires at + |ws| <= WORDS && m <= |ws| && forall j :: 0 <= j < |ws| ==> ws[j] < UINT_LIMIT
    ensures forall j :: 0 <= j < WORDS ==> GetWord(r, j) == if at <= j < at + m then ws[j - at] else GetWord(b, j)
  {
    if m == 0 then b else SetWord(PutWords(b, at, ws, m - 1), at + m - 1, ws[m - 1])
  }

  /** iupdate's copy of n into entry k of its block. */
  function PutDinode(b: Block, k: nat, n: Inode): Block
    requires k < IPB && |n.addrs| == NDIRECT + 1
  {
    PutWords(b, DWORDS * k, Pack(n, GetWord(b, DWORDS * k), GetWord(b, DWORDS * k + 1)), DWORDS)
  }

  function Addresses(b: Block, at: nat): (a: seq<nat>)
    requires at + NDIRECT < WORDS
    ensures |a| == NDIRECT + 1 && forall j :: 0 <= j <= NDIRECT ==> a[j] == GetWord(b, at + j)
  {
    seq<nat>(NDIRECT + 1, j requires 0 <= j <= NDIRECT => GetWord(b, at + j))
  }

  /** ilock's copy of entry k. */
  function GetDinode(b: Block, k: nat): Inode
    requires k < IPB
  {
    Inode(GetWord(b, DWORDS * k) % 0x1_0000, Signed(GetWord(b, DWORDS * k + 1) / 0x1_0000),
          GetWord(b, DWORDS * k + 2), Addresses(b, DWORDS * k + 3))
  }

  lemma WhatIsRead(b: Block, k: nat)
    requires k < IPB
    ensures Storable(GetDinode(b, k))
  {
    hide GetWord;
    assert GetWord(b, DWORDS * k + 1) / 0x1_0000 < 0x1_0000;
  }

  lemma HalfSigned(x: int)
    requires -0x8000 <= x < 0x8000
    ensures 0 <= Half(x) < 0x1_0000 && Signed(Half(x)) == x
  {
  }

  lemma Halves(lo: nat, hi: nat)
    requires lo < 0x1_0000
    ensures (hi * 0x1_0000 + lo) % 0x1_0000 == lo && (hi * 0x1_0000 + lo) / 0x1_0000 == hi
  {
  }

  /** What iupdate writes ilock reads back, and the other inodes of the block read as before. */
  lemma DinodeRoundTrip(b: Block, k: nat, n: Inode)
    requires k < IPB && Storable(n)
    ensures GetDinode(PutDinode(b, k, n), k) == n
  {
    hide GetWord, SetWord, PutWords;
    var w0, w1 := GetWord(b, DWORDS * k), GetWord(b, DWORDS * k + 1);
    var ws, r := Pack(n, w0, w1), PutDinode(b, k, n);
    HalfSigned(n.nlink);
    Halves(n.kind, w0 / 0x1_0000);
    Halves(w1 % 0x1_0000, Half(n.nlink));
    assert GetWord(r, DWORDS * k) == ws[0] && GetWord(r, DWORDS * k + 1) == ws[1];
    assert GetWord(r, DWORDS * k + 2) == ws[2];
    forall j | 0 <= j <= NDIRECT ensures GetWord(r, DWORDS * k + 3 + j) == n.addrs[j] {
      assert ws[3 + j] == n.addrs[j] % UINT_LIMIT;
    }
    assert GetDinode(r, k).addrs == n.addrs;
  }

  lemma OtherDinodes(b: Block, k: nat, n: Inode, j: nat)
    requires k < IPB && j < IPB && j != k && |n.addrs| == NDIRECT + 1
    ensures GetDinode(PutDinode(b, k, n), j) == GetDinode(b, j)
  {
    hide GetWord, SetWord, PutWords, Pack;
    var r := PutDinode(b, k, n);
    forall x | DWORDS * j <= x < DWORDS * (j + 1) ensures GetWord(r, x) == GetWord(b, x) {
    }
    assert GetDinode(r, j).addrs == GetDinode(b, j).addrs;
  }

  // ---- the inode blocks of a disk ----

  /** Inode i as the disk has it. */
  function OnDisk(sb: Super, d: Disk, i: nat): Inode
    requires SuperOk(sb) && |d| == sb.size && i < sb.ninodes
  {
    InodeInside(sb, i);
    GetDinode(d[InodeBlock(sb, i)], i % IPB)
  }

  lemma Regions(sb: Super)
    requires SuperOk(sb)
    ensures sb.inodestart < sb.bmapstart < sb.meta <= sb.size <= UINT_LIMIT
  {
  }

  lemma InodeInside(sb: Super, i: nat)
    requires SuperOk(sb) && i < sb.ninodes
    ensures InodeBlock(sb, i) < sb.bmapstart < sb.meta <= sb.size
  {
    assert i / IPB <= sb.ninodes / IPB;
  }

  /** The inode blocks hold the inodes, but perhaps inode x. */
  ghost predicate SavedBut(sb: Super, s: State, x: nat)
    requires SuperOk(sb) && |s.disk| == sb.size && |s.nodes| == sb.ninodes
  {
    forall i :: 0 <= i < |s.nodes| && i != x ==> OnDisk(sb, s.disk, i) == s.nodes[i]
  }

  /** ... and so do they all. */
  ghost predicate Saved(sb: Super, s: State) {
    && SuperOk(sb) && |s.disk| == sb.size && |s.nodes| == sb.ninodes && SavedBut(sb, s, |s.nodes|)
  }

  /** What t's disk has otherwise than s's is in t's transaction, but for `but`; nothing has left the
      transaction, and all that is new in it lies from block `low` on. */
  ghost predicate Differs(low: nat, s: State, t: State, but: set<nat>) {
    && |t.disk| == |s.disk| && s.logged <= t.logged
    && (forall b :: 0 <= b < |s.disk| && t.disk[b] != s.disk[b] ==> low <= b && (b in t.logged || b in but))
    && (forall b :: b in t.logged ==> b in s.logged || low <= b < |t.disk|)
  }

  /** ... past the inode blocks. */
  ghost predicate Covered(sb: Super, s: State, t: State, but: set<nat>) { Differs(sb.bmapstart, s, t, but) }

  /** ... with the inode blocks. */
  ghost predicate AllLogged(sb: Super, s: State, t: State, but: set<nat>) { Differs(sb.inodestart, s, t, but) }

  lemma CoveredTrans(sb: Super, s: State, t: State, u: State, but: set<nat>)
    requires Covered(sb, s, t, {}) && Covered(sb, t, u, but)
    ensures Covered(sb, s, u, but)
  {
  }

  lemma WriteCovered(sb: Super, s: State, t: State, b: nat, data: Block, but: set<nat>)
    requires Covered(sb, s, t, but) && sb.bmapstart <= b < |t.disk|
    ensures Covered(sb, s, Rewrite(t, b, data), but)
    ensures Covered(sb, s, t.(disk := t.disk[b := data]), but + {b})
  {
  }

  lemma NothingChanged(sb: Super, s: State)
    ensures Covered(sb, s, s, {})
  {
  }

  lemma StillCovered(sb: Super, s: State, t: State, u: State, but: set<nat>)
    requires Covered(sb, s, t, but) && u.disk == t.disk && u.logged == t.logged
    ensures Covered(sb, s, u, but)
  {
  }

  /** iupdate. */
  function Update(sb: Super, s: State, i: nat): State
    requires InodeBlock(sb, i) < |s.disk| && i < |s.nodes| && |s.nodes[i].addrs| == NDIRECT + 1
  {
    var b := InodeBlock(sb, i);
    Rewrite(s, b, PutDinode(s.disk[b], i % IPB, s.nodes[i]))
  }

  /** Nothing below the bitmap has changed. */
  ghost predicate LowSame(sb: Super, s: State, t: State) {
    |t.disk| == |s.disk| && forall b :: 0 <= b < sb.bmapstart && b < |s.disk| ==> t.disk[b] == s.disk[b]
  }

  lemma CoveredLow(sb: Super, s: State, t: State, but: set<nat>)
    requires Covered(sb, s, t, but)
    ensures LowSame(sb, s, t)
  {
  }

  /** After iupdate of the one inode that changed, all are on the disk again. */
  lemma UpdateSaves(sb: Super, s: State, t: State, i: nat)
    requires Saved(sb, s) && LowSame(sb, s, t) && |t.nodes| == |s.nodes| && i < |s.nodes| && Storable(t.nodes[i])
    requires forall j :: 0 <= j < |s.nodes| && j != i ==> t.nodes[j] == s.nodes[j]
    ensures InodeBlock(sb, i) < |t.disk| && Saved(sb, Update(sb, t, i))
  {
    InodeInside(sb, i);
    var u := Update(sb, t, i);
    forall j | 0 <= j < |s.nodes| ensures OnDisk(sb, u.disk, j) == u.nodes[j] {
      UpdateSavesOne(sb, s, t, i, j);
    }
  }

  lemma UpdateSavesOne(sb: Super, s: State, t: State, i: nat, j: nat)
    requires Saved(sb, s) && LowSame(sb, s, t) && |t.nodes| == |s.nodes| && i < |s.nodes| && Storable(t.nodes[i])
    requires forall j :: 0 <= j < |s.nodes| && j != i ==> t.nodes[j] == s.nodes[j]
    requires InodeBlock(sb, i) < |t.disk| && j < |s.nodes|
    ensures OnDisk(sb, Update(sb, t, i).disk, j) == t.nodes[j]
  {
    hide PutDinode, GetDinode;
    InodeInside(sb, i);
    InodeInside(sb, j);
    var b := InodeBlock(sb, i);
    if j == i {
      DinodeRoundTrip(t.disk[b], i % IPB, t.nodes[i]);
    } else {
      assert OnDisk(sb, s.disk, j) == s.nodes[j];
      assert t.disk[InodeBlock(sb, j)] == s.disk[InodeBlock(sb, j)];
      if InodeBlock(sb, j) == b {
        assert j % IPB != i % IPB;
        OtherDinodes(t.disk[b], i % IPB, t.nodes[i], j % IPB);
      }
    }
  }

  lemma UpdateLogs(sb: Super, s: State, t: State, i: nat, but: set<nat>)
    requires SuperOk(sb) && Covered(sb, s, t, but) && InodeBlock(sb, i) < |t.disk| && i < |t.nodes|
    requires |t.nodes[i].addrs| == NDIRECT + 1
    ensures AllLogged(sb, s, Update(sb, t, i), but) && InodeBlock(sb, i) in Update(sb, t, i).logged
  {
    hide PutDinode;
  }

  lemma SavedStorable(sb: Super, s: State, i: nat)
    requires Saved(sb, s) && i < |s.nodes|
    ensures Storable(s.nodes[i])
  {
    assert OnDisk(sb, s.disk, i) == s.nodes[i];
    InodeInside(sb, i);
    WhatIsRead(s.disk[InodeBlock(sb, i)], i % IPB);
  }

  /** Writing an inode block changes nothing else that is read. */
  lemma UpdateGood(sb: Super, s: State, i: nat)
    requires Good(sb, s) && i < |s.nodes|
    ensures InodeBlock(sb, i) < |s.disk| && |s.nodes[i].addrs| == NDIRECT + 1 && Good(sb, Update(sb, s, i))
    ensures Sized(s) && Sized(Update(sb, s, i))
  {
    InodeInside(sb, i);
    var b := InodeBlock(sb, i);
    var data := PutDinode(s.disk[b], i % IPB, s.nodes[i]);
    hide PutDinode, BitsAre;
    BlockWrite(sb, s.nodes, s.disk, s.owner, b, data);
    LowWriteBits(sb, s.disk, s.owner.Keys, b, data);
  }

  lemma LowWriteBits(sb: Super, d: Disk, used: set<nat>, b: nat, data: Block)
    requires SuperOk(sb) && |d| == sb.size && b < sb.bmapstart && BitsAre(sb, d, used)
    ensures BitsAre(sb, d[b := data], used)
  {
    var e := d[b := data];
    forall x | 0 <= x < sb.size ensures DiskBit(sb, e, x) == DiskBit(sb, d, x) {
      LowWriteBit(sb, d, b, data, x);
    }
  }

  lemma LowWriteBit(sb: Super, d: Disk, b: nat, data: Block, x: nat)
    requires SuperOk(sb) && |d| == sb.size && b < sb.bmapstart && x < sb.size
    ensures DiskBit(sb, d[b := data], x) == DiskBit(sb, d, x)
  {
  }

  lemma UpdateByte(sb: Super, s: State, i: nat, j: nat, p: nat)
    requires Good(sb, s) && i < |s.nodes| && j < |s.nodes| && p < MAXBYTES
    requires InodeBlock(sb, i) < |s.disk| && |s.nodes[i].addrs| == NDIRECT + 1 && Sized(s) && Sized(Update(sb, s, i))
    ensures var t := Update(sb, s, i);
            Mapped(t, j, p) == Mapped(s, j, p) && (Mapped(s, j, p) ==> ByteAt(t, j, p) == ByteAt(s, j, p))
  {
    InodeInside(sb, i);
    var b := InodeBlock(sb, i);
    var data := PutDinode(s.disk[b], i % IPB, s.nodes[i]);
    hide PutDinode, DiskBit;
    BlockWrite(sb, s.nodes, s.disk, s.owner, b, data);
    if Mapped(s, j, p) {
      assert Val(s.nodes, s.disk, j, FileSlot(p / BSIZE)) in s.owner;
    }
  }

  /** So iupdate keeps everything sound, and every file's bytes. */
  lemma UpdateKeeps(sb: Super, s: State, i: nat)
    requires Good(sb, s) && Sized(s) && NoHoles(s) && i < |s.nodes|
    ensures InodeBlock(sb, i) < |s.disk| && |s.nodes[i].addrs| == NDIRECT + 1
    ensures var t := Update(sb, s, i);
            && Good(sb, t) && Sized(t) && NoHoles(t) && Full(sb, t) == Full(sb, s)
            && forall j :: 0 <= j < |s.nodes| ==> Content(t, j) == Content(s, j)
  {
    hide Good, Mapped, ByteAt, PutDinode;
    UpdateGood(sb, s, i);
    var t := Update(sb, s, i);
    forall j, p | 0 <= j < |s.nodes| && 0 <= p < MAXBYTES
      ensures Mapped(t, j, p) == Mapped(s, j, p) && (Mapped(s, j, p) ==> ByteAt(t, j, p) == ByteAt(s, j, p))
    {
      UpdateByte(sb, s, i, j, p);
    }
    forall j | 0 <= j < |s.nodes| ensures Content(t, j) == Content(s, j) {
    }
  }
}

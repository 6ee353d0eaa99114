/** Truncation on states: giving an inode's blocks back to the bitmap. */
module FsTrunc {
  import opened Blocks
  import opened Bitmap
  import opened FsOwner
  import opened FsBytes
  import opened FsInode

  /** Everything that does not belong to inode i is as before. */
  ghost predicate OthersKept(s: State, t: State, i: nat) {
    && |t.nodes| == |s.nodes| && |t.disk| == |s.disk|
    && (forall j :: 0 <= j < |s.nodes| && j != i ==> t.nodes[j] == s.nodes[j])
    && (forall b :: b in s.owner && s.owner[b].inum != i && b < |s.disk| ==>
          b in t.owner && t.owner[b] == s.owner[b] && t.disk[b] == s.disk[b])
  }

  lemma OthersKeptTrans(s: State, t: State, u: State, i: nat)
    requires OthersKept(s, t, i) && OthersKept(t, u, i)
    ensures OthersKept(s, u, i)
  {
  }

  /** Other files keep their contents. */
  lemma OthersKeptVal(sb: Super, s: State, t: State, i: nat, j: nat, k: nat)
    requires Good(sb, s) && Good(sb, t) && OthersKept(s, t, i) && j < |s.nodes| && j != i && k < SLOTS
    ensures Val(t.nodes, t.disk, j, k) == Val(s.nodes, s.disk, j, k)
  {
    var a := s.nodes[j].addrs[NDIRECT];
    assert Val(s.nodes, s.disk, j, NDIRECT) == a;
    if a != 0 {
      assert s.owner[a] == Slot(j, NDIRECT);
      assert t.disk[a] == s.disk[a];
    }
  }

  lemma OthersKeptBytes(sb: Super, s: State, t: State, i: nat, j: nat, p: nat)
    requires Good(sb, s) && Good(sb, t) && Sized(s) && Sized(t) && OthersKept(s, t, i)
    requires j < |s.nodes| && j != i && p < MAXBYTES
    ensures Mapped(t, j, p) <==> Mapped(s, j, p)
    ensures Mapped(s, j, p) ==> ByteAt(t, j, p) == ByteAt(s, j, p)
  {
    var k := FileSlot(p / BSIZE);
    OthersKeptVal(sb, s, t, i, j, k);
    if Mapped(s, j, p) {
      assert s.owner[Val(s.nodes, s.disk, j, k)] == Slot(j, k);
    }
  }

  /** bfree's effect. */
  function ClearBit(sb: Super, s: State, b: nat): State
    requires SuperOk(sb) && |s.disk| == sb.size && b < sb.size
  {
    State(s.nodes, PutDiskBit(sb, s.disk, b, false), s.owner, s.logged + {BitmapBlock(sb, b)})
  }

  lemma ClearBitCovered(sb: Super, s: State, t: State, b: nat, u: State)
    requires SuperOk(sb) && |t.disk| == sb.size && b < sb.size && Covered(sb, s, t, {})
    requires u.disk == ClearBit(sb, t, b).disk && u.logged == ClearBit(sb, t, b).logged
    ensures Covered(sb, s, u, {})
  {
    hide PutBit, Covered;
    var w := BitmapBlock(sb, b);
    var data := PutBit(t.disk[w], b % BPB, false);
    assert sb.bmapstart <= w < |t.disk|;
    WriteCovered(sb, s, t, w, data, {});
    StillCovered(sb, s, Rewrite(t, w, data), u, {});
  }

  lemma ClearBitOwned(sb: Super, s: State, b: nat)
    requires SuperOk(sb) && Owned(sb, s.nodes, s.disk, s.owner) && b < sb.size
    ensures Owned(sb, s.nodes, ClearBit(sb, s, b).disk, s.owner)
    ensures forall x :: sb.meta <= x < sb.size ==> ClearBit(sb, s, b).disk[x] == s.disk[x]
  {
    hide PutBit, GetWord, Owned;
    var w := BitmapBlock(sb, b);
    OwnedHigh(sb, s.nodes, s.disk, s.owner, w);
    BlockWrite(sb, s.nodes, s.disk, s.owner, w, PutBit(s.disk[w], b % BPB, false));
  }

  lemma OwnedHigh(sb: Super, nodes: Inodes, d: Disk, owner: Owner, w: nat)
    requires Owned(sb, nodes, d, owner)
    ensures |d| == sb.size && (w < sb.meta ==> w !in owner)
  {
    hide Val;
  }

  lemma ClearBitKeeps(sb: Super, s: State, b: nat, i: nat)
    requires SuperOk(sb) && Owned(sb, s.nodes, s.disk, s.owner) && b < sb.size
    ensures OthersKept(s, ClearBit(sb, s, b), i)
  {
    ClearBitOwned(sb, s, b);
  }

  // ---- direct blocks ----

  function DropDirect(sb: Super, s: State, i: nat, k: nat): State
    requires SuperOk(sb) && |s.disk| == sb.size && i < |s.nodes| && k < |s.nodes[i].addrs|
    requires s.nodes[i].addrs[k] < sb.size
  {
    var v := s.nodes[i].addrs[k];
    State(PutAddr(s.nodes, i, k, 0), PutDiskBit(sb, s.disk, v, false), s.owner - {v}, s.logged + {BitmapBlock(sb, v)})
  }

  lemma DropDirectRange(sb: Super, s: State, i: nat, k: nat)
    requires Good(sb, s) && Sized(s) && i < |s.nodes| && k < NDIRECT && s.nodes[i].addrs[k] != 0
    ensures var v := s.nodes[i].addrs[k];
            && sb.meta <= v < sb.size == |s.disk| && v in s.owner && s.owner[v] == Slot(i, k) && DiskBit(sb, s.disk, v)
  {
    hide DiskBit;
    assert Val(s.nodes, s.disk, i, k) == s.nodes[i].addrs[k];
  }

  lemma DropDirectOk(sb: Super, s: State, i: nat, k: nat)
    requires Good(sb, s) && Sized(s) && i < |s.nodes| && k < NDIRECT && s.nodes[i].addrs[k] != 0
    ensures s.nodes[i].addrs[k] < sb.size == |s.disk|
    ensures Good(sb, DropDirect(sb, s, i, k)) && OthersKept(s, DropDirect(sb, s, i, k), i)
  {
    hide PutBit, GetWord, DiskBit, BitsAre, Owned, PutDiskBit, OthersKept;
    var v := s.nodes[i].addrs[k];
    DropDirectRange(sb, s, i, k);
    ClearBitOwned(sb, s, v);
    PutDiskBitBits(sb, s.disk, s.owner.Keys, v, false);
    ClearAddr(sb, s.nodes, ClearBit(sb, s, v).disk, s.owner, i, k);
    assert (s.owner - {v}).Keys == s.owner.Keys - {v};
    DropDirectKeeps(sb, s, i, k);
  }

  lemma DropDirectKeeps(sb: Super, s: State, i: nat, k: nat)
    requires Good(sb, s) && Sized(s) && i < |s.nodes| && k < NDIRECT && s.nodes[i].addrs[k] != 0
    requires s.nodes[i].addrs[k] < sb.size == |s.disk|
    ensures OthersKept(s, DropDirect(sb, s, i, k), i)
  {
    hide PutBit, GetWord, DiskBit, BitsAre;
    DropDirectRange(sb, s, i, k);
    ClearBitOwned(sb, s, s.nodes[i].addrs[k]);
  }

  // ---- the indirect block ----

  /** The first j entries of inode i's indirect block have been given back, though the block still
      lists them. */
  ghost predicate Draining(sb: Super, s: State, used: set<nat>, i: nat, j: nat) {
    && SuperOk(sb) && Owned(sb, s.nodes, s.disk, s.owner) && BitsAre(sb, s.disk, used)
    && (forall b :: b in used <==>
          b in s.owner && !(s.owner[b].inum == i && NDIRECT < s.owner[b].k <= NDIRECT + j))
  }

  lemma DrainStart(sb: Super, s: State, i: nat)
    requires Good(sb, s)
    ensures Draining(sb, s, s.owner.Keys, i, 0)
  {
  }

  lemma DrainSizes(sb: Super, s: State, used: set<nat>, i: nat, j: nat)
    requires Draining(sb, s, used, i, j)
    ensures SuperOk(sb) && |s.disk| == sb.size && |s.nodes| == sb.ninodes && Sized(s)
  {
  }

  lemma DrainRange(sb: Super, s: State, used: set<nat>, i: nat, j: nat)
    requires Draining(sb, s, used, i, j) && Sized(s) && i < |s.nodes| && j < NINDIRECT
    requires s.nodes[i].addrs[NDIRECT] != 0
    ensures var v := Val(s.nodes, s.disk, i, NDIRECT + 1 + j);
            v == 0 || (sb.meta <= v < sb.size == |s.disk| && v in used && DiskBit(sb, s.disk, v))
  {
    hide DiskBit, GetWord;
  }

  /** Freeing entry j takes the drain one step on. */
  lemma DrainStep(sb: Super, s: State, used: set<nat>, i: nat, j: nat)
    requires Draining(sb, s, used, i, j) && Sized(s) && i < |s.nodes| && j < NINDIRECT
    requires 0 < sb.size == |s.disk| && Val(s.nodes, s.disk, i, NDIRECT + 1 + j) < sb.size
    requires s.nodes[i].addrs[NDIRECT] != 0
    ensures var v := Val(s.nodes, s.disk, i, NDIRECT + 1 + j);
            if v == 0 then Draining(sb, s, used, i, j + 1)
            else Draining(sb, ClearBit(sb, s, v), used - {v}, i, j + 1)
  {
    hide DiskBit, PutDiskBit, GetWord, BitsAre;
    var v := Val(s.nodes, s.disk, i, NDIRECT + 1 + j);
    if v != 0 {
      ClearBitOwned(sb, s, v);
      PutDiskBitBits(sb, s.disk, used, v, false);
    }
  }

  /** bfree of the emptied indirect block, and ip->addrs[NDIRECT] = 0. */
  function DropIndirect(sb: Super, s: State, i: nat): State
    requires SuperOk(sb) && |s.disk| == sb.size && i < |s.nodes| && |s.nodes[i].addrs| == NDIRECT + 1
    requires s.nodes[i].addrs[NDIRECT] < sb.size
  {
    var t := ClearBit(sb, s, s.nodes[i].addrs[NDIRECT]);
    State(PutAddr(s.nodes, i, NDIRECT, 0), t.disk, WithoutIndirect(s.owner, i), t.logged)
  }

  lemma DrainEndRange(sb: Super, s: State, used: set<nat>, i: nat)
    requires Draining(sb, s, used, i, NINDIRECT) && Sized(s) && i < |s.nodes| && s.nodes[i].addrs[NDIRECT] != 0
    ensures var a := s.nodes[i].addrs[NDIRECT];
            && sb.meta <= a < sb.size == |s.disk| && a in used && a in s.owner && s.owner[a] == Slot(i, NDIRECT)
            && DiskBit(sb, s.disk, a)
  {
    hide DiskBit, GetWord;
    assert Val(s.nodes, s.disk, i, NDIRECT) == s.nodes[i].addrs[NDIRECT];
  }

  lemma DrainEnd(sb: Super, s: State, used: set<nat>, i: nat)
    requires Draining(sb, s, used, i, NINDIRECT) && Sized(s) && i < |s.nodes| && s.nodes[i].addrs[NDIRECT] != 0
    ensures s.nodes[i].addrs[NDIRECT] < sb.size == |s.disk|
    ensures Good(sb, DropIndirect(sb, s, i)) && OthersKept(s, DropIndirect(sb, s, i), i)
  {
    hide DiskBit, PutDiskBit, GetWord, BitsAre, Owned, OthersKept;
    var a := s.nodes[i].addrs[NDIRECT];
    DrainEndRange(sb, s, used, i);
    ClearBitOwned(sb, s, a);
    PutDiskBitBits(sb, s.disk, used, a, false);
    ClearIndirect(sb, s.nodes, ClearBit(sb, s, a).disk, s.owner, i);
    DrainedKeys(sb, s, used, i);
    DropIndirectKeeps(sb, s, i);
  }

  lemma DrainedKeys(sb: Super, s: State, used: set<nat>, i: nat)
    requires Draining(sb, s, used, i, NINDIRECT) && Sized(s) && i < |s.nodes| && s.nodes[i].addrs[NDIRECT] != 0
    ensures WithoutIndirect(s.owner, i).Keys == used - {s.nodes[i].addrs[NDIRECT]}
  {
    hide DiskBit, GetWord;
    DrainEndRange(sb, s, used, i);
    forall b | b in used && b != s.nodes[i].addrs[NDIRECT] ensures b in WithoutIndirect(s.owner, i) {
      assert Val(s.nodes, s.disk, s.owner[b].inum, s.owner[b].k) == b;
    }
  }

  lemma DropIndirectKeeps(sb: Super, s: State, i: nat)
    requires SuperOk(sb) && Owned(sb, s.nodes, s.disk, s.owner) && i < |s.nodes|
    requires s.nodes[i].addrs[NDIRECT] < sb.size == |s.disk|
    ensures OthersKept(s, DropIndirect(sb, s, i), i)
  {
    hide PutBit, GetWord, DiskBit, BitsAre;
    ClearBitOwned(sb, s, s.nodes[i].addrs[NDIRECT]);
  }

  // ---- the whole of itrunc ----

  /** Inode i has no blocks. */
  predicate Bare(s: State, i: nat)
    requires i < |s.nodes|
  {
    |s.nodes[i].addrs| == NDIRECT + 1 && forall k :: 0 <= k <= NDIRECT ==> s.nodes[i].addrs[k] == 0
  }

  /** Free inodes have no blocks and no bytes, so ialloc, which zeroes them, loses nothing. */
  ghost predicate FreeBare(s: State) {
    forall i :: 0 <= i < |s.nodes| && s.nodes[i].kind == 0 ==> Bare(s, i) && s.nodes[i].size == 0
  }

  /** Exactly inode i's blocks have gone back to the bitmap. */
  lemma BareOwner(sb: Super, s: State, t: State, i: nat)
    requires Good(sb, s) && Good(sb, t) && OthersKept(s, t, i) && i < |s.nodes| && Bare(t, i)
    requires forall b :: b in t.owner ==> b in s.owner
    ensures forall b :: b in t.owner <==> b in s.owner && s.owner[b].inum != i
  {
    hide GetWord, BitsAre;
    forall b | b in t.owner ensures t.owner[b].inum != i {
      assert Val(t.nodes, t.disk, t.owner[b].inum, t.owner[b].k) == b;
    }
    forall b | b in t.owner ensures s.owner[b].inum != i {
      var q := s.owner[b];
      if q.inum == i {
        OwnerStays(sb, s, t, i, b);
      }
    }
  }

  lemma OwnerStays(sb: Super, s: State, t: State, i: nat, b: nat)
    requires Good(sb, s) && Good(sb, t) && OthersKept(s, t, i) && i < |s.nodes|
    requires b in t.owner && b in s.owner && t.owner[b].inum != i
    ensures s.owner[b].inum != i
  {
    hide GetWord, BitsAre;
    var q := t.owner[b];
    OthersKeptVal(sb, s, t, i, q.inum, q.k);
    assert s.owner[Val(s.nodes, s.disk, q.inum, q.k)] == q;
  }

  /** itrunc of inode i, begun in state s, has freed the blocks in slots below k. */
  ghost predicate Truncating(sb: Super, s: State, t: State, i: nat, k: nat) {
    && SuperOk(sb) && Good(sb, s) && Good(sb, t) && Sized(s) && Sized(t)
    && i < |s.nodes| == |t.nodes| && k <= NDIRECT + 1
    && OthersKept(s, t, i)
    && (forall b :: b in t.owner ==> b in s.owner)
    && t.nodes[i] == s.nodes[i].(addrs := t.nodes[i].addrs)
    && (forall x :: 0 <= x < k ==> t.nodes[i].addrs[x] == 0)
    && (forall b :: b in t.logged ==> b in s.logged || IsBitmapBlock(sb, b))
    && Covered(sb, s, t, {})
  }

  predicate IsBitmapBlock(sb: Super, b: nat) {
    0 < sb.size && sb.bmapstart <= b <= sb.bmapstart + (sb.size - 1) / BPB
  }

  lemma BitmapBlockIs(sb: Super, b: nat)
    requires b < sb.size
    ensures IsBitmapBlock(sb, BitmapBlock(sb, b))
  {
  }

  lemma TruncStart(sb: Super, s: State, i: nat)
    requires Good(sb, s) && Sized(s) && i < |s.nodes|
    ensures Truncating(sb, s, s, i, 0)
  {
  }

  lemma TruncNext(sb: Super, s: State, t: State, i: nat, k: nat)
    requires Truncating(sb, s, t, i, k) && k < NDIRECT && Sized(t)
    ensures var v := t.nodes[i].addrs[k];
            if v == 0 then Truncating(sb, s, t, i, k + 1)
            else v < sb.size == |t.disk| && SuperOk(sb) && DiskBit(sb, t.disk, v)
                 && Truncating(sb, s, DropDirect(sb, t, i, k), i, k + 1)
  {
    hide Good, DiskBit, PutDiskBit, BitmapBlock, IsBitmapBlock, OthersKept, Covered;
    if t.nodes[i].addrs[k] != 0 {
      DropDirectRange(sb, t, i, k);
      DropDirectOk(sb, t, i, k);
      Sizes(sb, DropDirect(sb, t, i, k));
      BitmapBlockIs(sb, t.nodes[i].addrs[k]);
      ClearBitCovered(sb, s, t, t.nodes[i].addrs[k], DropDirect(sb, t, i, k));
      OthersKeptTrans(s, t, DropDirect(sb, t, i, k), i);
    }
  }

  /** itrunc of inode i, begun in state s, is freeing the indirect block's entries: the first j
      have gone. */
  ghost predicate TruncDraining(sb: Super, s: State, t: State, used: set<nat>, i: nat, j: nat) {
    && SuperOk(sb) && Good(sb, s) && Sized(s) && Sized(t) && i < |s.nodes| == |t.nodes|
    && Draining(sb, t, used, i, j) && j <= NINDIRECT
    && OthersKept(s, t, i)
    && (forall b :: b in t.owner ==> b in s.owner)
    && t.nodes[i] == s.nodes[i].(addrs := t.nodes[i].addrs)
    && t.nodes[i].addrs[NDIRECT] != 0
    && (forall x :: 0 <= x < NDIRECT ==> t.nodes[i].addrs[x] == 0)
    && (forall b :: b in t.logged ==> b in s.logged || IsBitmapBlock(sb, b))
    && Covered(sb, s, t, {})
  }

  lemma TruncDrainStart(sb: Super, s: State, t: State, i: nat)
    requires Truncating(sb, s, t, i, NDIRECT) && t.nodes[i].addrs[NDIRECT] != 0
    ensures TruncDraining(sb, s, t, t.owner.Keys, i, 0)
  {
    hide Good, OthersKept, IsBitmapBlock, Covered;
    DrainStart(sb, t, i);
  }

  lemma TruncDrainStep(sb: Super, s: State, t: State, used: set<nat>, i: nat, j: nat)
    requires TruncDraining(sb, s, t, used, i, j) && j < NINDIRECT
    ensures SuperOk(sb) && |t.disk| == sb.size
    ensures var v := GetWord(t.disk[t.nodes[i].addrs[NDIRECT]], j);
            if v == 0 then TruncDraining(sb, s, t, used, i, j + 1)
            else v < sb.size && DiskBit(sb, t.disk, v)
                 && TruncDraining(sb, s, ClearBit(sb, t, v), used - {v}, i, j + 1)
  {
    hide Good, DiskBit, PutDiskBit, BitmapBlock, IsBitmapBlock, OthersKept, Draining, GetWord, Covered;
    DrainSizes(sb, t, used, i, j);
    DrainRange(sb, t, used, i, j);
    DrainStep(sb, t, used, i, j);
    var v := Val(t.nodes, t.disk, i, NDIRECT + 1 + j);
    if v != 0 {
      BitmapBlockIs(sb, v);
      ClearBitCovered(sb, s, t, v, ClearBit(sb, t, v));
      DrainingKeeps(sb, t, used, v, i, j);
      DrainSizes(sb, ClearBit(sb, t, v), used - {v}, i, j + 1);
      OthersKeptTrans(s, t, ClearBit(sb, t, v), i);
    }
  }

  lemma DrainingKeeps(sb: Super, t: State, used: set<nat>, v: nat, i: nat, j: nat)
    requires Draining(sb, t, used, i, j) && v < sb.size == |t.disk|
    ensures OthersKept(t, ClearBit(sb, t, v), i)
  {
    ClearBitKeeps(sb, t, v, i);
  }

  lemma TruncDrainEnd(sb: Super, s: State, t: State, used: set<nat>, i: nat)
    requires TruncDraining(sb, s, t, used, i, NINDIRECT)
    ensures SuperOk(sb) && t.nodes[i].addrs[NDIRECT] < sb.size == |t.disk|
    ensures DiskBit(sb, t.disk, t.nodes[i].addrs[NDIRECT])
    ensures Truncating(sb, s, DropIndirect(sb, t, i), i, NDIRECT + 1)
  {
    hide Good, DiskBit, PutDiskBit, BitmapBlock, IsBitmapBlock, OthersKept, Draining, Covered;
    DrainSizes(sb, t, used, i, NINDIRECT);
    DrainEndRange(sb, t, used, i);
    DrainEnd(sb, t, used, i);
    var u := DropIndirect(sb, t, i);
    Sizes(sb, u);
    BitmapBlockIs(sb, t.nodes[i].addrs[NDIRECT]);
    ClearBitCovered(sb, s, t, t.nodes[i].addrs[NDIRECT], u);
    OthersKeptTrans(s, t, u, i);
  }

  lemma TruncLast(sb: Super, s: State, t: State, i: nat)
    requires Truncating(sb, s, t, i, NDIRECT) && t.nodes[i].addrs[NDIRECT] == 0
    ensures Truncating(sb, s, t, i, NDIRECT + 1)
  {
    hide Good, OthersKept, IsBitmapBlock, Covered;
  }

  /** What itrunc does: inode i is empty and has type `kind`, exactly its blocks are free again, and every other file
      reads as before. */
  ghost predicate Truncated(sb: Super, s: State, u: State, i: nat, kind: nat) {
    && Good(sb, u) && Sized(s) && Sized(u) && NoHoles(s) && NoHoles(u) && i < |s.nodes| == |u.nodes|
    && (forall b :: b in u.owner <==> b in s.owner && s.owner[b].inum != i)
    && Bare(u, i) && u.nodes[i] == s.nodes[i].(kind := kind, addrs := u.nodes[i].addrs, size := 0)
    && (forall j :: 0 <= j < |s.nodes| && j != i ==> u.nodes[j] == s.nodes[j] && Content(u, j) == Content(s, j))
  }

  lemma TruncDone(sb: Super, s: State, t: State, i: nat)
    requires Truncating(sb, s, t, i, NDIRECT + 1) && NoHoles(s)
    ensures Truncated(sb, s, SetSize(t, i, 0), i, s.nodes[i].kind)
  {
    hide Good, OthersKept, IsBitmapBlock, Mapped, NoHoles, Covered;
    var u := SetSize(t, i, 0);
    SetSizeGood(sb, t, i, 0);
    BareOwner(sb, s, t, i);
    TruncNodes(s, t, i);
    TruncMapped(sb, s, t, i);
    forall j | 0 <= j < |s.nodes| && j != i ensures Content(u, j) == Content(s, j) {
      TruncContent(sb, s, t, i, j);
    }
  }

  lemma TruncNodes(s: State, t: State, i: nat)
    requires OthersKept(s, t, i) && i < |s.nodes|
    ensures |t.nodes| == |s.nodes| && forall j :: 0 <= j < |s.nodes| && j != i ==> t.nodes[j] == s.nodes[j]
  {
  }

  lemma TruncMapped(sb: Super, s: State, t: State, i: nat)
    requires Truncating(sb, s, t, i, NDIRECT + 1) && NoHoles(s)
    ensures Sized(SetSize(t, i, 0)) && NoHoles(SetSize(t, i, 0))
  {
    hide Good, Mapped, Covered;
    var u := SetSize(t, i, 0);
    SetSizeBytes(sb, t, i, 0);
    forall j, p | 0 <= j < |s.nodes| && 0 <= p < u.nodes[j].size ensures Mapped(u, j, p) {
      OthersKeptBytes(sb, s, t, i, j, p);
    }
  }

  lemma TruncContent(sb: Super, s: State, t: State, i: nat, j: nat)
    requires Truncating(sb, s, t, i, NDIRECT + 1) && NoHoles(s) && j < |s.nodes| && j != i
    requires Sized(SetSize(t, i, 0)) && NoHoles(SetSize(t, i, 0))
    ensures Content(SetSize(t, i, 0), j) == Content(s, j)
  {
    hide Good, Mapped, Covered;
    var u := SetSize(t, i, 0);
    SetSizeBytes(sb, t, i, 0);
    assert |Content(u, j)| == |Content(s, j)|;
    forall p | 0 <= p < s.nodes[j].size ensures Content(u, j)[p] == Content(s, j)[p] {
      OthersKeptBytes(sb, s, t, i, j, p);
    }
  }

  function SetKind(s: State, i: nat, kind: nat): State
    requires i < |s.nodes|
  {
    State(s.nodes[i := s.nodes[i].(kind := kind)], s.disk, s.owner, s.logged)
  }

  lemma SetKindTruncated(sb: Super, s: State, u: State, i: nat, kind: nat)
    requires i < |s.nodes| && Truncated(sb, s, u, i, s.nodes[i].kind)
    ensures Truncated(sb, s, SetKind(u, i, kind), i, kind)
  {
    hide Good, Mapped;
    var t := SetKind(u, i, kind);
    SetNodeGood(sb, u, i, u.nodes[i].(kind := kind));
    SetNodeBytes(sb, u, i, u.nodes[i].(kind := kind));
    forall j | 0 <= j < |s.nodes| && j != i ensures Content(t, j) == Content(u, j) {
    }
  }
}

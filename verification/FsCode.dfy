/** fs.c: allocating, mapping, truncating, reading and writing the blocks of inodes. */
module FsCode {
  import opened Params
  import opened Collections
  import opened Blocks
  import opened Bitmap
  import opened FsOwner
  import opened FsBytes
  import opened FsInode
  import opened FsTrunc

  /** The indirect block's number as a set, empty if there is none. */
  function Indirect(n: Inode): set<nat>
    requires |n.addrs| == NDIRECT + 1
  {
    if n.addrs[NDIRECT] == 0 then {} else {n.addrs[NDIRECT]}
  }

  /** Inode `now` has an indirect block that `was` had not. */
  function NewIndirect(was: Inode, now: Inode): nat
    requires |was.addrs| == |now.addrs| == NDIRECT + 1
  {
    if was.addrs[NDIRECT] == 0 != now.addrs[NDIRECT] then 1 else 0
  }

  /** What one bmap call logs: bitmap blocks `bm`, one per block it allocated, the data block, and
      the indirect block. */
  ghost predicate BmapLogs(s: State, t: State, i: nat, addr: nat, bm: set<nat>)
    requires Sized(s) && Sized(t) && i < |s.nodes| == |t.nodes|
  {
    && t.logged <= s.logged + bm + {addr} + Indirect(t.nodes[i])
    && |bm| <= 1 + NewIndirect(s.nodes[i], t.nodes[i])
    && (s.nodes[i].addrs[NDIRECT] != 0 ==> t.nodes[i].addrs[NDIRECT] == s.nodes[i].addrs[NDIRECT])
  }

  /** No inode but i has changed. */
  ghost predicate OnlyNode(s: State, t: State, i: nat) {
    |t.nodes| == |s.nodes| && forall j :: 0 <= j < |s.nodes| && j != i ==> t.nodes[j] == s.nodes[j]
  }

  class Fs {
    const sb: Super
    var s: State

    /** The mounted file system: its superblock and what is on the disk. */
    constructor (sb: Super, s: State)
      ensures this.sb == sb && this.s == s
    {
      this.sb, this.s := sb, s;
    }

    method LogWrite(b: nat, data: Block)
      requires b < |s.disk|
      modifies this
      ensures s == Rewrite(old(s), b, data)
    {
      s := Rewrite(s, b, data);
    }

    /** balloc: marks the first clear bit and zeroes its block; 0 means the disk is full. */
    method Balloc() returns (r: nat)
      requires Good(sb, s)
      modifies this
      ensures r == 0 ==> s == old(s) && Full(sb, s)
      ensures r != 0 ==> r < sb.size == |old(s).disk| && s == Take(sb, old(s), r)
      ensures r != 0 ==> !DiskBit(sb, old(s).disk, r) && forall b :: 0 <= b < r ==> DiskBit(sb, old(s).disk, b)
    {
      Sizes(sb, s);
      hide Owned, DiskBit;
      var b := 0;
      while b < sb.size
        invariant 0 <= b && s == old(s)
        invariant forall x :: 0 <= x < b && x < sb.size ==> DiskBit(sb, s.disk, x)
        decreases sb.size - b
      {
        var bi := 0;
        while bi < BPB && b + bi < sb.size
          invariant 0 <= bi <= BPB && s == old(s)
          invariant forall x :: 0 <= x < b + bi && x < sb.size ==> DiskBit(sb, s.disk, x)
        {
          if !DiskBit(sb, s.disk, b + bi) {
            r := b + bi;
            MarkAndZero(r);
            return;
          }
          bi := bi + 1;
        }
        b := b + BPB;
      }
      r := 0;
    }

    method MarkAndZero(r: nat)
      requires SuperOk(sb) && |s.disk| == sb.size && r < sb.size
      modifies this
      ensures s == Take(sb, old(s), r)
    {
      hide PutBit;
      LogWrite(BitmapBlock(sb, r), PutBit(s.disk[BitmapBlock(sb, r)], r % BPB, true));
      LogWrite(r, ZeroBlock());
    }

    /** bmap's allocation into ip->addrs[k]: a direct block, or the indirect block. */
    method AllocAddr(i: nat, k: nat) returns (r: nat)
      requires Good(sb, s) && i < |s.nodes| && k <= NDIRECT && |s.nodes[i].addrs| == NDIRECT + 1
      requires s.nodes[i].addrs[k] == 0
      modifies this
      ensures Good(sb, s) && Kept(old(s), s)
      ensures r == 0 ==> s == old(s) && Full(sb, s)
      ensures r != 0 ==> r < sb.size == |old(s).disk| && s == Install(Take(sb, old(s), r), i, k, r)
      ensures OnlyNode(old(s), s, i) && Covered(sb, old(s), s, {})
    {
      r := Balloc();
      if r == 0 {
        KeptSelf(s);
      } else {
        TakeOk(sb, old(s), r);
        TakeCovered(sb, old(s), r);
        InstallOk(sb, s, i, k, r);
        hide Good, Kept, Covered;
        StillCovered(sb, old(s), s, Install(s, i, k, r), {});
        KeptTrans(old(s), s, Install(s, i, k, r));
        s := Install(s, i, k, r);
      }
    }

    /** bmap's allocation into entry j of the indirect block. */
    method AllocEntry(i: nat, j: nat) returns (r: nat)
      requires Good(sb, s) && Sized(s) && i < |s.nodes| && j < NINDIRECT && s.nodes[i].addrs[NDIRECT] != 0
      requires Val(s.nodes, s.disk, i, NDIRECT + 1 + j) == 0
      modifies this
      ensures Good(sb, s) && Kept(old(s), s)
      ensures r == 0 ==> s == old(s) && Full(sb, s)
      ensures r != 0 ==> DataBlock(sb, s, i, NDIRECT + j, r)
      ensures r != 0 ==> s.nodes == old(s).nodes
      ensures r != 0 ==> s.logged == old(s).logged + {BitmapBlock(sb, r)} + {r} + {s.nodes[i].addrs[NDIRECT]}
      ensures Covered(sb, old(s), s, {})
    {
      r := Balloc();
      if r == 0 {
        KeptSelf(s);
      } else {
        TakeOk(sb, old(s), r);
        TakeCovered(sb, old(s), r);
        EntryStillZero(sb, old(s), s, r, i, j);
        InstallEntryOk(sb, s, i, j, r);
        EntryCovered(sb, old(s), s, i, j, r);
        hide Good, Kept, Covered;
        KeptTrans(old(s), s, InstallEntry(s, i, j, r));
        s := InstallEntry(s, i, j, r);
      }
    }

    /** bmap: the block of an inode's bn-th data block, allocated if need be. An already mapped
        block changes nothing; 0 means the disk is full. */
    method Bmap(i: nat, bn: nat) returns (addr: nat, ghost bm: set<nat>)
      requires Good(sb, s) && Sized(s) && i < |s.nodes| && bn < MAXFILE
      modifies this
      ensures Good(sb, s) && Sized(s) && Kept(old(s), s) && |s.nodes| == |old(s).nodes|
      ensures if addr == 0 then Full(sb, s) else DataBlock(sb, s, i, bn, addr)
      ensures FileVal(old(s), i, bn) != 0 ==> addr == FileVal(old(s), i, bn) && s == old(s) && bm == {}
      ensures BmapLogs(old(s), s, i, addr, bm)
      ensures OnlyNode(old(s), s, i) && Covered(sb, old(s), s, {})
    {
      hide Good, Kept, Full, DataBlock, BmapLogs, OnlyNode, Covered;
      if bn < NDIRECT {
        addr, bm := BmapDirect(i, bn);
      } else {
        addr, bm := BmapIndirect(i, bn - NDIRECT);
      }
    }

    method BmapDirect(i: nat, bn: nat) returns (addr: nat, ghost bm: set<nat>)
      requires Good(sb, s) && Sized(s) && i < |s.nodes| && bn < NDIRECT
      modifies this
      ensures Good(sb, s) && Sized(s) && Kept(old(s), s) && |s.nodes| == |old(s).nodes|
      ensures if addr == 0 then Full(sb, s) else DataBlock(sb, s, i, bn, addr)
      ensures old(s).nodes[i].addrs[bn] != 0 ==> addr == old(s).nodes[i].addrs[bn] && s == old(s) && bm == {}
      ensures BmapLogs(old(s), s, i, addr, bm)
      ensures OnlyNode(old(s), s, i) && Covered(sb, old(s), s, {})
    {
      addr := s.nodes[i].addrs[bn];
      bm := {};
      if addr == 0 {
        addr := AllocAddr(i, bn);
        Sizes(sb, s);
        hide Owned, BitsAre, Kept, Covered;
        if addr != 0 {
          bm := {BitmapBlock(sb, addr)};
        }
      } else {
        assert Val(s.nodes, s.disk, i, bn) == addr;
        KeptSelf(s);
      }
    }

    method BmapIndirect(i: nat, j: nat) returns (addr: nat, ghost bm: set<nat>)
      requires Good(sb, s) && Sized(s) && i < |s.nodes| && j < NINDIRECT
      modifies this
      ensures Good(sb, s) && Sized(s) && Kept(old(s), s) && |s.nodes| == |old(s).nodes|
      ensures if addr == 0 then Full(sb, s) else DataBlock(sb, s, i, NDIRECT + j, addr)
      ensures Val(old(s).nodes, old(s).disk, i, NDIRECT + 1 + j) != 0 ==>
                addr == Val(old(s).nodes, old(s).disk, i, NDIRECT + 1 + j) && s == old(s) && bm == {}
      ensures BmapLogs(old(s), s, i, addr, bm)
      ensures OnlyNode(old(s), s, i) && Covered(sb, old(s), s, {})
    {
      hide Good, Kept, Full, DataBlock, BmapLogs, Covered;
      var a;
      a, bm := EnsureIndirect(i);
      if a == 0 {
        NothingLogged(s, i);
        return 0, bm;
      }
      ghost var mid := s;
      addr := GetWord(s.disk[a], j);
      if addr == 0 {
        KeptEntryZero(sb, old(s), s, i, NDIRECT + 1 + j);
        addr := AllocEntry(i, j);
        Sizes(sb, s);
        KeptTrans(old(s), mid, s);
        CoveredTrans(sb, old(s), mid, s, {});
        if addr != 0 {
          EntryLogs(old(s), mid, s, i, bm, a, BitmapBlock(sb, addr), addr);
          bm := bm + {BitmapBlock(sb, addr)};
        } else {
          IndirectLogs(old(s), s, i, bm);
        }
      } else {
        ZeroWords();
        assert s == old(s);
        NothingLogged(s, i);
        EntryIsData(sb, s, i, j);
      }
    }

    /** bmap's first step for the upper blocks: load the indirect block, allocating if necessary. */
    method EnsureIndirect(i: nat) returns (a: nat, ghost bm: set<nat>)
      requires Good(sb, s) && Sized(s) && i < |s.nodes|
      modifies this
      ensures Good(sb, s) && Sized(s) && Kept(old(s), s) && |s.nodes| == |old(s).nodes|
      ensures a == s.nodes[i].addrs[NDIRECT]
      ensures a == 0 ==> Full(sb, s)
      ensures old(s).nodes[i].addrs[NDIRECT] != 0 || a == 0 ==> s == old(s) && bm == {}
      ensures old(s).nodes[i].addrs[NDIRECT] == 0 && a != 0 ==> s.disk[a] == ZeroBlock() && |bm| == 1
      ensures s.logged <= old(s).logged + bm + Indirect(s.nodes[i])
      ensures OnlyNode(old(s), s, i) && Covered(sb, old(s), s, {})
    {
      a := s.nodes[i].addrs[NDIRECT];
      bm := {};
      if a == 0 {
        a := AllocAddr(i, NDIRECT);
        Sizes(sb, s);
        if a != 0 {
          bm := {BitmapBlock(sb, a)};
          hide Owned, BitsAre, Kept, Covered;
        }
      } else {
        KeptSelf(s);
      }
    }

    /** One turn of writei's loop: map the block, copy the chunk in, log it. If only the first `got`
        bytes can be copied, these are in the block, which is not logged. */
    method WriteChunk(i: nat, off: nat, chunk: seq<Byte>, got: nat) returns (addr: nat, ghost bm: set<nat>)
      requires Good(sb, s) && Sized(s) && i < |s.nodes| && off < MAXBYTES && got <= |chunk|
      requires Fits(off, |chunk|) && off + |chunk| <= MAXBYTES
      modifies this
      ensures Good(sb, s) && Sized(s) && |s.nodes| == |old(s).nodes|
      ensures Written(sb, old(s), s, i, off, Stored(addr, chunk[..got]))
      ensures addr == 0 ==> Full(sb, s)
      ensures Mapped(old(s), i, off) ==> bm == {}
      ensures BmapLogs(old(s), s, i, addr, bm)
      ensures OnlyNode(old(s), s, i)
      ensures addr == 0 || got == |chunk| || got == 0 ==> Covered(sb, old(s), s, {})
      ensures addr != 0 ==> Covered(sb, old(s), s, {addr}) && DataBlock(sb, s, i, off / BSIZE, addr)
    {
      hide Good, Kept, Full, DataBlock, BmapLogs, Written, Covered;
      addr, bm := Bmap(i, off / BSIZE);
      NothingWritten(sb, old(s), s, i, off);
      if addr != 0 {
        ghost var mid := s;
        var part := chunk[..got];
        ChunkIsWritten(sb, s, i, off, addr, part);
        var data := Overwrite(s.disk[addr], off % BSIZE, part);
        if got == |chunk| {
          LogWrite(addr, data);
          assert s == StoreChunk(mid, addr, off, part);
          ChunkLogs(old(s), mid, s, i, addr, bm);
        } else {
          WrittenAnyway(sb, s, StoreChunk(s, addr, off, part), i, off, part, s.logged);
          s := State(s.nodes, s.disk[addr := data], s.owner, s.logged);
          assert s == StoreChunk(mid, addr, off, part).(logged := mid.logged);
          UnloggedChunk(old(s), mid, s, i, addr, bm);
        }
        WrittenGood(sb, mid, s, i, off, part);
        ChunkCovered(sb, old(s), mid, s, i, off, addr, part, got == |chunk|);
        ChunkData(sb, mid, s, i, off / BSIZE, addr);
        WriteMore(sb, old(s), mid, s, i, off, [], part);
        assert [] + part == part;
      }
    }

    /** A turn of writei's loop after tot bytes, with the tally of logged blocks so far. */
    method WriteTurn(i: nat, src: seq<Byte>, off: nat, tot: nat, m: nat, got: nat, ghost s0: State, ghost w: Tally)
      returns (addr: nat, ghost w': Tally)
      requires InProgress(sb, s0, s, i, off, src, tot, w) && tot < |src| && m == ChunkLength(|src| - tot, off + tot)
      requires got <= m
      modifies this
      ensures w'.first == w.first && OnlyNode(old(s), s, i)
      ensures addr == 0 ==> Full(sb, s) && Halted(sb, s0, s, i, off, src, tot, w')
      ensures 0 < m <= |src| - tot && m <= BSIZE
      ensures addr != 0 ==> Halted(sb, s0, s, i, off, src, tot + got, w')
      ensures addr != 0 && got == m ==> InProgress(sb, s0, s, i, off, src, tot + m, w')
      ensures addr == 0 || got == m || got == 0 ==> Covered(sb, old(s), s, {})
      ensures addr != 0 ==> Covered(sb, old(s), s, {addr}) && DataBlock(sb, s, i, (off + tot) / BSIZE, addr)
    {
      hide Good, Full, Mapped, Written, Touched, Tallied, Fits, Pause, ChunkLength, BmapLogs, OnlyNode;
      hide Covered, DataBlock;
      hide Halted;
      ghost var mid := s;
      ChunkStep(off, tot, |src|);
      var chunk := src[tot..tot + m];
      assert chunk[..got] == src[tot..tot + got];
      ghost var bm;
      addr, bm := WriteChunk(i, off + tot, chunk, got);
      w' := w.(bms := w.bms + bm, data := w.data + {addr}, turns := w.turns + 1);
      TurnEnds(sb, s0, mid, s, i, off, src, tot, m, got, w, bm, addr);
    }

    /** writei's loop. It stops early when the disk is full, or when the copy of a chunk meets byte
        `fault` of src, with the chunk's bytes before that copied; k bytes have been copied in all. */
    method WriteLoop(i: nat, src: seq<Byte>, off: nat, fault: nat)
      returns (tot: nat, ghost k: nat, ghost w: Tally, ghost loose: set<nat>)
      requires Good(sb, s) && Sized(s) && i < |s.nodes| && off + |src| <= MAXBYTES
      modifies this
      ensures Halted(sb, old(s), s, i, off, src, k, w)
      ensures tot <= k <= |src| && k <= fault && (tot < |src| ==> Full(sb, s) || k == fault)
      ensures tot < k ==> k == fault < |src| && k < tot + BSIZE
      ensures w.first == if src != [] && Mapped(old(s), i, off) then 1 else 0
      ensures OnlyNode(old(s), s, i) && Covered(sb, old(s), s, loose) && (tot == k ==> loose == {})
      ensures forall b :: b in loose ==> DataBlock(sb, s, i, (off + tot) / BSIZE, b)
    {
      hide InProgress, Halted, Full, ChunkLength, Mapped, Covered, DataBlock;
      loose := {};
      assert Covered(sb, s, s, {}) by { NothingChanged(sb, s); }
      w := Tally({}, {}, 0, if src != [] && Mapped(s, i, off) then 1 else 0);
      tot, k := 0, 0;
      Starting(sb, s, i, off, src, w);
      while tot < |src|
        invariant 0 <= tot <= |src| && tot <= fault && InProgress(sb, old(s), s, i, off, src, tot, w)
        invariant w.first == if src != [] && Mapped(old(s), i, off) then 1 else 0
        invariant OnlyNode(old(s), s, i) && k == tot && Covered(sb, old(s), s, {}) && loose == {}
      {
        var m := ChunkLength(|src| - tot, off + tot);
        var got := if fault < tot + m then fault - tot else m;
        var addr;
        ghost var w';
        ghost var mid := s;
        addr, w' := WriteTurn(i, src, off, tot, m, got, old(s), w);
        w := w';
        loose := if addr == 0 || got == m || got == 0 then {} else {addr};
        CoveredTrans(sb, old(s), mid, s, loose);
        if addr == 0 {
          return;
        }
        k := tot + got;
        if got < m {
          return;
        }
        tot := tot + m;
      }
      AllWritten(sb, old(s), s, i, off, src, w);
    }

    /** iupdate: the inode goes into its block, which is logged. */
    method Iupdate(i: nat)
      requires InodeBlock(sb, i) < |s.disk| && i < |s.nodes| && |s.nodes[i].addrs| == NDIRECT + 1
      modifies this
      ensures s == Update(sb, old(s), i)
    {
      var b := InodeBlock(sb, i);
      LogWrite(b, PutDinode(s.disk[b], i % IPB, s.nodes[i]));
    }

    /** ialloc: the first free inode gets a type and is otherwise zeroed; -1 exactly if there is none. */
    method Ialloc(kind: nat) returns (i: int)
      requires Good(sb, s) && Sized(s) && NoHoles(s) && FreeBare(s)
      modifies this
      ensures Good(sb, s) && Sized(s) && NoHoles(s) && |s.nodes| == |old(s).nodes|
      ensures i == -1 <==> forall j :: 0 < j < |s.nodes| ==> old(s).nodes[j].kind != 0
      ensures i == -1 ==> s == old(s)
      ensures i != -1 ==>
                0 < i < |s.nodes| && old(s).nodes[i].kind == 0 && forall j :: 0 < j < i ==> old(s).nodes[j].kind != 0
      ensures i != -1 ==> s.nodes == old(s).nodes[i := Inode(kind, 0, 0, Unmapped())]
      ensures forall j :: 0 <= j < |s.nodes| ==> Content(s, j) == Content(old(s), j)
      ensures s.logged == old(s).logged + if i == -1 then {} else {InodeBlock(sb, i)}
      ensures AllLogged(sb, old(s), s, {})
      ensures Saved(sb, old(s)) && kind < 0x1_0000 ==> Saved(sb, s)
    {
      hide Good, NoHoles, Content, Saved, Covered, Update;
      i := 1;
      while i < |s.nodes|
        invariant 1 <= i && s == old(s) && forall j :: 0 < j < i && j < |s.nodes| ==> s.nodes[j].kind != 0
      {
        if s.nodes[i].kind == 0 {
          assert s.nodes[i].addrs == Unmapped() by { assert Bare(s, i); }
          SetNodeKeeps(sb, s, i, Inode(kind, 0, 0, Unmapped()));
          s := SetNode(s, i, Inode(kind, 0, 0, Unmapped()));
          UpdateKeeps(sb, s, i);
          NodeUpdated(sb, old(s), s, i);
          Iupdate(i);
          return;
        }
        i := i + 1;
      }
      i := -1;
    }

    /** A change of ip->nlink, followed by iupdate. */
    method SetNlink(i: nat, n: int)
      requires Good(sb, s) && Sized(s) && NoHoles(s) && i < |s.nodes|
      modifies this
      ensures Good(sb, s) && Sized(s) && NoHoles(s) && s.nodes == old(s).nodes[i := old(s).nodes[i].(nlink := n)]
      ensures forall j :: 0 <= j < |s.nodes| ==> Content(s, j) == Content(old(s), j)
      ensures AllLogged(sb, old(s), s, {}) && InodeBlock(sb, i) in s.logged
      ensures Saved(sb, old(s)) && -0x8000 <= n < 0x8000 ==> Saved(sb, s)
    {
      hide Good, NoHoles, Content, Saved, Covered, Update, Storable;
      SetNodeKeeps(sb, s, i, s.nodes[i].(nlink := n));
      s := SetNode(s, i, s.nodes[i].(nlink := n));
      UpdateKeeps(sb, s, i);
      NodeUpdated(sb, old(s), s, i);
      if Saved(sb, old(s)) {
        NlinkStorable(sb, old(s), i, n);
      }
      Iupdate(i);
    }

    /** writei of src, whose byte `fault` is the first that cannot be copied. The file reads as its
        old contents with the first r bytes of src spliced in, and also those bytes of the chunk whose
        copy failed that lie below its size; other files are untouched, no hole appears, and a write
        of at most three blocks logs at most MAXOPBLOCKS blocks. Every block it changes is logged, but
        for the one of a chunk whose copy failed; so is the inode's, which holds the inode then. */
    method Writei(i: nat, src: seq<Byte>, off: nat, fault: nat) returns (r: int, ghost k: nat, ghost loose: set<nat>)
      requires Good(sb, s) && Sized(s) && NoHoles(s) && i < |s.nodes| && off < UINT_LIMIT && |src| < UINT_LIMIT
      modifies this
      ensures Good(sb, s) && Sized(s) && NoHoles(s) && |s.nodes| == |old(s).nodes|
      ensures r == -1 <==> Refused(old(s).nodes[i].size, off, |src|)
      ensures r == -1 ==> s == old(s)
      ensures r != -1 ==> 0 <= r <= k <= |src| && k <= fault && (r < |src| ==> Full(sb, s) || k == fault)
      ensures r != -1 && r < k ==> k == fault < |src| && k < r + BSIZE
      ensures r != -1 ==> Content(s, i) == Partly(Content(old(s), i), off, src[..k], r)
      ensures forall j :: 0 <= j < |s.nodes| && j != i ==> Content(s, j) == Content(old(s), j)
      ensures |src| <= 3 * BSIZE ==> |s.logged - old(s).logged| <= MAXOPBLOCKS
      ensures OnlyNode(old(s), s, i)
      ensures s.nodes[i].kind == old(s).nodes[i].kind && s.nodes[i].nlink == old(s).nodes[i].nlink
      ensures AllLogged(sb, old(s), s, loose) && (r == -1 || r == k ==> loose == {})
      ensures forall b :: b in loose ==> DataBlock(sb, s, i, (off + r) / BSIZE, b)
      ensures r != -1 ==> InodeBlock(sb, i) in s.logged
      ensures Saved(sb, old(s)) ==> Saved(sb, s)
    {
      hide Good, NoHoles, Full, Content, Mapped, Written, Tallied, Touched, Halted, Splice, Partly;
      hide Covered, AllLogged, Saved, Storable, Update, DataBlock;
      k, loose := 0, {};
      NoneLogged(sb, s);
      if off > s.nodes[i].size || (off + |src|) % UINT_LIMIT < off {
        return -1, 0, {};
      }
      if off + |src| > MAXBYTES {
        return -1, 0, {};
      }
      ghost var s0 := s;
      var tot;
      ghost var w;
      tot, k, w, loose := WriteLoop(i, src, off, fault);
      ghost var t := s;
      HaltedWritten(sb, s0, t, i, off, src, k, w);
      WriteStopped(sb, s0, t, i, off, src[..k], tot);
      SetSizeGood(sb, t, i, Max(s0.nodes[i].size, off + tot));
      SetSizeIs(t, i);
      if off + tot > s.nodes[i].size {
        s := SetSize(s, i, off + tot);
      }
      FullKept(sb, t, s);
      ghost var u := s;
      StillCovered(sb, s0, t, u, loose);
      UpdateKeeps(sb, u, i);
      UpdateLogs(sb, s0, u, i, loose);
      WriteSaved(sb, s0, u, i, loose);
      Iupdate(i);
      UpdateIs(sb, u, i);
      StillData(sb, t, s, i, loose, (off + tot) / BSIZE);
      WriteCount(sb, s0, t, i, off, src, k, w, s.logged, InodeBlock(sb, i));
      r := tot;
    }

    /** bfree: clears a block's bit; the bit must be set, or the source panics. */
    method Bfree(b: nat)
      requires SuperOk(sb) && |s.disk| == sb.size && b < sb.size && DiskBit(sb, s.disk, b)
      modifies this
      ensures s == ClearBit(sb, old(s), b)
    {
      hide PutBit, DiskBit;
      LogWrite(BitmapBlock(sb, b), PutBit(s.disk[BitmapBlock(sb, b)], b % BPB, false));
    }

    /** itrunc's loop over the direct blocks. */
    method FreeDirect(i: nat)
      requires Good(sb, s) && Sized(s) && i < |s.nodes|
      modifies this
      ensures Truncating(sb, old(s), s, i, NDIRECT)
    {
      hide Truncating, PutDiskBit, DiskBit, Good, Owned, BitsAre;
      TruncStart(sb, s, i);
      var k := 0;
      while k < NDIRECT
        invariant 0 <= k <= NDIRECT && Truncating(sb, old(s), s, i, k)
      {
        TruncSizes(sb, old(s), s, i, k);
        TruncNext(sb, old(s), s, i, k);
        var v := s.nodes[i].addrs[k];
        if v != 0 {
          ghost var t := DropDirect(sb, s, i, k);
          Bfree(v);
          s := State(PutAddr(s.nodes, i, k, 0), s.disk, s.owner - {v}, s.logged);
          assert s == t;
        }
        k := k + 1;
      }
    }

    /** itrunc's loop over the entries of the indirect block. */
    method FreeEntries(i: nat, ghost s0: State) returns (ghost used: set<nat>)
      requires Truncating(sb, s0, s, i, NDIRECT) && s.nodes[i].addrs[NDIRECT] != 0
      modifies this
      ensures TruncDraining(sb, s0, s, used, i, NINDIRECT)
    {
      hide Truncating, TruncDraining, PutDiskBit, DiskBit, Good, Owned, BitsAre, GetWord;
      TruncDrainStart(sb, s0, s, i);
      used := s.owner.Keys;
      var j := 0;
      while j < NINDIRECT
        invariant 0 <= j <= NINDIRECT && TruncDraining(sb, s0, s, used, i, j)
      {
        TruncDrainSizes(sb, s0, s, used, i, j);
        TruncDrainStep(sb, s0, s, used, i, j);
        var v := GetWord(s.disk[s.nodes[i].addrs[NDIRECT]], j);
        if v != 0 {
          Bfree(v);
          used := used - {v};
        }
        j := j + 1;
      }
    }

    /** The rest of itrunc's freeing: the indirect block and what it lists. */
    method FreeIndirect(i: nat, ghost s0: State)
      requires Truncating(sb, s0, s, i, NDIRECT)
      modifies this
      ensures Truncating(sb, s0, s, i, NDIRECT + 1)
    {
      hide Truncating, TruncDraining, PutDiskBit, DiskBit, Covered;
      TruncSizes(sb, s0, s, i, NDIRECT);
      if s.nodes[i].addrs[NDIRECT] != 0 {
        ghost var used := FreeEntries(i, s0);
        TruncDrainSizes(sb, s0, s, used, i, NINDIRECT);
        TruncDrainEnd(sb, s0, s, used, i);
        ghost var t := DropIndirect(sb, s, i);
        Bfree(s.nodes[i].addrs[NDIRECT]);
        s := State(PutAddr(s.nodes, i, NDIRECT, 0), s.disk, WithoutIndirect(s.owner, i), s.logged);
        assert s == t;
      } else {
        TruncLast(sb, s0, s, i);
      }
    }

    /** itrunc: discards an inode's contents. Exactly its blocks become free, bfree's panic never
        happens, and every other file reads as before. */
    method Itrunc(i: nat)
      requires Good(sb, s) && Sized(s) && NoHoles(s) && i < |s.nodes|
      modifies this
      ensures Truncated(sb, old(s), s, i, old(s).nodes[i].kind)
      ensures forall b :: b in s.logged ==> b in old(s).logged || IsBitmapBlock(sb, b) || b == InodeBlock(sb, i)
      ensures AllLogged(sb, old(s), s, {}) && InodeBlock(sb, i) in s.logged
      ensures Saved(sb, old(s)) ==> Saved(sb, s)
    {
      hide Truncating, Good, NoHoles, Truncated, IsBitmapBlock, Covered, Saved, Update, AllLogged;
      FreeDirect(i);
      FreeIndirect(i, old(s));
      TruncSizes(sb, old(s), s, i, NDIRECT + 1);
      TruncEnds(sb, old(s), s, i);
      s := SetSize(s, i, 0);
      Iupdate(i);
    }

    /** iput: drops a reference; the last reference to an inode without links truncates and frees
        it. Otherwise nothing on disk changes. */
    method Iput(i: nat, ref: nat, valid: bool) returns (ref': nat, valid': bool)
      requires Good(sb, s) && Sized(s) && NoHoles(s) && i < |s.nodes| && ref >= 1
      modifies this
      ensures ref' == ref - 1
      ensures if ref == 1 && valid && old(s).nodes[i].nlink == 0
              then Truncated(sb, old(s), s, i, 0) && !valid' else s == old(s) && valid' == valid
      ensures forall b :: b in s.logged ==> b in old(s).logged || IsBitmapBlock(sb, b) || b == InodeBlock(sb, i)
      ensures AllLogged(sb, old(s), s, {}) && (s != old(s) ==> InodeBlock(sb, i) in s.logged)
      ensures Saved(sb, old(s)) ==> Saved(sb, s)
    {
      hide Good, NoHoles, Truncated, IsBitmapBlock, Saved, Update;
      valid' := valid;
      if ref == 1 && valid && s.nodes[i].nlink == 0 {
        Itrunc(i);
        TruncatedSizes(sb, old(s), s, i, old(s).nodes[i].kind);
        SetKindTruncated(sb, old(s), s, i, 0);
        KindSaved(sb, old(s), s, i);
        s := SetKind(s, i, 0);
        TruncatedUpdated(sb, old(s), s, i, 0);
        Iupdate(i);
        valid' := false;
      }
      ref' := ref - 1;
    }

    /** One turn of readi's loop: the block is mapped, so bmap changes nothing. */
    method ReadOne(i: nat, q: nat, m: nat) returns (chunk: seq<Byte>)
      requires Good(sb, s) && Sized(s) && NoHoles(s) && i < |s.nodes|
      requires 0 < m && Fits(q, m) && q + m <= s.nodes[i].size
      modifies this
      ensures s == old(s) && chunk == Content(s, i)[q..q + m]
    {
      hide Good, NoHoles, Full, Content, DataBlock, BmapLogs, Kept;
      ReadChunk(s, i, q, m);
      var addr, bm := Bmap(i, q / BSIZE);
      chunk := s.disk[addr][q % BSIZE..q % BSIZE + m];
    }

    method ReadLoop(i: nat, off: nat, n: nat, copies: nat) returns (r: int, dst: seq<Byte>)
      requires Good(sb, s) && Sized(s) && NoHoles(s) && i < |s.nodes| && off + n <= s.nodes[i].size
      modifies this
      ensures s == old(s)
      ensures r == -1 || (r == |dst| && dst == Content(s, i)[off..off + n])
      ensures copies >= n ==> r != -1
    {
      hide Good, NoHoles, Content, Fits, Pause, ChunkLength, Touched;
      dst := [];
      var tot := 0;
      PauseStart(off, n);
      while tot < n
        invariant s == old(s) && 0 <= tot <= n && Pause(off, tot, n)
        invariant dst == Content(s, i)[off..off + tot]
      {
        if copies <= tot {
          return -1, dst;
        }
        var m := ChunkLength(n - tot, off + tot);
        ChunkStep(off, tot, n);
        var chunk := ReadOne(i, off + tot, m);
        JoinSlices(Content(s, i), off, off + tot, off + tot + m);
        dst := dst + chunk;
        tot := tot + m;
      }
      r := tot;
    }

    /** readi of n bytes at off; its copyouts succeed for at least the first `copies` bytes. It never
        changes the file system, so it needs no transaction. */
    method Readi(i: nat, off: nat, n: nat, copies: nat) returns (r: int, dst: seq<Byte>)
      requires Good(sb, s) && Sized(s) && NoHoles(s) && i < |s.nodes| && off < UINT_LIMIT && n < UINT_LIMIT
      modifies this
      ensures s == old(s)
      ensures r == -1 || (r == |dst| && dst == ReadSlice(Content(s, i), off, n))
      ensures copies >= n ==> r != -1
    {
      hide Good, NoHoles;
      if off > s.nodes[i].size || (off + n) % UINT_LIMIT < off {
        return 0, [];
      }
      var len := if off + n > s.nodes[i].size then s.nodes[i].size - off else n;
      r, dst := ReadLoop(i, off, len, copies);
    }
  }

  function SetNode(s: State, i: nat, n: Inode): State
    requires i < |s.nodes|
  {
    State(s.nodes[i := n], s.disk, s.owner, s.logged)
  }

  /** A change of type or link count leaves all contents alone. */
  lemma SetNodeKeeps(sb: Super, s: State, i: nat, n: Inode)
    requires Good(sb, s) && Sized(s) && NoHoles(s) && i < |s.nodes|
    requires n.addrs == s.nodes[i].addrs && n.size == s.nodes[i].size
    ensures var t := SetNode(s, i, n);
            Good(sb, t) && Sized(t) && NoHoles(t) && forall j :: 0 <= j < |s.nodes| ==> Content(t, j) == Content(s, j)
  {
    hide Good, Mapped;
    SetNodeGood(sb, s, i, n);
    SetNodeBytes(sb, s, i, n);
    var t := SetNode(s, i, n);
    forall j, p | 0 <= j < |t.nodes| && 0 <= p < t.nodes[j].size ensures Mapped(t, j, p) {
    }
    forall j | 0 <= j < |s.nodes| ensures Content(t, j) == Content(s, j) {
    }
  }

  lemma TruncSizes(sb: Super, s: State, t: State, i: nat, k: nat)
    requires Truncating(sb, s, t, i, k)
    ensures SuperOk(sb) && |t.disk| == sb.size && Sized(s) && Sized(t) && i < |s.nodes| == |t.nodes|
    ensures forall b :: b in t.logged ==> b in s.logged || IsBitmapBlock(sb, b)
    ensures Covered(sb, s, t, {})
  {
  }

  lemma TruncDrainSizes(sb: Super, s: State, t: State, used: set<nat>, i: nat, j: nat)
    requires TruncDraining(sb, s, t, used, i, j)
    ensures SuperOk(sb) && |t.disk| == sb.size && Sized(t) && i < |s.nodes| == |t.nodes|
    ensures t.nodes[i].addrs[NDIRECT] < sb.size
  {
  }

  lemma TruncatedSizes(sb: Super, s: State, t: State, i: nat, kind: nat)
    requires Truncated(sb, s, t, i, kind)
    ensures i < |s.nodes| == |t.nodes| && Good(sb, t) && |t.nodes[i].addrs| == NDIRECT + 1
  {
  }

  /** iupdate at the end of a truncation. */
  lemma TruncatedUpdated(sb: Super, s: State, t: State, i: nat, kind: nat)
    requires Truncated(sb, s, t, i, kind) && Good(sb, s)
    ensures InodeBlock(sb, i) < |t.disk| && |t.nodes[i].addrs| == NDIRECT + 1
    ensures Truncated(sb, s, Update(sb, t, i), i, kind)
  {
    hide Good, NoHoles, Content, Update;
    UpdateKeeps(sb, t, i);
    UpdateIs(sb, t, i);
  }

  lemma PauseStart(off: nat, n: nat)
    ensures Pause(off, 0, n)
  {
  }

  lemma JoinSlices(c: seq<Byte>, a: nat, b: nat, e: nat)
    requires a <= b <= e <= |c|
    ensures c[a..b] + c[b..e] == c[a..e]
  {
  }

  lemma HaltedWritten(sb: Super, s: State, t: State, i: nat, off: nat, src: seq<Byte>, tot: nat, w: Tally)
    requires Halted(sb, s, t, i, off, src, tot, w)
    ensures Sized(s) && Sized(t) && Good(sb, t) && i < |s.nodes| == |t.nodes| && tot <= |src|
    ensures Written(sb, s, t, i, off, src[..tot]) && t.nodes[i].size == s.nodes[i].size
    ensures t.nodes[i].kind == s.nodes[i].kind && t.nodes[i].nlink == s.nodes[i].nlink
  {
  }

  lemma SetSizeIs(s: State, i: nat)
    requires i < |s.nodes|
    ensures SetSize(s, i, s.nodes[i].size) == s
  {
    assert s.nodes[i := s.nodes[i].(size := s.nodes[i].size)] == s.nodes;
  }

  lemma FullKept(sb: Super, s: State, t: State)
    requires t.owner == s.owner
    ensures Full(sb, t) == Full(sb, s)
  {
  }

  lemma TakeCovered(sb: Super, s: State, r: nat)
    requires Good(sb, s) && r < sb.size == |s.disk| && !DiskBit(sb, s.disk, r)
    ensures Covered(sb, s, Take(sb, s, r), {})
  {
    FreeBlock(sb, s, r);
    Regions(sb);
    hide PutBit, DiskBit, Owned, BitsAre, Covered;
    var w := BitmapBlock(sb, r);
    var data := PutBit(s.disk[w], r % BPB, true);
    NothingChanged(sb, s);
    WriteCovered(sb, s, s, w, data, {});
    WriteCovered(sb, s, Rewrite(s, w, data), r, ZeroBlock(), {});
    assert Take(sb, s, r) == Rewrite(Rewrite(s, w, data), r, ZeroBlock());
  }

  lemma EntryCovered(sb: Super, s: State, t: State, i: nat, j: nat, r: nat)
    requires Covered(sb, s, t, {}) && Reserved(sb, t, r) && i < |t.nodes| && j < NINDIRECT && Sized(t)
    requires t.nodes[i].addrs[NDIRECT] != 0
    ensures Covered(sb, s, InstallEntry(t, i, j, r), {})
  {
    hide SetWord, Owned, BitsAre, Covered, Val;
    var a := t.nodes[i].addrs[NDIRECT];
    IndirectOwned(sb, t.nodes, t.disk, t.owner, i);
    assert sb.bmapstart <= a;
    WriteCovered(sb, s, t, a, SetWord(t.disk[a], j, r), {});
    StillCovered(sb, s, Rewrite(t, a, SetWord(t.disk[a], j, r)), InstallEntry(t, i, j, r), {});
  }

  lemma ChunkCovered(sb: Super, s: State, t: State, u: State, i: nat, off: nat, addr: nat, part: seq<Byte>, whole: bool)
    requires Covered(sb, s, t, {}) && addr < |t.disk| && Fits(off, |part|) && off < MAXBYTES
    requires DataBlock(sb, t, i, off / BSIZE, addr)
    requires var v := StoreChunk(t, addr, off, part); u == if whole then v else v.(logged := t.logged)
    ensures whole || part == [] ==> Covered(sb, s, u, {})
    ensures Covered(sb, s, u, {addr})
  {
    hide Covered, Owned, BitsAre;
    DataBlockIs(sb, t, i, off / BSIZE, addr);
    assert sb.bmapstart <= addr;
    hide Good, DataBlock;
    var data := Overwrite(t.disk[addr], off % BSIZE, part);
    if part == [] {
      SameBlock(t.disk[addr], off % BSIZE, part);
    }
    hide Overwrite;
    WriteCovered(sb, s, t, addr, data, {});
    CoveredMore(sb, s, u, addr);
    StillCovered(sb, s, t.(disk := t.disk[addr := data]), t.(disk := t.disk[addr := data]), {} + {addr});
    assert {} + {addr} == {addr};
    if part == [] {
      assert t.disk[addr := data] == t.disk;
    }
  }

  lemma ChunkData(sb: Super, s: State, t: State, i: nat, bn: nat, addr: nat)
    requires DataBlock(sb, s, i, bn, addr) && Good(sb, t) && t.owner == s.owner && |t.nodes| == |s.nodes|
    ensures DataBlock(sb, t, i, bn, addr)
  {
  }

  lemma CoveredMore(sb: Super, s: State, u: State, addr: nat)
    ensures Covered(sb, s, u, {}) ==> Covered(sb, s, u, {addr})
  {
  }

  lemma SameBlock(b: Block, o: nat, part: seq<Byte>)
    requires o < BSIZE && part == []
    ensures Overwrite(b, o, part) == b
  {
  }

  lemma UpdateIs(sb: Super, s: State, i: nat)
    requires InodeBlock(sb, i) < |s.disk| && i < |s.nodes| && |s.nodes[i].addrs| == NDIRECT + 1
    ensures var t := Update(sb, s, i);
            && t.nodes == s.nodes && t.owner == s.owner && |t.disk| == |s.disk|
            && t.logged == s.logged + {InodeBlock(sb, i)}
  {
  }

  /** iupdate after a change to one inode, and to no block. */
  lemma NodeUpdated(sb: Super, s: State, t: State, i: nat)
    requires Good(sb, s) && OnlyNode(s, t, i) && i < |s.nodes| && t.disk == s.disk && t.logged == s.logged
    requires |t.nodes[i].addrs| == NDIRECT + 1
    ensures InodeBlock(sb, i) < |t.disk| && AllLogged(sb, s, Update(sb, t, i), {})
    ensures Update(sb, t, i).nodes == t.nodes && Update(sb, t, i).logged == t.logged + {InodeBlock(sb, i)}
    ensures Saved(sb, s) && Storable(t.nodes[i]) ==> Saved(sb, Update(sb, t, i))
  {
    Sizes(sb, s);
    hide Owned, BitsAre, Update, Saved, Storable;
    InodeInside(sb, i);
    NothingChanged(sb, s);
    StillCovered(sb, s, s, t, {});
    UpdateLogs(sb, s, t, i, {});
    UpdateIs(sb, t, i);
    if Saved(sb, s) && Storable(t.nodes[i]) {
      CoveredLow(sb, s, t, {});
      UpdateSaves(sb, s, t, i);
    }
  }

  lemma NlinkStorable(sb: Super, s: State, i: nat, n: int)
    requires Saved(sb, s) && i < |s.nodes|
    ensures -0x8000 <= n < 0x8000 ==> Storable(s.nodes[i].(nlink := n))
  {
    hide Saved;
    SavedStorable(sb, s, i);
  }

  /** An inode of a sound file system fits in a dinode if its type and count do. */
  lemma SizedStorable(sb: Super, s: State, i: nat, n: Inode)
    requires Good(sb, s) && Sized(s) && NoHoles(s) && i < |s.nodes| && Storable(n)
    requires s.nodes[i].kind == n.kind && s.nodes[i].nlink == n.nlink
    ensures Storable(s.nodes[i])
  {
    hide BitsAre, Mapped;
    forall k | 0 <= k <= NDIRECT ensures s.nodes[i].addrs[k] < UINT_LIMIT {
      assert Val(s.nodes, s.disk, i, k) == s.nodes[i].addrs[k];
    }
  }

  lemma WriteSaved(sb: Super, s: State, t: State, i: nat, loose: set<nat>)
    requires Covered(sb, s, t, loose) && Good(sb, t) && Sized(t) && NoHoles(t) && OnlyNode(s, t, i) && i < |s.nodes|
    requires t.nodes[i].kind == s.nodes[i].kind && t.nodes[i].nlink == s.nodes[i].nlink
    requires InodeBlock(sb, i) < |t.disk| && |t.nodes[i].addrs| == NDIRECT + 1
    ensures Saved(sb, s) ==> Saved(sb, Update(sb, t, i))
  {
    hide Good, NoHoles, Covered, Saved, Storable, Update, LowSame;
    if Saved(sb, s) {
      SavedStorable(sb, s, i);
      SizedStorable(sb, t, i, s.nodes[i]);
      CoveredLow(sb, s, t, loose);
      UpdateSaves(sb, s, t, i);
    }
  }

  lemma StillData(sb: Super, s: State, t: State, i: nat, bs: set<nat>, bn: nat)
    requires Good(sb, t) && t.owner == s.owner && |t.nodes| == |s.nodes|
    requires forall b :: b in bs ==> DataBlock(sb, s, i, bn, b)
    ensures forall b :: b in bs ==> DataBlock(sb, t, i, bn, b)
  {
  }

  lemma TruncatedSaved(sb: Super, s: State, t: State, i: nat, kind: nat)
    requires Truncated(sb, s, t, i, kind) && Good(sb, s) && Covered(sb, s, t, {})
    requires InodeBlock(sb, i) < |t.disk| && |t.nodes[i].addrs| == NDIRECT + 1
    ensures AllLogged(sb, s, Update(sb, t, i), {}) && InodeBlock(sb, i) in Update(sb, t, i).logged
    ensures Saved(sb, s) && kind == s.nodes[i].kind ==> Saved(sb, Update(sb, t, i))
  {
    assert SuperOk(sb);
    hide Good, NoHoles, Content, Update, Saved, Covered;
    UpdateLogs(sb, s, t, i, {});
    if Saved(sb, s) && kind == s.nodes[i].kind {
      SavedStorable(sb, s, i);
      CoveredLow(sb, s, t, {});
      UpdateSaves(sb, s, t, i);
    }
  }

  /** The end of itrunc: ip->size = 0 and iupdate. */
  lemma TruncEnds(sb: Super, s: State, t: State, i: nat)
    requires Truncating(sb, s, t, i, NDIRECT + 1) && Sized(s) && NoHoles(s) && i < |s.nodes| == |t.nodes|
    ensures var v := SetSize(t, i, 0);
            && InodeBlock(sb, i) < |v.disk| && |v.nodes[i].addrs| == NDIRECT + 1
            && Truncated(sb, s, Update(sb, v, i), i, s.nodes[i].kind)
            && AllLogged(sb, s, Update(sb, v, i), {}) && Update(sb, v, i).logged == t.logged + {InodeBlock(sb, i)}
            && (Saved(sb, s) ==> Saved(sb, Update(sb, v, i)))
  {
    hide Good, NoHoles, Truncated, IsBitmapBlock, Covered, Saved, Update, AllLogged;
    var v := SetSize(t, i, 0);
    TruncDone(sb, s, t, i);
    StillCovered(sb, s, t, v, {});
    TruncatedUpdated(sb, s, v, i, s.nodes[i].kind);
    UpdateIs(sb, v, i);
    TruncatedSaved(sb, s, v, i, s.nodes[i].kind);
  }

  lemma NoneLogged(sb: Super, s: State)
    ensures AllLogged(sb, s, s, {})
  {
  }

  lemma AllLoggedTrans(sb: Super, s: State, t: State, u: State)
    requires AllLogged(sb, s, t, {}) && AllLogged(sb, t, u, {})
    ensures AllLogged(sb, s, u, {})
  {
  }

  /** iput's ip->type = 0 and its second iupdate, after itrunc has led from s to t. */
  lemma KindSaved(sb: Super, s: State, t: State, i: nat)
    requires Good(sb, t) && i < |t.nodes| && AllLogged(sb, s, t, {}) && |t.nodes[i].addrs| == NDIRECT + 1
    ensures var u := SetKind(t, i, 0);
            && InodeBlock(sb, i) < |u.disk| && AllLogged(sb, s, Update(sb, u, i), {})
            && Update(sb, u, i).logged == t.logged + {InodeBlock(sb, i)}
            && (Saved(sb, t) ==> Saved(sb, Update(sb, u, i)))
  {
    hide Good, Update, Saved, AllLogged;
    var u := SetKind(t, i, 0);
    NodeUpdated(sb, t, u, i);
    AllLoggedTrans(sb, s, t, Update(sb, u, i));
    if Saved(sb, t) {
      SavedStorable(sb, t, i);
    }
  }

  /** 4 data + 4 bitmap + 1 indirect + 1 inode block. */
  lemma WriteCount(sb: Super, s: State, t: State, i: nat, off: nat, src: seq<Byte>, tot: nat, w: Tally, l: set<nat>,
                   ib: nat)
    requires Halted(sb, s, t, i, off, src, tot, w) && NoHoles(s) && off <= s.nodes[i].size
    requires w.first == if src != [] && Mapped(s, i, off) then 1 else 0
    requires l == t.logged + {ib}
    ensures |src| <= 3 * BSIZE ==> |l - s.logged| <= MAXOPBLOCKS
  {
    hide Good, Written, NoHoles, Mapped, Touched;
    if |src| <= 3 * BSIZE {
      TurnsBound(s, i, off, |src|, w);
      SetCount(l, s.logged, w.bms, w.data, Indirect(t.nodes[i]), {ib});
    }
  }

  lemma TurnsBound(s: State, i: nat, off: nat, n: nat, w: Tally)
    requires Sized(s) && NoHoles(s) && i < |s.nodes| && off <= s.nodes[i].size && off + n <= MAXBYTES && n <= 3 * BSIZE
    requires w.first == (if n != 0 && Mapped(s, i, off) then 1 else 0) && w.turns <= Touched(off, off + n)
    ensures w.turns <= 4 && w.turns - (if w.turns == 0 then 0 else w.first) <= 3
  {
    hide NoHoles, Mapped, Touched;
    TouchedBound(off, n);
    if off % BSIZE != 0 && n != 0 {
      UnalignedMapped(s, i, off);
    }
  }

  lemma SetCount(l: set<nat>, l0: set<nat>, a: set<nat>, b: set<nat>, c: set<nat>, d: set<nat>)
    requires l <= l0 + a + b + c + d
    ensures |l - l0| <= |a| + |b| + |c| + |d|
  {
    assert l - l0 <= a + b + c + d;
    SubsetSize(l - l0, a + b + c + d);
    assert |a + b + c + d| <= |a + b + c| + |d|;
    assert |a + b + c| <= |a + b| + |c|;
  }

  /** What a turn of writei's loop stores: nothing if bmap found no block. */
  function Stored(addr: nat, chunk: seq<Byte>): seq<Byte> {
    if addr == 0 then [] else chunk
  }

  lemma Slices(src: seq<Byte>, tot: nat, m: nat)
    requires tot + m <= |src|
    ensures src[..tot + m] == src[..tot] + src[tot..tot + m] && src[..tot] + [] == src[..tot]
  {
  }

  lemma WrittenGood(sb: Super, s: State, t: State, i: nat, off: nat, src: seq<Byte>)
    requires Written(sb, s, t, i, off, src)
    ensures Good(sb, t) && Sized(t) && |t.nodes| == |s.nodes|
  {
  }

  lemma ChunkLogs(s: State, t: State, u: State, i: nat, addr: nat, bm: set<nat>)
    requires Sized(s) && Sized(t) && Sized(u) && i < |s.nodes| == |t.nodes| == |u.nodes|
    requires BmapLogs(s, t, i, addr, bm) && u.nodes == t.nodes && u.logged == t.logged + {addr}
    ensures BmapLogs(s, u, i, addr, bm)
  {
  }

  lemma UnloggedChunk(s: State, t: State, u: State, i: nat, addr: nat, bm: set<nat>)
    requires Sized(s) && Sized(t) && Sized(u) && i < |s.nodes| == |t.nodes| == |u.nodes|
    requires BmapLogs(s, t, i, addr, bm) && u.nodes == t.nodes && u.logged == t.logged
    ensures BmapLogs(s, u, i, addr, bm)
  {
  }

  /** The blocks logged in `turns` turns of writei's loop: data blocks, one bitmap block per block
      allocated, and the indirect block. If the first block was mapped already, `first` is 1. */
  datatype Tally = Tally(bms: set<nat>, data: set<nat>, turns: nat, first: nat)

  ghost predicate Tallied(s: State, t: State, i: nat, w: Tally)
    requires Sized(s) && Sized(t) && i < |s.nodes| == |t.nodes|
  {
    && t.logged <= s.logged + w.bms + w.data + Indirect(t.nodes[i])
    && |w.data| <= w.turns && w.first <= 1
    && |w.bms| <= w.turns - (if w.turns == 0 then 0 else w.first) + NewIndirect(s.nodes[i], t.nodes[i])
    && (s.nodes[i].addrs[NDIRECT] != 0 ==> t.nodes[i].addrs[NDIRECT] == s.nodes[i].addrs[NDIRECT])
  }

  lemma TallyMore(s: State, t: State, u: State, i: nat, w: Tally, bm: set<nat>, addr: nat)
    requires Sized(s) && Sized(t) && Sized(u) && i < |s.nodes| == |t.nodes| == |u.nodes|
    requires Tallied(s, t, i, w) && BmapLogs(t, u, i, addr, bm)
    requires w.turns == 0 && w.first == 1 ==> bm == {}
    ensures Tallied(s, u, i, w.(bms := w.bms + bm, data := w.data + {addr}, turns := w.turns + 1))
  {
    assert |w.bms + bm| <= |w.bms| + |bm|;
    assert |w.data + {addr}| <= |w.data| + 1;
  }

  /** A write of src to inode i at off, begun in state s, has stored tot bytes and stopped. */
  ghost predicate Halted(sb: Super, s: State, t: State, i: nat, off: nat, src: seq<Byte>, tot: nat, w: Tally) {
    && tot <= |src| && off + |src| <= MAXBYTES
    && Sized(s) && Sized(t) && i < |s.nodes| == |t.nodes|
    && Written(sb, s, t, i, off, src[..tot])
    && Tallied(s, t, i, w) && w.turns <= Touched(off, off + |src|)
  }

  /** ... or goes on. */
  ghost predicate InProgress(sb: Super, s: State, t: State, i: nat, off: nat, src: seq<Byte>, tot: nat, w: Tally) {
    && tot <= |src| && off + |src| <= MAXBYTES
    && Good(sb, t) && Sized(s) && Sized(t) && i < |s.nodes| == |t.nodes|
    && Written(sb, s, t, i, off, src[..tot]) && Pause(off, tot, |src|)
    && Tallied(s, t, i, w) && w.turns == Touched(off, off + tot) && (w.turns == 0 ==> tot == 0)
    && (tot == 0 ==> t == s && (w.first == 1 ==> off < MAXBYTES && Mapped(s, i, off)))
  }

  lemma Starting(sb: Super, s: State, i: nat, off: nat, src: seq<Byte>, w: Tally)
    requires Good(sb, s) && Sized(s) && i < |s.nodes| && off + |src| <= MAXBYTES
    requires w == Tally({}, {}, 0, if src != [] && Mapped(s, i, off) then 1 else 0)
    ensures InProgress(sb, s, s, i, off, src, 0, w)
  {
    KeptSelf(s);
    NothingWritten(sb, s, s, i, off);
    assert src[..0] == [];
  }

  /** One turn more of a write in progress. */
  lemma TurnEnds(sb: Super, s0: State, mid: State, s: State, i: nat, off: nat, src: seq<Byte>, tot: nat, m: nat,
                 got: nat, w: Tally, bm: set<nat>, addr: nat)
    requires InProgress(sb, s0, mid, i, off, src, tot, w) && tot < |src| && m == ChunkLength(|src| - tot, off + tot)
    requires got <= m <= |src| - tot && Good(sb, s) && Sized(s) && |s.nodes| == |mid.nodes|
    requires Written(sb, mid, s, i, off + tot, Stored(addr, src[tot..tot + got]))
    requires BmapLogs(mid, s, i, addr, bm) && (off + tot < MAXBYTES && Mapped(mid, i, off + tot) ==> bm == {})
    ensures var w' := w.(bms := w.bms + bm, data := w.data + {addr}, turns := w.turns + 1);
            && (addr == 0 ==> Halted(sb, s0, s, i, off, src, tot, w'))
            && (addr != 0 ==> Halted(sb, s0, s, i, off, src, tot + got, w'))
            && (addr != 0 && got == m ==> InProgress(sb, s0, s, i, off, src, tot + m, w'))
  {
    hide Good, Mapped, Written, Touched, Tallied, Pause, ChunkLength, BmapLogs;
    ChunkStep(off, tot, |src|);
    Slices(src, tot, got);
    TallyMore(s0, mid, s, i, w, bm, addr);
    WriteMore(sb, s0, mid, s, i, off, src[..tot], Stored(addr, src[tot..tot + got]));
  }

  lemma AllWritten(sb: Super, s: State, t: State, i: nat, off: nat, src: seq<Byte>, w: Tally)
    requires InProgress(sb, s, t, i, off, src, |src|, w)
    ensures Halted(sb, s, t, i, off, src, |src|, w)
  {
  }

  lemma NothingLogged(s: State, i: nat)
    requires Sized(s) && i < |s.nodes|
    ensures forall addr :: BmapLogs(s, s, i, addr, {})
  {
  }

  lemma IndirectLogs(s: State, t: State, i: nat, bm: set<nat>)
    requires Sized(s) && Sized(t) && i < |s.nodes| == |t.nodes|
    requires t.logged <= s.logged + bm + Indirect(t.nodes[i]) && t.nodes[i].addrs[NDIRECT] != 0
    requires |bm| <= NewIndirect(s.nodes[i], t.nodes[i])
    requires s.nodes[i].addrs[NDIRECT] != 0 ==> t.nodes == s.nodes
    ensures BmapLogs(s, t, i, 0, bm)
  {
  }

  lemma EntryIsData(sb: Super, s: State, i: nat, j: nat)
    requires Good(sb, s) && Sized(s) && i < |s.nodes| && j < NINDIRECT
    requires Val(s.nodes, s.disk, i, NDIRECT + 1 + j) != 0
    ensures DataBlock(sb, s, i, NDIRECT + j, Val(s.nodes, s.disk, i, NDIRECT + 1 + j))
  {
  }

  lemma EntryLogs(s: State, t: State, u: State, i: nat, bm: set<nat>, a: nat, x: nat, r: nat)
    requires Sized(s) && Sized(t) && Sized(u) && i < |s.nodes| == |t.nodes| == |u.nodes|
    requires t.logged <= s.logged + bm + Indirect(t.nodes[i]) && a == t.nodes[i].addrs[NDIRECT] != 0
    requires u.nodes == t.nodes && u.logged <= t.logged + {x} + {r} + {a}
    requires |bm| <= NewIndirect(s.nodes[i], t.nodes[i])
    requires s.nodes[i].addrs[NDIRECT] != 0 ==> t.nodes == s.nodes
    ensures BmapLogs(s, u, i, r, bm + {x})
  {
    assert |bm + {x}| <= |bm| + 1;
  }

  lemma EntryStillZero(sb: Super, s: State, t: State, r: nat, i: nat, j: nat)
    requires Good(sb, s) && Sized(s) && r < sb.size == |s.disk| && t == Take(sb, s, r) && Reserved(sb, t, r)
    requires i < |s.nodes| && j < NINDIRECT && s.nodes[i].addrs[NDIRECT] != 0
    ensures Sized(t) && Val(t.nodes, t.disk, i, NDIRECT + 1 + j) == Val(s.nodes, s.disk, i, NDIRECT + 1 + j)
  {
    var a := s.nodes[i].addrs[NDIRECT];
    assert Val(s.nodes, s.disk, i, NDIRECT) == a;
    assert a in s.owner && sb.meta <= a < sb.size && a != r;
    ReservedSizes(sb, t, r);
    hide BitsAre, Owned, GetWord, PutDiskBit;
    TakeDisk(sb, s, r, a);
  }
}

/** Which inode slot each disk block belongs to. A slot is one of an inode's NDIRECT direct
    addresses, its indirect block, or one of that block's NINDIRECT entries. */
module FsOwner {
  import opened Params
  import opened Blocks
  import opened Bitmap

  const NDIRECT: nat := 12
  const NINDIRECT: nat := 256
  const MAXFILE: nat := NDIRECT + NINDIRECT
  const SLOTS: nat := NDIRECT + 1 + NINDIRECT

  /** The superblock's geometry; blocks below `meta` are boot, super, log, inode and bitmap blocks. */
  datatype Super = Super(size: nat, ninodes: nat, inodestart: nat, bmapstart: nat, meta: nat)

  const IPB: nat := 16               // inodes per block

  /** IBLOCK */
  function InodeBlock(sb: Super, i: nat): nat { sb.inodestart + i / IPB }

  /** The inode blocks come before the bitmap, and the bitmap before the data. */
  predicate SuperOk(sb: Super) {
    && 0 < sb.meta <= sb.size <= UINT_LIMIT && sb.bmapstart + (sb.size - 1) / BPB < sb.meta
    && sb.inodestart + sb.ninodes / IPB < sb.bmapstart
  }

  datatype Inode = Inode(kind: nat, nlink: int, size: nat, addrs: seq<nat>)

  /** The addresses of an inode without blocks. */
  function Unmapped(): (a: seq<nat>)
    ensures |a| == NDIRECT + 1 && forall k :: 0 <= k < |a| ==> a[k] == 0
  {
    seq(NDIRECT + 1, k => 0)
  }

  datatype Slot = Slot(inum: nat, k: nat)

  type Inodes = seq<Inode>
  type Disk = seq<Block>
  type Owner = map<nat, Slot>

  predicate Shape(nodes: Inodes, d: Disk) {
    forall i :: 0 <= i < |nodes| ==> |nodes[i].addrs| == NDIRECT + 1 && nodes[i].addrs[NDIRECT] < |d|
  }

  /** The block number in slot k of inode i; 0 means unmapped. */
  function Val(nodes: Inodes, d: Disk, i: nat, k: nat): nat
    requires Shape(nodes, d) && i < |nodes| && k < SLOTS
  {
    var a := nodes[i].addrs;
    if k <= NDIRECT then a[k]
    else if a[NDIRECT] == 0 then 0
    else GetWord(d[a[NDIRECT]], k - NDIRECT - 1)
  }

  /** Every mapped block has exactly one slot, and `owner` says which. */
  ghost predicate Owned(sb: Super, nodes: Inodes, d: Disk, owner: Owner) {
    && |d| == sb.size && |nodes| == sb.ninodes && Shape(nodes, d)
    && (forall i, k :: 0 <= i < |nodes| && 0 <= k < SLOTS && Val(nodes, d, i, k) != 0 ==>
          Val(nodes, d, i, k) in owner && owner[Val(nodes, d, i, k)] == Slot(i, k))
    && (forall b :: b in owner ==>
          && sb.meta <= b < sb.size && owner[b].inum < |nodes| && owner[b].k < SLOTS
          && Val(nodes, d, owner[b].inum, owner[b].k) == b)
  }

  /** No two slots share a block. */
  lemma OneSlotPerBlock(sb: Super, nodes: Inodes, d: Disk, owner: Owner, i: nat, k: nat, i': nat, k': nat)
    requires Owned(sb, nodes, d, owner)
    requires i < |nodes| && k < SLOTS && i' < |nodes| && k' < SLOTS
    requires Val(nodes, d, i, k) == Val(nodes, d, i', k') != 0
    ensures i == i' && k == k'
  {
    assert owner[Val(nodes, d, i, k)] == Slot(i, k);
    assert owner[Val(nodes, d, i', k')] == Slot(i', k');
  }

  /** Writing a block that is not an indirect block changes no slot. */
  lemma BlockWrite(sb: Super, nodes: Inodes, d: Disk, owner: Owner, b: nat, data: Block)
    requires SuperOk(sb) && Owned(sb, nodes, d, owner) && b < sb.size
    requires b in owner ==> owner[b].k != NDIRECT
    ensures Shape(nodes, d[b := data])
    ensures forall i, k :: 0 <= i < |nodes| && 0 <= k < SLOTS ==>
              Val(nodes, d[b := data], i, k) == Val(nodes, d, i, k)
    ensures Owned(sb, nodes, d[b := data], owner)
  {
    var e := d[b := data];
    forall i, k | 0 <= i < |nodes| && 0 <= k < SLOTS ensures Val(nodes, e, i, k) == Val(nodes, d, i, k) {
      var a := nodes[i].addrs[NDIRECT];
      assert Val(nodes, d, i, NDIRECT) == a;
      assert a != 0 ==> a != b;
    }
  }

  /** A direct address, or the address of an all-zero indirect block, goes into an inode. */
  lemma SetAddr(sb: Super, nodes: Inodes, d: Disk, owner: Owner, i: nat, k: nat, b: nat)
    requires SuperOk(sb) && Owned(sb, nodes, d, owner)
    requires i < |nodes| && k <= NDIRECT && nodes[i].addrs[k] == 0
    requires sb.meta <= b < sb.size && b !in owner
    requires k == NDIRECT ==> forall j :: 0 <= j < NINDIRECT ==> GetWord(d[b], j) == 0
    ensures Owned(sb, PutAddr(nodes, i, k, b), d, owner[b := Slot(i, k)])
  {
    var m := PutAddr(nodes, i, k, b);
    forall i', k' | 0 <= i' < |nodes| && 0 <= k' < SLOTS
      ensures Val(m, d, i', k') == if i' == i && k' == k then b else Val(nodes, d, i', k')
    {
    }
  }

  function PutAddr(nodes: Inodes, i: nat, k: nat, b: nat): Inodes
    requires i < |nodes| && k < |nodes[i].addrs|
  {
    nodes[i := nodes[i].(addrs := nodes[i].addrs[k := b])]
  }

  /** An entry goes into an inode's indirect block. */
  lemma SetEntry(sb: Super, nodes: Inodes, d: Disk, owner: Owner, i: nat, j: nat, b: nat)
    requires SuperOk(sb) && Owned(sb, nodes, d, owner)
    requires i < |nodes| && j < NINDIRECT && nodes[i].addrs[NDIRECT] != 0
    requires Val(nodes, d, i, NDIRECT + 1 + j) == 0
    requires sb.meta <= b < sb.size && b !in owner
    ensures var a := nodes[i].addrs[NDIRECT];
            Owned(sb, nodes, d[a := SetWord(d[a], j, b)], owner[b := Slot(i, NDIRECT + 1 + j)])
  {
    var a := nodes[i].addrs[NDIRECT];
    var e := d[a := SetWord(d[a], j, b)];
    forall i', k' | 0 <= i' < |nodes| && 0 <= k' < SLOTS
      ensures Val(nodes, e, i', k') == if i' == i && k' == NDIRECT + 1 + j then b else Val(nodes, d, i', k')
    {
      if nodes[i'].addrs[NDIRECT] == a {
        OneSlotPerBlock(sb, nodes, d, owner, i, NDIRECT, i', NDIRECT);
      }
    }
  }

  /** A direct address is forgotten. */
  lemma ClearAddr(sb: Super, nodes: Inodes, d: Disk, owner: Owner, i: nat, k: nat)
    requires Owned(sb, nodes, d, owner)
    requires i < |nodes| && k < NDIRECT && nodes[i].addrs[k] != 0
    ensures nodes[i].addrs[k] in owner
    ensures Owned(sb, PutAddr(nodes, i, k, 0), d, owner - {nodes[i].addrs[k]})
  {
    var m, v := PutAddr(nodes, i, k, 0), nodes[i].addrs[k];
    assert Val(nodes, d, i, k) == v;
    forall i', k' | 0 <= i' < |nodes| && 0 <= k' < SLOTS
      ensures Val(m, d, i', k') == if i' == i && k' == k then 0 else Val(nodes, d, i', k')
    {
    }
  }

  /** The blocks that stay owned when inode i gives up its indirect block and its entries. */
  function WithoutIndirect(owner: Owner, i: nat): Owner {
    map b | b in owner && !(owner[b].inum == i && owner[b].k >= NDIRECT) :: owner[b]
  }

  lemma ClearIndirect(sb: Super, nodes: Inodes, d: Disk, owner: Owner, i: nat)
    requires Owned(sb, nodes, d, owner) && i < |nodes| && 0 < sb.size
    ensures Owned(sb, PutAddr(nodes, i, NDIRECT, 0), d, WithoutIndirect(owner, i))
  {
    var m := PutAddr(nodes, i, NDIRECT, 0);
    forall i', k' | 0 <= i' < |nodes| && 0 <= k' < SLOTS
      ensures Val(m, d, i', k') == if i' == i && k' >= NDIRECT then 0 else Val(nodes, d, i', k')
    {
    }
  }

  // ---- the bitmap ----

  function BitmapBlock(sb: Super, b: nat): nat { sb.bmapstart + b / BPB }

  predicate DiskBit(sb: Super, d: Disk, b: nat)
    requires SuperOk(sb) && |d| == sb.size && b < sb.size
  {
    Bit(d[BitmapBlock(sb, b)], b % BPB)
  }

  /** Exactly the metadata blocks and those in `used` are marked in use. */
  ghost predicate BitsAre(sb: Super, d: Disk, used: set<nat>)
    requires SuperOk(sb) && |d| == sb.size
  {
    forall b :: 0 <= b < sb.size ==> (DiskBit(sb, d, b) <==> b < sb.meta || b in used)
  }

  function PutDiskBit(sb: Super, d: Disk, b: nat, on: bool): (e: Disk)
    requires SuperOk(sb) && |d| == sb.size && b < sb.size
    ensures |e| == |d|
  {
    var w := BitmapBlock(sb, b);
    d[w := PutBit(d[w], b % BPB, on)]
  }

  lemma PutDiskBitAt(sb: Super, d: Disk, b: nat, on: bool, x: nat)
    requires SuperOk(sb) && |d| == sb.size && b < sb.size && x < sb.size
    ensures DiskBit(sb, PutDiskBit(sb, d, b, on), x) == if x == b then on else DiskBit(sb, d, x)
  {
    hide Bit, PutBit;
    if x != b && x / BPB == b / BPB {
      assert x % BPB != b % BPB;
    }
  }

  lemma PutDiskBitBits(sb: Super, d: Disk, used: set<nat>, b: nat, on: bool)
    requires SuperOk(sb) && |d| == sb.size && sb.meta <= b < sb.size && BitsAre(sb, d, used)
    ensures BitsAre(sb, PutDiskBit(sb, d, b, on), if on then used + {b} else used - {b})
  {
    hide DiskBit, PutDiskBit;
    forall x | 0 <= x < sb.size
      ensures DiskBit(sb, PutDiskBit(sb, d, b, on), x) == if x == b then on else DiskBit(sb, d, x)
    {
      PutDiskBitAt(sb, d, b, on, x);
    }
  }

  lemma DataWriteBits(sb: Super, d: Disk, used: set<nat>, b: nat, data: Block)
    requires SuperOk(sb) && |d| == sb.size && sb.meta <= b < sb.size && BitsAre(sb, d, used)
    ensures BitsAre(sb, d[b := data], used)
  {
    var e := d[b := data];
    forall x | 0 <= x < sb.size ensures DiskBit(sb, e, x) == DiskBit(sb, d, x) {
      assert BitmapBlock(sb, x) < sb.meta;
    }
  }

  /** memset(bp->data, 0, BSIZE) */
  function Zeroes(n: nat): (s: seq<Byte>)
    ensures |s| == n && forall i :: 0 <= i < n ==> s[i] == 0
  {
    seq(n, i => 0)
  }

  function ZeroBlock(): Block { Zeroes(BSIZE) }

  lemma ZeroWords()
    ensures forall j :: 0 <= j < WORDS ==> GetWord(ZeroBlock(), j) == 0
  {
  }

  // ---- the file system's state ----

  /** In-memory inodes, block contents as bread returns them, the slot of every allocated block,
      and the blocks the current operation has passed to log_write. */
  datatype State = State(nodes: Inodes, disk: Disk, owner: Owner, logged: set<nat>)

  /** Bitmap and slots agree: a block is marked exactly when it is metadata or owned. */
  ghost predicate Good(sb: Super, s: State) {
    SuperOk(sb) && Owned(sb, s.nodes, s.disk, s.owner) && BitsAre(sb, s.disk, s.owner.Keys)
  }

  /** balloc has marked r, which no slot holds yet. */
  ghost predicate Reserved(sb: Super, s: State, r: nat) {
    && SuperOk(sb) && Owned(sb, s.nodes, s.disk, s.owner) && BitsAre(sb, s.disk, s.owner.Keys + {r})
    && sb.meta <= r < sb.size && r !in s.owner
  }

  ghost predicate Full(sb: Super, s: State) {
    forall b :: sb.meta <= b < sb.size ==> b in s.owner
  }

  lemma Sizes(sb: Super, s: State)
    requires Good(sb, s)
    ensures |s.disk| == sb.size && |s.nodes| == sb.ninodes && Shape(s.nodes, s.disk)
  {
  }

  lemma ReservedSizes(sb: Super, s: State, r: nat)
    requires Reserved(sb, s, r)
    ensures |s.disk| == sb.size && |s.nodes| == sb.ninodes && Shape(s.nodes, s.disk)
  {
  }

  /** Everything allocated before stays where it is, data blocks keep their contents, and no
      inode changes its type, link count or size. */
  ghost predicate Kept(s: State, t: State) {
    && |t.nodes| == |s.nodes| && |t.disk| == |s.disk|
    && (forall b :: b in s.owner ==> b in t.owner && t.owner[b] == s.owner[b])
    && (forall b :: b in s.owner && s.owner[b].k != NDIRECT && b < |s.disk| ==> t.disk[b] == s.disk[b])
    && (forall i :: 0 <= i < |s.nodes| ==>
          && t.nodes[i].kind == s.nodes[i].kind && t.nodes[i].nlink == s.nodes[i].nlink
          && t.nodes[i].size == s.nodes[i].size)
  }

  lemma KeptSelf(s: State)
    ensures Kept(s, s)
  {
  }

  lemma KeptTrans(s: State, t: State, u: State)
    requires Kept(s, t) && Kept(t, u)
    ensures Kept(s, u)
  {
  }

  /** A mapped slot keeps its block number. */
  lemma KeptVal(sb: Super, s: State, t: State, i: nat, k: nat)
    requires Good(sb, s) && Good(sb, t) && Kept(s, t)
    requires i < |s.nodes| && k < SLOTS && Val(s.nodes, s.disk, i, k) != 0
    ensures Val(t.nodes, t.disk, i, k) == Val(s.nodes, s.disk, i, k)
  {
    var b := Val(s.nodes, s.disk, i, k);
    assert t.owner[b] == Slot(i, k);
  }

  lemma RelogGood(sb: Super, s: State, l: set<nat>)
    requires Good(sb, s)
    ensures Good(sb, s.(logged := l))
  {
  }

  /** The slot of an inode's bn-th data block. */
  function FileSlot(bn: nat): (k: nat)
    requires bn < MAXFILE
    ensures k < SLOTS && k != NDIRECT
  {
    if bn < NDIRECT then bn else bn + 1
  }

  // ---- the steps of allocation, on states ----

  /** balloc's effect when r is the first free block: mark it, zero it. */
  function Take(sb: Super, s: State, r: nat): State
    requires SuperOk(sb) && |s.disk| == sb.size && r < sb.size
  {
    State(s.nodes, PutDiskBit(sb, s.disk, r, true)[r := ZeroBlock()], s.owner, s.logged + {BitmapBlock(sb, r)} + {r})
  }

  lemma TakeOk(sb: Super, s: State, r: nat)
    requires Good(sb, s) && r < sb.size && !DiskBit(sb, s.disk, r)
    ensures |s.disk| == sb.size && Reserved(sb, Take(sb, s, r), r) && Kept(s, Take(sb, s, r))
    ensures Take(sb, s, r).disk[r] == ZeroBlock()
  {
    hide DiskBit, BitsAre, PutBit, Bit, Val, GetWord;
    var w := BitmapBlock(sb, r);
    FreeBlock(sb, s, r);
    var bits := PutBit(s.disk[w], r % BPB, true);
    assert PutDiskBit(sb, s.disk, r, true) == s.disk[w := bits];
    PutDiskBitBits(sb, s.disk, s.owner.Keys, r, true);
    BlockWrite(sb, s.nodes, s.disk, s.owner, w, bits);
    var d := s.disk[w := bits];
    BlockWrite(sb, s.nodes, d, s.owner, r, ZeroBlock());
    DataWriteBits(sb, d, s.owner.Keys + {r}, r, ZeroBlock());
  }

  lemma FreeBlock(sb: Super, s: State, r: nat)
    requires Good(sb, s) && r < sb.size && !DiskBit(sb, s.disk, r)
    ensures BitmapBlock(sb, r) < sb.meta <= r && r !in s.owner && BitmapBlock(sb, r) !in s.owner
  {
    hide DiskBit, Val;
  }

  lemma TakeDisk(sb: Super, s: State, r: nat, b: nat)
    requires SuperOk(sb) && |s.disk| == sb.size && r < sb.size && sb.meta <= b < sb.size && b != r
    ensures Take(sb, s, r).disk[b] == s.disk[b]
  {
    hide PutBit;
  }

  /** bmap stores r in an inode's address list. */
  function Install(s: State, i: nat, k: nat, r: nat): State
    requires i < |s.nodes| && k < |s.nodes[i].addrs|
  {
    State(PutAddr(s.nodes, i, k, r), s.disk, s.owner[r := Slot(i, k)], s.logged)
  }

  lemma InstallOk(sb: Super, s: State, i: nat, k: nat, r: nat)
    requires Reserved(sb, s, r) && i < |s.nodes| && k <= NDIRECT && s.nodes[i].addrs[k] == 0
    requires r < |s.disk| && s.disk[r] == ZeroBlock()
    ensures Good(sb, Install(s, i, k, r)) && Kept(s, Install(s, i, k, r))
  {
    ZeroWords();
    hide BitsAre, GetWord;
    SetAddr(sb, s.nodes, s.disk, s.owner, i, k, r);
    assert s.owner[r := Slot(i, k)].Keys == s.owner.Keys + {r};
  }

  /** bmap stores r in the indirect block and logs that block. */
  function InstallEntry(s: State, i: nat, j: nat, r: nat): State
    requires Shape(s.nodes, s.disk) && i < |s.nodes| && j < NINDIRECT && r < UINT_LIMIT
  {
    var a := s.nodes[i].addrs[NDIRECT];
    State(s.nodes, s.disk[a := SetWord(s.disk[a], j, r)], s.owner[r := Slot(i, NDIRECT + 1 + j)], s.logged + {a})
  }

  lemma InstallEntryOk(sb: Super, s: State, i: nat, j: nat, r: nat)
    requires Reserved(sb, s, r) && i < |s.nodes| && j < NINDIRECT && s.nodes[i].addrs[NDIRECT] != 0
    requires Val(s.nodes, s.disk, i, NDIRECT + 1 + j) == 0
    ensures Good(sb, InstallEntry(s, i, j, r)) && Kept(s, InstallEntry(s, i, j, r))
  {
    hide BitsAre, GetWord, SetWord, Owned, Kept;
    ReservedSizes(sb, s, r);
    var a := s.nodes[i].addrs[NDIRECT];
    IndirectOwned(sb, s.nodes, s.disk, s.owner, i);
    InstallEntryKept(s, i, j, r);
    SetEntry(sb, s.nodes, s.disk, s.owner, i, j, r);
    DataWriteBits(sb, s.disk, s.owner.Keys + {r}, a, SetWord(s.disk[a], j, r));
    assert s.owner[r := Slot(i, NDIRECT + 1 + j)].Keys == s.owner.Keys + {r};
  }

  lemma IndirectOwned(sb: Super, nodes: Inodes, d: Disk, owner: Owner, i: nat)
    requires Owned(sb, nodes, d, owner) && i < |nodes| && nodes[i].addrs[NDIRECT] != 0
    ensures var a := nodes[i].addrs[NDIRECT];
            a in owner && owner[a] == Slot(i, NDIRECT) && sb.meta <= a < sb.size == |d|
  {
    assert Val(nodes, d, i, NDIRECT) == nodes[i].addrs[NDIRECT];
  }

  lemma InstallEntryKept(s: State, i: nat, j: nat, r: nat)
    requires Shape(s.nodes, s.disk) && i < |s.nodes| && j < NINDIRECT && r < UINT_LIMIT && r !in s.owner
    requires var a := s.nodes[i].addrs[NDIRECT]; a in s.owner && s.owner[a].k == NDIRECT
    ensures Kept(s, InstallEntry(s, i, j, r))
  {
    hide SetWord;
  }

  lemma KeptEntryZero(sb: Super, s: State, t: State, i: nat, k: nat)
    requires Good(sb, s) && Good(sb, t) && Kept(s, t) && i < |s.nodes| && k < SLOTS
    ensures Val(t.nodes, t.disk, i, k) == 0 ==> Val(s.nodes, s.disk, i, k) == 0
  {
    if Val(s.nodes, s.disk, i, k) != 0 {
      KeptVal(sb, s, t, i, k);
    }
  }
}

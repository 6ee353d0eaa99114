/** How the log lies on the disk: header block at log.start, slots after it, every other
    block a home block. Relates single-block writes to the three-part view. */
module LogDisk {
  import opened Params
  import opened Blocks
  import opened RedoLog

  type Disk = seq<Block>

  /** log.start and log.size, copied from the superblock. */
  datatype Layout = Layout(start: nat, size: nat)

  predicate InLog(l: Layout, b: nat) { l.start <= b < l.start + l.size }

  /** struct logheader: the count, then the block numbers. */
  function HeadBlocks(h: Block): (bs: seq<nat>)
    requires GetWord(h, 0) <= LOGSIZE
    ensures |bs| == GetWord(h, 0)
  {
    seq(GetWord(h, 0), i requires 0 <= i < LOGSIZE => GetWord(h, i + 1))
  }

  predicate Storable(blocks: seq<nat>) {
    |blocks| <= LOGSIZE && forall i :: 0 <= i < |blocks| ==> blocks[i] < UINT_LIMIT
  }

  /** The loop of write_head over the first k entries. */
  function PutEntries(h: Block, blocks: seq<nat>, k: nat): (r: Block)
    requires Storable(blocks) && k <= |blocks|
    ensures GetWord(r, 0) == GetWord(h, 0)
    ensures forall i :: 0 <= i < k ==> GetWord(r, i + 1) == blocks[i]
  {
    if k == 0 then h else SetWord(PutEntries(h, blocks, k - 1), k, blocks[k - 1])
  }

  /** write_head's buffer: words past the entries keep their stale values. */
  function PutHead(h: Block, blocks: seq<nat>): (r: Block)
    requires Storable(blocks)
    ensures GetWord(r, 0) == |blocks| && HeadBlocks(r) == blocks
  {
    PutEntries(SetWord(h, 0, |blocks|), blocks, |blocks|)
  }

  /** A disk with the log region inside it and a readable header. */
  predicate HasLog(l: Layout, d: Disk) {
    && 0 < l.size && l.start + l.size <= |d| <= UINT_LIMIT
    && GetWord(d[l.start], 0) <= LOGSIZE
  }

  function Home(l: Layout, d: Disk): (m: Contents) {
    map b | 0 <= b < |d| && !InLog(l, b) :: d[b]
  }

  function Abs(l: Layout, d: Disk): (v: LogView)
    requires HasLog(l, d)
  {
    LogView(HeadBlocks(d[l.start]), d[l.start + 1..l.start + l.size], Home(l, d))
  }

  lemma WriteSlot(l: Layout, d: Disk, i: nat, x: Block)
    requires HasLog(l, d) && i < l.size - 1
    ensures HasLog(l, d[l.start + 1 + i := x])
    ensures Abs(l, d[l.start + 1 + i := x]) == Abs(l, d).(slots := Abs(l, d).slots[i := x])
  {
    var e := d[l.start + 1 + i := x];
    assert Home(l, e) == Home(l, d);
    assert e[l.start + 1..l.start + l.size] == d[l.start + 1..l.start + l.size][i := x];
  }

  lemma WriteHome(l: Layout, d: Disk, b: nat, x: Block)
    requires HasLog(l, d) && b < |d| && !InLog(l, b)
    ensures HasLog(l, d[b := x])
    ensures Abs(l, d[b := x]) == Abs(l, d).(home := Abs(l, d).home[b := x])
  {
    var e := d[b := x];
    assert Home(l, e) == Home(l, d)[b := x];
    assert e[l.start + 1..l.start + l.size] == d[l.start + 1..l.start + l.size];
  }

  lemma WriteHeader(l: Layout, d: Disk, h: Block)
    requires HasLog(l, d) && GetWord(h, 0) <= LOGSIZE
    ensures HasLog(l, d[l.start := h])
    ensures Abs(l, d[l.start := h]) == Abs(l, d).(head := HeadBlocks(h))
  {
    var e := d[l.start := h];
    assert Home(l, e) == Home(l, d);
    assert e[l.start + 1..l.start + l.size] == d[l.start + 1..l.start + l.size];
  }
}

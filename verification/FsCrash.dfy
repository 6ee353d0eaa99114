/** File operations and the log together: what a crash leaves of the files. */
module FsCrash {
  import opened Params
  import opened Collections
  import opened Blocks
  import opened RedoLog
  import LogRuns
  import opened FsOwner
  import opened FsBytes
  import opened FsInode
  import opened FileCode

  // ---- a disk by itself ----

  /** The inodes as a disk has them. */
  function Inodes(sb: Super, d: Disk): (ns: seq<Inode>)
    requires SuperOk(sb) && |d| == sb.size
    ensures |ns| == sb.ninodes && forall i :: 0 <= i < |ns| ==> ns[i] == OnDisk(sb, d, i)
  {
    seq(sb.ninodes, i requires 0 <= i < sb.ninodes => OnDisk(sb, d, i))
  }

  /** The file system on a disk, after a reboot. */
  function Mounted(sb: Super, d: Disk, owner: Owner): State
    requires SuperOk(sb) && |d| == sb.size
  {
    State(Inodes(sb, d), d, owner, {})
  }

  /** The disk holds a sound file system whose files read as those of s. */
  ghost predicate Preserves(sb: Super, s: State, d: Disk)
    requires Sized(s) && NoHoles(s)
  {
    && SuperOk(sb) && |d| == sb.size
    && var m := Mounted(sb, d, s.owner);
       && Good(sb, m) && Sized(m) && NoHoles(m) && |m.nodes| == |s.nodes|
       && forall i :: 0 <= i < |s.nodes| ==>
            && m.nodes[i].kind == s.nodes[i].kind && m.nodes[i].nlink == s.nodes[i].nlink
            && Content(m, i) == Content(s, i)
  }

  /** What was saved is what a disk with the same blocks, but for those of the log, holds after a reboot. */
  lemma MountSaved(sb: Super, s: State, d: Disk)
    requires Good(sb, s) && Sized(s) && NoHoles(s) && Saved(sb, s) && |d| == |s.disk|
    requires forall b :: sb.inodestart <= b < sb.size ==> d[b] == s.disk[b]
    ensures Preserves(sb, s, d)
  {
    var m := Mounted(sb, d, s.owner);
    SameInodes(sb, s, d);
    SameGood(sb, s, m);
    hide Good, Saved;
    SameBytes(sb, s, m);
  }

  lemma SameInodes(sb: Super, s: State, d: Disk)
    requires Saved(sb, s) && |d| == |s.disk|
    requires forall b :: sb.inodestart <= b < sb.size ==> d[b] == s.disk[b]
    ensures Inodes(sb, d) == s.nodes
  {
    hide GetDinode;
    forall i | 0 <= i < sb.ninodes ensures OnDisk(sb, d, i) == s.nodes[i] {
      InodeInside(sb, i);
      assert OnDisk(sb, s.disk, i) == s.nodes[i];
    }
  }

  lemma SameGood(sb: Super, s: State, m: State)
    requires Good(sb, s) && m.nodes == s.nodes && m.owner == s.owner && |m.disk| == |s.disk|
    requires forall b :: sb.inodestart <= b < sb.size ==> m.disk[b] == s.disk[b]
    ensures Good(sb, m)
  {
    SameBits(sb, s, m);
    hide BitsAre, Val, SuperOk;
    forall i, k | 0 <= i < |s.nodes| && 0 <= k < SLOTS
      ensures Val(m.nodes, m.disk, i, k) == Val(s.nodes, s.disk, i, k)
    {
      SameVal(sb, s, m, i, k);
    }
  }

  lemma SameBits(sb: Super, s: State, m: State)
    requires SuperOk(sb) && |s.disk| == |m.disk| == sb.size && BitsAre(sb, s.disk, s.owner.Keys)
    requires forall b :: sb.inodestart <= b < sb.size ==> m.disk[b] == s.disk[b]
    ensures BitsAre(sb, m.disk, s.owner.Keys)
  {
    hide DiskBit;
    forall b | 0 <= b < sb.size ensures DiskBit(sb, m.disk, b) == DiskBit(sb, s.disk, b) {
      SameBit(sb, s.disk, m.disk, b);
    }
  }

  lemma SameBit(sb: Super, d: Disk, e: Disk, b: nat)
    requires SuperOk(sb) && |d| == |e| == sb.size && b < sb.size
    requires forall x :: sb.inodestart <= x < sb.size ==> e[x] == d[x]
    ensures DiskBit(sb, e, b) == DiskBit(sb, d, b)
  {
    var w := BitmapBlock(sb, b);
    assert sb.inodestart <= w < sb.size;
    assert e[w] == d[w];
  }

  lemma SameVal(sb: Super, s: State, m: State, i: nat, k: nat)
    requires Good(sb, s) && m.nodes == s.nodes && |m.disk| == |s.disk| && i < |s.nodes| && k < SLOTS
    requires forall b :: sb.inodestart <= b < sb.size ==> m.disk[b] == s.disk[b]
    ensures Sized(s) && Sized(m) && Val(m.nodes, m.disk, i, k) == Val(s.nodes, s.disk, i, k)
  {
    Regions(sb);
    hide SuperOk, BitsAre;
    if s.nodes[i].addrs[NDIRECT] != 0 {
      IndirectOwned(sb, s.nodes, s.disk, s.owner, i);
    }
  }

  lemma SameBytes(sb: Super, s: State, m: State)
    requires Good(sb, s) && Sized(s) && NoHoles(s) && m.nodes == s.nodes && Sized(m) && |m.disk| == |s.disk| == sb.size
    requires forall b :: sb.inodestart <= b < sb.size ==> m.disk[b] == s.disk[b]
    ensures NoHoles(m) && forall i :: 0 <= i < |s.nodes| ==> Content(m, i) == Content(s, i)
  {
    hide Good, Mapped, ByteAt;
    forall i, p | 0 <= i < |s.nodes| && 0 <= p < MAXBYTES && Mapped(s, i, p)
      ensures Mapped(m, i, p) && ByteAt(m, i, p) == ByteAt(s, i, p)
    {
      SameByteOn(sb, s, m, i, p);
    }
    forall i | 0 <= i < |s.nodes| ensures Content(m, i) == Content(s, i) {
    }
  }

  lemma SameByteOn(sb: Super, s: State, m: State, i: nat, p: nat)
    requires Good(sb, s) && Sized(s) && m.nodes == s.nodes && Sized(m) && |m.disk| == |s.disk| && i < |s.nodes|
    requires p < MAXBYTES && Mapped(s, i, p) && forall b :: sb.inodestart <= b < sb.size ==> m.disk[b] == s.disk[b]
    ensures Mapped(m, i, p) && ByteAt(m, i, p) == ByteAt(s, i, p)
  {
    hide Owned, BitsAre, Val;
    SameVal(sb, s, m, i, FileSlot(p / BSIZE));
    MappedPlace(sb, s, i, p);
  }

  lemma MappedPlace(sb: Super, s: State, i: nat, p: nat)
    requires Good(sb, s) && Sized(s) && i < |s.nodes| && p < MAXBYTES && Mapped(s, i, p)
    ensures sb.inodestart <= FileVal(s, i, p / BSIZE) < sb.size == |s.disk|
  {
    SlotPlace(sb, s, i, FileSlot(p / BSIZE));
    hide Good, Val;
  }

  lemma SlotPlace(sb: Super, s: State, i: nat, k: nat)
    requires Good(sb, s) && Sized(s) && i < |s.nodes| && k < SLOTS && Val(s.nodes, s.disk, i, k) != 0
    ensures sb.inodestart <= Val(s.nodes, s.disk, i, k) < sb.size == |s.disk|
  {
    Regions(sb);
    hide BitsAre, Val, SuperOk;
    assert Val(s.nodes, s.disk, i, k) in s.owner;
  }

  // ---- transactions ----

  /** These contents agree with the disk of s, but for the log, which lies below the inodes. */
  ghost predicate Stands(sb: Super, m: Contents, s: State) {
    |s.disk| == sb.size && forall b :: sb.inodestart <= b < sb.size ==> b in m && m[b] == s.disk[b]
  }

  /** Disk d shows these contents. */
  ghost predicate Shows(sb: Super, m: Contents, d: Disk) {
    |d| == sb.size && forall b :: sb.inodestart <= b < sb.size ==> b in m && d[b] == m[b]
  }

  /** A sound file system, saved. */
  ghost predicate Settled(sb: Super, s: State) {
    Good(sb, s) && Sized(s) && NoHoles(s) && Saved(sb, s)
  }

  lemma ShownFiles(sb: Super, m: Contents, s: State, d: Disk)
    requires Settled(sb, s) && Stands(sb, m, s) && Shows(sb, m, d)
    ensures Preserves(sb, s, d)
  {
    MountSaved(sb, s, d);
  }

  /** The pinned buffers of a transaction that has led to t. */
  function Dirty(t: State): Contents { map b | b in t.logged && b < |t.disk| :: t.disk[b] }

  /** From s to t, with every block in which they differ in t's transaction. */
  ghost predicate Leads(sb: Super, s: State, t: State) { AllLogged(sb, s.(logged := {}), t, {}) }

  /** The transaction's blocks over contents that stand for s give contents that stand for t. */
  lemma StandsNext(sb: Super, m: Contents, s: State, t: State)
    requires Stands(sb, m, s) && Leads(sb, s, t)
    ensures Stands(sb, m + Dirty(t), t)
  {
    forall b | sb.inodestart <= b < sb.size ensures (m + Dirty(t))[b] == t.disk[b] {
      assert b !in t.logged ==> t.disk[b] == s.disk[b];
    }
  }

  /** A crash at any point of the commit: if it comes after no more writes than there are blocks to copy
      to the log, the files are those before the operation, and otherwise those after it. */
  lemma CrashInCommit(sb: Super, s: State, t: State, v: LogView, blocks: seq<nat>, k: nat, d: Disk)
    requires Settled(sb, s) && Settled(sb, t) && Leads(sb, s, t) && Stands(sb, v.home, s) && v.head == []
    requires Transaction(v, blocks, Dirty(t)) && k <= CommitLength(|blocks|)
    requires WfView(CommitView(v, blocks, Dirty(t), k))
    requires Shows(sb, Logical(CommitView(v, blocks, Dirty(t), k)), d)
    ensures if k <= |blocks| then Preserves(sb, s, d) else Preserves(sb, t, d)
  {
    hide Settled, Leads, Transaction, WfView, CommitView, Logical, Shows, Stands, Preserves, Dirty;
    CommitAtomic(v, blocks, Dirty(t), k);
    if k <= |blocks| {
      ShownFiles(sb, v.home, s, d);
    } else {
      StandsNext(sb, v.home, s, t);
      ShownFiles(sb, v.home + Dirty(t), t, d);
    }
  }

  // ---- whole runs of the log ----

  /** Transaction j of the history has led from moment j to moment j + 1. */
  ghost predicate Carries(sb: Super, h: seq<seq<LogRuns.Update>>, moments: seq<State>) {
    && |moments| == |h| + 1
    && forall j :: 0 <= j < |h| ==>
         Leads(sb, moments[j], moments[j + 1]) && LogRuns.Replay(map[], h[j]) == Dirty(moments[j + 1])
  }

  lemma {:induction false} HistoryStands(sb: Super, base: Contents, h: seq<seq<LogRuns.Update>>, moments: seq<State>)
    requires Carries(sb, h, moments) && Stands(sb, base, moments[0])
    ensures Stands(sb, LogRuns.ReplayAll(base, h), moments[|h|])
  {
    hide Leads, Stands, Dirty, LogRuns.Replay;
    if h != [] {
      var n := |h| - 1;
      assert Leads(sb, moments[n], moments[n + 1]) && LogRuns.Replay(map[], h[n]) == Dirty(moments[n + 1]);
      assert Carries(sb, h[..n], moments[..n + 1]) by {
        forall j | 0 <= j < n
          ensures Leads(sb, moments[j], moments[j + 1]) && LogRuns.Replay(map[], h[j]) == Dirty(moments[j + 1])
        {
        }
      }
      HistoryStands(sb, base, h[..n], moments[..n + 1]);
      StandsNext(sb, LogRuns.ReplayAll(base, h[..n]), moments[n], moments[n + 1]);
      LogRuns.ReplayOver(LogRuns.ReplayAll(base, h[..n]), h[n]);
    }
  }

  /** Whatever the interleaving, and wherever crashes fall, even inside recoveries: whenever no commit and
      no recovery is under way, the home blocks hold the files of the last moment committed. */
  lemma FilesSurvive(sb: Super, v: LogView, steps: seq<LogRuns.Step>, t: LogRuns.State, moments: seq<State>, d: Disk)
    requires WfView(v) && LogRuns.Execution(LogRuns.Boot(v, 0, []), steps, t) && t.phase.Running?
    requires Carries(sb, t.history, moments) && Stands(sb, Logical(v), moments[0])
    requires Settled(sb, moments[|t.history|]) && Shows(sb, t.disk.home, d)
    ensures Preserves(sb, moments[|t.history|], d)
  {
    hide Settled, Stands, Shows, Preserves, Carries, WfView, Logical, LogRuns.Execution;
    CarriesLength(sb, t.history, moments);
    LogRuns.RunsFromBoot(v, steps, t);
    HistoryStands(sb, Logical(v), t.history, moments);
    ShownFiles(sb, LogRuns.ReplayAll(Logical(v), t.history), moments[|t.history|], d);
  }

  lemma CarriesLength(sb: Super, h: seq<seq<LogRuns.Update>>, moments: seq<State>)
    requires Carries(sb, h, moments)
    ensures |moments| == |h| + 1
  {
  }

  /** filewrite, cut off by a crash after m of its transactions: the file has its first m chunks, whole,
      and every other file is as it was. */
  lemma WriteCutOff(sb: Super, base: Contents, h: seq<seq<LogRuns.Update>>, moments: seq<State>, i: nat, c: seq<Byte>,
                    off: nat, src: seq<Byte>, loose: set<nat>, m: nat, d: Disk)
    requires Chunked(sb, moments, i, c, off, src, loose) && m < |moments| - 1 && Carries(sb, h, moments[..m + 1])
    requires Saved(sb, moments[m]) && Stands(sb, base, moments[0]) && Shows(sb, LogRuns.ReplayAll(base, h), d)
    ensures Sized(moments[m]) && NoHoles(moments[m]) && Preserves(sb, moments[m], d)
    ensures i < |moments[m].nodes| && m * MAX_WRITE <= |src|
    ensures Content(moments[m], i) == Patched(c, off, src[..m * MAX_WRITE], m * MAX_WRITE)
  {
    hide Stands, Shows, Preserves, Carries, Saved, Good, NoHoles, Content, Patched, Transacted;
    assert FileCode.Written(sb, moments[m], i, c, off, src, m * MAX_WRITE);
    CarriesLength(sb, h, moments[..m + 1]);
    HistoryStands(sb, base, h, moments[..m + 1]);
    ShownFiles(sb, LogRuns.ReplayAll(base, h), moments[m], d);
  }

  /** The transactions of filewrite lead from each of its moments to the next. */
  lemma ChunksLead(sb: Super, moments: seq<State>, i: nat, c: seq<Byte>, off: nat, src: seq<Byte>, loose: set<nat>,
                   j: nat)
    requires Chunked(sb, moments, i, c, off, src, loose) && j < |moments| - 1 && (j == |moments| - 2 ==> loose == {})
    ensures Leads(sb, moments[j], moments[j + 1]) && |moments[j + 1].logged| <= MAXOPBLOCKS
  {
    assert Transacted(sb, moments[j], moments[j + 1], if j == |moments| - 2 then loose else {});
  }
}

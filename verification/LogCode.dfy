/** log.c: the in-memory log and the disk writes its operations issue. */
module LogCode {
  import opened Params
  import opened Collections
  import opened Blocks
  import opened RedoLog
  import opened LogDisk

  lemma Snoc<T>(a: seq<T>, b: seq<T>, x: T)
    ensures a + b + [x] == a + (b + [x])
  {
  }

  lemma Regroup<T>(a: seq<T>, b: seq<T>, x: T, c: seq<T>, y: T)
    ensures a + b + [x] + c + [y] == a + (b + [x] + c + [y])
  {
  }

  class Log {
    const l: Layout
    var disk: Disk
    /** The disk's three parts, and the states they have passed through,
        one per block written, oldest first. */
    ghost var view: LogView
    ghost var trace: seq<LogView>
    /** Contents of the buffers log_write pinned. All other buffers agree with the disk. */
    var dirty: Contents
    var n: nat                  // lh.n
    const block: array<nat>     // lh.block
    var outstanding: nat
    var committing: bool

    ghost predicate Ok()
      reads this
    {
      block.Length == LOGSIZE && n <= LOGSIZE && HasLog(l, disk) && view == Abs(l, disk)
    }

    /** initlog before recovery: nothing in memory, whatever the disk holds. */
    constructor (l: Layout, disk: Disk)
      requires HasLog(l, disk)
      ensures Ok() && this.l == l && this.disk == disk && fresh(block)
      ensures n == 0 && dirty == map[] && outstanding == 0 && !committing && trace == []
    {
      this.l, this.disk, view, trace := l, disk, Abs(l, disk), [];
      dirty, n, outstanding, committing := map[], 0, 0, false;
      block := new nat[LOGSIZE](i => 0);
    }

    /** One block reaches the disk; the disk changes in no other way. */
    method BWrite(b: nat, data: Block)
      requires b < |disk| && HasLog(l, disk[b := data]) && block.Length == LOGSIZE && n <= LOGSIZE
      modifies this`disk, this`view, this`trace
      ensures Ok() && disk == old(disk)[b := data] && trace == old(trace) + [view]
    {
      disk := disk[b := data];
      view := Abs(l, disk);
      trace := trace + [view];
    }

    /** read_head */
    method ReadHead()
      requires Ok()
      modifies this`n, block
      ensures Ok() && block[..n] == view.head
    {
      var lh := disk[l.start];
      n := GetWord(lh, 0);
      var i := 0;
      while i < n
        invariant 0 <= i <= n == GetWord(lh, 0)
        invariant forall j :: 0 <= j < i ==> block[j] == GetWord(lh, j + 1)
      {
        block[i] := GetWord(lh, i + 1);
        i := i + 1;
      }
    }

    /** write_head */
    method WriteHead()
      requires Ok() && forall i :: 0 <= i < n ==> block[i] < UINT_LIMIT
      modifies this`disk, this`view, this`trace
      ensures Ok() && trace == old(trace) + [view]
      ensures view == old(view).(head := block[..n])
    {
      hide GetWord, SetWord, HeadBlocks, Home;
      ghost var blocks := block[..n];
      var hb := SetWord(disk[l.start], 0, n);
      var i := 0;
      while i < n
        invariant 0 <= i <= n && Storable(blocks) && blocks == block[..n]
        invariant hb == PutEntries(SetWord(disk[l.start], 0, n), blocks, i)
      {
        hb := SetWord(hb, i + 1, block[i]);
        i := i + 1;
      }
      assert hb == PutHead(disk[l.start], blocks);
      WriteHeader(l, disk, hb);
      BWrite(l.start, hb);
    }

    /** write_log, one block: a pinned buffer to its log slot */
    method LogOne(tail: nat)
      requires Ok() && tail < n && tail < |view.slots| && block[tail] in dirty
      modifies this`disk, this`view, this`trace
      ensures Ok() && trace == old(trace) + [view]
      ensures view == old(view).(slots := old(view.slots)[tail := dirty[block[tail]]])
    {
      WriteSlot(l, disk, tail, dirty[block[tail]]);
      BWrite(l.start + 1 + tail, dirty[block[tail]]);
    }

    /** install_trans, one block: a log slot to its home block */
    method InstallOne(tail: nat)
      requires Ok() && tail < n && tail < |view.slots| && block[tail] in view.home
      modifies this`disk, this`view, this`trace
      ensures Ok() && trace == old(trace) + [view]
      ensures view == old(view).(home := old(view.home)[block[tail] := old(view.slots)[tail]])
    {
      WriteHome(l, disk, block[tail], disk[l.start + 1 + tail]);
      BWrite(block[tail], disk[l.start + 1 + tail]);
    }

    method WriteLog()
      requires Ok() && Transaction(view, block[..n], dirty)
      modifies this`disk, this`view, this`trace
      ensures Ok() && view == SlotView(old(view), block[..n], dirty, n)
      ensures trace == old(trace) + SlotTrace(old(view), block[..n], dirty, n)
    {
      ghost var v, blocks := view, block[..n];
      hide Abs, HasLog, Zip, Distinct;
      var tail := 0;
      while tail < n
        invariant 0 <= tail <= n && Ok()
        invariant view == SlotView(v, blocks, dirty, tail)
        invariant trace == old(trace) + SlotTrace(v, blocks, dirty, tail)
      {
        assert block[tail] == blocks[tail];
        LogOne(tail);
        assert view == SlotView(v, blocks, dirty, tail + 1);
        Snoc(old(trace), SlotTrace(v, blocks, dirty, tail), view);
        tail := tail + 1;
      }
    }

    method InstallTrans(recovering: bool)
      requires Ok() && Loggable(view, block[..n])
      modifies this`disk, this`view, this`trace, this`dirty
      ensures Ok() && view == InstallView(old(view), block[..n], n)
      ensures trace == old(trace) + InstallTrace(old(view), block[..n], n)
      ensures dirty == if recovering then old(dirty) else Unpinned(old(dirty), block[..n], n)
    {
      ghost var v, blocks := view, block[..n];
      hide Abs, HasLog, Zip, Distinct;
      assert InstallView(v, blocks, 0) == v && InstallTrace(v, blocks, 0) == [];
      hide InstallView, InstallTrace;
      var tail := 0;
      while tail < n
        invariant 0 <= tail <= n && Ok()
        invariant view == InstallView(v, blocks, tail)
        invariant trace == old(trace) + InstallTrace(v, blocks, tail)
        invariant dirty == if recovering then old(dirty) else Unpinned(old(dirty), blocks, tail)
      {
        InstallNext(v, blocks, tail);
        assert block[tail] == blocks[tail];
        InstallOne(tail);
        if !recovering {
          dirty := dirty - {block[tail]};   // bunpin
        }
        Snoc(old(trace), InstallTrace(v, blocks, tail), view);
        tail := tail + 1;
      }
    }

    /** commit: afterwards the home blocks hold the transaction, and every disk state on the
        way is one of CommitTrace, whose crash behaviour RedoLog.CommitAtomic settles. */
    method Commit()
      requires Ok() && Transaction(view, block[..n], dirty) && view.head == []
      modifies this`disk, this`view, this`trace, this`dirty, this`n
      ensures Ok() && n == 0 && dirty == map[]
      ensures view.head == [] && view.home == old(view).home + old(dirty)
      ensures trace == old(trace) + CommitTrace(old(view), old(block[..n]), old(dirty))
    {
      if n > 0 {
        CommitSome();
      } else {
        assert dirty == map[];
      }
    }

    method CommitSome()
      requires Ok() && Transaction(view, block[..n], dirty) && view.head == [] && n > 0
      modifies this`disk, this`view, this`trace, this`dirty, this`n
      ensures Ok() && n == 0 && dirty == map[]
      ensures view.head == [] && view.home == old(view).home + old(dirty)
      ensures trace == old(trace) + CommitTrace(old(view), old(block[..n]), old(dirty))
    {
      hide Abs, HasLog, Zip, Distinct, CommitTrace, SlotView, SlotTrace, InstallView, InstallTrace, Unpinned;
      ghost var v, blocks, d := view, block[..n], dirty;
      EntriesStorable();
      WriteLog();
      WriteHead();
      ghost var logged := view;
      assert logged == SlotView(v, blocks, d, |blocks|).(head := blocks);
      InstallTrans(false);
      AllUnpinned(d, blocks);
      n := 0;
      assert block[..n] == [];
      WriteHead();
      CommitPieces(v, blocks, d, logged, view);
      Regroup(old(trace), SlotTrace(v, blocks, d, |blocks|), logged, InstallTrace(logged, blocks, |blocks|), view);
    }

    /** begin_op, one turn of its loop: false means the caller sleeps and tries again. */
    method TryBeginOp() returns (admitted: bool)
      modifies this`outstanding
      ensures admitted <==> !committing && n + (old(outstanding) + 1) * MAXOPBLOCKS <= LOGSIZE
      ensures outstanding == old(outstanding) + if admitted then 1 else 0
    {
      if committing {
        admitted := false;
      } else if n + (outstanding + 1) * MAXOPBLOCKS > LOGSIZE {
        admitted := false;
      } else {
        outstanding := outstanding + 1;
        admitted := true;
      }
    }

    /** log_write of a buffer holding `data`; false is one of its two panics. */
    method LogWrite(b: nat, data: Block) returns (ok: bool)
      requires Ok() && Transaction(view, block[..n], dirty) && b in view.home
      modifies this`n, this`dirty, block
      ensures ok <==> old(n) < LOGSIZE && old(n) < l.size - 1 && outstanding >= 1
      ensures Ok() && Transaction(view, block[..n], dirty)
      ensures !ok ==> dirty == old(dirty) && block[..n] == old(block[..n])
      ensures ok ==> dirty == old(dirty)[b := data]
      ensures ok ==> block[..n] == if b in old(dirty) then old(block[..n]) else old(block[..n]) + [b]
    {
      if n >= LOGSIZE || n + 1 >= l.size || outstanding < 1 {
        return false;
      }
      ghost var blocks := block[..n];
      var i := 0;
      while i < n && block[i] != b
        invariant 0 <= i <= n
        invariant forall j :: 0 <= j < i ==> blocks[j] != b
      {
        i := i + 1;
      }
      assert i < n <==> b in blocks by {
        if i < n {
          assert blocks[i] == b;
        }
      }
      block[i] := b;
      if i == n {
        n := n + 1;
        assert block[..n] == blocks + [b];
      } else {
        assert block[..n] == blocks;
      }
      dirty := dirty[b := data];
      Extended(view, blocks, old(dirty), b, data);
      return true;
    }

    /** end_op; only the last outstanding operation commits. */
    method EndOp() returns (committed: bool)
      requires Ok() && Transaction(view, block[..n], dirty) && view.head == []
      requires outstanding >= 1 && !committing
      modifies this`outstanding, this`committing, this`disk, this`view, this`trace, this`dirty, this`n
      ensures outstanding == old(outstanding) - 1 && !committing
      ensures committed <==> old(outstanding) == 1
      ensures Ok() && Transaction(view, block[..n], dirty) && view.head == []
      ensures !committed ==> disk == old(disk) && trace == old(trace) && dirty == old(dirty) && n == old(n)
      ensures committed ==> n == 0 && view.home == old(view).home + old(dirty)
      ensures committed ==> trace == old(trace) + CommitTrace(old(view), old(block[..n]), old(dirty))
    {
      outstanding := outstanding - 1;
      committed := outstanding == 0;
      if committed {
        committing := true;
        Commit();
        committing := false;
      }
    }

    /** recover_from_log */
    method RecoverFromLog()
      requires Ok() && WfView(view) && dirty == map[]
      modifies this`disk, this`view, this`trace, this`dirty, this`n, block
      ensures Ok() && n == 0 && dirty == map[]
      ensures view == LogView([], old(view).slots, Logical(old(view)))
      ensures trace == old(trace) + RecoveryTrace(old(view))
    {
      hide Abs, HasLog, Zip, Distinct, InstallTrace, InstallView, RecoveryPhase, Logical, WfView, Loggable,
           RecoveryTrace;
      ghost var v := view;
      ReadHead();
      HeadLoggable(view);
      InstallTrans(true);
      n := 0;
      assert block[..n] == [];
      WriteHead();
      RecoveryPieces(v, view);
      Snoc(old(trace), InstallTrace(v, v.head, |v.head|), view);
    }

    lemma EntriesStorable()
      requires Ok() && Loggable(view, block[..n])
      ensures forall i :: 0 <= i < n ==> block[i] < UINT_LIMIT
    {
      forall i | 0 <= i < n ensures block[i] < UINT_LIMIT {
        assert block[..n][i] in view.home;
      }
    }
  }
}

/** The redo log as three parts of a disk: the header's block list, the log slots, and
    the home blocks. States the order in which commit() and recover_from_log() change
    them, one block at a time, and what a crash after any of those writes leads to. */
module RedoLog {
  import opened Collections
  import opened Blocks

  type Contents = map<nat, Block>

  datatype LogView = LogView(head: seq<nat>, slots: seq<Block>, home: Contents)

  /** A list of home block numbers the log region has room for. */
  predicate Loggable(v: LogView, blocks: seq<nat>) {
    && |blocks| <= |v.slots|
    && Distinct(blocks)
    && forall i :: 0 <= i < |blocks| ==> blocks[i] in v.home
  }

  predicate WfView(v: LogView) { Loggable(v, v.head) }

  /** The first k block numbers paired with contents. */
  function Zip(blocks: seq<nat>, vals: seq<Block>, k: nat): (m: Contents)
    requires k <= |blocks| && k <= |vals|
  {
    if k == 0 then map[] else Zip(blocks, vals, k - 1)[blocks[k - 1] := vals[k - 1]]
  }

  lemma {:induction false} ZipKeys(blocks: seq<nat>, vals: seq<Block>, k: nat, b: nat)
    requires k <= |blocks| && k <= |vals|
    ensures b in Zip(blocks, vals, k) <==> b in blocks[..k]
  {
    if k > 0 {
      ZipKeys(blocks, vals, k - 1, b);
      assert blocks[..k] == blocks[..k - 1] + [blocks[k - 1]];
    }
  }

  lemma {:induction false} ZipAt(blocks: seq<nat>, vals: seq<Block>, k: nat, i: nat)
    requires i < k <= |blocks| && k <= |vals| && Distinct(blocks)
    ensures blocks[i] in Zip(blocks, vals, k) && Zip(blocks, vals, k)[blocks[i]] == vals[i]
  {
    if i < k - 1 {
      ZipAt(blocks, vals, k - 1, i);
    }
  }

  lemma ZipIs(blocks: seq<nat>, vals: seq<Block>, m: Contents)
    requires |blocks| <= |vals| && Distinct(blocks)
    requires m.Keys == set b | b in blocks
    requires forall i :: 0 <= i < |blocks| ==> vals[i] == m[blocks[i]]
    ensures Zip(blocks, vals, |blocks|) == m
  {
    var z := Zip(blocks, vals, |blocks|);
    forall b ensures b in z <==> b in m {
      ZipKeys(blocks, vals, |blocks|, b);
      assert blocks[..|blocks|] == blocks;
    }
    forall b | b in m ensures z[b] == m[b] {
      var i :| 0 <= i < |blocks| && blocks[i] == b;
      ZipAt(blocks, vals, |blocks|, i);
    }
  }

  /** The home contents a disk stands for: what a completed recovery leaves behind. */
  function Logical(v: LogView): (m: Contents)
    requires WfView(v)
  {
    v.home + Zip(v.head, v.slots, |v.head|)
  }

  // ---- commit(): 2n + 2 single-block writes ----

  /** A transaction to commit: its block list and the pinned buffers' contents. */
  predicate Transaction(v: LogView, blocks: seq<nat>, dirty: Contents) {
    Loggable(v, blocks) && dirty.Keys == (set b | b in blocks)
  }

  /** log_write: a block joins the transaction, or is absorbed by an earlier write to it. */
  function Extend(blocks: seq<nat>, b: nat): seq<nat> {
    if b in blocks then blocks else blocks + [b]
  }

  lemma Extended(v: LogView, blocks: seq<nat>, dirty: Contents, b: nat, data: Block)
    requires Transaction(v, blocks, dirty) && b in v.home
    requires |blocks| < |v.slots|
    ensures Transaction(v, Extend(blocks, b), dirty[b := data])
  {
  }

  function CommitLength(n: nat): nat { 2 * n + 2 }

  /** The k-th write of commit(): write_log, write_head, install_trans, write_head. */
  function CommitStep(v: LogView, blocks: seq<nat>, dirty: Contents, k: nat): (r: LogView)
    requires Transaction(v, blocks, dirty) && k < CommitLength(|blocks|)
    ensures r.home.Keys == v.home.Keys && |r.slots| == |v.slots|
  {
    var n := |blocks|;
    if k < n then v.(slots := v.slots[k := dirty[blocks[k]]])
    else if k == n then v.(head := blocks)
    else if k <= 2 * n then v.(home := v.home[blocks[k - n - 1] := v.slots[k - n - 1]])
    else v.(head := [])
  }

  /** What every disk state inside a commit looks like; `base` is the home contents before it. */
  predicate CommitPhase(base: Contents, v: LogView, blocks: seq<nat>, dirty: Contents, k: nat) {
    var n := |blocks|;
    && Transaction(v, blocks, dirty) && k <= CommitLength(n)
    && base.Keys == v.home.Keys
    && v.head == (if n < k < CommitLength(n) then blocks else [])
    && (forall i :: 0 <= i < n && i < k ==> v.slots[i] == dirty[blocks[i]])
    && (forall i :: 0 <= i < n ==>
          v.home[blocks[i]] == if n + 1 + i < k then dirty[blocks[i]] else base[blocks[i]])
    && (forall b :: b in base && b !in blocks ==> v.home[b] == base[b])
  }

  lemma CommitPhaseStep(base: Contents, v: LogView, blocks: seq<nat>, dirty: Contents, k: nat)
    requires CommitPhase(base, v, blocks, dirty, k) && k < CommitLength(|blocks|)
    ensures CommitPhase(base, CommitStep(v, blocks, dirty, k), blocks, dirty, k + 1)
  {
    var n := |blocks|;
    if n < k <= 2 * n {
      InstallPhaseStep(base, v, blocks, dirty, k);
    }
  }

  lemma InstallPhaseStep(base: Contents, v: LogView, blocks: seq<nat>, dirty: Contents, k: nat)
    requires CommitPhase(base, v, blocks, dirty, k) && |blocks| < k <= 2 * |blocks|
    ensures CommitPhase(base, CommitStep(v, blocks, dirty, k), blocks, dirty, k + 1)
  {
    var t := k - |blocks| - 1;
    assert blocks[t] in v.home && v.slots[t] == dirty[blocks[t]];
  }

  /** Atomicity inside one commit: until the header write lands the disk stands for
      the old contents, from then on for the new ones. */
  lemma CommitPhaseView(base: Contents, v: LogView, blocks: seq<nat>, dirty: Contents, k: nat)
    requires CommitPhase(base, v, blocks, dirty, k)
    ensures WfView(v)
    ensures Logical(v) == if k <= |blocks| then base else base + dirty
  {
    hide CommitPhase, Logical, WfView;
    if k <= |blocks| {
      BeforeHeader(base, v, blocks, dirty, k);
      LogicalEmpty(v);
    } else if k < CommitLength(|blocks|) {
      AfterHeader(base, v, blocks, dirty, k);
    } else {
      CommitLast(base, v, blocks, dirty, k);
      AfterClear(base, v, blocks, dirty);
      LogicalEmpty(v);
    }
  }

  lemma CommitLast(base: Contents, v: LogView, blocks: seq<nat>, dirty: Contents, k: nat)
    requires CommitPhase(base, v, blocks, dirty, k)
    ensures k <= CommitLength(|blocks|)
  {
  }

  lemma LogicalEmpty(v: LogView)
    requires v.head == []
    ensures WfView(v) && Logical(v) == v.home
  {
    assert v.home + Zip([], v.slots, 0) == v.home;
  }

  lemma AfterHeader(base: Contents, v: LogView, blocks: seq<nat>, dirty: Contents, k: nat)
    requires CommitPhase(base, v, blocks, dirty, k) && |blocks| < k < CommitLength(|blocks|)
    ensures WfView(v) && Logical(v) == base + dirty
  {
    hide Zip;
    ZipIs(blocks, v.slots, dirty);
    assert v.home + dirty == base + dirty;
  }

  lemma BeforeHeader(base: Contents, v: LogView, blocks: seq<nat>, dirty: Contents, k: nat)
    requires CommitPhase(base, v, blocks, dirty, k) && k <= |blocks|
    ensures v.head == [] && v.home == base
  {
    forall b | b in base ensures v.home[b] == base[b] {
      if b in blocks {
        var i :| 0 <= i < |blocks| && blocks[i] == b;
      }
    }
  }

  lemma AfterClear(base: Contents, v: LogView, blocks: seq<nat>, dirty: Contents)
    requires CommitPhase(base, v, blocks, dirty, CommitLength(|blocks|))
    ensures v.head == [] && v.home == base + dirty
  {
    forall b | b in blocks ensures v.home[b] == dirty[b] {
      var i :| 0 <= i < |blocks| && blocks[i] == b;
    }
  }

  lemma CommitPhaseNext(base: Contents, v: LogView, blocks: seq<nat>, dirty: Contents, k: nat)
    requires CommitPhase(base, v, blocks, dirty, k) && k < CommitLength(|blocks|)
    ensures var w := CommitStep(v, blocks, dirty, k);
            && CommitPhase(base, w, blocks, dirty, k + 1) && WfView(w)
            && Logical(w) == if k < |blocks| then base else base + dirty
  {
    CommitPhaseStep(base, v, blocks, dirty, k);
    CommitPhaseView(base, CommitStep(v, blocks, dirty, k), blocks, dirty, k + 1);
  }

  /** write_log after k blocks. */
  function SlotView(v: LogView, blocks: seq<nat>, dirty: Contents, k: nat): (r: LogView)
    requires Transaction(v, blocks, dirty) && k <= |blocks|
    ensures r.home == v.home && r.head == v.head && |r.slots| == |v.slots|
  {
    if k == 0 then v
    else
      var p := SlotView(v, blocks, dirty, k - 1);
      p.(slots := p.slots[k - 1 := dirty[blocks[k - 1]]])
  }

  /** install_trans after k blocks. */
  function InstallView(v: LogView, blocks: seq<nat>, k: nat): (r: LogView)
    requires Loggable(v, blocks) && k <= |blocks|
    ensures r.slots == v.slots && r.head == v.head
  {
    if k == 0 then v
    else
      var p := InstallView(v, blocks, k - 1);
      p.(home := p.home[blocks[k - 1] := p.slots[k - 1]])
  }

  lemma {:induction false} InstallKeys(v: LogView, blocks: seq<nat>, k: nat)
    requires Loggable(v, blocks) && k <= |blocks|
    ensures InstallView(v, blocks, k).home.Keys == v.home.Keys
  {
    if k > 0 {
      InstallKeys(v, blocks, k - 1);
      assert blocks[k - 1] in v.home;
    }
  }

  // The disk states those loops pass through, one per block written.

  function SlotTrace(v: LogView, blocks: seq<nat>, dirty: Contents, k: nat): (t: seq<LogView>)
    requires Transaction(v, blocks, dirty) && k <= |blocks|
    ensures |t| == k
  {
    if k == 0 then [] else SlotTrace(v, blocks, dirty, k - 1) + [SlotView(v, blocks, dirty, k)]
  }

  function InstallTrace(v: LogView, blocks: seq<nat>, k: nat): (t: seq<LogView>)
    requires Loggable(v, blocks) && k <= |blocks|
    ensures |t| == k
  {
    if k == 0 then [] else InstallTrace(v, blocks, k - 1) + [InstallView(v, blocks, k)]
  }

  /** The disk after the first k writes of commit(). */
  function CommitView(v: LogView, blocks: seq<nat>, dirty: Contents, k: nat): (r: LogView)
    requires Transaction(v, blocks, dirty) && k <= CommitLength(|blocks|)
    ensures |r.slots| == |v.slots|
  {
    var n := |blocks|;
    if k <= n then SlotView(v, blocks, dirty, k)
    else
      var committed := SlotView(v, blocks, dirty, n).(head := blocks);
      if k < CommitLength(n) then InstallView(committed, blocks, k - n - 1)
      else InstallView(committed, blocks, n).(head := [])
  }

  /** All disk states of a commit. An empty transaction writes nothing. */
  function CommitTrace(v: LogView, blocks: seq<nat>, dirty: Contents): (t: seq<LogView>)
    requires Transaction(v, blocks, dirty)
    ensures |t| == if blocks == [] then 0 else CommitLength(|blocks|)
  {
    var n := |blocks|;
    var committed := SlotView(v, blocks, dirty, n).(head := blocks);
    if n == 0 then []
    else
      SlotTrace(v, blocks, dirty, n) + [committed] + InstallTrace(committed, blocks, n)
      + [InstallView(committed, blocks, n).(head := [])]
  }

  lemma {:induction false} SlotTraceAt(v: LogView, blocks: seq<nat>, dirty: Contents, k: nat, i: nat)
    requires Transaction(v, blocks, dirty) && i < k <= |blocks|
    ensures SlotTrace(v, blocks, dirty, k)[i] == SlotView(v, blocks, dirty, i + 1)
  {
    if i < k - 1 {
      SlotTraceAt(v, blocks, dirty, k - 1, i);
    }
  }

  lemma {:induction false} InstallTraceAt(v: LogView, blocks: seq<nat>, k: nat, i: nat)
    requires Loggable(v, blocks) && i < k <= |blocks|
    ensures InstallTrace(v, blocks, k)[i] == InstallView(v, blocks, i + 1)
  {
    if i < k - 1 {
      InstallTraceAt(v, blocks, k - 1, i);
    }
  }

  /** The i-th state recorded during a commit is the one after i + 1 of its writes. */
  lemma CommitTraceAt(v: LogView, blocks: seq<nat>, dirty: Contents, i: nat)
    requires Transaction(v, blocks, dirty) && i < |CommitTrace(v, blocks, dirty)|
    ensures CommitTrace(v, blocks, dirty)[i] == CommitView(v, blocks, dirty, i + 1)
  {
    var n := |blocks|;
    if i < n {
      SlotTraceAt(v, blocks, dirty, n, i);
    } else if n < i <= 2 * n {
      InstallTraceAt(SlotView(v, blocks, dirty, n).(head := blocks), blocks, n, i - n - 1);
    }
  }

  lemma CommitViewStep(v: LogView, blocks: seq<nat>, dirty: Contents, k: nat)
    requires Transaction(v, blocks, dirty) && k < CommitLength(|blocks|)
    ensures Transaction(CommitView(v, blocks, dirty, k), blocks, dirty)
    ensures CommitView(v, blocks, dirty, k + 1) == CommitStep(CommitView(v, blocks, dirty, k), blocks, dirty, k)
  {
    hide Zip, Distinct;
    var n := |blocks|;
    var committed := SlotView(v, blocks, dirty, n).(head := blocks);
    if n < k {
      InstallKeys(committed, blocks, k - n - 1);
    }
  }

  /** The buffers still pinned after install_trans has unpinned the first k. */
  function Unpinned(dirty: Contents, blocks: seq<nat>, k: nat): (m: Contents)
    requires k <= |blocks|
  {
    if k == 0 then dirty else Unpinned(dirty, blocks, k - 1) - {blocks[k - 1]}
  }

  lemma {:induction false} UnpinnedKeys(dirty: Contents, blocks: seq<nat>, k: nat)
    requires k <= |blocks|
    ensures Unpinned(dirty, blocks, k).Keys <= dirty.Keys
    ensures forall i :: 0 <= i < k ==> blocks[i] !in Unpinned(dirty, blocks, k)
  {
    if k > 0 {
      UnpinnedKeys(dirty, blocks, k - 1);
    }
  }

  lemma AllUnpinned(dirty: Contents, blocks: seq<nat>)
    requires dirty.Keys == set b | b in blocks
    ensures Unpinned(dirty, blocks, |blocks|) == map[]
  {
    UnpinnedKeys(dirty, blocks, |blocks|);
  }

  lemma InstallNext(v: LogView, blocks: seq<nat>, k: nat)
    requires Loggable(v, blocks) && k < |blocks|
    ensures var p := InstallView(v, blocks, k);
            && k < |p.slots| && blocks[k] in p.home
            && InstallView(v, blocks, k + 1) == p.(home := p.home[blocks[k] := p.slots[k]])
    ensures InstallTrace(v, blocks, k + 1) == InstallTrace(v, blocks, k) + [InstallView(v, blocks, k + 1)]
    ensures forall d: Contents :: Unpinned(d, blocks, k + 1) == Unpinned(d, blocks, k) - {blocks[k]}
  {
    InstallKeys(v, blocks, k);
  }

  lemma CommitPhaseStarts(v: LogView, blocks: seq<nat>, dirty: Contents)
    requires Transaction(v, blocks, dirty) && v.head == []
    ensures CommitPhase(v.home, CommitView(v, blocks, dirty, 0), blocks, dirty, 0)
  {
    hide Zip, InstallView;
  }

  /** Every crash point of one commit, counted in completed writes. */
  lemma {:induction false} CommitAtomic(v: LogView, blocks: seq<nat>, dirty: Contents, k: nat)
    requires Transaction(v, blocks, dirty) && v.head == [] && k <= CommitLength(|blocks|)
    ensures CommitPhase(v.home, CommitView(v, blocks, dirty, k), blocks, dirty, k)
    ensures WfView(CommitView(v, blocks, dirty, k))
    ensures Logical(CommitView(v, blocks, dirty, k)) == if k <= |blocks| then v.home else v.home + dirty
  {
    hide CommitPhase, CommitView, CommitStep, Logical, WfView, Transaction;
    if k == 0 {
      CommitPhaseStarts(v, blocks, dirty);
    } else {
      CommitAtomic(v, blocks, dirty, k - 1);
      CommitViewStep(v, blocks, dirty, k - 1);
      CommitPhaseStep(v.home, CommitView(v, blocks, dirty, k - 1), blocks, dirty, k - 1);
    }
    CommitPhaseView(v.home, CommitView(v, blocks, dirty, k), blocks, dirty, k);
  }

  /** commit()'s four loops and writes, put together. */
  lemma CommitPieces(v: LogView, blocks: seq<nat>, dirty: Contents, logged: LogView, done: LogView)
    requires Transaction(v, blocks, dirty) && v.head == [] && blocks != []
    requires logged == SlotView(v, blocks, dirty, |blocks|).(head := blocks)
    requires done == InstallView(logged, blocks, |blocks|).(head := [])
    ensures Loggable(logged, blocks)
    ensures CommitTrace(v, blocks, dirty)
         == SlotTrace(v, blocks, dirty, |blocks|) + [logged] + InstallTrace(logged, blocks, |blocks|) + [done]
    ensures done.head == [] && done.home == v.home + dirty
  {
    var k := CommitLength(|blocks|);
    CommitAtomic(v, blocks, dirty, k);
    hide CommitPhase, CommitTrace, Zip, Distinct, SlotView, InstallView;
    assert done == CommitView(v, blocks, dirty, k);
    AfterClear(v.home, done, blocks, dirty);
  }

  // ---- recover_from_log(): n + 1 single-block writes ----

  /** The k-th write of recovery, with the block list read_head found. */
  function RecoveryStep(v: LogView, blocks: seq<nat>, k: nat): (r: LogView)
    requires Loggable(v, blocks) && k <= |blocks|
    ensures r.home.Keys == v.home.Keys && |r.slots| == |v.slots|
  {
    if k < |blocks| then v.(home := v.home[blocks[k] := v.slots[k]])
    else v.(head := [])
  }

  /** What every disk state inside a recovery looks like; `view` is what it must preserve. */
  predicate RecoveryPhase(view: Contents, v: LogView, blocks: seq<nat>, k: nat) {
    var n := |blocks|;
    && Loggable(v, blocks) && k <= n + 1
    && v.head == (if k <= n then blocks else [])
    && WfView(v) && Logical(v) == view
    && (forall i :: 0 <= i < n && i < k ==> v.home[blocks[i]] == view[blocks[i]])
  }

  lemma RecoveryPhaseStarts(v: LogView)
    requires WfView(v)
    ensures RecoveryPhase(Logical(v), RecoveryView(v, 0), v.head, 0)
  {
    hide Zip, Distinct;
    assert RecoveryView(v, 0) == v;
  }

  lemma RecoveryPhaseStep(view: Contents, v: LogView, blocks: seq<nat>, k: nat)
    requires RecoveryPhase(view, v, blocks, k) && k <= |blocks|
    ensures RecoveryPhase(view, RecoveryStep(v, blocks, k), blocks, k + 1)
  {
    if k < |blocks| {
      InstallKeepsLogical(v, blocks, k);
    } else {
      Installed(view, v, blocks);
      assert v.home + Zip([], v.slots, 0) == view;
    }
  }

  lemma InstallKeepsLogical(v: LogView, blocks: seq<nat>, k: nat)
    requires WfView(v) && v.head == blocks && k < |blocks|
    ensures WfView(RecoveryStep(v, blocks, k))
    ensures Logical(RecoveryStep(v, blocks, k)) == Logical(v)
    ensures RecoveryStep(v, blocks, k).home[blocks[k]] == Logical(v)[blocks[k]]
  {
    ZipAt(blocks, v.slots, |blocks|, k);
    var home := v.home[blocks[k] := v.slots[k]];
    var z := Zip(blocks, v.slots, |blocks|);
    assert home + z == v.home + z;
  }

  lemma LogicalKeys(v: LogView)
    requires WfView(v)
    ensures Logical(v).Keys == v.home.Keys
  {
    forall b | b in Zip(v.head, v.slots, |v.head|) ensures b in v.home {
      ZipKeys(v.head, v.slots, |v.head|, b);
    }
  }

  lemma Installed(view: Contents, v: LogView, blocks: seq<nat>)
    requires RecoveryPhase(view, v, blocks, |blocks|)
    ensures v.home == view
  {
    LogicalKeys(v);
    forall b | b in view ensures v.home[b] == view[b] {
      ZipKeys(blocks, v.slots, |blocks|, b);
      if b in blocks {
        var i :| 0 <= i < |blocks| && blocks[i] == b;
      }
    }
  }

  lemma RecoveryPhaseEnds(view: Contents, v: LogView, blocks: seq<nat>)
    requires RecoveryPhase(view, v, blocks, |blocks| + 1)
    ensures v.head == [] && v.home == view
  {
    assert v.home + Zip([], v.slots, 0) == v.home;
  }

  /** The disk after the first k writes of recover_from_log(). */
  function RecoveryView(v: LogView, k: nat): (r: LogView)
    requires WfView(v) && k <= |v.head| + 1
    ensures r.slots == v.slots
  {
    if k <= |v.head| then InstallView(v, v.head, k)
    else InstallView(v, v.head, |v.head|).(head := [])
  }

  function RecoveryTrace(v: LogView): (t: seq<LogView>)
    requires WfView(v)
    ensures |t| == |v.head| + 1
  {
    InstallTrace(v, v.head, |v.head|) + [InstallView(v, v.head, |v.head|).(head := [])]
  }

  lemma RecoveryViewStep(v: LogView, k: nat)
    requires WfView(v) && k <= |v.head|
    ensures Loggable(RecoveryView(v, k), v.head)
    ensures RecoveryView(v, k + 1) == RecoveryStep(RecoveryView(v, k), v.head, k)
  {
    hide Zip, Distinct;
    InstallKeys(v, v.head, k);
    if k < |v.head| {
      assert InstallView(v, v.head, k + 1) == RecoveryStep(InstallView(v, v.head, k), v.head, k);
    }
  }

  /** Every crash point of a recovery: the disk keeps standing for the same contents,
      and a completed recovery has installed them and emptied the log. */
  lemma {:induction false} RecoveryIdempotent(v: LogView, k: nat)
    requires WfView(v) && k <= |v.head| + 1
    ensures RecoveryPhase(Logical(v), RecoveryView(v, k), v.head, k)
    ensures k == |v.head| + 1 ==> RecoveryView(v, k) == LogView([], v.slots, Logical(v))
  {
    hide Zip, Distinct, RecoveryPhase, RecoveryStep, RecoveryView, InstallView, Logical, Loggable;
    if k == 0 {
      RecoveryPhaseStarts(v);
    } else {
      RecoveryIdempotent(v, k - 1);
      RecoveryViewStep(v, k - 1);
      RecoveryPhaseStep(Logical(v), RecoveryView(v, k - 1), v.head, k - 1);
      if k == |v.head| + 1 {
        RecoveryPhaseEnds(Logical(v), RecoveryView(v, k), v.head);
      }
    }
  }

  lemma HeadLoggable(v: LogView)
    requires WfView(v)
    ensures Loggable(v, v.head)
  {
  }

  /** recover_from_log()'s loop and write, put together. */
  lemma RecoveryPieces(v: LogView, done: LogView)
    requires WfView(v) && Loggable(v, v.head) && done == InstallView(v, v.head, |v.head|).(head := [])
    ensures done == LogView([], v.slots, Logical(v))
    ensures RecoveryTrace(v) == InstallTrace(v, v.head, |v.head|) + [done]
  {
    hide Zip, Distinct, RecoveryPhase, InstallView, InstallTrace, Logical, Loggable, WfView;
    RecoveryIdempotent(v, |v.head| + 1);
  }
}

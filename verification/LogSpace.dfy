/** When log_write can panic with "too big a transaction": admission reserves up to LOGSIZE
    blocks, log_write refuses at log.size - 1. */
module LogSpace {
  import opened Params
  import opened Collections
  import opened Blocks
  import opened RedoLog
  import opened LogDisk
  import opened LogRuns

  ghost predicate Reachable(v: LogView, t: State) {
    exists steps :: Execution(Boot(v, 0, []), steps, t)
  }

  /** In every run on this disk, an operation within its budget of MAXOPBLOCKS
      can log a new block without panicking. */
  ghost predicate NeverTooBig(v: LogView) {
    forall t, i, b :: Reachable(v, t) && MayLog(t, i, b) && b !in t.blocks ==> RoomToLog(t)
  }

  lemma {:induction false} Chain(s: State, a: seq<Step>, t: State, b: seq<Step>, u: State)
    requires Execution(s, a, t) && Execution(t, b, u)
    ensures Execution(s, a + b, u)
    decreases |a|
  {
    hide Next, Enabled;
    if a == [] {
      assert a + b == b;
    } else {
      Chain(Next(s, a[0]), a[1..], t, b, u);
      assert (a + b)[1..] == a[1..] + b;
    }
  }

  lemma Then(s: State, a: seq<Step>, t: State, x: Step)
    requires Execution(s, a, t) && Enabled(t, x)
    ensures Execution(s, a + [x], Next(t, x))
  {
    assert Execution(t, [x], Next(t, x)) by {
      assert [x][1..] == [];
      assert Execution(Next(t, x), [], Next(t, x));
    }
    Chain(s, a, t, [x], Next(t, x));
  }

  /** The log region keeps its size and the disk its blocks. */
  lemma {:induction false} ShapeKept(s: State, steps: seq<Step>, t: State)
    requires Execution(s, steps, t)
    ensures |t.disk.slots| == |s.disk.slots| && t.disk.home.Keys == s.disk.home.Keys
    decreases |steps|
  {
    if steps != [] {
      ShapeStep(s, steps[0]);
      ShapeKept(Next(s, steps[0]), steps[1..], t);
    }
  }

  lemma ShapeStep(s: State, a: Step)
    requires Enabled(s, a)
    ensures |Next(s, a).disk.slots| == |s.disk.slots| && Next(s, a).disk.home.Keys == s.disk.home.Keys
  {
    hide CommitStep, RecoveryStep, Transaction, Loggable;
  }

  lemma UnspentHas(ops: seq<Op>, i: nat)
    requires i < |ops|
    ensures ops[i].unspent <= Unspent(ops)
  {
    UnspentAt(ops, i, ops[i]);
  }

  /** Enough slots: no run panics on a new block. */
  lemma RoomWithAllSlots(v: LogView)
    requires WfView(v) && |v.slots| >= LOGSIZE
    ensures NeverTooBig(v)
  {
    forall t, i, b | Reachable(v, t) && MayLog(t, i, b) && b !in t.blocks ensures RoomToLog(t) {
      var steps :| Execution(Boot(v, 0, []), steps, t);
      BootInv(v, 0);
      RunsAreAtomic(Logical(v), Boot(v, 0, []), steps, t);
      ShapeKept(Boot(v, 0, []), steps, t);
      UnspentHas(t.ops, i);
    }
  }

  // ---- a run that fills the log ----

  /** Recovery run to its end. */
  lemma {:induction false} FinishRecovery(view: Contents, s: State) returns (steps: seq<Step>, t: State)
    requires s.phase.Recovering? && RecoveryPhase(view, s.disk, s.phase.found, s.phase.k)
    ensures Execution(s, steps, t) && t == s.(disk := t.disk, phase := Running)
    decreases |s.phase.found| + 1 - s.phase.k
  {
    if s.phase.k == |s.phase.found| + 1 {
      steps := [RecoverDone];
      t := Next(s, RecoverDone);
      assert Execution(s, [], s);
      Then(s, [], s, RecoverDone);
    } else {
      var m := Next(s, RecoverWrite);
      RecoveryPhaseStep(view, s.disk, s.phase.found, s.phase.k);
      var rest;
      rest, t := FinishRecovery(view, m);
      steps := [RecoverWrite] + rest;
      assert steps[1..] == rest;
    }
  }

  /** Budgets of the first three operations after they logged k blocks between them. */
  function Budget(k: nat, j: nat): nat {
    if k <= MAXOPBLOCKS * j then MAXOPBLOCKS
    else if k >= MAXOPBLOCKS * (j + 1) then 0
    else MAXOPBLOCKS * (j + 1) - k
  }

  ghost predicate Filling(v: LogView, t: State, bs: seq<nat>, k: nat) {
    && t.phase.Running? && k <= |bs| && t.blocks == bs[..k]
    && |t.ops| == 3 && (forall j :: 0 <= j < 3 ==> t.ops[j].unspent == Budget(k, j))
    && |t.disk.slots| == |v.slots| && t.disk.home.Keys == v.home.Keys
  }

  lemma ThreeBegin(s: State, steps: seq<Step>, t: State) returns (more: seq<Step>, u: State)
    requires Execution(s, steps, t) && t.phase.Running? && t.ops == [] && t.blocks == []
    ensures Execution(s, more, u) && u.phase.Running? && u.blocks == [] && u.disk == t.disk
    ensures |u.ops| == 3 && forall j :: 0 <= j < 3 ==> u.ops[j].unspent == MAXOPBLOCKS
  {
    var a := Next(t, Begin);
    Then(s, steps, t, Begin);
    var b := Next(a, Begin);
    Then(s, steps + [Begin], a, Begin);
    u := Next(b, Begin);
    Then(s, steps + [Begin] + [Begin], b, Begin);
    more := steps + [Begin] + [Begin] + [Begin];
  }

  /** Three operations log k distinct blocks, as long as log_write lets them. */
  lemma {:induction false} Fill(v: LogView, bs: seq<nat>, data: Block, k: nat) returns (t: State)
    requires WfView(v) && Distinct(bs) && |bs| == LOGSIZE
    requires forall i :: 0 <= i < |bs| ==> bs[i] in v.home
    requires k <= LOGSIZE && k <= |v.slots|
    ensures Reachable(v, t) && Filling(v, t, bs, k)
  {
    var s := Boot(v, 0, []);
    if k == 0 {
      RecoveryPhaseStarts(v);
      var steps, r := FinishRecovery(Logical(v), s);
      var more;
      more, t := ThreeBegin(s, steps, r);
      ShapeKept(s, more, t);
    } else {
      var m := Fill(v, bs, data, k - 1);
      var steps :| Execution(s, steps, m);
      var i, b := (k - 1) / MAXOPBLOCKS, bs[k - 1];
      FreshNotLogged(bs, k - 1);
      assert MayLog(m, i, b);
      var x := LogWrite(i, b, data);
      t := Next(m, x);
      Then(s, steps, m, x);
      FilledOne(v, m, bs, k, data);
    }
  }

  lemma FreshNotLogged(bs: seq<nat>, k: nat)
    requires Distinct(bs) && k < |bs|
    ensures bs[k] !in bs[..k]
  {
  }

  lemma FilledOne(v: LogView, m: State, bs: seq<nat>, k: nat, data: Block)
    requires 0 < k <= |bs| == LOGSIZE && Distinct(bs)
    requires Filling(v, m, bs, k - 1) && MayLog(m, (k - 1) / MAXOPBLOCKS, bs[k - 1])
    ensures Filling(v, Logged(m, (k - 1) / MAXOPBLOCKS, bs[k - 1], data), bs, k)
  {
    FreshNotLogged(bs, k - 1);
    assert bs[..k] == bs[..k - 1] + [bs[k - 1]];
  }

  /** Too few slots: three operations within their budgets reach the panic. */
  lemma PanicWithFewSlots(v: LogView, bs: seq<nat>, data: Block)
    requires WfView(v) && Distinct(bs) && |bs| == LOGSIZE
    requires forall i :: 0 <= i < |bs| ==> bs[i] in v.home
    requires |v.slots| < LOGSIZE
    ensures !NeverTooBig(v)
  {
    var k := |v.slots|;
    var t := Fill(v, bs, data, k);
    FreshNotLogged(bs, k);
    assert MayLog(t, k / MAXOPBLOCKS, bs[k]) && !RoomToLog(t);
  }

  /** "too big a transaction" is unreachable for new blocks exactly when the log region has
      LOGSIZE slots besides its header, that is log.size > LOGSIZE. mkfs makes log.size == LOGSIZE. */
  lemma TooBigExactly(v: LogView, bs: seq<nat>, data: Block)
    requires WfView(v) && Distinct(bs) && |bs| == LOGSIZE
    requires forall i :: 0 <= i < |bs| ==> bs[i] in v.home
    ensures NeverTooBig(v) <==> |v.slots| >= LOGSIZE
  {
    if |v.slots| >= LOGSIZE {
      RoomWithAllSlots(v);
    } else {
      PanicWithFewSlots(v, bs, data);
    }
  }

  /** Even then a full log refuses to absorb a rewrite of a block it already holds. */
  lemma FullLogRefusesRewrite(v: LogView, bs: seq<nat>, data: Block) returns (t: State)
    requires WfView(v) && Distinct(bs) && |bs| == LOGSIZE && |v.slots| >= LOGSIZE
    requires forall i :: 0 <= i < |bs| ==> bs[i] in v.home
    ensures Reachable(v, t) && MayLog(t, 0, bs[0]) && bs[0] in t.blocks && !RoomToLog(t)
  {
    t := Fill(v, bs, data, LOGSIZE);
    assert t.blocks[0] == bs[0];
  }
}

/** Runs of the log: any number of operations interleaving begin_op, log_write and end_op,
    a commit that writes one block per step, crashes at any moment, and recoveries that may
    crash again. */
module LogRuns {
  import opened Params
  import opened Collections
  import opened Blocks
  import opened RedoLog
  import opened LogDisk

  /** One log_write call: who made it, and what it put in which block. */
  datatype Update = Update(op: nat, bno: nat, data: Block)

  /** An outstanding operation and how many new block numbers it may still log. */
  datatype Op = Op(id: nat, unspent: nat)

  datatype Phase =
    | Running
    | Committing(k: nat)                     // k writes of commit() done
    | Recovering(found: seq<nat>, k: nat)    // read_head found `found`, k writes done

  datatype State = State(
    disk: LogView,              // survives a crash
    phase: Phase,
    blocks: seq<nat>,           // log.lh
    dirty: Contents,            // pinned buffers
    ops: seq<Op>,               // log.outstanding is |ops|
    sleepers: set<nat>,         // processes asleep in begin_op
    next: nat,                  // next operation's id
    pending: seq<Update>,       // log_writes since the last commit or crash
    history: seq<seq<Update>>)  // committed transactions

  function Replay(m: Contents, us: seq<Update>): Contents {
    if us == [] then m
    else Replay(m, us[..|us| - 1])[us[|us| - 1].bno := us[|us| - 1].data]
  }

  function ReplayAll(m: Contents, h: seq<seq<Update>>): Contents {
    if h == [] then m else Replay(ReplayAll(m, h[..|h| - 1]), h[|h| - 1])
  }

  lemma {:induction false} ReplayOver(m: Contents, us: seq<Update>)
    ensures Replay(m, us) == m + Replay(map[], us)
  {
    if us != [] {
      ReplayOver(m, us[..|us| - 1]);
    }
  }

  function Unspent(ops: seq<Op>): nat {
    if ops == [] then 0 else Unspent(ops[..|ops| - 1]) + ops[|ops| - 1].unspent
  }

  lemma {:induction false} UnspentSplit(a: seq<Op>, b: seq<Op>)
    ensures Unspent(a + b) == Unspent(a) + Unspent(b)
  {
    if b == [] {
      assert a + b == a;
    } else {
      UnspentSplit(a, b[..|b| - 1]);
      assert (a + b)[..|a + b| - 1] == a + b[..|b| - 1];
    }
  }

  lemma UnspentAt(ops: seq<Op>, i: nat, o: Op)
    requires i < |ops|
    ensures Unspent(ops[i := o]) == Unspent(ops) - ops[i].unspent + o.unspent
    ensures Unspent(ops[..i] + ops[i + 1..]) == Unspent(ops) - ops[i].unspent
  {
    assert ops == ops[..i] + ([ops[i]] + ops[i + 1..]);
    assert ops[i := o] == ops[..i] + ([o] + ops[i + 1..]);
    UnspentSplit(ops[..i], [ops[i]] + ops[i + 1..]);
    UnspentSplit(ops[..i], [o] + ops[i + 1..]);
    UnspentSplit([ops[i]], ops[i + 1..]);
    UnspentSplit([o], ops[i + 1..]);
    UnspentSplit(ops[..i], ops[i + 1..]);
  }

  lemma {:induction false} UnspentBound(ops: seq<Op>)
    requires forall i :: 0 <= i < |ops| ==> ops[i].unspent <= MAXOPBLOCKS
    ensures Unspent(ops) <= |ops| * MAXOPBLOCKS
  {
    if ops != [] {
      UnspentBound(ops[..|ops| - 1]);
    }
  }

  // ---- the steps ----

  datatype Step =
    | Begin                                  // begin_op admits a caller
    | Sleep(proc: nat)                       // begin_op puts its caller to sleep
    | LogWrite(i: nat, bno: nat, data: Block) // log_write by the i-th outstanding operation
    | End(i: nat)                            // end_op
    | CommitWrite                            // commit() writes its next block
    | CommitDone                             // end_op clears log.committing
    | Crash
    | RecoverWrite                           // recover_from_log writes its next block
    | RecoverDone

  /** begin_op's test for log space. */
  predicate Admits(s: State) {
    s.phase.Running? && |s.blocks| + (|s.ops| + 1) * MAXOPBLOCKS <= LOGSIZE
  }

  /** log_write's test; it panics with "too big a transaction" otherwise. log.size - 1 == |slots|. */
  predicate RoomToLog(s: State) {
    |s.blocks| < LOGSIZE && |s.blocks| < |s.disk.slots|
  }

  /** What an operation may ask of log_write: home blocks, and at most MAXOPBLOCKS new ones. */
  predicate MayLog(s: State, i: nat, b: nat) {
    && s.phase.Running? && i < |s.ops| && b in s.disk.home
    && (b in s.blocks || s.ops[i].unspent > 0)
  }

  predicate Enabled(s: State, a: Step) {
    match a
    case Begin => Admits(s)
    case Sleep(_) => !Admits(s) && !s.phase.Recovering?
    case LogWrite(i, b, _) => MayLog(s, i, b) && RoomToLog(s)
    case End(i) => s.phase.Running? && i < |s.ops|
    case CommitWrite =>
      && s.phase.Committing? && Transaction(s.disk, s.blocks, s.dirty)
      && s.blocks != [] && s.phase.k < CommitLength(|s.blocks|)
    case CommitDone =>
      && s.phase.Committing?
      && (s.blocks == [] || s.phase.k == CommitLength(|s.blocks|))
    case Crash => true
    case RecoverWrite =>
      s.phase.Recovering? && Loggable(s.disk, s.phase.found) && s.phase.k <= |s.phase.found|
    case RecoverDone => s.phase.Recovering? && s.phase.k == |s.phase.found| + 1
  }

  /** Booting from a disk: memory is empty, read_head has run. */
  function Boot(v: LogView, next: nat, history: seq<seq<Update>>): State {
    State(v, Recovering(v.head, 0), [], map[], [], {}, next, [], history)
  }

  function Logged(s: State, i: nat, b: nat, data: Block): State
    requires MayLog(s, i, b)
  {
    var o := s.ops[i];
    s.(blocks := Extend(s.blocks, b),
       dirty := s.dirty[b := data],
       ops := if b in s.blocks then s.ops else s.ops[i := o.(unspent := o.unspent - 1)],
       pending := s.pending + [Update(o.id, b, data)])
  }

  function Ended(s: State, i: nat): State
    requires i < |s.ops|
  {
    var rest := s.ops[..i] + s.ops[i + 1..];
    if rest == [] then s.(ops := rest, phase := Committing(0))
    else s.(ops := rest, sleepers := {})
  }

  /** The header write, number n, is the commit point. */
  function Committed(s: State): State
    requires Enabled(s, CommitWrite)
  {
    var t := s.(disk := CommitStep(s.disk, s.blocks, s.dirty, s.phase.k), phase := Committing(s.phase.k + 1));
    if s.phase.k == |s.blocks| then t.(history := s.history + [s.pending], pending := []) else t
  }

  function Next(s: State, a: Step): State
    requires Enabled(s, a)
  {
    match a
    case Begin => s.(ops := s.ops + [Op(s.next, MAXOPBLOCKS)], next := s.next + 1)
    case Sleep(p) => s.(sleepers := s.sleepers + {p})
    case LogWrite(i, b, data) => Logged(s, i, b, data)
    case End(i) => Ended(s, i)
    case CommitWrite => Committed(s)
    case CommitDone => s.(phase := Running, blocks := [], dirty := map[], sleepers := {})
    case Crash => Boot(s.disk, s.next, s.history)
    case RecoverWrite =>
      s.(disk := RecoveryStep(s.disk, s.phase.found, s.phase.k), phase := s.phase.(k := s.phase.k + 1))
    case RecoverDone => s.(phase := Running)
  }

  ghost predicate Execution(s: State, steps: seq<Step>, t: State)
    decreases |steps|
  {
    if steps == [] then s == t
    else Enabled(s, steps[0]) && Execution(Next(s, steps[0]), steps[1..], t)
  }

  // ---- what every run keeps ----

  /** The disk stands for exactly the committed transactions. */
  ghost predicate DiskInv(base: Contents, s: State) {
    WfView(s.disk) && Logical(s.disk) == ReplayAll(base, s.history)
  }

  ghost predicate PhaseInv(base: Contents, s: State) {
    var h := s.history;
    match s.phase
    case Running =>
      && s.disk.head == [] && Transaction(s.disk, s.blocks, s.dirty)
      && s.dirty == Replay(map[], s.pending)
    case Committing(k) =>
      if k <= |s.blocks| then
        && CommitPhase(ReplayAll(base, h), s.disk, s.blocks, s.dirty, k)
        && s.dirty == Replay(map[], s.pending)
      else
        && h != [] && CommitPhase(ReplayAll(base, h[..|h| - 1]), s.disk, s.blocks, s.dirty, k)
        && s.dirty == Replay(map[], h[|h| - 1]) && s.pending == []
    case Recovering(found, k) =>
      && RecoveryPhase(ReplayAll(base, h), s.disk, found, k)
      && s.pending == []
  }

  /** Admission keeps the reserved space within LOGSIZE; a commit or recovery runs alone;
      an idle log is empty; nobody sleeps in begin_op without an operation or a commit
      that will wake it. */
  ghost predicate SpaceInv(s: State) {
    && |s.blocks| + Unspent(s.ops) <= LOGSIZE
    && (forall i :: 0 <= i < |s.ops| ==> s.ops[i].unspent <= MAXOPBLOCKS)
    && (!s.phase.Running? ==> s.ops == [])
    && (s.phase.Running? && s.ops == [] ==> s.blocks == [])
    && (s.phase.Recovering? ==> s.blocks == [] && s.dirty == map[])
    && (s.sleepers != {} ==> s.ops != [] || s.phase.Committing?)
  }

  lemma SpaceStep(s: State, a: Step)
    requires SpaceInv(s) && Enabled(s, a)
    ensures SpaceInv(Next(s, a))
  {
    match a
    case Begin => SpaceBegin(s);
    case LogWrite(i, b, data) => SpaceLogWrite(s, i, b, data);
    case End(i) => SpaceEnd(s, i);
    case _ =>
      hide CommitStep, RecoveryStep, Transaction, Loggable;
  }

  lemma SpaceBegin(s: State)
    requires SpaceInv(s) && Admits(s)
    ensures SpaceInv(Next(s, Begin))
  {
    assert (s.ops + [Op(s.next, MAXOPBLOCKS)])[..|s.ops|] == s.ops;
    UnspentBound(s.ops);
  }

  lemma SpaceLogWrite(s: State, i: nat, b: nat, data: Block)
    requires SpaceInv(s) && MayLog(s, i, b)
    ensures SpaceInv(Logged(s, i, b, data))
  {
    if b !in s.blocks {
      UnspentAt(s.ops, i, s.ops[i].(unspent := s.ops[i].unspent - 1));
    }
  }

  lemma SpaceEnd(s: State, i: nat)
    requires SpaceInv(s) && s.phase.Running? && i < |s.ops|
    ensures SpaceInv(Ended(s, i))
  {
    UnspentAt(s.ops, i, s.ops[i]);
  }

  lemma DiskStep(base: Contents, s: State, a: Step)
    requires DiskInv(base, s) && PhaseInv(base, s) && SpaceInv(s) && Enabled(s, a)
    ensures DiskInv(base, Next(s, a)) && PhaseInv(base, Next(s, a))
  {
    match a
    case Begin =>
    case Sleep(p) =>
    case LogWrite(i, b, data) => LogWriteStep(base, s, i, b, data);
    case End(i) => EndStep(base, s, i);
    case CommitWrite => CommitWriteStep(base, s);
    case CommitDone => CommitDoneStep(base, s);
    case Crash => RecoveryPhaseStarts(s.disk);
    case RecoverWrite => RecoveryPhaseStep(ReplayAll(base, s.history), s.disk, s.phase.found, s.phase.k);
    case RecoverDone => RecoveryPhaseEnds(ReplayAll(base, s.history), s.disk, s.phase.found);
  }

  lemma LogWriteStep(base: Contents, s: State, i: nat, b: nat, data: Block)
    requires DiskInv(base, s) && PhaseInv(base, s) && MayLog(s, i, b) && RoomToLog(s)
    ensures DiskInv(base, Logged(s, i, b, data)) && PhaseInv(base, Logged(s, i, b, data))
  {
    Extended(s.disk, s.blocks, s.dirty, b, data);
    var us := s.pending + [Update(s.ops[i].id, b, data)];
    assert us[..|us| - 1] == s.pending;
  }

  lemma EndStep(base: Contents, s: State, i: nat)
    requires DiskInv(base, s) && PhaseInv(base, s) && s.phase.Running? && i < |s.ops|
    ensures DiskInv(base, Ended(s, i)) && PhaseInv(base, Ended(s, i))
  {
    LogicalEmpty(s.disk);
  }

  lemma CommitWriteStep(base: Contents, s: State)
    requires DiskInv(base, s) && PhaseInv(base, s) && Enabled(s, CommitWrite)
    ensures DiskInv(base, Committed(s)) && PhaseInv(base, Committed(s))
  {
    hide CommitStep, CommitPhase, Loggable, Logical, Committed, Distinct, Replay;
    var h, k, n := s.history, s.phase.k, |s.blocks|;
    if k < n {
      PlainCommitWrite(ReplayAll(base, h), s);
    } else if k == n {
      HeaderWriteStep(base, s);
    } else {
      InstallWriteStep(base, s);
    }
  }

  lemma HeaderWriteStep(base: Contents, s: State)
    requires PhaseInv(base, s) && Enabled(s, CommitWrite) && s.phase.k == |s.blocks|
    ensures DiskInv(base, Committed(s)) && PhaseInv(base, Committed(s))
  {
    HeaderWrite(ReplayAll(base, s.history), s);
    hide CommitStep, CommitPhase, Loggable, Logical, Committed, Distinct, Replay;
    var g := s.history + [s.pending];
    assert g[..|g| - 1] == s.history;
  }

  lemma InstallWriteStep(base: Contents, s: State)
    requires PhaseInv(base, s) && Enabled(s, CommitWrite) && s.phase.k > |s.blocks|
    ensures DiskInv(base, Committed(s)) && PhaseInv(base, Committed(s))
  {
    var h := s.history;
    PlainCommitWrite(ReplayAll(base, h[..|h| - 1]), s);
    hide CommitStep, CommitPhase, Loggable, Logical, Committed, Distinct, Replay;
    ReplayOver(ReplayAll(base, h[..|h| - 1]), h[|h| - 1]);
  }

  lemma PlainCommitWrite(before: Contents, s: State)
    requires Enabled(s, CommitWrite) && s.phase.k != |s.blocks|
    requires CommitPhase(before, s.disk, s.blocks, s.dirty, s.phase.k)
    ensures var t := Committed(s);
            && t == s.(disk := t.disk, phase := Committing(s.phase.k + 1))
            && CommitPhase(before, t.disk, t.blocks, t.dirty, t.phase.k) && WfView(t.disk)
            && Logical(t.disk) == if s.phase.k < |s.blocks| then before else before + s.dirty
  {
    hide CommitStep, CommitPhase, Loggable, Logical;
    CommitPhaseNext(before, s.disk, s.blocks, s.dirty, s.phase.k);
  }

  /** The commit point: one more transaction, and the disk stands for it at once. */
  lemma HeaderWrite(before: Contents, s: State)
    requires Enabled(s, CommitWrite) && s.phase.k == |s.blocks| && s.dirty == Replay(map[], s.pending)
    requires CommitPhase(before, s.disk, s.blocks, s.dirty, s.phase.k)
    ensures var t := Committed(s);
            && t == s.(disk := t.disk, phase := Committing(s.phase.k + 1),
                       history := s.history + [s.pending], pending := [])
            && CommitPhase(before, t.disk, t.blocks, t.dirty, t.phase.k) && WfView(t.disk)
            && Logical(t.disk) == Replay(before, s.pending)
  {
    hide CommitStep, CommitPhase, Loggable, Logical;
    CommitPhaseNext(before, s.disk, s.blocks, s.dirty, s.phase.k);
    ReplayOver(before, s.pending);
  }

  lemma CommitDoneStep(base: Contents, s: State)
    requires DiskInv(base, s) && PhaseInv(base, s) && Enabled(s, CommitDone)
    ensures DiskInv(base, Next(s, CommitDone)) && PhaseInv(base, Next(s, CommitDone))
  {
  }

  ghost predicate Inv(base: Contents, s: State) {
    DiskInv(base, s) && PhaseInv(base, s) && SpaceInv(s)
  }

  /** Crash atomicity over whole runs: whatever the interleaving, wherever the crashes fall,
      including inside recoveries, the disk stands for the starting contents followed by
      exactly the transactions whose header write completed. */
  lemma {:induction false} RunsAreAtomic(base: Contents, s: State, steps: seq<Step>, t: State)
    requires Inv(base, s) && Execution(s, steps, t)
    ensures Inv(base, t)
    decreases |steps|
  {
    if steps != [] {
      hide Inv;
      InvStep(base, s, steps[0]);
      RunsAreAtomic(base, Next(s, steps[0]), steps[1..], t);
    }
  }

  lemma InvStep(base: Contents, s: State, a: Step)
    requires Inv(base, s) && Enabled(s, a)
    ensures Inv(base, Next(s, a))
  {
    hide DiskInv, PhaseInv, SpaceInv, Next;
    SpaceStep(s, a);
    DiskStep(base, s, a);
  }

  lemma BootInv(v: LogView, next: nat)
    requires WfView(v)
    ensures Inv(Logical(v), Boot(v, next, []))
  {
    RecoveryPhaseStarts(v);
  }

  /** From any well-formed disk: whenever no recovery or commit is in progress, the home blocks
      themselves hold exactly the committed transactions. */
  lemma RunsFromBoot(v: LogView, steps: seq<Step>, t: State)
    requires WfView(v) && Execution(Boot(v, 0, []), steps, t)
    ensures WfView(t.disk) && Logical(t.disk) == ReplayAll(Logical(v), t.history)
    ensures t.phase.Running? ==> t.disk.head == [] && t.disk.home == ReplayAll(Logical(v), t.history)
  {
    BootInv(v, 0);
    RunsAreAtomic(Logical(v), Boot(v, 0, []), steps, t);
    if t.phase.Running? {
      LogicalEmpty(t.disk);
    }
  }

  // ---- operations are never split between transactions ----

  ghost predicate AllBelow(us: seq<Update>, x: nat) {
    forall i :: 0 <= i < |us| ==> us[i].op < x
  }

  ghost predicate Before(us: seq<Update>, vs: seq<Update>) {
    forall i, j :: 0 <= i < |us| && 0 <= j < |vs| ==> us[i].op < vs[j].op
  }

  ghost predicate OrderInv(s: State) {
    && AllBelow(s.pending, s.next)
    && (forall o :: 0 <= o < |s.ops| ==> s.ops[o].id < s.next)
    && (forall j :: 0 <= j < |s.history| ==> AllBelow(s.history[j], s.next) && Before(s.history[j], s.pending))
    && (forall j, o :: 0 <= j < |s.history| && 0 <= o < |s.ops| ==> AllBelow(s.history[j], s.ops[o].id))
    && (forall j, k :: 0 <= j < k < |s.history| ==> Before(s.history[j], s.history[k]))
  }

  lemma OrderStep(s: State, a: Step)
    requires OrderInv(s) && SpaceInv(s) && Enabled(s, a)
    ensures OrderInv(Next(s, a))
  {
    hide CommitStep, RecoveryStep, Transaction, Loggable;
    match a
    case Begin => OrderBegun(s);
    case LogWrite(i, b, data) => OrderLogged(s, i, b, data);
    case End(i) => OrderEnded(s, i);
    case CommitWrite => OrderCommitted(s);
    case _ =>
  }

  lemma OrderBegun(s: State)
    requires OrderInv(s) && Admits(s)
    ensures OrderInv(Next(s, Begin))
  {
    hide Enabled;
  }

  lemma OrderEnded(s: State, i: nat)
    requires OrderInv(s) && i < |s.ops|
    ensures OrderInv(Ended(s, i))
  {
    var rest := s.ops[..i] + s.ops[i + 1..];
    assert forall o :: 0 <= o < |rest| ==> rest[o] == s.ops[if o < i then o else o + 1];
  }

  lemma OrderCommitted(s: State)
    requires OrderInv(s) && SpaceInv(s) && Enabled(s, CommitWrite)
    ensures OrderInv(Committed(s))
  {
    hide CommitStep, Transaction;
  }

  lemma OrderLogged(s: State, i: nat, b: nat, data: Block)
    requires OrderInv(s) && MayLog(s, i, b)
    ensures OrderInv(Logged(s, i, b, data))
  {
    var t := Logged(s, i, b, data);
    assert forall o :: 0 <= o < |t.ops| ==> t.ops[o].id == s.ops[o].id;
  }

  /** The updates of operation o. */
  function Of(us: seq<Update>, o: nat): seq<Update> {
    if us == [] then []
    else
      var rest := Of(us[..|us| - 1], o);
      if us[|us| - 1].op == o then rest + [us[|us| - 1]] else rest
  }

  ghost predicate Has(us: seq<Update>, o: nat) { exists i :: 0 <= i < |us| && us[i].op == o }

  /** The log_write that a step is, if it is one. */
  function Call(s: State, a: Step): seq<Update>
    requires Enabled(s, a)
  {
    if a.LogWrite? then [Update(s.ops[a.i].id, a.bno, a.data)] else []
  }

  /** All log_writes of a run, in order. */
  ghost function Calls(s: State, steps: seq<Step>, t: State): seq<Update>
    requires Execution(s, steps, t)
    decreases |steps|
  {
    if steps == [] then [] else Call(s, steps[0]) + Calls(Next(s, steps[0]), steps[1..], t)
  }

  ghost predicate Active(s: State, o: nat) { exists i :: 0 <= i < |s.ops| && s.ops[i].id == o }

  /** An operation that is running, or has logged since the last commit, has all its updates there. */
  ghost predicate PendingOk(s: State, calls: seq<Update>, o: nat) {
    Active(s, o) || Has(s.pending, o) ==> Of(calls, o) == Of(s.pending, o)
  }

  ghost predicate CommittedOk(us: seq<Update>, calls: seq<Update>, o: nat) {
    Has(us, o) ==> Of(calls, o) == Of(us, o)
  }

  ghost predicate CallsInv(s: State, calls: seq<Update>) {
    && AllBelow(calls, s.next)
    && (forall o: nat {:trigger PendingOk(s, calls, o)} :: PendingOk(s, calls, o))
    && (forall j, o: nat {:trigger CommittedOk(s.history[j], calls, o)} ::
          0 <= j < |s.history| ==> CommittedOk(s.history[j], calls, o))
  }

  lemma {:induction false} OfNone(us: seq<Update>, o: nat)
    requires forall i :: 0 <= i < |us| ==> us[i].op != o
    ensures Of(us, o) == []
  {
    if us != [] {
      OfNone(us[..|us| - 1], o);
    }
  }

  lemma CallsStep(s: State, calls: seq<Update>, a: Step)
    requires CallsInv(s, calls) && OrderInv(s) && SpaceInv(s) && Enabled(s, a)
    ensures CallsInv(Next(s, a), calls + Call(s, a))
  {
    hide CommitStep, RecoveryStep, Transaction, Loggable, Of;
    var t, c := Next(s, a), calls + Call(s, a);
    if !a.LogWrite? {
      assert c == calls;
    }
    forall o: nat ensures PendingOk(t, c, o) {
      PendingStep(s, calls, a, o);
    }
    forall j, o: nat | 0 <= j < |t.history| ensures CommittedOk(t.history[j], c, o) {
      CommittedStep(s, calls, a, j, o);
    }
  }

  lemma LoggedOf(us: seq<Update>, u: Update, o: nat)
    ensures Of(us + [u], o) == if u.op == o then Of(us, o) + [u] else Of(us, o)
  {
    assert (us + [u])[..|us + [u]| - 1] == us;
  }

  lemma PendingStep(s: State, calls: seq<Update>, a: Step, o: nat)
    requires CallsInv(s, calls) && OrderInv(s) && SpaceInv(s) && Enabled(s, a)
    ensures PendingOk(Next(s, a), calls + Call(s, a), o)
  {
    hide CommitStep, RecoveryStep, Transaction, Loggable, Of;
    var t := Next(s, a);
    assert PendingOk(s, calls, o);
    match a
    case Begin =>
      assert calls + [] == calls;
      if o == s.next {
        OfNone(calls, o);
        OfNone(s.pending, o);
      }
    case LogWrite(i, b, data) =>
      var u := Update(s.ops[i].id, b, data);
      LoggedOf(calls, u, o);
      LoggedOf(s.pending, u, o);
      assert Has(t.pending, o) ==> Has(s.pending, o) || o == u.op;
      assert Active(t, o) ==> Active(s, o);
      assert Active(s, u.op);
    case End(i) =>
      assert calls + [] == calls;
      assert Active(t, o) ==> Active(s, o);
    case _ =>
      assert calls + [] == calls;
  }

  lemma CommittedStep(s: State, calls: seq<Update>, a: Step, j: nat, o: nat)
    requires CallsInv(s, calls) && OrderInv(s) && SpaceInv(s) && Enabled(s, a) && j < |Next(s, a).history|
    ensures CommittedOk(Next(s, a).history[j], calls + Call(s, a), o)
  {
    hide CommitStep, RecoveryStep, Transaction, Loggable, Of;
    var t := Next(s, a);
    if j < |s.history| {
      assert t.history[j] == s.history[j] && CommittedOk(s.history[j], calls, o);
    } else {
      assert t.history[j] == s.pending && PendingOk(s, calls, o);
    }
    if a.LogWrite? {
      LoggedOf(calls, Call(s, a)[0], o);
      assert AllBelow(s.history[j], s.ops[a.i].id);
    } else {
      assert calls + [] == calls;
    }
  }

  lemma {:induction false} OrderRun(s: State, calls: seq<Update>, steps: seq<Step>, t: State)
    requires OrderInv(s) && SpaceInv(s) && CallsInv(s, calls) && Execution(s, steps, t)
    ensures OrderInv(t) && CallsInv(t, calls + Calls(s, steps, t))
    decreases |steps|
  {
    hide OrderInv, SpaceInv, CallsInv;
    if steps == [] {
      assert calls + [] == calls;
    } else {
      var m := Next(s, steps[0]);
      SpaceStep(s, steps[0]);
      OrderStep(s, steps[0]);
      CallsStep(s, calls, steps[0]);
      OrderRun(m, calls + Call(s, steps[0]), steps[1..], t);
      assert calls + Call(s, steps[0]) + Calls(m, steps[1..], t) == calls + Calls(s, steps, t);
    }
  }

  /** No operation is split: from any disk and over any run, if a committed transaction holds an update
      of an operation, it holds everything that operation ever logged, in order; no other transaction
      has any of it, and none of it is still to be committed. */
  lemma OperationsAreAtomic(v: LogView, steps: seq<Step>, t: State, j: nat, o: nat)
    requires Execution(Boot(v, 0, []), steps, t) && j < |t.history| && Has(t.history[j], o)
    ensures Of(Calls(Boot(v, 0, []), steps, t), o) == Of(t.history[j], o)
    ensures forall i :: 0 <= i < |t.history| && i != j ==> !Has(t.history[i], o)
    ensures !Has(t.pending, o) && !Active(t, o)
  {
    var s := Boot(v, 0, []);
    assert CallsInv(s, []);
    OrderRun(s, [], steps, t);
    assert [] + Calls(s, steps, t) == Calls(s, steps, t);
    assert CommittedOk(t.history[j], Calls(s, steps, t), o);
  }

  // ---- nothing is lost but by a crash ----

  function Flat(h: seq<seq<Update>>): seq<Update> { if h == [] then [] else Flat(h[..|h| - 1]) + h[|h| - 1] }

  /** What a run has logged is committed or about to be, in order. */
  lemma {:induction false} NothingLost(s: State, steps: seq<Step>, t: State)
    requires Execution(s, steps, t) && Crash !in steps
    ensures Flat(t.history) + t.pending == Flat(s.history) + s.pending + Calls(s, steps, t)
    decreases |steps|
  {
    hide Enabled, Next, Call;
    if steps == [] {
      assert Flat(s.history) + s.pending + [] == Flat(s.history) + s.pending;
    } else {
      var m, c := Next(s, steps[0]), Call(s, steps[0]);
      KeepsAll(s, steps[0]);
      NothingLost(m, steps[1..], t);
      assert Flat(s.history) + s.pending + c + Calls(m, steps[1..], t)
          == Flat(s.history) + s.pending + Calls(s, steps, t);
    }
  }

  lemma KeepsAll(s: State, a: Step)
    requires Enabled(s, a) && !a.Crash?
    ensures var t := Next(s, a); Flat(t.history) + t.pending == Flat(s.history) + s.pending + Call(s, a)
  {
    hide CommitStep, RecoveryStep, Transaction, Loggable;
    var t := Next(s, a);
    assert (s.history + [s.pending])[..|s.history + [s.pending]| - 1] == s.history;
    assert Flat(s.history) + (s.pending + Call(s, a)) == Flat(s.history) + s.pending + Call(s, a);
  }

  lemma ReplayNothing(us: seq<Update>)
    ensures Replay(map[], us) == map[] ==> us == []
  {
    if us != [] {
      assert us[|us| - 1].bno in Replay(map[], us);
    }
  }

  /** And when no operation is outstanding and no commit running, all of it is committed. */
  lemma IdleIsDurable(base: Contents, s: State)
    requires Inv(base, s) && s.phase.Running? && s.ops == []
    ensures s.pending == [] && s.disk.home == ReplayAll(base, s.history)
  {
    LogicalEmpty(s.disk);
    ReplayNothing(s.pending);
  }

  // ---- log space ----

  /** Someone will wake a sleeper: an operation that can end, or a commit that can move on. */
  lemma SleepersHaveWaker(base: Contents, s: State)
    requires Inv(base, s) && s.sleepers != {}
    ensures Enabled(s, End(0)) || Enabled(s, CommitWrite) || Enabled(s, CommitDone)
  {
  }

  /** end_op wakes everybody who sleeps in begin_op: at once if other operations are outstanding, and
      otherwise it starts the commit, whose end does. */
  lemma EndOpWakes(s: State, i: nat)
    requires Enabled(s, End(i))
    ensures |Next(s, End(i)).ops| == |s.ops| - 1
    ensures |s.ops| > 1 ==> Next(s, End(i)).sleepers == {} && Next(s, End(i)).phase == s.phase
    ensures |s.ops| == 1 ==> Next(s, End(i)).phase == Committing(0)
  {
  }

  predicate Wakes(s: State, a: Step) { (a.End? && |s.ops| > 1) || a.CommitDone? || a.Crash? }

  /** Some step of the run put p to sleep, and none after it woke the sleepers. */
  ghost predicate FellAsleep(s: State, steps: seq<Step>, p: nat)
    decreases |steps|
  {
    steps != [] && Enabled(s, steps[0])
    && (FellAsleep(Next(s, steps[0]), steps[1..], p)
        || (steps[0] == Sleep(p) && StaysAsleep(Next(s, steps[0]), steps[1..])))
  }

  ghost predicate StaysAsleep(s: State, steps: seq<Step>)
    decreases |steps|
  {
    steps == [] || (Enabled(s, steps[0]) && !Wakes(s, steps[0]) && StaysAsleep(Next(s, steps[0]), steps[1..]))
  }

  /** A process sleeps in begin_op exactly if it went to sleep there and nothing has woken the sleepers
      since. */
  lemma {:induction false} SleepsExactly(s: State, steps: seq<Step>, t: State, p: nat)
    requires Execution(s, steps, t)
    ensures p in t.sleepers <==> FellAsleep(s, steps, p) || (p in s.sleepers && StaysAsleep(s, steps))
    decreases |steps|
  {
    hide Enabled, Next, Wakes;
    if steps != [] {
      SleepersStep(s, steps[0], p);
      SleepsExactly(Next(s, steps[0]), steps[1..], t, p);
    }
  }

  lemma SleepersStep(s: State, a: Step, p: nat)
    requires Enabled(s, a)
    ensures p in Next(s, a).sleepers <==> a == Sleep(p) || (p in s.sleepers && !Wakes(s, a))
  {
  }

  /** With no operation outstanding and no commit running, begin_op admits its caller. */
  lemma IdleLogAdmits(s: State)
    requires SpaceInv(s) && s.phase.Running? && s.ops == []
    ensures Admits(s)
  {
  }
}

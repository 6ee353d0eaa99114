/** proc.c: fork, exit, wait, sleep and wakeup as steps that interleave. A step is what happens
    under one holding of a lock; wakeup and the scans of the table take one step per slot. */
module Lifecycle {
  datatype Run = Unused | Used | Sleeping | Runnable | Running | Zombie

  /** Where a process is in the code.
      Scan: in wait, holding wait_lock, at slot k of the table, with or without a child seen.
      Drowsy: in sleep, holding wait_lock, about to take its own lock. Commit: holding both. Falling:
      wait_lock released, not yet asleep. Asleep: sleeping on its own address, or woken and about to
      take wait_lock again.
      Reparent, WakeInit, WakeParent: in exit, holding wait_lock. Dying: a zombie that still holds
      wait_lock and its own lock. Dead: still holds its own lock. Gone: switched away for good.
      Forking, Forked: in fork, before and after the child gets its parent. */
  datatype Pc =
    | Idle
    | Scan(k: nat, kids: bool) | Drowsy | Commit | Falling | Asleep
    | Reparent(i: nat) | WakeInit(i: nat, j: nat) | WakeParent(j: nat) | Dying | Dead | Gone
    | Forking(child: nat) | Forked(child: nat)

  /** parent is a slot, or the table's length for none; ret is what the last wait returned. */
  datatype Proc = Proc(st: Run, parent: nat, pid: nat, pc: Pc, killed: bool, ret: int)

  /** What freeproc leaves in a table of n slots. */
  function Blank(n: nat): Proc { Proc(Unused, n, 0, Idle, false, 0) }

  /** lock is wait_lock's holder, or the table's length; reaped lists the pids that wait has freed. */
  datatype State = State(procs: seq<Proc>, lock: nat, init: nat, nextpid: nat, reaped: seq<nat>)

  predicate HoldsWait(pc: Pc) {
    pc.Scan? || pc.Drowsy? || pc.Commit? || pc.Reparent? || pc.WakeInit? || pc.WakeParent? || pc.Dying?
  }

  /** The process holds its own lock. */
  predicate HoldsOwn(pc: Pc) { pc.Commit? || pc.Falling? || pc.Dying? || pc.Dead? }

  predicate Alive(st: Run) { st.Sleeping? || st.Runnable? || st.Running? }

  /** Sleeping in wait, or past the point where a wakeup would be needed to stop it. */
  predicate Committed(p: Proc) { p.pc.Commit? || p.pc.Falling? || (p.pc.Asleep? && p.st.Sleeping?) }

  // ---- steps ----

  /** ForkFail: allocproc or uvmcopy runs out of memory, and np is freed again under its lock.
      WakeElsewhere: a wakeup on another channel. Kill: kill's visit to the slot it looks for, which may
      be a free one, whose pid is 0. */
  datatype Step =
    | ForkAlloc(p: nat, np: nat) | ForkFail(p: nat, np: nat) | ForkParent(p: nat) | ForkRun(p: nat)
    | Schedule(p: nat) | Yield(p: nat) | SleepElsewhere(p: nat) | WakeElsewhere(p: nat)
    | Kill(p: nat)
    | WaitEnter(p: nat) | ScanSlot(p: nat) | Reap(p: nat) | ReapFault(p: nat) | GiveUp(p: nat)
    | GoSleep(p: nat) | GoCommit(p: nat) | LetGo(p: nat) | Fall(p: nat) | WaitAgain(p: nat)
    | ExitEnter(p: nat) | ReparentSlot(p: nat) | WakeInitSlot(p: nat) | WakeParentSlot(p: nat)
    | Die(p: nat) | DieRelease(p: nat) | SwitchAway(p: nat)

  predicate Wf(s: State) { s.init < |s.procs| && s.lock <= |s.procs| }

  function Put(s: State, p: nat, x: Proc): State
    requires p < |s.procs|
  {
    s.(procs := s.procs[p := x])
  }

  function Goto(s: State, p: nat, pc: Pc): State
    requires p < |s.procs|
  {
    Put(s, p, s.procs[p].(pc := pc))
  }

  function SetSt(s: State, p: nat, st: Run): State
    requires p < |s.procs|
  {
    Put(s, p, s.procs[p].(st := st))
  }

  /** wakeup's visit to slot j on behalf of p, for a channel that is process `chan`'s address. */
  function Wake(s: State, p: nat, j: nat, chan: nat): State
    requires j < |s.procs|
  {
    var x := s.procs[j];
    if j != p && j == chan && x.pc.Asleep? && x.st.Sleeping? then SetSt(s, j, Runnable) else s
  }

  predicate Runs(s: State, p: nat) { p < |s.procs| && s.procs[p].st.Running? }

  predicate Unlocked(s: State, p: nat) { p < |s.procs| && !HoldsOwn(s.procs[p].pc) }

  predicate Enabled(s: State, e: Step) {
    var n := |s.procs|;
    match e
    case ForkAlloc(p, np) => Runs(s, p) && s.procs[p].pc.Idle? && Unlocked(s, np) && s.procs[np].st.Unused?
    case ForkFail(p, np) => Runs(s, p) && s.procs[p].pc.Idle? && Unlocked(s, np) && s.procs[np].st.Unused?
    case ForkParent(p) => Runs(s, p) && s.procs[p].pc.Forking? && s.lock == n
    case ForkRun(p) => Runs(s, p) && s.procs[p].pc.Forked?
    case Schedule(p) => Unlocked(s, p) && s.procs[p].st.Runnable?
    case Yield(p) => Runs(s, p) && Unlocked(s, p)
    case SleepElsewhere(p) => Runs(s, p) && s.procs[p].pc.Idle?
    case WakeElsewhere(p) => Unlocked(s, p) && s.procs[p].st.Sleeping? && s.procs[p].pc.Idle?
    case Kill(p) => Unlocked(s, p)
    case WaitEnter(p) => Runs(s, p) && s.procs[p].pc.Idle? && s.lock == n
    case ScanSlot(p) =>
      Runs(s, p) && s.procs[p].pc.Scan? && s.procs[p].pc.k < n
      && (s.procs[s.procs[p].pc.k].parent == p ==> Unlocked(s, s.procs[p].pc.k) && !s.procs[s.procs[p].pc.k].st.Zombie?)
    case Reap(p) =>
      Runs(s, p) && s.procs[p].pc.Scan? && s.procs[p].pc.k < n
      && s.procs[s.procs[p].pc.k].parent == p && Unlocked(s, s.procs[p].pc.k) && s.procs[s.procs[p].pc.k].st.Zombie?
    case ReapFault(p) =>
      Runs(s, p) && s.procs[p].pc.Scan? && s.procs[p].pc.k < n
      && s.procs[s.procs[p].pc.k].parent == p && Unlocked(s, s.procs[p].pc.k) && s.procs[s.procs[p].pc.k].st.Zombie?
    case GiveUp(p) =>
      Runs(s, p) && s.procs[p].pc.Scan? && s.procs[p].pc.k == n && (!s.procs[p].pc.kids || s.procs[p].killed)
    case GoSleep(p) =>
      Runs(s, p) && s.procs[p].pc.Scan? && s.procs[p].pc.k == n && s.procs[p].pc.kids && !s.procs[p].killed
    case GoCommit(p) => Runs(s, p) && s.procs[p].pc.Drowsy?
    case LetGo(p) => Runs(s, p) && s.procs[p].pc.Commit?
    case Fall(p) => Runs(s, p) && s.procs[p].pc.Falling?
    case WaitAgain(p) => Runs(s, p) && s.procs[p].pc.Asleep? && s.lock == n
    case ExitEnter(p) => Runs(s, p) && s.procs[p].pc.Idle? && p != s.init && s.lock == n
    case ReparentSlot(p) => Runs(s, p) && s.procs[p].pc.Reparent?
    case WakeInitSlot(p) =>
      Runs(s, p) && s.procs[p].pc.WakeInit? && (s.procs[p].pc.j < n && s.procs[p].pc.j != p ==>
            Unlocked(s, s.procs[p].pc.j))
    case WakeParentSlot(p) =>
      Runs(s, p) && s.procs[p].pc.WakeParent? && s.procs[p].pc.j < n && (s.procs[p].pc.j != p ==>
            Unlocked(s, s.procs[p].pc.j))
    case Die(p) => Runs(s, p) && s.procs[p].pc.WakeParent? && s.procs[p].pc.j >= n
    case DieRelease(p) => p < n && s.procs[p].pc.Dying?
    case SwitchAway(p) => p < n && s.procs[p].pc.Dead?
  }

  function Apply(s: State, e: Step): State
    requires Wf(s) && Enabled(s, e)
  {
    var n, p := |s.procs|, e.p;
    var x := s.procs[p];
    match e
    case ForkAlloc(_, np) =>
      var t := Put(s, np, Proc(Used, n, s.nextpid, Idle, s.procs[np].killed, 0));
      Goto(t.(nextpid := s.nextpid + 1), p, Forking(np))
    case ForkFail(_, np) => Put(s, np, Blank(n)).(nextpid := s.nextpid + 1)
    case ForkParent(_) =>
      if x.pc.child < n then Goto(Put(s, x.pc.child, s.procs[x.pc.child].(parent := p)), p, Forked(x.pc.child)) else s
    case ForkRun(_) =>
      if x.pc.child < n then Goto(SetSt(s, x.pc.child, Runnable), p, Idle) else s
    case Schedule(_) => SetSt(s, p, Running)
    case Yield(_) => SetSt(s, p, Runnable)
    case SleepElsewhere(_) => SetSt(s, p, Sleeping)
    case WakeElsewhere(_) => SetSt(s, p, Runnable)
    case Kill(_) => Put(s, p, x.(killed := true, st := if x.st.Sleeping? then Runnable else x.st))
    case WaitEnter(_) => Goto(s.(lock := p), p, Scan(0, false))
    case ScanSlot(_) => Goto(s, p, Scan(x.pc.k + 1, x.pc.kids || s.procs[x.pc.k].parent == p))
    case Reap(_) =>
      var t, pid := Put(s, x.pc.k, Blank(n)), s.procs[x.pc.k].pid;
      Put(t.(lock := n, reaped := s.reaped + [pid]), p, x.(pc := Idle, ret := pid))
    case ReapFault(_) => Put(s.(lock := n), p, x.(pc := Idle, ret := -1))
    case GiveUp(_) => Put(s.(lock := n), p, x.(pc := Idle, ret := -1))
    case GoSleep(_) => Goto(s, p, Drowsy)
    case GoCommit(_) => Goto(s, p, Commit)
    case LetGo(_) => Goto(s.(lock := n), p, Falling)
    case Fall(_) => Put(s, p, x.(st := Sleeping, pc := Asleep))
    case WaitAgain(_) => Goto(s.(lock := p), p, Scan(0, false))
    case ExitEnter(_) => Goto(s.(lock := p), p, Reparent(0))
    case ReparentSlot(_) =>
      if x.pc.i >= n then Goto(s, p, WakeParent(0))
      else if s.procs[x.pc.i].parent == p then
        Goto(Put(s, x.pc.i, s.procs[x.pc.i].(parent := s.init)), p, WakeInit(x.pc.i, 0))
      else Goto(s, p, Reparent(x.pc.i + 1))
    case WakeInitSlot(_) =>
      if x.pc.j >= n then Goto(s, p, Reparent(x.pc.i + 1))
      else Goto(Wake(s, p, x.pc.j, s.init), p, WakeInit(x.pc.i, x.pc.j + 1))
    case WakeParentSlot(_) => Goto(Wake(s, p, x.pc.j, x.parent), p, WakeParent(x.pc.j + 1))
    case Die(_) => Put(s, p, x.(st := Zombie, pc := Dying))
    case DieRelease(_) => Goto(s.(lock := n), p, Dead)
    case SwitchAway(_) => Goto(s, p, Gone)
  }

  // ---- what every step keeps ----

  /** wait_lock is held by whoever is in a place that holds it. */
  ghost predicate LockOk(s: State) {
    forall p :: 0 <= p < |s.procs| ==> (HoldsWait(s.procs[p].pc) <==> s.lock == p)
  }

  /** Places and states agree. */
  predicate PlaceOk(s: State, p: nat)
    requires p < |s.procs|
  {
    var x := s.procs[p];
    match x.st
    case Unused => x.pc.Idle?
    case Used => x.pc.Idle?
    case Sleeping => x.pc.Idle? || x.pc.Asleep?
    case Zombie => x.pc.Dying? || x.pc.Dead? || x.pc.Gone?
    case _ => !x.pc.Dying? && !x.pc.Dead? && !x.pc.Gone?
  }

  ghost predicate Places(s: State) { forall p :: 0 <= p < |s.procs| ==> PlaceOk(s, p) }

  /** A parent is another process and alive, or none, and every process but init that has started has one. */
  predicate ParentOk(s: State, c: nat)
    requires c < |s.procs|
  {
    var x := s.procs[c];
    && x.parent != c && x.parent <= |s.procs|
    && (x.parent < |s.procs| ==> Alive(s.procs[x.parent].st) && !x.st.Unused?)
    && (c != s.init && !x.st.Unused? && !x.st.Used? ==> x.parent < |s.procs|)
  }

  ghost predicate Parents(s: State) { forall c :: 0 <= c < |s.procs| ==> ParentOk(s, c) }

  /** init never exits. */
  predicate InitOk(s: State) {
    s.init < |s.procs| && Alive(s.procs[s.init].st) && s.procs[s.init].parent >= |s.procs|
    && !Exiting(s.procs[s.init].pc)
  }

  predicate Exiting(pc: Pc) { pc.Reparent? || pc.WakeInit? || pc.WakeParent? || pc.Dying? || pc.Dead? || pc.Gone? }

  /** How many slots an exiting process has cleared of its children. */
  function Cleared(s: State, pc: Pc): nat {
    if pc.Reparent? then pc.i else if pc.WakeInit? then pc.i + 1
    else if pc.WakeParent? || pc.Dying? || pc.Dead? || pc.Gone? then |s.procs| else 0
  }

  predicate KidOk(s: State, p: nat, c: nat)
    requires p < |s.procs| && c < |s.procs|
  {
    c < Cleared(s, s.procs[p].pc) ==> s.procs[c].parent != p
  }

  ghost predicate NoKids(s: State) {
    forall p, c :: 0 <= p < |s.procs| && 0 <= c < |s.procs| ==> KidOk(s, p, c)
  }

  /** How many slots a wait has looked at, while it holds wait_lock. */
  function Scanned(s: State, pc: Pc): nat { if pc.Scan? then pc.k else if pc.Drowsy? then |s.procs| else 0 }

  /** A scan has met no zombie child so far. */
  predicate ScanOk(s: State, p: nat, c: nat)
    requires p < |s.procs| && c < |s.procs|
  {
    c < Scanned(s, s.procs[p].pc) && s.procs[c].parent == p ==> !s.procs[c].st.Zombie?
  }

  ghost predicate Scans(s: State) {
    forall p, c :: 0 <= p < |s.procs| && 0 <= c < |s.procs| ==> ScanOk(s, p, c)
  }

  /** One of the first k slots is a child of p. */
  ghost predicate HasKid(s: State, p: nat, k: nat) {
    exists c :: 0 <= c < k && c < |s.procs| && s.procs[c].parent == p
  }

  /** havekids says whether the scan has met a child; a process that sleeps in wait, or is about to, or
      has been woken from it, has one. */
  ghost predicate SeenOk(s: State, p: nat)
    requires p < |s.procs|
  {
    var pc := s.procs[p].pc;
    && (pc.Scan? ==> (pc.kids <==> HasKid(s, p, pc.k)) && pc.k <= |s.procs|)
    && (pc.Drowsy? || pc.Commit? || pc.Falling? || pc.Asleep? ==> HasKid(s, p, |s.procs|))
  }

  ghost predicate Seen(s: State) { forall p :: 0 <= p < |s.procs| ==> SeenOk(s, p) }

  /** exit's wakeup has passed the parent. */
  predicate WokenOk(s: State, p: nat)
    requires p < |s.procs|
  {
    var x := s.procs[p];
    x.pc.WakeParent? && x.parent < x.pc.j && x.parent < |s.procs| ==> !Committed(s.procs[x.parent])
  }

  ghost predicate Woken(s: State) { forall p :: 0 <= p < |s.procs| ==> WokenOk(s, p) }

  /** wait_lock is held by a process that is about to wake init. */
  predicate WakingInit(s: State) {
    s.lock < |s.procs| && s.procs[s.lock].pc.WakeInit? && s.procs[s.lock].pc.j <= s.init
  }

  /** w does not sleep on its zombie child c, unless w is init and its wakeup is under way. */
  predicate Remembered(s: State, w: nat, c: nat)
    requires w < |s.procs| && c < |s.procs|
  {
    Committed(s.procs[w]) && s.procs[c].parent == w && s.procs[c].st.Zombie? ==> w == s.init && WakingInit(s)
  }

  ghost predicate NoneForgotten(s: State) {
    forall w, c :: 0 <= w < |s.procs| && 0 <= c < |s.procs| ==> Remembered(s, w, c)
  }

  function ChildOf(pc: Pc, n: nat): nat { if pc.Forking? || pc.Forked? then pc.child else n }

  predicate ForkOk(s: State, p: nat)
    requires p < |s.procs|
  {
    var pc := s.procs[p].pc;
    pc.Forking? || pc.Forked? ==>
      && pc.child < |s.procs| && s.procs[pc.child].st.Used?
      && (if pc.Forking? then s.procs[pc.child].parent >= |s.procs| else s.procs[pc.child].parent == p)
  }

  predicate ForkPair(s: State, p: nat, q: nat)
    requires p < |s.procs| && q < |s.procs|
  {
    p != q && ChildOf(s.procs[p].pc, |s.procs|) < |s.procs| ==>
      ChildOf(s.procs[p].pc, |s.procs|) != ChildOf(s.procs[q].pc, |s.procs|)
  }

  /** A child being forked is nobody else's. */
  ghost predicate Forks(s: State) {
    && (forall p :: 0 <= p < |s.procs| ==> ForkOk(s, p))
    && (forall p, q :: 0 <= p < |s.procs| && 0 <= q < |s.procs| ==> ForkPair(s, p, q))
  }

  predicate PidOk(s: State, p: nat)
    requires p < |s.procs|
  {
    !s.procs[p].st.Unused? ==> s.procs[p].pid < s.nextpid && s.procs[p].pid !in s.reaped
  }

  predicate PidPair(s: State, p: nat, q: nat)
    requires p < |s.procs| && q < |s.procs|
  {
    p != q && !s.procs[p].st.Unused? && !s.procs[q].st.Unused? ==> s.procs[p].pid != s.procs[q].pid
  }

  /** pids in use are distinct, and none has been reaped; none is reaped twice. */
  ghost predicate Pids(s: State) {
    && (forall p :: 0 <= p < |s.procs| ==> PidOk(s, p))
    && (forall p, q :: 0 <= p < |s.procs| && 0 <= q < |s.procs| ==> PidPair(s, p, q))
    && (forall i :: 0 <= i < |s.reaped| ==> s.reaped[i] < s.nextpid)
    && (forall i, j :: 0 <= i < j < |s.reaped| ==> s.reaped[i] != s.reaped[j])
  }

  ghost predicate Inv(s: State) {
    && Wf(s) && LockOk(s) && Places(s) && Parents(s) && InitOk(s) && NoKids(s) && Scans(s) && Woken(s)
    && NoneForgotten(s) && Forks(s) && Pids(s) && Seen(s)
  }
}

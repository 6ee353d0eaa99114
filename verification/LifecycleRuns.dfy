/** What holds in every run of the process life cycle, from the first process on. */
module LifecycleRuns {
  import opened Lifecycle
  import opened LifecycleSteps

  /** After userinit: one process, init, ready to run. */
  ghost predicate Boot(s: State) {
    && Wf(s) && s.lock == |s.procs| && s.reaped == [] && s.nextpid == 2
    && s.procs[s.init] == Proc(Runnable, |s.procs|, 1, Idle, false, 0)
    && (forall p :: 0 <= p < |s.procs| && p != s.init ==> s.procs[p] == Blank(|s.procs|))
  }

  lemma BootInv(s: State)
    requires Boot(s)
    ensures Inv(s)
  {
    forall p | 0 <= p < |s.procs|
      ensures PlaceOk(s, p) && ParentOk(s, p) && WokenOk(s, p) && ForkOk(s, p) && PidOk(s, p) && SeenOk(s, p)
    {
    }
    forall p, c | 0 <= p < |s.procs| && 0 <= c < |s.procs|
      ensures KidOk(s, p, c) && ScanOk(s, p, c) && Remembered(s, p, c) && ForkPair(s, p, c) && PidPair(s, p, c)
    {
    }
  }

  /** A run: each state follows from the one before by an enabled step. */
  ghost predicate IsRun(run: seq<State>, steps: seq<Step>) {
    && |run| == |steps| + 1 && Boot(run[0])
    && forall k :: 0 <= k < |steps| ==> Wf(run[k]) && Enabled(run[k], steps[k]) && run[k + 1] == Apply(run[k], steps[k])
  }

  lemma {:induction false} RunInv(run: seq<State>, steps: seq<Step>, k: nat)
    requires IsRun(run, steps) && k < |run|
    ensures Inv(run[k])
  {
    hide Inv, Apply, Enabled, Boot;
    if k == 0 {
      BootInv(run[0]);
    } else {
      RunInv(run, steps, k - 1);
      StepInv(run[k - 1], steps[k - 1]);
    }
  }

  /** No lost wakeup: whenever wait_lock is free, no process sleeping in wait, nor on its way to sleep
      there, has a zombie child. */
  lemma NoLostWakeup(run: seq<State>, steps: seq<Step>, k: nat, w: nat, c: nat)
    requires IsRun(run, steps) && k < |run|
    requires w < |run[k].procs| && c < |run[k].procs| && run[k].lock == |run[k].procs|
    requires Committed(run[k].procs[w]) && run[k].procs[c].parent == w
    ensures !run[k].procs[c].st.Zombie?
  {
    hide IsRun;
    RunInv(run, steps, k);
    assert Remembered(run[k], w, c);
  }

  /** At every moment a process's parent is alive: neither a zombie nor a free slot; and every process
      but init that has started has a parent. */
  lemma ParentsAlive(run: seq<State>, steps: seq<Step>, k: nat, c: nat)
    requires IsRun(run, steps) && k < |run| && c < |run[k].procs|
    ensures var s := run[k];
            && (s.procs[c].parent < |s.procs| ==> Alive(s.procs[s.procs[c].parent].st))
            && (c != s.init && Alive(s.procs[c].st) ==> s.procs[c].parent < |s.procs|)
            && (s.procs[c].st.Zombie? ==> s.procs[c].parent < |s.procs|)
  {
    hide IsRun;
    RunInv(run, steps, k);
    assert ParentOk(run[k], c);
    assert InitOk(run[k]);
  }

  /** No pid is reaped twice in a run. */
  lemma ReapedOnce(run: seq<State>, steps: seq<Step>, k: nat, i: nat, j: nat)
    requires IsRun(run, steps) && k < |run| && i < j < |run[k].reaped|
    ensures run[k].reaped[i] != run[k].reaped[j]
  {
    hide IsRun;
    RunInv(run, steps, k);
  }

  /** Only a wait by its current parent takes a zombie away, and that wait records its pid. */
  lemma OnlyParentReaps(run: seq<State>, steps: seq<Step>, k: nat, c: nat)
    requires IsRun(run, steps) && k < |steps| && c < |run[k].procs| == |run[k + 1].procs|
    requires run[k].procs[c].st.Zombie? && !run[k + 1].procs[c].st.Zombie?
    ensures steps[k] == Reap(run[k].procs[c].parent) && run[k].procs[c].parent < |run[k].procs|
    ensures run[k + 1].reaped == run[k].reaped + [run[k].procs[c].pid] && run[k + 1].procs[c].st.Unused?
    ensures |run[k + 1].procs| == |run[k].procs| && run[k + 1].procs[run[k].procs[c].parent].ret == run[k].procs[c].pid
  {
    hide Boot, Inv, Enabled, Apply;
    RunInv(run, steps, k);
    ParentReaps(run[k], steps[k], run[k + 1], c);
  }

  lemma ParentReaps(s: State, e: Step, t: State, c: nat)
    requires Inv(s) && Enabled(s, e) && t == Apply(s, e) && c < |s.procs| && c < |t.procs|
    requires s.procs[c].st.Zombie? && !t.procs[c].st.Zombie?
    ensures e == Reap(s.procs[c].parent) && s.procs[c].parent < |s.procs|
    ensures t.reaped == s.reaped + [s.procs[c].pid] && t.procs[c].st.Unused?
    ensures |t.procs| == |s.procs| && t.procs[s.procs[c].parent].ret == s.procs[c].pid
  {
    hide Parents, Scans, NoKids, Woken, NoneForgotten, LockOk, InitOk, Pids, Seen, Places, Forks;
    StepIn(s, e);
    Here(s, c);
    Here(s, e.p);
    if !Reaches(e) {
      hide Apply, Enabled;
      OneMoves(s, e);
    } else if c != e.p && !Reached(s, e, c) {
      hide Apply, Enabled, Reached;
      Frame(s, e, c);
    }
  }

  lemma StepIn(s: State, e: Step)
    requires Enabled(s, e)
    ensures e.p < |s.procs|
  {
  }

  /** wait_lock's holder is unique and in a place that holds it. */
  lemma OneHolder(run: seq<State>, steps: seq<Step>, k: nat, p: nat, q: nat)
    requires IsRun(run, steps) && k < |run| && p < |run[k].procs| && q < |run[k].procs|
    requires HoldsWait(run[k].procs[p].pc) && HoldsWait(run[k].procs[q].pc)
    ensures p == q
  {
    hide IsRun;
    RunInv(run, steps, k);
  }

  // ---- what a wait does ----

  /** At the end of its scan a wait goes on to sleep exactly if the process has a child and has not been
      killed; otherwise it returns -1 and lets wait_lock go. */
  lemma WaitDecides(run: seq<State>, steps: seq<Step>, k: nat, p: nat)
    requires IsRun(run, steps) && k < |steps| && p < |run[k].procs| == |run[k + 1].procs|
    requires run[k].procs[p].pc.Scan? && run[k].procs[p].pc.k == |run[k].procs|
    requires run[k + 1].procs[p].pc != run[k].procs[p].pc
    ensures var s, t := run[k], run[k + 1];
            if HasKid(s, p, |s.procs|) && !s.procs[p].killed then t.procs[p].pc.Drowsy?
            else t.procs[p].pc.Idle? && t.procs[p].ret == -1 && t.lock == |t.procs|
  {
    hide Boot, Inv, Enabled, Apply;
    RunInv(run, steps, k);
    Decides(run[k], steps[k], run[k + 1], p);
  }

  lemma Decides(s: State, e: Step, t: State, p: nat)
    requires Inv(s) && Enabled(s, e) && t == Apply(s, e) && p < |s.procs| && p < |t.procs|
    requires s.procs[p].pc.Scan? && s.procs[p].pc.k == |s.procs| && t.procs[p].pc != s.procs[p].pc
    ensures if HasKid(s, p, |s.procs|) && !s.procs[p].killed then t.procs[p].pc.Drowsy?
            else t.procs[p].pc.Idle? && t.procs[p].ret == -1 && t.lock == |t.procs|
  {
    hide Parents, Scans, NoKids, Woken, NoneForgotten, LockOk, InitOk, Pids, Seen, Places, Forks, HasKid;
    Here(s, p);
    Here(s, e.p);
  }

  /** And both ways are open as soon as the process runs there. */
  lemma WaitGoesOn(run: seq<State>, steps: seq<Step>, k: nat, p: nat)
    requires IsRun(run, steps) && k < |run| && Runs(run[k], p)
    requires run[k].procs[p].pc.Scan? && run[k].procs[p].pc.k == |run[k].procs|
    ensures Enabled(run[k], GoSleep(p)) <==> HasKid(run[k], p, |run[k].procs|) && !run[k].procs[p].killed
    ensures Enabled(run[k], GiveUp(p)) <==> !Enabled(run[k], GoSleep(p))
  {
    hide IsRun, Parents, Scans, NoKids, Woken, NoneForgotten, LockOk, InitOk, Pids, Seen, Places, Forks, HasKid;
    RunInv(run, steps, k);
    Here(run[k], p);
  }

  /** Whenever wait_lock is free, a process sleeping in wait, or on its way to sleep there, has a child
      that is not a zombie yet. */
  lemma SleepsForSomeone(run: seq<State>, steps: seq<Step>, k: nat, p: nat) returns (c: nat)
    requires IsRun(run, steps) && k < |run| && p < |run[k].procs| && run[k].lock == |run[k].procs|
    requires Committed(run[k].procs[p])
    ensures c < |run[k].procs| && run[k].procs[c].parent == p && !run[k].procs[c].st.Zombie?
  {
    hide IsRun, Inv;
    RunInv(run, steps, k);
    Here(run[k], p);
    c :| 0 <= c < |run[k].procs| && run[k].procs[c].parent == p;
    NoLostWakeup(run, steps, k, p, c);
  }

  // ---- who is whose child ----

  /** The steps that make b the parent of c: fork's, the exit of the parent, and then b is init, and the
      reaping, and then b is nobody. */
  predicate Rehomes(s: State, e: Step, c: nat, b: nat)
    requires c < |s.procs|
  {
    || (e == ForkParent(b) && Runs(s, b) && s.procs[b].pc == Forking(c) && s.procs[c].parent == |s.procs|)
    || (e == ReparentSlot(s.procs[c].parent) && b == s.init)
    || (e == Reap(s.procs[c].parent) && b == |s.procs|)
  }

  /** A process's parent changes in no other way. */
  lemma ParentMoves(run: seq<State>, steps: seq<Step>, k: nat, c: nat)
    requires IsRun(run, steps) && k < |steps| && c < |run[k].procs| == |run[k + 1].procs|
    requires run[k + 1].procs[c].parent != run[k].procs[c].parent
    ensures Rehomes(run[k], steps[k], c, run[k + 1].procs[c].parent)
  {
    hide Boot, Inv, Enabled, Apply, Rehomes;
    RunInv(run, steps, k);
    Rehomed(run[k], steps[k], c);
  }

  lemma Rehomed(s: State, e: Step, c: nat)
    requires Inv(s) && Enabled(s, e) && c < |s.procs| == |Apply(s, e).procs|
    requires Apply(s, e).procs[c].parent != s.procs[c].parent
    ensures Rehomes(s, e, c, Apply(s, e).procs[c].parent)
  {
    assert Wf(s);
    hide Inv, Apply, Enabled, Reached, Rehomes;
    StepIn(s, e);
    if !Reaches(e) {
      OneMoves(s, e);
    } else if e.ForkAlloc? || e.ForkFail? || e.ForkRun? || e.WakeInitSlot? || e.WakeParentSlot? {
      ParentStays(s, e, c);
    } else {
      ReachRehomes(s, e, c);
    }
  }

  lemma ParentStays(s: State, e: Step, c: nat)
    requires Inv(s) && Enabled(s, e) && c < |s.procs|
    requires e.ForkAlloc? || e.ForkFail? || e.ForkRun? || e.WakeInitSlot? || e.WakeParentSlot?
    ensures |Apply(s, e).procs| == |s.procs| && Apply(s, e).procs[c].parent == s.procs[c].parent
  {
    hide Parents, Scans, NoKids, Woken, NoneForgotten, LockOk, InitOk, Pids, Seen, Places, Forks;
    if e.WakeInitSlot? || e.WakeParentSlot? {
      hide Inv;
    } else {
      hide Wake;
      Here(s, c);
    }
  }

  lemma ReachRehomes(s: State, e: Step, c: nat)
    requires Inv(s) && Enabled(s, e) && c < |s.procs| == |Apply(s, e).procs|
    requires e.ForkParent? || e.Reap? || e.ReparentSlot?
    requires Apply(s, e).procs[c].parent != s.procs[c].parent
    ensures Rehomes(s, e, c, Apply(s, e).procs[c].parent)
  {
    hide Parents, Scans, NoKids, Woken, NoneForgotten, LockOk, InitOk, Pids, Seen, Places, Forks;
    Here(s, c);
    Here(s, e.p);
  }

  // ---- fork, from beginning to end ----

  predicate InFork(pc: Pc, c: nat) { pc == Forking(c) || pc == Forked(c) }

  /** A fork that is under way began with the allocation of that child, whose pid was the next one. */
  lemma {:induction false} ForkBegan(run: seq<State>, steps: seq<Step>, k: nat, p: nat, c: nat) returns (j: nat)
    requires IsRun(run, steps) && k < |run| && p < |run[k].procs| && InFork(run[k].procs[p].pc, c)
    ensures c < |run[k].procs| && j < k && steps[j] == ForkAlloc(p, c) && run[k].procs[c].pid == run[j].nextpid
  {
    hide Inv, Apply, Enabled, Boot;
    assert k > 0 by {
      if k == 0 {
        BootIdle(run[0], p);
      }
    }
    RunInv(run, steps, k - 1);
    RunInv(run, steps, k);
    ForkGoesOn(run[k - 1], steps[k - 1], p, c);
    if steps[k - 1] == ForkAlloc(p, c) {
      j := k - 1;
    } else {
      j := ForkBegan(run, steps, k - 1, p, c);
    }
  }

  lemma BootIdle(s: State, p: nat)
    requires Boot(s) && p < |s.procs|
    ensures s.procs[p].pc.Idle? && !s.procs[p].killed
  {
  }

  lemma ForkGoesOn(s: State, e: Step, p: nat, c: nat)
    requires Inv(s) && Enabled(s, e) && Inv(Apply(s, e)) && p < |Apply(s, e).procs|
    requires InFork(Apply(s, e).procs[p].pc, c)
    ensures var t := Apply(s, e);
            && c < |t.procs| == |s.procs|
            && (if e == ForkAlloc(p, c) then t.procs[c].pid == s.nextpid
                else InFork(s.procs[p].pc, c) && t.procs[c].pid == s.procs[c].pid)
  {
    hide Parents, Scans, NoKids, Woken, NoneForgotten, LockOk, InitOk, Pids, Seen, Places, Forks;
    Here(Apply(s, e), p);
    StepIn(s, e);
    assert |Apply(s, e).procs| == |s.procs| by { SameTable(s, e); }
    Here(s, p);
    ForkPc(s, e, p, c);
    if e != ForkAlloc(p, c) {
      hide Apply, Enabled;
      ForkPid(s, e, p, c);
    }
  }

  lemma SameTable(s: State, e: Step)
    requires Wf(s) && Enabled(s, e)
    ensures |Apply(s, e).procs| == |s.procs|
  {
  }

  lemma ForkPc(s: State, e: Step, p: nat, c: nat)
    requires Wf(s) && Enabled(s, e) && p < |s.procs| == |Apply(s, e).procs| && InFork(Apply(s, e).procs[p].pc, c)
    ensures e == ForkAlloc(p, c) || InFork(s.procs[p].pc, c)
  {
    hide Apply, Enabled;
    if !Reaches(e) {
      OneMoves(s, e);
      if e.p == p {
        OwnFork(s, e, c);
      }
    } else {
      OtherFork(s, e, p, c);
    }
  }

  lemma OwnFork(s: State, e: Step, c: nat)
    requires Wf(s) && Enabled(s, e) && e.p < |s.procs| == |Apply(s, e).procs| && !Reaches(e)
    requires InFork(Apply(s, e).procs[e.p].pc, c)
    ensures InFork(s.procs[e.p].pc, c)
  {
    hide Wake;
  }

  lemma OtherFork(s: State, e: Step, p: nat, c: nat)
    requires Wf(s) && Enabled(s, e) && p < |s.procs| == |Apply(s, e).procs| && InFork(Apply(s, e).procs[p].pc, c)
    requires Reaches(e)
    ensures e == ForkAlloc(p, c) || InFork(s.procs[p].pc, c)
  {
  }

  lemma ForkPid(s: State, e: Step, p: nat, c: nat)
    requires Inv(s) && Enabled(s, e) && p < |s.procs| && InFork(s.procs[p].pc, c)
    ensures c < |s.procs| == |Apply(s, e).procs| && Apply(s, e).procs[c].pid == s.procs[c].pid
  {
    hide Parents, Scans, NoKids, Woken, NoneForgotten, LockOk, InitOk, Pids, Seen, Places, Forks;
    Here(s, p);
    hide Apply, Enabled;
    if !Reaches(e) {
      OneMoves(s, e);
    } else {
      PidStays(s, e, c);
    }
  }

  lemma PidStays(s: State, e: Step, c: nat)
    requires Wf(s) && Enabled(s, e) && Reaches(e) && c < |s.procs| && s.procs[c].st.Used?
    ensures |Apply(s, e).procs| == |s.procs| && Apply(s, e).procs[c].pid == s.procs[c].pid
  {
  }

  /** A fork that ends has made a runnable child of the process that called it, in the slot and with the
      pid it was given at the beginning. */
  lemma ForkMakes(run: seq<State>, steps: seq<Step>, k: nat, p: nat) returns (c: nat, j: nat)
    requires IsRun(run, steps) && k < |steps| && steps[k] == ForkRun(p)
    ensures j < k && steps[j] == ForkAlloc(p, c) && c < |run[k + 1].procs|
    ensures var x := run[k + 1].procs[c]; x.st.Runnable? && x.parent == p && x.pid == run[j].nextpid
  {
    hide Inv, Boot;
    RunInv(run, steps, k);
    Here(run[k], p);
    c := run[k].procs[p].pc.child;
    j := ForkBegan(run, steps, k, p, c);
  }

  // ---- kill ----

  /** The step gives slot c's killed flag back: freeproc. */
  predicate Frees(s: State, e: Step, c: nat) {
    e.p < |s.procs| && ((e.Reap? && s.procs[e.p].pc.Scan? && s.procs[e.p].pc.k == c) || (e.ForkFail? && e.np == c))
  }

  /** Since step j nothing has freed slot c. */
  ghost predicate KilledAt(run: seq<State>, steps: seq<Step>, k: nat, c: nat, j: nat) {
    && j < k <= |steps| && k < |run| && steps[j] == Kill(c)
    && forall i :: j < i < k ==> !Frees(run[i], steps[i], c)
  }

  /** A slot is marked killed exactly if kill has found it since it was last freed. */
  lemma {:induction false} KilledExactly(run: seq<State>, steps: seq<Step>, k: nat, c: nat)
    requires IsRun(run, steps) && k < |run| && c < |run[k].procs|
    ensures run[k].procs[c].killed <==> exists j: nat :: KilledAt(run, steps, k, c, j)
  {
    hide Inv, Apply, Enabled, Boot, Frees;
    if k == 0 {
      BootIdle(run[0], c);
    } else {
      var s, e := run[k - 1], steps[k - 1];
      RunInv(run, steps, k - 1);
      assert Wf(s) && Enabled(s, e);
      SameTable(s, e);
      KilledExactly(run, steps, k - 1, c);
      KilledStep(s, e, c);
      if !Frees(s, e, c) {
        var q := k - 1;
        if j: nat :| KilledAt(run, steps, q, c, j) {
          assert KilledAt(run, steps, k, c, j);
        }
      }
      if e == Kill(c) {
        assert KilledAt(run, steps, k, c, k - 1);
      }
      if j: nat :| KilledAt(run, steps, k, c, j) && j < k - 1 {
        assert KilledAt(run, steps, k - 1, c, j);
        assert !Frees(run[k - 1], steps[k - 1], c);
      }
    }
  }

  /** And a kill wakes its victim, whatever it sleeps on. */
  lemma KilledStep(s: State, e: Step, c: nat)
    requires Inv(s) && Enabled(s, e) && c < |s.procs| == |Apply(s, e).procs|
    ensures Apply(s, e).procs[c].killed <==> e == Kill(c) || (s.procs[c].killed && !Frees(s, e, c))
    ensures e == Kill(c) ==> !Apply(s, e).procs[c].st.Sleeping?
  {
    assert Wf(s);
    hide Inv;
    StepIn(s, e);
    if c != e.p && !Reached(s, e, c) {
      Unfreed(s, e, c);
      hide Apply, Enabled, Reached, Frees;
      Frame(s, e, c);
    } else if !Reaches(e) {
      KilledOwn(s, e, c);
    } else {
      KilledOther(s, e, c);
    }
  }

  lemma Unfreed(s: State, e: Step, c: nat)
    requires e.p < |s.procs| && c < |s.procs| && c != e.p && !Reached(s, e, c)
    ensures !Frees(s, e, c) && e != Kill(c)
  {
  }

  lemma KilledOwn(s: State, e: Step, c: nat)
    requires Wf(s) && Enabled(s, e) && !Reaches(e) && c == e.p < |s.procs| == |Apply(s, e).procs|
    ensures Apply(s, e).procs[c].killed <==> e == Kill(c) || (s.procs[c].killed && !Frees(s, e, c))
    ensures e == Kill(c) ==> !Apply(s, e).procs[c].st.Sleeping?
  {
    hide Wake;
  }

  lemma KilledOther(s: State, e: Step, c: nat)
    requires Wf(s) && Enabled(s, e) && Reaches(e) && e.p < |s.procs| && c < |s.procs| == |Apply(s, e).procs|
    requires c == e.p || Reached(s, e, c)
    ensures Apply(s, e).procs[c].killed <==> (s.procs[c].killed && !Frees(s, e, c))
  {
    hide Apply, Enabled, Reached;
    if e.ForkAlloc? || e.ForkFail? || e.ForkParent? || e.ForkRun? {
      KilledFork(s, e, c);
    } else {
      KilledWake(s, e, c);
    }
  }

  lemma KilledFork(s: State, e: Step, c: nat)
    requires Wf(s) && Enabled(s, e) && (e.ForkAlloc? || e.ForkFail? || e.ForkParent? || e.ForkRun?) && c < |s.procs|
    ensures |Apply(s, e).procs| == |s.procs|
    ensures Apply(s, e).procs[c].killed <==> (s.procs[c].killed && !Frees(s, e, c))
  {
  }

  lemma KilledWake(s: State, e: Step, c: nat)
    requires Wf(s) && Enabled(s, e) && (e.Reap? || e.ReparentSlot? || e.WakeInitSlot? || e.WakeParentSlot?)
    requires c < |s.procs|
    ensures |Apply(s, e).procs| == |s.procs|
    ensures Apply(s, e).procs[c].killed <==> (s.procs[c].killed && !Frees(s, e, c))
  {
  }

  // ---- the states of a process ----

  /** How the state of process c goes on: from the first to the second. Only allocproc takes a free slot,
      only the fork that took it starts it, only the scheduler runs it, and only wait frees it. */
  predicate Diagram(s: State, e: Step, c: nat, a: Run, b: Run)
    requires e.p < |s.procs| && c < |s.procs|
  {
    if c == e.p && (e.Schedule? || e.Yield? || e.SleepElsewhere? || e.WakeElsewhere? || e.Kill? || e.Fall? || e.Die?)
    then
      match e
      case Schedule(_) => a.Runnable? && b.Running?
      case Yield(_) => a.Running? && b.Runnable?
      case WakeElsewhere(_) => a.Sleeping? && b.Runnable?
      case Kill(_) => b == if a.Sleeping? then Runnable else a
      case Die(_) => a.Running? && b.Zombie?
      case _ => a.Running? && b.Sleeping?
    else if Reached(s, e, c) && !e.ForkFail? && !e.ForkParent? && !e.ReparentSlot? then
      match e
      case ForkAlloc(_, _) => a.Unused? && b.Used?
      case ForkRun(_) => a.Used? && b.Runnable?
      case Reap(_) => a.Zombie? && b.Unused?
      case _ => a.Sleeping? && (b.Runnable? || b.Sleeping?)
    else b == a
  }

  lemma StatesMove(run: seq<State>, steps: seq<Step>, k: nat, c: nat)
    requires IsRun(run, steps) && k < |steps| && c < |run[k].procs|
    ensures steps[k].p < |run[k].procs| == |run[k + 1].procs|
    ensures Diagram(run[k], steps[k], c, run[k].procs[c].st, run[k + 1].procs[c].st)
  {
    hide Boot, Inv, Enabled, Apply, Diagram;
    RunInv(run, steps, k);
    assert Wf(run[k]) && Enabled(run[k], steps[k]);
    StepIn(run[k], steps[k]);
    SameTable(run[k], steps[k]);
    Follows(run[k], steps[k], c);
  }

  lemma Follows(s: State, e: Step, c: nat)
    requires Inv(s) && Enabled(s, e) && e.p < |s.procs| && c < |s.procs| == |Apply(s, e).procs|
    ensures Diagram(s, e, c, s.procs[c].st, Apply(s, e).procs[c].st)
  {
    assert Wf(s);
    hide Inv;
    if c != e.p && !Reached(s, e, c) {
      hide Apply, Enabled, Reached;
      Frame(s, e, c);
    } else if !Reaches(e) {
      hide Reached;
      OwnState(s, e, c);
    } else {
      OtherState(s, e, c);
    }
  }

  lemma OwnState(s: State, e: Step, c: nat)
    requires Wf(s) && Enabled(s, e) && !Reaches(e) && c == e.p < |s.procs| == |Apply(s, e).procs|
    ensures Diagram(s, e, c, s.procs[c].st, Apply(s, e).procs[c].st)
  {
    hide Wake;
  }

  lemma OtherState(s: State, e: Step, c: nat)
    requires Inv(s) && Enabled(s, e) && Reaches(e) && e.p < |s.procs| && c < |s.procs| == |Apply(s, e).procs|
    requires c == e.p || Reached(s, e, c)
    ensures Diagram(s, e, c, s.procs[c].st, Apply(s, e).procs[c].st)
  {
    Here(s, e.p);
    assert Wf(s);
    hide Inv, Diagram, Apply;
    if e.ForkAlloc? || e.ForkFail? || e.ForkParent? || e.ForkRun? {
      ForkState(s, e, c);
    } else {
      WakeState(s, e, c);
    }
  }

  lemma ForkState(s: State, e: Step, c: nat)
    requires Wf(s) && Enabled(s, e) && (e.ForkAlloc? || e.ForkFail? || e.ForkParent? || e.ForkRun?)
    requires c < |s.procs| == |Apply(s, e).procs| && (c == e.p || Reached(s, e, c)) && ForkOk(s, e.p)
    ensures Diagram(s, e, c, s.procs[c].st, Apply(s, e).procs[c].st)
  {
  }

  lemma WakeState(s: State, e: Step, c: nat)
    requires Wf(s) && Enabled(s, e) && (e.Reap? || e.ReparentSlot? || e.WakeInitSlot? || e.WakeParentSlot?)
    requires c < |s.procs| == |Apply(s, e).procs| && (c == e.p || Reached(s, e, c)) && ParentOk(s, e.p)
    ensures Diagram(s, e, c, s.procs[c].st, Apply(s, e).procs[c].st)
  {
  }

  // ---- what wait returns ----

  /** The pid of a zombie child, which has been reaped, or -1. It is -1 only if the process has no child or
      has been killed, or if the wait stands at a zombie child, which it leaves, and cannot hand out its
      exit state. */
  ghost predicate WaitResult(s: State, e: Step, t: State, p: nat)
    requires p < |s.procs| == |t.procs| && s.procs[p].pc.Scan?
  {
    var at := s.procs[p].pc.k;
    && t.lock == |t.procs|
    && if e == Reap(p)
       then && at < |s.procs| && s.procs[at].parent == p && s.procs[at].st.Zombie? && t.procs[at].st.Unused?
            && t.procs[p].ret == s.procs[at].pid && t.reaped == s.reaped + [s.procs[at].pid]
       else && t.procs[p].ret == -1 && t.reaped == s.reaped
            && if at == |s.procs| then !HasKid(s, p, |s.procs|) || s.procs[p].killed
               else at < |s.procs| && s.procs[at].parent == p && s.procs[at].st.Zombie? && t.procs[at].st.Zombie?
  }

  lemma WaitReturns(run: seq<State>, steps: seq<Step>, k: nat, p: nat)
    requires IsRun(run, steps) && k < |steps| && p < |run[k].procs| == |run[k + 1].procs|
    requires run[k].procs[p].pc.Scan? && run[k + 1].procs[p].pc.Idle?
    ensures WaitResult(run[k], steps[k], run[k + 1], p)
  {
    hide Boot, Inv, Enabled, Apply;
    RunInv(run, steps, k);
    Returned(run[k], steps[k], p);
  }

  /** Only three steps take a wait back to its caller. */
  lemma ReturnSteps(s: State, e: Step, p: nat)
    requires Inv(s) && Enabled(s, e) && p < |s.procs| == |Apply(s, e).procs|
    requires s.procs[p].pc.Scan? && Apply(s, e).procs[p].pc.Idle?
    ensures e == Reap(p) || e == ReapFault(p) || e == GiveUp(p)
  {
    Here(s, p);
    assert Wf(s);
    hide Inv, Apply, Enabled, Reached;
    StepIn(s, e);
    if p != e.p && !Reached(s, e, p) {
      Frame(s, e, p);
    } else if Reaches(e) {
      OtherReturns(s, e, p);
    } else {
      OwnReturns(s, e);
    }
  }

  lemma OwnReturns(s: State, e: Step)
    requires Wf(s) && Enabled(s, e) && e.p < |s.procs| == |Apply(s, e).procs| && !Reaches(e)
    requires s.procs[e.p].pc.Scan? && Apply(s, e).procs[e.p].pc.Idle?
    ensures e.ReapFault? || e.GiveUp?
  {
    hide Wake;
  }

  lemma OtherReturns(s: State, e: Step, p: nat)
    requires Inv(s) && Enabled(s, e) && e.p < |s.procs| == |Apply(s, e).procs| && Reaches(e)
    requires p < |s.procs| && (p == e.p || Reached(s, e, p))
    requires s.procs[p].pc.Scan? && Apply(s, e).procs[p].pc.Idle?
    ensures e == Reap(p)
  {
    hide Parents, Scans, NoKids, Woken, NoneForgotten, LockOk, InitOk, Pids, Seen, Places, Forks, HasKid;
    Here(s, p);
    Here(s, e.p);
  }

  lemma Returned(s: State, e: Step, p: nat)
    requires Inv(s) && Enabled(s, e) && p < |s.procs| == |Apply(s, e).procs|
    requires s.procs[p].pc.Scan? && Apply(s, e).procs[p].pc.Idle?
    ensures WaitResult(s, e, Apply(s, e), p)
  {
    hide Parents, Scans, NoKids, Woken, NoneForgotten, LockOk, InitOk, Pids, Seen, Places, Forks, HasKid;
    Here(s, p);
    ReturnSteps(s, e, p);
  }
}

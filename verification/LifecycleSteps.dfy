/** Every step of the process life cycle keeps the invariant. */
module LifecycleSteps {
  import opened Lifecycle

  /** Only process p's record and the holder of wait_lock change. */
  ghost predicate Solo(s: State, t: State, p: nat) {
    && Wf(s) && Wf(t) && p < |s.procs| && |t.procs| == |s.procs| && t.procs == s.procs[p := t.procs[p]]
    && t.init == s.init && t.nextpid == s.nextpid && t.reaped == s.reaped
  }

  /** wait_lock stays, is taken, or is let go, and p's place says so. */
  predicate LockMove(s: State, t: State, p: nat)
    requires p < |s.procs| == |t.procs|
  {
    var had, has := HoldsWait(s.procs[p].pc), HoldsWait(t.procs[p].pc);
    || (t.lock == s.lock && had == has)
    || (s.lock == |s.procs| && t.lock == p && has)
    || (s.lock == p && t.lock == |s.procs| && !has)
  }

  /** What one process may do on its own. */
  ghost predicate Harmless(s: State, t: State, p: nat)
    requires p < |s.procs| == |t.procs|
  {
    var x, y := s.procs[p], t.procs[p];
    && y.parent == x.parent && y.pid == x.pid
    && (x.st.Unused? <==> y.st.Unused?) && (x.st.Zombie? <==> y.st.Zombie?) && (Alive(x.st) ==> Alive(y.st))
    && (x.st.Used? && !y.st.Used? ==> x.parent < |s.procs|)
    && (y.st.Used? ==> x.st.Used?)
    && PlaceOk(t, p)
    && (Exiting(y.pc) ==> p != s.init)
    && (y.pc.Forking? || y.pc.Forked? ==> y.pc == x.pc)
    && (x.st.Used? && !y.st.Used? ==> forall q :: 0 <= q < |s.procs| ==> ChildOf(s.procs[q].pc, |s.procs|) != p)
  }

  lemma SoloLock(s: State, t: State, p: nat)
    requires Solo(s, t, p) && LockOk(s) && LockMove(s, t, p)
    ensures LockOk(t)
  {
  }

  lemma SoloPlaces(s: State, t: State, p: nat)
    requires Solo(s, t, p) && Places(s) && PlaceOk(t, p)
    ensures Places(t)
  {
    forall q | 0 <= q < |t.procs| ensures PlaceOk(t, q) {
      assert PlaceOk(s, q);
    }
  }

  lemma SoloParents(s: State, t: State, p: nat)
    requires Solo(s, t, p) && Parents(s) && Harmless(s, t, p)
    ensures Parents(t)
  {
    hide PlaceOk, Exiting;
    forall c | 0 <= c < |t.procs| ensures ParentOk(t, c) {
      assert ParentOk(s, c);
    }
  }

  lemma SoloInit(s: State, t: State, p: nat)
    requires Solo(s, t, p) && InitOk(s) && Harmless(s, t, p)
    ensures InitOk(t)
  {
    hide PlaceOk;
  }

  lemma SoloKids(s: State, t: State, p: nat)
    requires Solo(s, t, p) && NoKids(s) && t.procs[p].parent == s.procs[p].parent
    requires forall c :: 0 <= c < |s.procs| ==> KidOk(t, p, c)
    ensures NoKids(t)
  {
    forall q, c | 0 <= q < |t.procs| && 0 <= c < |t.procs| ensures KidOk(t, q, c) {
      assert KidOk(s, q, c);
    }
  }

  lemma SoloScans(s: State, t: State, p: nat)
    requires Solo(s, t, p) && Scans(s) && t.procs[p].parent == s.procs[p].parent
    requires t.procs[p].st.Zombie? <==> s.procs[p].st.Zombie?
    requires forall c :: 0 <= c < |s.procs| ==> ScanOk(t, p, c)
    ensures Scans(t)
  {
    forall q, c | 0 <= q < |t.procs| && 0 <= c < |t.procs| ensures ScanOk(t, q, c) {
      assert ScanOk(s, q, c);
    }
  }

  /** p does not become committed, or no exit is on its way to waking anyone. */
  ghost predicate Quiet(s: State, t: State, p: nat)
    requires p < |s.procs| == |t.procs|
  {
    (Committed(t.procs[p]) ==> Committed(s.procs[p])) || (s.lock == p && LockOk(s) && !s.procs[p].pc.WakeParent?)
  }

  lemma SoloWoken(s: State, t: State, p: nat)
    requires Solo(s, t, p) && Woken(s) && t.procs[p].parent == s.procs[p].parent
    requires Quiet(s, t, p) && WokenOk(t, p)
    ensures Woken(t)
  {
    forall q | 0 <= q < |t.procs| ensures WokenOk(t, q) {
      assert WokenOk(s, q);
    }
  }

  lemma SoloForgotten(s: State, t: State, p: nat)
    requires Solo(s, t, p) && NoneForgotten(s) && t.procs[p].parent == s.procs[p].parent
    requires t.procs[p].st.Zombie? <==> s.procs[p].st.Zombie?
    requires forall c :: 0 <= c < |s.procs| ==> Remembered(t, p, c)
    requires WakingInit(s) ==> WakingInit(t) || !Committed(s.procs[s.init])
    ensures NoneForgotten(t)
  {
    hide Committed;
    forall w, c | 0 <= w < |t.procs| && 0 <= c < |t.procs| ensures Remembered(t, w, c) {
      assert Remembered(s, w, c);
    }
  }

  lemma SoloForks(s: State, t: State, p: nat)
    requires Solo(s, t, p) && Forks(s) && Harmless(s, t, p)
    ensures Forks(t)
  {
    hide PlaceOk, Exiting;
    forall q | 0 <= q < |t.procs| ensures ForkOk(t, q) {
      assert ForkOk(s, q);
    }
    forall q, r | 0 <= q < |t.procs| && 0 <= r < |t.procs| ensures ForkPair(t, q, r) {
      assert ForkPair(s, q, r);
    }
  }

  lemma SoloPids(s: State, t: State, p: nat)
    requires Solo(s, t, p) && Pids(s) && Harmless(s, t, p)
    ensures Pids(t)
  {
    hide PlaceOk, Exiting;
    forall q | 0 <= q < |t.procs| ensures PidOk(t, q) {
      assert PidOk(s, q);
    }
    forall q, r | 0 <= q < |t.procs| && 0 <= r < |t.procs| ensures PidPair(t, q, r) {
      assert PidPair(s, q, r);
    }
  }

  /** Children stay whose they are. */
  ghost predicate SameParents(s: State, t: State) {
    |t.procs| == |s.procs| && forall c :: 0 <= c < |s.procs| ==> t.procs[c].parent == s.procs[c].parent
  }

  lemma SameKids(s: State, t: State, p: nat, k: nat)
    requires SameParents(s, t)
    ensures HasKid(t, p, k) <==> HasKid(s, p, k)
  {
    if c :| 0 <= c < k && c < |s.procs| && s.procs[c].parent == p {
      assert t.procs[c].parent == p;
    }
  }

  lemma SoloSeen(s: State, t: State, p: nat)
    requires Solo(s, t, p) && Seen(s) && t.procs[p].parent == s.procs[p].parent && SeenOk(t, p)
    ensures Seen(t)
  {
    hide HasKid;
    forall q | 0 <= q < |t.procs| ensures SeenOk(t, q) {
      assert SeenOk(s, q);
      forall k ensures HasKid(t, q, k) <==> HasKid(s, q, k) {
        SameKids(s, t, q, k);
      }
    }
  }

  /** A process that takes no new look at its children. */
  lemma StillSeen(s: State, t: State, p: nat)
    requires Solo(s, t, p) && t.procs[p].parent == s.procs[p].parent && SeenOk(s, p)
    requires var x, y := s.procs[p].pc, t.procs[p].pc;
             || y == x || y == Scan(0, false) || y.Idle? || Exiting(y) || y.Forking? || y.Forked?
             || (x.Scan? && x.k == |s.procs| && x.kids && y.Drowsy?) || (x.Drowsy? && y.Commit?)
             || (x.Commit? && y.Falling?) || (x.Falling? && y.Asleep?)
    ensures SeenOk(t, p)
  {
    hide HasKid;
    forall k ensures HasKid(t, p, k) <==> HasKid(s, p, k) {
      SameKids(s, t, p, k);
    }
    assert !HasKid(t, p, 0) by { NoneYet(t, p); }
  }

  lemma NoneYet(s: State, p: nat)
    ensures !HasKid(s, p, 0)
  {
  }

  /** What is left to check when one process moves on its own. */
  ghost predicate Fine(s: State, t: State, p: nat)
    requires p < |s.procs| == |t.procs|
  {
    && LockMove(s, t, p) && Harmless(s, t, p) && Quiet(s, t, p) && WokenOk(t, p)
    && (forall c :: 0 <= c < |s.procs| ==> KidOk(t, p, c))
    && (forall c :: 0 <= c < |s.procs| ==> ScanOk(t, p, c))
    && (forall c :: 0 <= c < |s.procs| ==> Remembered(t, p, c))
    && (WakingInit(s) && s.init < |s.procs| ==> WakingInit(t) || !Committed(s.procs[s.init]))
    && SeenOk(t, p)
  }

  lemma SoloInv(s: State, t: State, p: nat)
    requires Inv(s) && Solo(s, t, p) && Fine(s, t, p)
    ensures Inv(t)
  {
    hide LockOk, Places, Parents, InitOk, NoKids, Scans, Woken, NoneForgotten, Forks, Pids, Seen;
    SoloLock(s, t, p);
    SoloPlaces(s, t, p);
    SoloParents(s, t, p);
    SoloInit(s, t, p);
    SoloKids(s, t, p);
    SoloScans(s, t, p);
    SoloWoken(s, t, p);
    SoloForgotten(s, t, p);
    SoloForks(s, t, p);
    SoloPids(s, t, p);
    SoloSeen(s, t, p);
  }

  // ---- the steps of one process ----

  /** Scheduling, yielding, being killed, and sleeping and waking for other reasons. */
  lemma RunSteps(s: State, e: Step)
    requires Inv(s) && Enabled(s, e) && (e.Schedule? || e.Yield? || e.SleepElsewhere? || e.WakeElsewhere? || e.Kill?)
    ensures Inv(Apply(s, e))
  {
    hide LockOk, Parents, NoKids, Scans, Woken, NoneForgotten, Forks, Pids, Places, Seen;
    var t, p := Apply(s, e), e.p;
    Here(s, p);
    RunFine(s, t, p);
    SoloInv(s, t, p);
  }

  /** The invariant at process p, piece by piece. */
  lemma Here(s: State, p: nat)
    requires Inv(s) && p < |s.procs|
    ensures PlaceOk(s, p) && ParentOk(s, p) && WokenOk(s, p) && ForkOk(s, p) && PidOk(s, p) && SeenOk(s, p)
    ensures HoldsWait(s.procs[p].pc) <==> s.lock == p
    ensures forall c :: 0 <= c < |s.procs| ==> KidOk(s, p, c) && ScanOk(s, p, c) && Remembered(s, p, c)
  {
  }

  lemma RunFine(s: State, t: State, p: nat)
    requires Solo(s, t, p) && t.lock == s.lock
    requires t.procs[p] == s.procs[p].(st := t.procs[p].st, killed := t.procs[p].killed)
    requires t.procs[p].st == s.procs[p].st || (Alive(s.procs[p].st) && Alive(t.procs[p].st))
    requires PlaceOk(t, p) && InitOk(s) && SeenOk(s, p)
    requires Committed(t.procs[p]) ==> Committed(s.procs[p])
    requires WokenOk(s, p)
    requires forall c :: 0 <= c < |s.procs| ==> KidOk(s, p, c) && ScanOk(s, p, c) && Remembered(s, p, c)
    ensures Fine(s, t, p)
  {
    hide PlaceOk, SeenOk;
    StillSeen(s, t, p);
    forall c | 0 <= c < |s.procs| ensures KidOk(t, p, c) && ScanOk(t, p, c) && Remembered(t, p, c) {
      assert KidOk(s, p, c) && ScanOk(s, p, c) && Remembered(s, p, c);
    }
  }

  /** Entering wait, or coming back to it awake. */
  lemma EnterSteps(s: State, e: Step)
    requires Inv(s) && Enabled(s, e) && (e.WaitEnter? || e.WaitAgain?)
    ensures Inv(Apply(s, e))
  {
    hide LockOk, Parents, NoKids, Scans, Woken, NoneForgotten, Forks, Pids, Places, Seen;
    var t, p := Apply(s, e), e.p;
    Here(s, p);
    InitHere(s, p);
    forall c | 0 <= c < |s.procs| ensures KidOk(t, p, c) && ScanOk(t, p, c) && Remembered(t, p, c) {
      assert KidOk(s, p, c) && ScanOk(s, p, c) && Remembered(s, p, c);
    }
    StillSeen(s, t, p);
    assert Fine(s, t, p);
    SoloInv(s, t, p);
  }

  /** Leaving wait, or letting wait_lock go on the way to sleep. */
  lemma LeaveSteps(s: State, e: Step)
    requires Inv(s) && Enabled(s, e) && (e.ReapFault? || e.GiveUp? || e.LetGo?)
    ensures Inv(Apply(s, e))
  {
    hide LockOk, Parents, NoKids, Scans, Woken, NoneForgotten, Forks, Pids, Places, Seen;
    var t, p := Apply(s, e), e.p;
    Here(s, p);
    InitHere(s, p);
    forall c | 0 <= c < |s.procs| ensures KidOk(t, p, c) && ScanOk(t, p, c) && Remembered(t, p, c) {
      assert KidOk(s, p, c) && ScanOk(s, p, c) && Remembered(s, p, c);
    }
    StillSeen(s, t, p);
    assert Fine(s, t, p);
    SoloInv(s, t, p);
  }

  /** Falling asleep. */
  lemma FallStep(s: State, e: Step)
    requires Inv(s) && Enabled(s, e) && e.Fall?
    ensures Inv(Apply(s, e))
  {
    hide LockOk, Parents, NoKids, Scans, Woken, NoneForgotten, Forks, Pids, Places, Seen;
    var t, p := Apply(s, e), e.p;
    Here(s, p);
    forall c | 0 <= c < |s.procs| ensures KidOk(t, p, c) && ScanOk(t, p, c) && Remembered(t, p, c) {
      assert KidOk(s, p, c) && ScanOk(s, p, c) && Remembered(s, p, c);
    }
    StillSeen(s, t, p);
    assert Fine(s, t, p);
    SoloInv(s, t, p);
  }

  lemma InitHere(s: State, p: nat)
    requires Inv(s) && p < |s.procs| && !s.procs[p].pc.WakeInit? && s.lock in {p, |s.procs|}
    ensures !WakingInit(s)
  {
  }

  /** One slot of the scan, with no zombie child in it. */
  lemma ScanStep(s: State, e: Step)
    requires Inv(s) && Enabled(s, e) && e.ScanSlot?
    ensures Inv(Apply(s, e))
  {
    hide LockOk, Parents, NoKids, Scans, Woken, NoneForgotten, Forks, Pids, Places, Seen;
    var t, p := Apply(s, e), e.p;
    Here(s, p);
    InitHere(s, p);
    forall c | 0 <= c < |s.procs| ensures KidOk(t, p, c) && ScanOk(t, p, c) && Remembered(t, p, c) {
      assert KidOk(s, p, c) && ScanOk(s, p, c) && Remembered(s, p, c);
    }
    SeenMore(s, t, p);
    assert Fine(s, t, p);
    SoloInv(s, t, p);
  }

  lemma SeenMore(s: State, t: State, p: nat)
    requires Solo(s, t, p) && SeenOk(s, p) && s.procs[p].pc.Scan? && s.procs[p].pc.k < |s.procs|
    requires var pc := s.procs[p].pc;
             t.procs[p] == s.procs[p].(pc := Scan(pc.k + 1, pc.kids || s.procs[pc.k].parent == p))
    ensures SeenOk(t, p)
  {
    var k := s.procs[p].pc.k;
    SameKids(s, t, p, k + 1);
    assert HasKid(s, p, k + 1) <==> HasKid(s, p, k) || s.procs[k].parent == p;
  }

  /** The scan is over without a zombie: only then does the process commit to sleeping. */
  lemma CommitStep(s: State, e: Step)
    requires Inv(s) && Enabled(s, e) && (e.GoSleep? || e.GoCommit?)
    ensures Inv(Apply(s, e))
  {
    hide Parents, NoKids, Scans, Woken, NoneForgotten, Forks, Pids, Places, Seen;
    var t, p := Apply(s, e), e.p;
    Here(s, p);
    InitHere(s, p);
    forall c | 0 <= c < |s.procs| ensures KidOk(t, p, c) && ScanOk(t, p, c) && Remembered(t, p, c) {
      assert KidOk(s, p, c) && ScanOk(s, p, c) && Remembered(s, p, c);
    }
    StillSeen(s, t, p);
    assert Fine(s, t, p);
    SoloInv(s, t, p);
  }

  // ---- exit ----

  /** Entering exit. */
  lemma ExitStep(s: State, e: Step)
    requires Inv(s) && Enabled(s, e) && e.ExitEnter?
    ensures Inv(Apply(s, e))
  {
    hide LockOk, Parents, NoKids, Scans, Woken, NoneForgotten, Forks, Pids, Places, Seen;
    var t, p := Apply(s, e), e.p;
    Here(s, p);
    InitHere(s, p);
    forall c | 0 <= c < |s.procs| ensures KidOk(t, p, c) && ScanOk(t, p, c) && Remembered(t, p, c) {
      assert KidOk(s, p, c) && ScanOk(s, p, c) && Remembered(s, p, c);
    }
    StillSeen(s, t, p);
    assert Fine(s, t, p);
    SoloInv(s, t, p);
  }

  /** A slot with no child of the exiting process, or the end of the table. */
  lemma ReparentOn(s: State, e: Step)
    requires Inv(s) && Enabled(s, e) && e.ReparentSlot?
             && (s.procs[e.p].pc.i < |s.procs| ==> s.procs[s.procs[e.p].pc.i].parent != e.p)
    ensures Inv(Apply(s, e))
  {
    hide LockOk, Parents, NoKids, Scans, Woken, NoneForgotten, Forks, Pids, Places, Seen;
    var t, p := Apply(s, e), e.p;
    Here(s, p);
    InitHere(s, p);
    forall c | 0 <= c < |s.procs| ensures KidOk(t, p, c) && ScanOk(t, p, c) && Remembered(t, p, c) {
      assert KidOk(s, p, c) && ScanOk(s, p, c) && Remembered(s, p, c);
    }
    StillSeen(s, t, p);
    assert Fine(s, t, p);
    SoloInv(s, t, p);
  }

  /** wakeup(initproc) is done. */
  lemma WakeInitEnd(s: State, e: Step)
    requires Inv(s) && Enabled(s, e) && e.WakeInitSlot? && s.procs[e.p].pc.j >= |s.procs|
    ensures Inv(Apply(s, e))
  {
    hide LockOk, Parents, NoKids, Scans, Woken, NoneForgotten, Forks, Pids, Places, Seen;
    var t, p := Apply(s, e), e.p;
    Here(s, p);
    InitBelow(s);
    forall c | 0 <= c < |s.procs| ensures KidOk(t, p, c) && ScanOk(t, p, c) && Remembered(t, p, c) {
      assert KidOk(s, p, c) && ScanOk(s, p, c) && Remembered(s, p, c);
    }
    StillSeen(s, t, p);
    assert Fine(s, t, p);
    SoloInv(s, t, p);
  }

  /** A zombie lets wait_lock go, and is switched away. */
  lemma DeadSteps(s: State, e: Step)
    requires Inv(s) && Enabled(s, e) && (e.DieRelease? || e.SwitchAway?)
    ensures Inv(Apply(s, e))
  {
    hide LockOk, Parents, NoKids, Scans, Woken, NoneForgotten, Forks, Pids, Places, Seen;
    var t, p := Apply(s, e), e.p;
    Here(s, p);
    NotWaking(s, p);
    forall c | 0 <= c < |s.procs| ensures KidOk(t, p, c) && ScanOk(t, p, c) && Remembered(t, p, c) {
      assert KidOk(s, p, c) && ScanOk(s, p, c) && Remembered(s, p, c);
    }
    StillSeen(s, t, p);
    assert Fine(s, t, p);
    SoloInv(s, t, p);
  }

  lemma InitBelow(s: State)
    requires Inv(s)
    ensures s.init < |s.procs|
  {
  }

  /** A dying process is not about to wake init; a dead one does not hold wait_lock. */
  lemma NotWaking(s: State, p: nat)
    requires Inv(s) && p < |s.procs| && (s.procs[p].pc.Dying? || s.procs[p].pc.Dead?)
    ensures s.lock == p ==> !WakingInit(s)
  {
  }

  // ---- wakeups inside exit ----

  /** wakeup's visit to slot j: at most a sleeper there becomes runnable. */
  lemma WakeInv(s: State, p: nat, j: nat, chan: nat)
    requires Inv(s) && p < |s.procs| && j < |s.procs|
    ensures var u := Wake(s, p, j, chan);
            && Inv(u) && u.procs[p] == s.procs[p] && u.lock == s.lock && u.init == s.init && |u.procs| == |s.procs|
            && (forall q :: 0 <= q < |s.procs| && q != j ==> u.procs[q] == s.procs[q])
            && (forall q :: 0 <= q < |s.procs| ==>
                  u.procs[q].parent == s.procs[q].parent && u.procs[q].pc == s.procs[q].pc)
  {
    hide LockOk, Parents, NoKids, Scans, Woken, NoneForgotten, Forks, Pids, Places, Seen;
    var u := Wake(s, p, j, chan);
    if u != s {
      Here(s, j);
      RunFine(s, u, j);
      SoloInv(s, u, j);
    }
  }

  /** After the visit nobody at slot j = chan is committed to sleeping. */
  lemma VisitWakes(s: State, p: nat, j: nat)
    requires Inv(s) && p < |s.procs| && j < |s.procs| && j != p && s.lock == p && Unlocked(s, j)
    ensures !Committed(Wake(s, p, j, j).procs[j])
  {
    assert !HoldsWait(s.procs[j].pc);
  }

  lemma WakeInitOn(s: State, e: Step)
    requires Inv(s) && Enabled(s, e) && e.WakeInitSlot? && s.procs[e.p].pc.j < |s.procs|
    ensures Inv(Apply(s, e))
  {
    hide LockOk, Parents, NoKids, Scans, Woken, NoneForgotten, Forks, Pids, Places, Seen;
    var t, p := Apply(s, e), e.p;
    var j := s.procs[p].pc.j;
    var u := Wake(s, p, j, s.init);
    Here(s, p);
    WakeInv(s, p, j, s.init);
    Here(u, p);
    if j == s.init {
      VisitWakes(s, p, j);
    }
    forall c | 0 <= c < |s.procs| ensures KidOk(t, p, c) && ScanOk(t, p, c) && Remembered(t, p, c) {
      assert KidOk(u, p, c) && ScanOk(u, p, c) && Remembered(u, p, c);
    }
    StillSeen(u, t, p);
    assert Fine(u, t, p);
    SoloInv(u, t, p);
  }

  lemma WakeParentOn(s: State, e: Step)
    requires Inv(s) && Enabled(s, e) && e.WakeParentSlot?
    ensures Inv(Apply(s, e))
  {
    hide LockOk, Parents, NoKids, Scans, Woken, NoneForgotten, Forks, Pids, Places, Seen;
    var t, p := Apply(s, e), e.p;
    var j, w := s.procs[p].pc.j, s.procs[p].parent;
    var u := Wake(s, p, j, w);
    Here(s, p);
    WakeInv(s, p, j, w);
    Here(u, p);
    if j == w {
      VisitWakes(s, p, j);
    }
    forall c | 0 <= c < |s.procs| ensures KidOk(t, p, c) && ScanOk(t, p, c) && Remembered(t, p, c) {
      assert KidOk(u, p, c) && ScanOk(u, p, c) && Remembered(u, p, c);
    }
    StillSeen(u, t, p);
    assert Fine(u, t, p);
    SoloInv(u, t, p);
  }

  // ---- becoming a zombie ----

  lemma DieStep(s: State, e: Step)
    requires Inv(s) && Enabled(s, e) && e.Die?
    ensures Inv(Apply(s, e))
  {
    hide LockOk, Parents, NoKids, Scans, Woken, NoneForgotten, Forks, Pids, Places, InitOk, Seen;
    var t, p := Apply(s, e), e.p;
    Here(s, p);
    assert Solo(s, t, p);
    SoloLock(s, t, p);
    SoloPlaces(s, t, p);
    forall c | 0 <= c < |s.procs| ensures KidOk(t, p, c) && ScanOk(t, p, c) {
      assert KidOk(s, p, c);
    }
    SoloKids(s, t, p);
    SoloWoken(s, t, p);
    StillSeen(s, t, p);
    SoloSeen(s, t, p);
    DieRest(s, t, p);
    DieForgotten(s, t, p);
    DieForks(s, t, p);
  }

  lemma DieRest(s: State, t: State, p: nat)
    requires Solo(s, t, p) && Parents(s) && NoKids(s) && InitOk(s) && Scans(s) && LockOk(s) && Pids(s)
    requires s.lock == p && s.procs[p].pc.WakeParent? && s.procs[p].st.Running?
    requires t.procs[p] == s.procs[p].(st := Zombie, pc := Dying)
    ensures Parents(t) && InitOk(t) && Scans(t) && Pids(t)
  {
    forall c | 0 <= c < |t.procs| ensures ParentOk(t, c) {
      assert ParentOk(s, c) && KidOk(s, p, c);
    }
    forall q, c | 0 <= q < |t.procs| && 0 <= c < |t.procs| ensures ScanOk(t, q, c) {
      assert ScanOk(s, q, c);
      assert HoldsWait(s.procs[q].pc) <==> s.lock == q;
    }
    forall q | 0 <= q < |t.procs| ensures PidOk(t, q) {
      assert PidOk(s, q);
    }
    forall q, r | 0 <= q < |t.procs| && 0 <= r < |t.procs| ensures PidPair(t, q, r) {
      assert PidPair(s, q, r);
    }
  }

  /** The parent has been woken, so the new zombie is not forgotten. */
  lemma DieForgotten(s: State, t: State, p: nat)
    requires Solo(s, t, p) && NoneForgotten(s) && WokenOk(s, p)
    requires s.lock == p && s.procs[p].pc.WakeParent? && s.procs[p].pc.j >= |s.procs|
    requires t.procs[p] == s.procs[p].(st := Zombie, pc := Dying)
    ensures NoneForgotten(t)
  {
    forall w, c | 0 <= w < |t.procs| && 0 <= c < |t.procs| ensures Remembered(t, w, c) {
      assert Remembered(s, w, c);
    }
  }

  lemma DieForks(s: State, t: State, p: nat)
    requires Solo(s, t, p) && Forks(s) && s.procs[p].st.Running? && s.procs[p].pc.WakeParent?
    requires t.procs[p] == s.procs[p].(st := Zombie, pc := Dying)
    ensures Forks(t)
  {
    forall q | 0 <= q < |t.procs| ensures ForkOk(t, q) {
      assert ForkOk(s, q);
    }
    forall q, r | 0 <= q < |t.procs| && 0 <= r < |t.procs| ensures ForkPair(t, q, r) {
      assert ForkPair(s, q, r);
    }
  }

  // ---- steps that touch two processes ----

  /** fork's allocproc. */
  lemma AllocStepA(s: State, e: Step)
    requires Inv(s) && Enabled(s, e) && e.ForkAlloc?
    ensures LockOk(Apply(s, e)) && Places(Apply(s, e)) && Parents(Apply(s, e)) && InitOk(Apply(s, e)) && Wf(Apply(s, e))
  {
    hide NoKids, Scans, Woken, NoneForgotten, Pids, Seen;
    var t, p := Apply(s, e), e.p;
    Here(s, p);
    Here(s, e.np);
    forall q | 0 <= q < |t.procs| ensures PlaceOk(t, q) && ParentOk(t, q) {
      assert PlaceOk(s, q) && ParentOk(s, q);
    }
  }

  lemma AllocStepB(s: State, e: Step)
    requires Inv(s) && Enabled(s, e) && e.ForkAlloc?
    ensures NoKids(Apply(s, e)) && Scans(Apply(s, e))
  {
    hide Parents, Woken, NoneForgotten, Pids, LockOk, Forks, InitOk, Seen;
    var t, p := Apply(s, e), e.p;
    Here(s, p);
    Here(s, e.np);
    forall q, c | 0 <= q < |t.procs| && 0 <= c < |t.procs| ensures KidOk(t, q, c) && ScanOk(t, q, c) {
      assert KidOk(s, q, c) && ScanOk(s, q, c);
    }
  }

  lemma AllocStepC(s: State, e: Step)
    requires Inv(s) && Enabled(s, e) && e.ForkAlloc?
    ensures Woken(Apply(s, e)) && NoneForgotten(Apply(s, e))
  {
    hide Parents, Scans, NoKids, Pids, Forks, InitOk, Seen;
    var t, p := Apply(s, e), e.p;
    Here(s, p);
    Here(s, e.np);
    forall q | 0 <= q < |t.procs| ensures WokenOk(t, q) {
      assert WokenOk(s, q);
    }
    forall q, c | 0 <= q < |t.procs| && 0 <= c < |t.procs| ensures Remembered(t, q, c) {
      assert Remembered(s, q, c);
    }
  }

  lemma AllocStepD(s: State, e: Step)
    requires Inv(s) && Enabled(s, e) && e.ForkAlloc?
    ensures Forks(Apply(s, e))
  {
    hide Parents, Scans, NoKids, Woken, NoneForgotten, LockOk, InitOk, Pids, Seen;
    var t, p := Apply(s, e), e.p;
    Here(s, p);
    Here(s, e.np);
    forall q | 0 <= q < |t.procs| ensures ForkOk(t, q) {
      assert ForkOk(s, q);
    }
    forall q, r | 0 <= q < |t.procs| && 0 <= r < |t.procs| ensures ForkPair(t, q, r) {
      assert ForkPair(s, q, r) && ForkOk(s, q) && ForkOk(s, r);
    }
  }

  lemma AllocStepE(s: State, e: Step)
    requires Inv(s) && Enabled(s, e) && e.ForkAlloc?
    ensures Pids(Apply(s, e))
  {
    hide Parents, Scans, NoKids, Woken, NoneForgotten, LockOk, InitOk, Forks, Places, Seen;
    var t := Apply(s, e);
    forall q | 0 <= q < |t.procs| ensures PidOk(t, q) {
      assert PidOk(s, q);
    }
    forall q, r | 0 <= q < |t.procs| && 0 <= r < |t.procs| ensures PidPair(t, q, r) {
      assert PidPair(s, q, r) && PidOk(s, q) && PidOk(s, r);
    }
  }

  /** A fork that fails: the slot is free again, and a pid is used up. */
  lemma FailStepA(s: State, e: Step)
    requires Inv(s) && Enabled(s, e) && e.ForkFail?
    ensures LockOk(Apply(s, e)) && Places(Apply(s, e)) && Parents(Apply(s, e)) && InitOk(Apply(s, e)) && Wf(Apply(s, e))
  {
    hide NoKids, Scans, Woken, NoneForgotten, Pids, Seen;
    var t := Apply(s, e);
    Here(s, e.np);
    forall q | 0 <= q < |t.procs| ensures PlaceOk(t, q) && ParentOk(t, q) {
      assert PlaceOk(s, q) && ParentOk(s, q);
    }
  }

  lemma FailStepB(s: State, e: Step)
    requires Inv(s) && Enabled(s, e) && e.ForkFail?
    ensures NoKids(Apply(s, e)) && Scans(Apply(s, e)) && Woken(Apply(s, e)) && NoneForgotten(Apply(s, e))
  {
    hide Parents, Pids, LockOk, Forks, InitOk;
    var t := Apply(s, e);
    Here(s, e.np);
    forall q | 0 <= q < |t.procs| ensures WokenOk(t, q) {
      assert WokenOk(s, q);
    }
    forall q, c | 0 <= q < |t.procs| && 0 <= c < |t.procs|
      ensures KidOk(t, q, c) && ScanOk(t, q, c) && Remembered(t, q, c)
    {
      assert KidOk(s, q, c) && ScanOk(s, q, c) && Remembered(s, q, c);
    }
  }

  lemma FailStepC(s: State, e: Step)
    requires Inv(s) && Enabled(s, e) && e.ForkFail?
    ensures Forks(Apply(s, e)) && Pids(Apply(s, e))
  {
    hide Parents, Scans, NoKids, Woken, NoneForgotten, LockOk, InitOk, Seen;
    var t := Apply(s, e);
    Here(s, e.np);
    forall q | 0 <= q < |t.procs| ensures ForkOk(t, q) && PidOk(t, q) {
      assert ForkOk(s, q) && PidOk(s, q);
    }
    forall q, r | 0 <= q < |t.procs| && 0 <= r < |t.procs| ensures ForkPair(t, q, r) && PidPair(t, q, r) {
      assert ForkPair(s, q, r) && PidPair(s, q, r);
    }
  }

  /** np->parent = p. */
  lemma AdoptStepA(s: State, e: Step)
    requires Inv(s) && Enabled(s, e) && e.ForkParent?
    ensures LockOk(Apply(s, e)) && Places(Apply(s, e)) && Parents(Apply(s, e)) && InitOk(Apply(s, e)) && Wf(Apply(s, e))
  {
    hide NoKids, Scans, Woken, NoneForgotten, Pids, Seen;
    var t, p := Apply(s, e), e.p;
    Here(s, p);
    forall q | 0 <= q < |t.procs| ensures PlaceOk(t, q) && ParentOk(t, q) {
      assert PlaceOk(s, q) && ParentOk(s, q);
    }
  }

  lemma AdoptStepB(s: State, e: Step)
    requires Inv(s) && Enabled(s, e) && e.ForkParent?
    ensures NoKids(Apply(s, e)) && Scans(Apply(s, e))
  {
    hide Parents, Woken, NoneForgotten, Pids, LockOk, Forks, InitOk, Seen;
    var t, p := Apply(s, e), e.p;
    Here(s, p);
    forall q, c | 0 <= q < |t.procs| && 0 <= c < |t.procs| ensures KidOk(t, q, c) && ScanOk(t, q, c) {
      assert KidOk(s, q, c) && ScanOk(s, q, c);
    }
  }

  lemma AdoptStepC(s: State, e: Step)
    requires Inv(s) && Enabled(s, e) && e.ForkParent?
    ensures Woken(Apply(s, e)) && NoneForgotten(Apply(s, e))
  {
    hide Parents, Scans, NoKids, Pids, Forks, InitOk, Seen;
    var t, p := Apply(s, e), e.p;
    Here(s, p);
    forall q | 0 <= q < |t.procs| ensures WokenOk(t, q) {
      assert WokenOk(s, q);
    }
    forall q, c | 0 <= q < |t.procs| && 0 <= c < |t.procs| ensures Remembered(t, q, c) {
      assert Remembered(s, q, c);
    }
  }

  lemma AdoptStepD(s: State, e: Step)
    requires Inv(s) && Enabled(s, e) && e.ForkParent?
    ensures Forks(Apply(s, e)) && Pids(Apply(s, e))
  {
    hide Parents, Scans, NoKids, Woken, NoneForgotten, LockOk, InitOk, Seen;
    var t, p := Apply(s, e), e.p;
    Here(s, p);
    forall q | 0 <= q < |t.procs| ensures ForkOk(t, q) && PidOk(t, q) {
      assert ForkOk(s, q) && PidOk(s, q) && ForkPair(s, p, q) && ForkPair(s, q, p);
    }
    forall q, r | 0 <= q < |t.procs| && 0 <= r < |t.procs| ensures ForkPair(t, q, r) && PidPair(t, q, r) {
      assert ForkPair(s, q, r) && PidPair(s, q, r);
      assert ForkOk(s, q) && ForkOk(s, r) && PidOk(s, q) && PidOk(s, r);
    }
  }

  /** freeproc of a zombie child. */
  lemma ReapStepA(s: State, e: Step)
    requires Inv(s) && Enabled(s, e) && e.Reap?
    ensures LockOk(Apply(s, e)) && Places(Apply(s, e)) && Parents(Apply(s, e)) && InitOk(Apply(s, e)) && Wf(Apply(s, e))
  {
    hide NoKids, Scans, Woken, NoneForgotten, Pids, Seen;
    var t, p := Apply(s, e), e.p;
    Here(s, p);
    Here(s, s.procs[p].pc.k);
    forall q | 0 <= q < |t.procs| ensures PlaceOk(t, q) && ParentOk(t, q) {
      assert PlaceOk(s, q) && ParentOk(s, q);
    }
  }

  lemma ReapStepB(s: State, e: Step)
    requires Inv(s) && Enabled(s, e) && e.Reap?
    ensures NoKids(Apply(s, e)) && Scans(Apply(s, e))
  {
    hide Parents, Woken, NoneForgotten, Pids, LockOk, Forks, InitOk, Seen;
    var t, p := Apply(s, e), e.p;
    Here(s, p);
    Here(s, s.procs[p].pc.k);
    forall q, c | 0 <= q < |t.procs| && 0 <= c < |t.procs| ensures KidOk(t, q, c) && ScanOk(t, q, c) {
      assert KidOk(s, q, c) && ScanOk(s, q, c);
    }
  }

  lemma ReapStepC(s: State, e: Step)
    requires Inv(s) && Enabled(s, e) && e.Reap?
    ensures Woken(Apply(s, e)) && NoneForgotten(Apply(s, e))
  {
    hide Parents, Scans, NoKids, Pids, Forks, InitOk, Seen;
    var t, p := Apply(s, e), e.p;
    Here(s, p);
    Here(s, s.procs[p].pc.k);
    forall q | 0 <= q < |t.procs| ensures WokenOk(t, q) {
      assert WokenOk(s, q);
    }
    forall q, c | 0 <= q < |t.procs| && 0 <= c < |t.procs| ensures Remembered(t, q, c) {
      assert Remembered(s, q, c);
    }
  }

  lemma ReapStepD(s: State, e: Step)
    requires Inv(s) && Enabled(s, e) && e.Reap?
    ensures Forks(Apply(s, e)) && Pids(Apply(s, e))
  {
    hide Parents, Scans, NoKids, Woken, NoneForgotten, LockOk, InitOk, Seen;
    var t, p := Apply(s, e), e.p;
    Here(s, p);
    Here(s, s.procs[p].pc.k);
    forall q | 0 <= q < |t.procs| ensures ForkOk(t, q) && PidOk(t, q) {
      assert ForkOk(s, q) && PidOk(s, q) && PidPair(s, q, s.procs[p].pc.k);
    }
    forall q, r | 0 <= q < |t.procs| && 0 <= r < |t.procs| ensures ForkPair(t, q, r) && PidPair(t, q, r) {
      assert ForkPair(s, q, r) && PidPair(s, q, r);
      assert ForkOk(s, q) && ForkOk(s, r) && PidOk(s, q) && PidOk(s, r);
    }
  }

  /** The children of others stay, and nobody is in the middle of a scan but the process that moves. */
  ghost predicate Keeps(s: State, t: State, q: nat)
    requires q < |s.procs| == |t.procs|
  {
    && t.procs[q].pc == s.procs[q].pc
    && (forall c :: 0 <= c < |s.procs| && s.procs[c].parent == q ==> t.procs[c].parent == q)
    && (s.procs[q].pc.Scan? ==> forall c :: 0 <= c < |s.procs| && t.procs[c].parent == q ==> s.procs[c].parent == q)
  }

  lemma KeptSeen(s: State, t: State, q: nat)
    requires q < |s.procs| == |t.procs| && SeenOk(s, q) && Keeps(s, t, q)
    ensures SeenOk(t, q)
  {
    forall k: nat | HasKid(s, q, k) ensures HasKid(t, q, k) {
      var c :| 0 <= c < k && c < |s.procs| && s.procs[c].parent == q;
      assert t.procs[c].parent == q;
    }
    if s.procs[q].pc.Scan? && HasKid(t, q, s.procs[q].pc.k) {
      var c :| 0 <= c < s.procs[q].pc.k && c < |s.procs| && t.procs[c].parent == q;
      assert s.procs[c].parent == q;
    }
  }

  ghost predicate Resting(pc: Pc) { pc.Idle? || Exiting(pc) || pc.Forking? || pc.Forked? }

  lemma Indifferent(s: State, q: nat)
    requires q < |s.procs| && Resting(s.procs[q].pc)
    ensures SeenOk(s, q)
  {
  }

  /** The steps that touch two processes keep what a wait has seen. */
  lemma PairSeen(s: State, e: Step)
    requires Inv(s) && Enabled(s, e) && (e.ForkAlloc? || e.ForkFail? || e.ForkParent? || e.Reap? || e.ReparentSlot?)
    ensures Seen(Apply(s, e))
  {
    hide NoKids, Scans, Woken, NoneForgotten, Pids, Forks, SeenOk, HasKid, LockOk, Parents, InitOk, Places, Apply;
    hide Keeps;
    var t := Apply(s, e);
    forall q | 0 <= q < |t.procs| ensures SeenOk(t, q) {
      if Resting(t.procs[q].pc) {
        Indifferent(t, q);
      } else {
        if e.ForkAlloc? || e.ForkFail? || e.ForkParent? {
          ForkKeeps(s, e, t, q);
        } else {
          WaitKeeps(s, e, t, q);
        }
        Here(s, q);
        KeptSeen(s, t, q);
      }
    }
  }

  lemma ForkKeeps(s: State, e: Step, t: State, q: nat)
    requires Inv(s) && Enabled(s, e) && (e.ForkAlloc? || e.ForkFail? || e.ForkParent?)
    requires t == Apply(s, e) && q < |t.procs| && !Resting(t.procs[q].pc)
    ensures |t.procs| == |s.procs| && Keeps(s, t, q)
  {
    hide NoKids, Scans, Woken, NoneForgotten, Pids, Seen, Places, InitOk, LockOk, Parents, Forks;
    Here(s, e.p);
    if !e.ForkParent? {
      Here(s, e.np);
    }
    if q < |s.procs| {
      Here(s, q);
    }
  }

  lemma WaitKeeps(s: State, e: Step, t: State, q: nat)
    requires Inv(s) && Enabled(s, e) && (e.Reap? || e.ReparentSlot?)
    requires t == Apply(s, e) && q < |t.procs| && !Resting(t.procs[q].pc)
    ensures |t.procs| == |s.procs| && Keeps(s, t, q)
  {
    hide NoKids, Scans, Woken, NoneForgotten, Pids, Seen, Places, InitOk, LockOk, Parents, Forks;
    Here(s, e.p);
    if q < |s.procs| {
      Here(s, q);
    }
  }

  /** A child is handed to init. */
  lemma GiveAwayA(s: State, e: Step)
    requires Inv(s) && Enabled(s, e) && e.ReparentSlot? && s.procs[e.p].pc.i < |s.procs|
    requires s.procs[s.procs[e.p].pc.i].parent == e.p
    ensures LockOk(Apply(s, e)) && Places(Apply(s, e)) && Parents(Apply(s, e)) && InitOk(Apply(s, e)) && Wf(Apply(s, e))
  {
    hide NoKids, Scans, Woken, NoneForgotten, Pids, Seen;
    var t, p := Apply(s, e), e.p;
    Here(s, p);
    forall q | 0 <= q < |t.procs| ensures PlaceOk(t, q) && ParentOk(t, q) {
      assert PlaceOk(s, q) && ParentOk(s, q);
    }
  }

  lemma GiveAwayB(s: State, e: Step)
    requires Inv(s) && Enabled(s, e) && e.ReparentSlot? && s.procs[e.p].pc.i < |s.procs|
    requires s.procs[s.procs[e.p].pc.i].parent == e.p
    ensures NoKids(Apply(s, e)) && Scans(Apply(s, e))
  {
    hide Parents, Woken, NoneForgotten, Pids, Forks, Seen;
    var t, p := Apply(s, e), e.p;
    Here(s, p);
    forall q, c | 0 <= q < |t.procs| && 0 <= c < |t.procs| ensures KidOk(t, q, c) && ScanOk(t, q, c) {
      assert KidOk(s, q, c) && ScanOk(s, q, c);
    }
  }

  lemma GiveAwayC(s: State, e: Step)
    requires Inv(s) && Enabled(s, e) && e.ReparentSlot? && s.procs[e.p].pc.i < |s.procs|
    requires s.procs[s.procs[e.p].pc.i].parent == e.p
    ensures Woken(Apply(s, e)) && NoneForgotten(Apply(s, e))
  {
    hide Parents, Scans, NoKids, Pids, Forks, InitOk, Seen;
    var t, p := Apply(s, e), e.p;
    Here(s, p);
    forall q | 0 <= q < |t.procs| ensures WokenOk(t, q) {
      assert WokenOk(s, q);
    }
    forall q, c | 0 <= q < |t.procs| && 0 <= c < |t.procs| ensures Remembered(t, q, c) {
      assert Remembered(s, q, c);
    }
  }

  lemma GiveAwayD(s: State, e: Step)
    requires Inv(s) && Enabled(s, e) && e.ReparentSlot? && s.procs[e.p].pc.i < |s.procs|
    requires s.procs[s.procs[e.p].pc.i].parent == e.p
    ensures Forks(Apply(s, e)) && Pids(Apply(s, e))
  {
    hide Parents, Scans, NoKids, Woken, NoneForgotten, LockOk, InitOk, Seen;
    var t, p := Apply(s, e), e.p;
    Here(s, p);
    forall q | 0 <= q < |t.procs| ensures ForkOk(t, q) && PidOk(t, q) {
      assert ForkOk(s, q) && PidOk(s, q);
    }
    forall q, r | 0 <= q < |t.procs| && 0 <= r < |t.procs| ensures ForkPair(t, q, r) && PidPair(t, q, r) {
      assert ForkPair(s, q, r) && PidPair(s, q, r);
      assert ForkOk(s, q) && ForkOk(s, r) && PidOk(s, q) && PidOk(s, r);
    }
  }

  /** The child becomes runnable: its parent is done with it, then the child's record changes. */
  lemma StartStep(s: State, e: Step)
    requires Inv(s) && Enabled(s, e) && e.ForkRun?
    ensures Inv(Apply(s, e))
  {
    hide LockOk, Parents, NoKids, Scans, Woken, NoneForgotten, Forks, Pids, Places, Seen;
    var t, p := Apply(s, e), e.p;
    var c := s.procs[p].pc.child;
    Here(s, p);
    var u := Goto(s, p, Idle);
    forall x | 0 <= x < |s.procs| ensures KidOk(u, p, x) && ScanOk(u, p, x) && Remembered(u, p, x) {
      assert KidOk(s, p, x) && ScanOk(s, p, x) && Remembered(s, p, x);
    }
    StillSeen(s, u, p);
    assert Fine(s, u, p);
    SoloInv(s, u, p);
    assert t.procs == u.procs[c := u.procs[c].(st := Runnable)];
    StartChild(s, u, t, p, c);
  }

  lemma StartChild(s: State, u: State, t: State, p: nat, c: nat)
    requires Inv(s) && Inv(u) && p < |s.procs| && s.procs[p].pc == Forked(c) && u == Goto(s, p, Idle)
    requires c < |u.procs| && t == SetSt(u, c, Runnable) && p != c
    requires u.procs[c].st.Used? && u.procs[c].parent < |u.procs|
    ensures Inv(t)
  {
    hide LockOk, Parents, NoKids, Scans, Woken, NoneForgotten, Pids, Places, Seen;
    Here(u, c);
    forall x | 0 <= x < |s.procs| ensures KidOk(t, c, x) && ScanOk(t, c, x) && Remembered(t, c, x) {
      assert KidOk(u, c, x) && ScanOk(u, c, x) && Remembered(u, c, x);
    }
    forall q | 0 <= q < |u.procs| ensures ChildOf(u.procs[q].pc, |u.procs|) != c {
      assert ForkPair(s, p, q);
    }
    StillSeen(u, t, c);
    assert Fine(u, t, c);
    SoloInv(u, t, c);
  }

  /** Every step keeps the invariant. */
  lemma StepInv(s: State, e: Step)
    requires Inv(s) && Enabled(s, e)
    ensures Inv(Apply(s, e))
  {
    hide LockOk, Parents, NoKids, Scans, Woken, NoneForgotten, Forks, Pids, Places, InitOk, Enabled, Apply, Seen;
    match e
    case ForkAlloc(_, _) =>
      AllocStepA(s, e); AllocStepB(s, e); AllocStepC(s, e); AllocStepD(s, e); AllocStepE(s, e);
      PairSeen(s, e);
    case ForkFail(_, _) => FailStepA(s, e); FailStepB(s, e); FailStepC(s, e); PairSeen(s, e);
    case ForkParent(_) => AdoptStepA(s, e); AdoptStepB(s, e); AdoptStepC(s, e); AdoptStepD(s, e); PairSeen(s, e);
    case ForkRun(_) => StartStep(s, e);
    case Schedule(_) => RunSteps(s, e);
    case Yield(_) => RunSteps(s, e);
    case SleepElsewhere(_) => RunSteps(s, e);
    case WakeElsewhere(_) => RunSteps(s, e);
    case Kill(_) => RunSteps(s, e);
    case WaitEnter(_) => EnterSteps(s, e);
    case ScanSlot(_) => ScanStep(s, e);
    case Reap(_) => ReapStepA(s, e); ReapStepB(s, e); ReapStepC(s, e); ReapStepD(s, e); PairSeen(s, e);
    case ReapFault(_) => LeaveSteps(s, e);
    case GiveUp(_) => LeaveSteps(s, e);
    case GoSleep(_) => CommitStep(s, e);
    case GoCommit(_) => CommitStep(s, e);
    case LetGo(_) => LeaveSteps(s, e);
    case Fall(_) => FallStep(s, e);
    case WaitAgain(_) => EnterSteps(s, e);
    case ExitEnter(_) => ExitStep(s, e);
    case ReparentSlot(_) => ReparentStep(s, e);
    case WakeInitSlot(_) => WakeInitStep(s, e);
    case WakeParentSlot(_) => WakeParentOn(s, e);
    case Die(_) => DieStep(s, e);
    case DieRelease(_) => DeadSteps(s, e);
    case SwitchAway(_) => DeadSteps(s, e);
  }

  lemma ReparentStep(s: State, e: Step)
    requires Inv(s) && Enabled(s, e) && e.ReparentSlot?
    ensures Inv(Apply(s, e))
  {
    hide LockOk, Parents, NoKids, Scans, Woken, NoneForgotten, Forks, Pids, Places, InitOk, Apply, Seen;
    if s.procs[e.p].pc.i < |s.procs| && s.procs[s.procs[e.p].pc.i].parent == e.p {
      GiveAwayA(s, e);
      GiveAwayB(s, e);
      GiveAwayC(s, e);
      GiveAwayD(s, e);
      PairSeen(s, e);
    } else {
      ReparentOn(s, e);
    }
  }

  lemma WakeInitStep(s: State, e: Step)
    requires Inv(s) && Enabled(s, e) && e.WakeInitSlot?
    ensures Inv(Apply(s, e))
  {
    hide LockOk, Parents, NoKids, Scans, Woken, NoneForgotten, Forks, Pids, Places, InitOk, Apply, Seen;
    if s.procs[e.p].pc.j < |s.procs| {
      WakeInitOn(s, e);
    } else {
      WakeInitEnd(s, e);
    }
  }

  // ---- what a step leaves alone ----

  /** Steps that change, or may change, a process other than the one that takes them. */
  predicate Reaches(e: Step) {
    || e.ForkAlloc? || e.ForkFail? || e.ForkParent? || e.ForkRun? || e.Reap? || e.ReparentSlot?
    || e.WakeInitSlot? || e.WakeParentSlot?
  }

  /** All others change nobody else, and nobody's parent or pid. */
  lemma OneMoves(s: State, e: Step)
    requires Wf(s) && Enabled(s, e) && !Reaches(e)
    ensures var t, p := Apply(s, e), e.p;
            && p < |s.procs| && t.procs == s.procs[p := t.procs[p]]
            && t.procs[p].parent == s.procs[p].parent && t.procs[p].pid == s.procs[p].pid
            && t.init == s.init && t.nextpid == s.nextpid && t.reaped == s.reaped
            && (s.procs[p].st.Zombie? ==> t.procs[p].st.Zombie?)
  {
    hide Wake;
  }

  /** Whom the others change: the child, the zombie reaped, the orphan, or the sleeper woken. */
  predicate Reached(s: State, e: Step, c: nat)
    requires e.p < |s.procs| && c < |s.procs|
  {
    var pc := s.procs[e.p].pc;
    match e
    case ForkAlloc(_, np) => c == np
    case ForkFail(_, np) => c == np
    case ForkParent(_) => pc == Forking(c)
    case ForkRun(_) => pc == Forked(c)
    case Reap(_) => pc.Scan? && c == pc.k
    case ReparentSlot(_) => pc == Reparent(c) && s.procs[c].parent == e.p
    case WakeInitSlot(_) => c == s.init && s.procs[c].pc.Asleep? && s.procs[c].st.Sleeping?
    case WakeParentSlot(_) => c == s.procs[e.p].parent && s.procs[c].pc.Asleep? && s.procs[c].st.Sleeping?
    case _ => false
  }

  /** No step changes a process that it does not name. */
  lemma Frame(s: State, e: Step, c: nat)
    requires Inv(s) && Enabled(s, e) && e.p < |s.procs| && c < |s.procs| && c != e.p && !Reached(s, e, c)
    ensures |Apply(s, e).procs| == |s.procs| && Apply(s, e).procs[c] == s.procs[c]
  {
    hide LockOk, Parents, NoKids, Scans, Woken, NoneForgotten, Forks, Pids, Places, InitOk, Seen;
    if !Reaches(e) {
      hide Apply, Enabled, Reached;
      OneMoves(s, e);
    } else if e.WakeInitSlot? || e.WakeParentSlot? {
      WakesOnly(s, e, c);
    } else {
      Here(s, e.p);
    }
  }

  lemma WakesOnly(s: State, e: Step, c: nat)
    requires Wf(s) && Enabled(s, e) && (e.WakeInitSlot? || e.WakeParentSlot?)
    requires c < |s.procs| && c != e.p && !Reached(s, e, c)
    ensures |Apply(s, e).procs| == |s.procs| && Apply(s, e).procs[c] == s.procs[c]
  {
  }
}

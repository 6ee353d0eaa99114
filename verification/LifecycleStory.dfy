/** A run in which a wait does sleep, and an exit wakes it, in a table of any size. */
module LifecycleStory {
  import opened Lifecycle
  import opened LifecycleRuns

  /** The steps lead from s to t. */
  ghost predicate Path(s: State, steps: seq<Step>, t: State)
    decreases |steps|
  {
    if steps == [] then t == s
    else Wf(s) && Enabled(s, steps[0]) && Path(Apply(s, steps[0]), steps[1..], t)
  }

  lemma Then(s: State, e: Step, u: State, rest: seq<Step>, t: State)
    requires Wf(s) && Enabled(s, e) && Apply(s, e) == u && Path(u, rest, t)
    ensures Path(s, [e] + rest, t)
  {
    hide Enabled, Apply;
    assert ([e] + rest)[1..] == rest;
  }

  lemma {:induction false} Join(s: State, a: seq<Step>, u: State, b: seq<Step>, t: State)
    requires Path(s, a, u) && Path(u, b, t)
    ensures Path(s, a + b, t)
    decreases |a|
  {
    hide Enabled, Apply;
    if a == [] {
      assert a + b == b;
    } else {
      assert (a + b)[0] == a[0] && (a + b)[1..] == a[1..] + b;
      Join(Apply(s, a[0]), a[1..], u, b, t);
    }
  }

  /** From the first process on, a path is a run. */
  lemma {:induction false} PathRun(s: State, steps: seq<Step>, t: State) returns (run: seq<State>)
    requires Path(s, steps, t)
    ensures |run| == |steps| + 1 && run[0] == s && run[|steps|] == t && (Boot(s) ==> IsRun(run, steps))
    ensures forall k :: 0 <= k < |steps| ==>
              Wf(run[k]) && Enabled(run[k], steps[k]) && run[k + 1] == Apply(run[k], steps[k])
    decreases |steps|
  {
    hide Enabled, Apply, Boot;
    if steps == [] {
      run := [s];
    } else {
      var rest := PathRun(Apply(s, steps[0]), steps[1..], t);
      run := [s] + rest;
      forall k | 0 <= k < |steps|
        ensures Wf(run[k]) && Enabled(run[k], steps[k]) && run[k + 1] == Apply(run[k], steps[k])
      {
        if k > 0 {
          assert steps[k] == steps[1..][k - 1] && run[k] == rest[k - 1] && run[k + 1] == rest[k - 1 + 1];
        }
      }
    }
  }

  // ---- init and one child ----

  /** init, in slot 0 of n. */
  function Init(n: nat, st: Run, pc: Pc, ret: int): Proc { Proc(st, n, 1, pc, false, ret) }

  function Child(st: Run, pc: Pc): Proc { Proc(st, 0, 2, pc, false, 0) }

  /** Processes x and y in slots 0 and 1, and no others. */
  function Two(n: nat, x: Proc, y: Proc, lock: nat, reaped: seq<nat>): State
    requires n >= 2
  {
    State([x, y] + seq(n - 2, i => Blank(n)), lock, 0, 3, reaped)
  }

  function First(n: nat): State
    requires n >= 2
  {
    Two(n, Init(n, Runnable, Idle, 0), Blank(n), n, []).(nextpid := 2)
  }

  lemma PutTwo(n: nat, x: Proc, y: Proc, lock: nat, reaped: seq<nat>, z: Proc)
    requires n >= 2
    ensures Put(Two(n, x, y, lock, reaped), 0, z) == Two(n, z, y, lock, reaped)
    ensures Put(Two(n, x, y, lock, reaped), 1, z) == Two(n, x, z, lock, reaped)
  {
    assert Put(Two(n, x, y, lock, reaped), 0, z).procs == Two(n, z, y, lock, reaped).procs;
    assert Put(Two(n, x, y, lock, reaped), 1, z).procs == Two(n, x, z, lock, reaped).procs;
  }

  /** A step of init's that touches nobody else. */
  lemma InitStep(n: nat, x: Proc, y: Proc, lock: nat, reaped: seq<nat>, e: Step, z: Proc, l: nat)
    requires n >= 2 && lock <= n && l <= n && e.p == 0
    requires Enabled(Two(n, x, y, lock, reaped), e)
    requires Apply(Two(n, x, y, lock, reaped), e) == Put(Two(n, x, y, l, reaped), 0, z)
    ensures Apply(Two(n, x, y, lock, reaped), e) == Two(n, z, y, l, reaped)
  {
    hide Enabled, Apply;
    PutTwo(n, x, y, l, reaped, z);
  }

  lemma ChildStep(n: nat, x: Proc, y: Proc, lock: nat, reaped: seq<nat>, e: Step, z: Proc, l: nat)
    requires n >= 2 && lock <= n && l <= n && e.p == 1
    requires Enabled(Two(n, x, y, lock, reaped), e)
    requires Apply(Two(n, x, y, lock, reaped), e) == Put(Two(n, x, y, l, reaped), 1, z)
    ensures Apply(Two(n, x, y, lock, reaped), e) == Two(n, x, z, l, reaped)
  {
    hide Enabled, Apply;
    PutTwo(n, x, y, l, reaped, z);
  }

  function Times(e: Step, m: nat): seq<Step> { seq(m, i => e) }

  lemma MoreTimes(e: Step, m: nat)
    requires m > 0
    ensures Times(e, m) == [e] + Times(e, m - 1)
  {
  }

  // ---- init forks and waits ----

  function ForkSteps(): seq<Step> { [Schedule(0), ForkAlloc(0, 1), ForkParent(0), ForkRun(0)] }

  lemma Forks(n: nat)
    requires n >= 2
    ensures Path(First(n), ForkSteps(), Two(n, Init(n, Running, Idle, 0), Child(Runnable, Idle), n, []))
  {
    var s1 := Two(n, Init(n, Running, Idle, 0), Blank(n), n, []).(nextpid := 2);
    var s2 := Two(n, Init(n, Running, Forking(1), 0), Proc(Used, n, 2, Idle, false, 0), n, []);
    var s3 := Two(n, Init(n, Running, Forked(1), 0), Child(Used, Idle), n, []);
    var s4 := Two(n, Init(n, Running, Idle, 0), Child(Runnable, Idle), n, []);
    ForkFirst(n, s1, s2);
    ForkSecond(n, s2, s3, s4);
    assert Path(s4, [], s4);
    Then(s3, ForkRun(0), s4, [], s4);
    Then(s2, ForkParent(0), s3, [ForkRun(0)] + [], s4);
    Then(s1, ForkAlloc(0, 1), s2, [ForkParent(0)] + ([ForkRun(0)] + []), s4);
    Then(First(n), Schedule(0), s1, [ForkAlloc(0, 1)] + ([ForkParent(0)] + ([ForkRun(0)] + [])), s4);
    assert ForkSteps() == [Schedule(0)] + ([ForkAlloc(0, 1)] + ([ForkParent(0)] + ([ForkRun(0)] + [])));
  }

  lemma ForkFirst(n: nat, s1: State, s2: State)
    requires n >= 2 && s1 == Two(n, Init(n, Running, Idle, 0), Blank(n), n, []).(nextpid := 2)
    requires s2 == Two(n, Init(n, Running, Forking(1), 0), Proc(Used, n, 2, Idle, false, 0), n, [])
    ensures Enabled(First(n), Schedule(0)) && Apply(First(n), Schedule(0)) == s1
    ensures Enabled(s1, ForkAlloc(0, 1)) && Apply(s1, ForkAlloc(0, 1)) == s2
  {
    assert Apply(First(n), Schedule(0)).procs == s1.procs;
    assert Apply(s1, ForkAlloc(0, 1)).procs == s2.procs;
  }

  lemma ForkSecond(n: nat, s2: State, s3: State, s4: State)
    requires n >= 2 && s2 == Two(n, Init(n, Running, Forking(1), 0), Proc(Used, n, 2, Idle, false, 0), n, [])
    requires s3 == Two(n, Init(n, Running, Forked(1), 0), Child(Used, Idle), n, [])
    requires s4 == Two(n, Init(n, Running, Idle, 0), Child(Runnable, Idle), n, [])
    ensures Enabled(s2, ForkParent(0)) && Apply(s2, ForkParent(0)) == s3
    ensures Enabled(s3, ForkRun(0)) && Apply(s3, ForkRun(0)) == s4
  {
    assert Apply(s2, ForkParent(0)).procs == s3.procs;
    assert Apply(s3, ForkRun(0)).procs == s4.procs;
  }

  /** init's scan from slot k on. */
  lemma {:induction false} Scanning(n: nat, k: nat)
    requires 2 <= n && k <= n
    ensures Path(Two(n, Init(n, Running, Scan(k, k > 1), 0), Child(Runnable, Idle), 0, []), Times(ScanSlot(0), n - k),
                 Two(n, Init(n, Running, Scan(n, true), 0), Child(Runnable, Idle), 0, []))
    decreases n - k
  {
    var e, y := ScanSlot(0), Child(Runnable, Idle);
    if k < n {
      Scanning(n, k + 1);
      MoreTimes(e, n - k);
      InitStep(n, Init(n, Running, Scan(k, k > 1), 0), y, 0, [], e, Init(n, Running, Scan(k + 1, k + 1 > 1), 0), 0);
      Then(Two(n, Init(n, Running, Scan(k, k > 1), 0), y, 0, []), e,
           Two(n, Init(n, Running, Scan(k + 1, k + 1 > 1), 0), y, 0, []), Times(e, n - (k + 1)),
           Two(n, Init(n, Running, Scan(n, true), 0), y, 0, []));
    }
  }

  /** Asleep in wait: what init and its child look like then. */
  function Sleeper(n: nat): State
    requires n >= 2
  {
    Two(n, Init(n, Sleeping, Asleep, 0), Child(Runnable, Idle), n, [])
  }

  function WaitSteps(n: nat): seq<Step> {
    [WaitEnter(0)] + (Times(ScanSlot(0), n) + ([GoSleep(0)] + ([GoCommit(0)] + ([LetGo(0)] + ([Fall(0)] + [])))))
  }

  /** The way from the end of the scan into sleep. */
  lemma FallsAsleep(n: nat)
    requires n >= 2
    ensures Path(Two(n, Init(n, Running, Scan(n, true), 0), Child(Runnable, Idle), 0, []),
                 [GoSleep(0)] + ([GoCommit(0)] + ([LetGo(0)] + ([Fall(0)] + []))), Sleeper(n))
  {
    hide Path;
    var y, u := Child(Runnable, Idle), Sleeper(n);
    var s2 := Two(n, Init(n, Running, Scan(n, true), 0), y, 0, []);
    var s3 := Two(n, Init(n, Running, Drowsy, 0), y, 0, []);
    var s4 := Two(n, Init(n, Running, Commit, 0), y, 0, []);
    var s5 := Two(n, Init(n, Running, Falling, 0), y, n, []);
    InitStep(n, Init(n, Running, Scan(n, true), 0), y, 0, [], GoSleep(0), Init(n, Running, Drowsy, 0), 0);
    InitStep(n, Init(n, Running, Drowsy, 0), y, 0, [], GoCommit(0), Init(n, Running, Commit, 0), 0);
    InitStep(n, Init(n, Running, Commit, 0), y, 0, [], LetGo(0), Init(n, Running, Falling, 0), n);
    InitStep(n, Init(n, Running, Falling, 0), y, n, [], Fall(0), Init(n, Sleeping, Asleep, 0), n);
    Stays(u);
    Then(s5, Fall(0), u, [], u);
    Then(s4, LetGo(0), s5, [Fall(0)] + [], u);
    Then(s3, GoCommit(0), s4, [LetGo(0)] + ([Fall(0)] + []), u);
    Then(s2, GoSleep(0), s3, [GoCommit(0)] + ([LetGo(0)] + ([Fall(0)] + [])), u);
  }

  lemma Sleeps(n: nat)
    requires n >= 2
    ensures Path(Two(n, Init(n, Running, Idle, 0), Child(Runnable, Idle), n, []), WaitSteps(n), Sleeper(n))
  {
    hide Path;
    var y, u := Child(Runnable, Idle), Sleeper(n);
    var f := [GoSleep(0)] + ([GoCommit(0)] + ([LetGo(0)] + ([Fall(0)] + [])));
    var s1 := Two(n, Init(n, Running, Scan(0, false), 0), y, 0, []);
    InitStep(n, Init(n, Running, Idle, 0), y, n, [], WaitEnter(0), Init(n, Running, Scan(0, false), 0), 0);
    Scanning(n, 0);
    FallsAsleep(n);
    Join(s1, Times(ScanSlot(0), n), Two(n, Init(n, Running, Scan(n, true), 0), y, 0, []), f, u);
    Then(Two(n, Init(n, Running, Idle, 0), y, n, []), WaitEnter(0), s1, Times(ScanSlot(0), n) + f, u);
  }

  lemma Stays(s: State)
    ensures Path(s, [], s)
  {
  }

  // ---- the child exits ----

  lemma {:induction false} Reparenting(n: nat, i: nat)
    requires 2 <= n && i <= n
    ensures var x := Init(n, Sleeping, Asleep, 0);
            Path(Two(n, x, Child(Running, Reparent(i)), 1, []), Times(ReparentSlot(1), n - i + 1),
                 Two(n, x, Child(Running, WakeParent(0)), 1, []))
    decreases n - i
  {
    var e, x := ReparentSlot(1), Init(n, Sleeping, Asleep, 0);
    var t := Two(n, x, Child(Running, WakeParent(0)), 1, []);
    MoreTimes(e, n - i + 1);
    if i < n {
      Reparenting(n, i + 1);
      ChildStep(n, x, Child(Running, Reparent(i)), 1, [], e, Child(Running, Reparent(i + 1)), 1);
      Then(Two(n, x, Child(Running, Reparent(i)), 1, []), e, Two(n, x, Child(Running, Reparent(i + 1)), 1, []),
           Times(e, n - i), t);
    } else {
      ChildStep(n, x, Child(Running, Reparent(n)), 1, [], e, Child(Running, WakeParent(0)), 1);
      assert Times(e, 0) == [];
      Stays(t);
      Then(Two(n, x, Child(Running, Reparent(n)), 1, []), e, t, [], t);
    }
  }

  /** exit's wakeup from slot j > 0 on, when init is awake. */
  lemma {:induction false} Waking(n: nat, j: nat)
    requires 2 <= n && 0 < j <= n
    ensures var x := Init(n, Runnable, Asleep, 0);
            Path(Two(n, x, Child(Running, WakeParent(j)), 1, []), Times(WakeParentSlot(1), n - j),
                 Two(n, x, Child(Running, WakeParent(n)), 1, []))
    decreases n - j
  {
    var e, x := WakeParentSlot(1), Init(n, Runnable, Asleep, 0);
    if j < n {
      MoreTimes(e, n - j);
      Waking(n, j + 1);
      ChildStep(n, x, Child(Running, WakeParent(j)), 1, [], e, Child(Running, WakeParent(j + 1)), 1);
      Then(Two(n, x, Child(Running, WakeParent(j)), 1, []), e, Two(n, x, Child(Running, WakeParent(j + 1)), 1, []),
           Times(e, n - (j + 1)), Two(n, x, Child(Running, WakeParent(n)), 1, []));
    }
  }

  /** The visit to slot 0 makes the sleeper runnable. */
  lemma WakesInit(n: nat)
    requires n >= 2
    ensures var s := Two(n, Init(n, Sleeping, Asleep, 0), Child(Running, WakeParent(0)), 1, []);
            && Enabled(s, WakeParentSlot(1))
            && Apply(s, WakeParentSlot(1)) == Two(n, Init(n, Runnable, Asleep, 0), Child(Running, WakeParent(1)), 1, [])
  {
    var x, y := Init(n, Sleeping, Asleep, 0), Child(Running, WakeParent(0));
    PutTwo(n, x, y, 1, [], Init(n, Runnable, Asleep, 0));
    PutTwo(n, Init(n, Runnable, Asleep, 0), y, 1, [], Child(Running, WakeParent(1)));
  }

  function ExitSteps(n: nat): seq<Step>
    requires n >= 2
  {
    [Schedule(1)] + ([ExitEnter(1)] + (Times(ReparentSlot(1), n + 1) + ([WakeParentSlot(1)]
    + (Times(WakeParentSlot(1), n - 1) + ([Die(1)] + ([DieRelease(1)] + ([SwitchAway(1)] + [])))))))
  }

  /** The child is a zombie, and init can run. */
  function Woken(n: nat): State
    requires n >= 2
  {
    Two(n, Init(n, Runnable, Asleep, 0), Child(Zombie, Gone), n, [])
  }

  lemma Dies(n: nat)
    requires n >= 2
    ensures Path(Two(n, Init(n, Runnable, Asleep, 0), Child(Running, WakeParent(n)), 1, []),
                 [Die(1)] + ([DieRelease(1)] + ([SwitchAway(1)] + [])), Woken(n))
  {
    hide Path;
    var x, u := Init(n, Runnable, Asleep, 0), Woken(n);
    ChildStep(n, x, Child(Running, WakeParent(n)), 1, [], Die(1), Child(Zombie, Dying), 1);
    ChildStep(n, x, Child(Zombie, Dying), 1, [], DieRelease(1), Child(Zombie, Dead), n);
    ChildStep(n, x, Child(Zombie, Dead), n, [], SwitchAway(1), Child(Zombie, Gone), n);
    Stays(u);
    Then(Two(n, x, Child(Zombie, Dead), n, []), SwitchAway(1), u, [], u);
    Then(Two(n, x, Child(Zombie, Dying), 1, []), DieRelease(1), Two(n, x, Child(Zombie, Dead), n, []),
         [SwitchAway(1)] + [], u);
    Then(Two(n, x, Child(Running, WakeParent(n)), 1, []), Die(1), Two(n, x, Child(Zombie, Dying), 1, []),
         [DieRelease(1)] + ([SwitchAway(1)] + []), u);
  }

  lemma Exits(n: nat)
    requires n >= 2
    ensures Path(Sleeper(n), ExitSteps(n), Woken(n))
  {
    hide Path;
    var x, z, u := Init(n, Sleeping, Asleep, 0), Init(n, Runnable, Asleep, 0), Woken(n);
    var s1 := Two(n, x, Child(Running, Idle), n, []);
    var s2 := Two(n, x, Child(Running, Reparent(0)), 1, []);
    var s3 := Two(n, x, Child(Running, WakeParent(0)), 1, []);
    var s4 := Two(n, z, Child(Running, WakeParent(1)), 1, []);
    var s5 := Two(n, z, Child(Running, WakeParent(n)), 1, []);
    ChildStep(n, x, Child(Runnable, Idle), n, [], Schedule(1), Child(Running, Idle), n);
    ChildStep(n, x, Child(Running, Idle), n, [], ExitEnter(1), Child(Running, Reparent(0)), 1);
    Reparenting(n, 0);
    WakesInit(n);
    Waking(n, 1);
    Dies(n);
    var d := [Die(1)] + ([DieRelease(1)] + ([SwitchAway(1)] + []));
    Join(s4, Times(WakeParentSlot(1), n - 1), s5, d, u);
    Then(s3, WakeParentSlot(1), s4, Times(WakeParentSlot(1), n - 1) + d, u);
    var w := [WakeParentSlot(1)] + (Times(WakeParentSlot(1), n - 1) + d);
    Join(s2, Times(ReparentSlot(1), n + 1), s3, w, u);
    Then(s1, ExitEnter(1), s2, Times(ReparentSlot(1), n + 1) + w, u);
    Then(Sleeper(n), Schedule(1), s1, [ExitEnter(1)] + (Times(ReparentSlot(1), n + 1) + w), u);
  }

  // ---- init reaps it ----

  function ReapSteps(): seq<Step> { [Schedule(0)] + ([WaitAgain(0)] + ([ScanSlot(0)] + ([Reap(0)] + []))) }

  /** init is alone again, and its wait has returned the child's pid. */
  function Reaped(n: nat): State
    requires n >= 2
  {
    Two(n, Init(n, Running, Idle, 2), Blank(n), n, [2])
  }

  lemma ReapsChild(n: nat)
    requires n >= 2
    ensures var s := Two(n, Init(n, Running, Scan(1, false), 0), Child(Zombie, Gone), 0, []);
            Enabled(s, Reap(0)) && Apply(s, Reap(0)) == Reaped(n)
  {
    var s := Two(n, Init(n, Running, Scan(1, false), 0), Child(Zombie, Gone), 0, []);
    assert Apply(s, Reap(0)).procs == Reaped(n).procs;
  }

  lemma Reaps(n: nat)
    requires n >= 2
    ensures Path(Woken(n), ReapSteps(), Reaped(n))
  {
    hide Path;
    var y, u := Child(Zombie, Gone), Reaped(n);
    var s1 := Two(n, Init(n, Running, Asleep, 0), y, n, []);
    var s2 := Two(n, Init(n, Running, Scan(0, false), 0), y, 0, []);
    var s3 := Two(n, Init(n, Running, Scan(1, false), 0), y, 0, []);
    InitStep(n, Init(n, Runnable, Asleep, 0), y, n, [], Schedule(0), Init(n, Running, Asleep, 0), n);
    InitStep(n, Init(n, Running, Asleep, 0), y, n, [], WaitAgain(0), Init(n, Running, Scan(0, false), 0), 0);
    InitStep(n, Init(n, Running, Scan(0, false), 0), y, 0, [], ScanSlot(0), Init(n, Running, Scan(1, false), 0), 0);
    ReapsChild(n);
    Stays(u);
    Then(s3, Reap(0), u, [], u);
    Then(s2, ScanSlot(0), s3, [Reap(0)] + [], u);
    Then(s1, WaitAgain(0), s2, [ScanSlot(0)] + ([Reap(0)] + []), u);
    Then(Woken(n), Schedule(0), s1, [WaitAgain(0)] + ([ScanSlot(0)] + ([Reap(0)] + [])), u);
  }

  /** In a table of any size: init forks a child and waits, and sleeps, for it has a child; the child's
      exit makes it runnable, and it returns the child's pid. */
  lemma WaitSleepsAndIsWoken(n: nat)
    requires n >= 2
    ensures Boot(First(n)) && Path(First(n), ForkSteps() + WaitSteps(n), Sleeper(n))
    ensures Path(Sleeper(n), ExitSteps(n), Woken(n)) && Path(Woken(n), ReapSteps(), Reaped(n))
  {
    hide Path;
    Forks(n);
    Sleeps(n);
    Exits(n);
    Reaps(n);
    var s := Two(n, Init(n, Running, Idle, 0), Child(Runnable, Idle), n, []);
    Join(First(n), ForkSteps(), s, WaitSteps(n), Sleeper(n));
  }

  function Story(n: nat): seq<Step>
    requires n >= 2
  {
    ForkSteps() + (WaitSteps(n) + (ExitSteps(n) + ReapSteps()))
  }

  /** All of it is one run. */
  lemma StoryIsRun(n: nat) returns (run: seq<State>)
    requires n >= 2
    ensures IsRun(run, Story(n)) && run[0] == First(n) && run[|Story(n)|] == Reaped(n)
  {
    hide Path, IsRun, ForkSteps, WaitSteps, ExitSteps, ReapSteps;
    WaitSleepsAndIsWoken(n);
    Join(Sleeper(n), ExitSteps(n), Woken(n), ReapSteps(), Reaped(n));
    Join(First(n), ForkSteps() + WaitSteps(n), Sleeper(n), ExitSteps(n) + ReapSteps(), Reaped(n));
    assert ForkSteps() + WaitSteps(n) + (ExitSteps(n) + ReapSteps()) == Story(n);
    run := PathRun(First(n), Story(n), Reaped(n));
  }
}

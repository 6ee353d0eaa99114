/** The MLFQ scheduler on one hart: scheduler() under `#ifdef MLFQ`. */
module Mlfq {
  import opened Params
  import opened Collections

  const REFMIN1: int := 1000000
  const AGE_LIMIT: int := 48
  const LEVELS: int := 4

  /** tick_slc */
  function Slice(queue: int): int
    requires 0 <= queue < LEVELS
  {
    if queue == 0 then 1 else if queue == 1 then 4 else if queue == 2 then 8 else 16
  }

  datatype ProcState = Unused | Used | Sleeping | Runnable | Running | Zombie

  /** The scheduler's part of struct proc: queue, pqtct, wwpqtct, qnumber. */
  datatype Proc = Proc(state: ProcState, queue: int, used: int, waited: int, qnumber: int)

  predicate Live(p: Proc) { !p.state.Unused? }

  /** What holds of every slot between scheduler steps; r is roqd[0]. */
  predicate Ok(p: Proc, r: int) {
    Live(p) ==>
      && 0 <= p.queue < LEVELS && p.used >= 0 && p.waited >= 0
      && (p.queue != 0 ==> p.waited < AGE_LIMIT)
      && (p.queue == 0 ==> p.qnumber < r)
  }

  // ---- the environment ----

  /** An interrupt handler may wake a sleeper. */
  predicate Woken(a: Proc, b: Proc) {
    b == a || (a.state.Sleeping? && b == a.(state := Runnable))
  }

  /** A slot allocproc has just filled. */
  predicate Allocated(b: Proc) {
    (b.state.Used? || b.state.Runnable?) && b.queue == 1 && b.used == 0 && b.waited == 0
  }

  /** What another process may do to a slot while it has the hart. */
  predicate RunEffect(a: Proc, b: Proc) {
    || Woken(a, b)
    || (a.state.Used? && b == a.(state := Runnable))
    || (!a.state.Runnable? && !a.state.Sleeping? && (!Live(b) || Allocated(b)))
  }

  /** How a process leaves the hart: yield, sleep or exit. */
  predicate LeaveEffect(a: Proc, b: Proc) {
    (b.state.Runnable? || b.state.Sleeping? || b.state.Zombie?) && b == a.(state := b.state)
  }

  // ---- one round ----

  /** A live slot is in queue 0 because it was there before, or because it was put at the
      tail with a number from roqd[0]. */
  predicate Entered(a: Proc, b: Proc, r: int, r': int) {
    Live(b) && b.queue == 0 ==>
      || (Live(a) && a.queue == 0 && b.qnumber == a.qnumber)
      || r <= b.qnumber < r'
  }

  /** A runnable process that was passed over: it waited, and at the limit moved to queue 0. */
  predicate Aged(a: Proc, b: Proc, r: int, r': int) {
    && b.state.Runnable?
    && if a.queue != 0 && a.waited + 1 >= AGE_LIMIT
       then b.queue == 0 && b.waited == 0 && r <= b.qnumber < r'
       else b == a.(waited := a.waited + 1)
  }

  /** At level 3 everyone ages alike: a wait more, and at the limit the tail of queue 0. */
  predicate Older(a: Proc, b: Proc, r: int, r': int) {
    if a.waited + 1 >= AGE_LIMIT
    then b == a.(queue := 0, used := 0, waited := 0, qnumber := b.qnumber) && r <= b.qnumber < r'
    else b == a.(waited := a.waited + 1)
  }

  /** What one turn of the scheduler's loop does to a table: `ran` are the dispatched slots. */
  ghost predicate RoundRel(s: seq<Proc>, r: int, ran: set<int>, t: seq<Proc>, r': int) {
    && |s| == |t| == NPROC && r <= r'
    && (forall j :: 0 <= j < NPROC && s[j].state.Runnable? && j !in ran ==> Aged(s[j], t[j], r, r'))
    && (forall j :: 0 <= j < NPROC ==> Entered(s[j], t[j], r, r'))
    && Queue0(s, ran, t) && Ranked(s, ran) && Ordered(s, ran) && Alone(s, ran) && NotIdle(s, ran) && Billed(s, ran, t)
  }

  /** With anybody runnable above the last level, whoever runs is charged for a turn. */
  ghost predicate Billed(s: seq<Proc>, ran: set<int>, t: seq<Proc>)
    requires |s| == |t| == NPROC
  {
    forall u, j :: 0 <= u < NPROC && 0 <= j < NPROC && Upper(s[u]) && j in ran ==> Charged(s[j], t[j])
  }

  /** One turn used; a used-up slice means the next level, with a fresh one. Its waiting starts anew. */
  predicate Charged(a: Proc, b: Proc) {
    && 0 <= a.queue < LEVELS && b.waited == 0 && Live(b)
    && if a.used + 1 < Slice(a.queue) then b.queue == a.queue && b.used == a.used + 1 && b.qnumber == a.qnumber
       else b.queue == a.queue + 1 && b.used == 0
  }

  /** Queue 0: whom the search sees and passes over moves up, whom it does not see does not run, and
      nobody elsewhere runs while somebody waits there. */
  ghost predicate Queue0(s: seq<Proc>, ran: set<int>, t: seq<Proc>)
    requires |s| == |t| == NPROC
  {
    && (forall j :: 0 <= j < NPROC && Seen(s[j]) && j !in ran
          ==> exists c :: 0 <= c < NPROC && c != j && Demoted(s, t, c, s[j].qnumber))
    && (forall j :: 0 <= j < NPROC && Unseen(s[j]) ==> j !in ran)
    && (forall j, u :: 0 <= j < NPROC && 0 <= u < NPROC && KeepsOut(s[u], s[j]) ==> j !in ran)
  }

  /** Priority: nobody runs whose level is below that of a process runnable all along. */
  ghost predicate Ranked(s: seq<Proc>, ran: set<int>)
    requires |s| == NPROC
  {
    forall j, u :: 0 <= j < NPROC && 0 <= u < NPROC && Above(s[u], s[j]) ==> j !in ran
  }

  predicate Above(u: Proc, p: Proc) { u.state.Runnable? && Live(p) && u.queue < p.queue }

  /** Inside a level above the last, whoever runs has the smallest number there, and one that the
      search can see. */
  ghost predicate Ordered(s: seq<Proc>, ran: set<int>)
    requires |s| == NPROC
  {
    forall j, u :: 0 <= j < NPROC && 0 <= u < NPROC && j in ran && Rivals(s[u], s[j]) ==>
      s[j].qnumber < REFMIN1 && (s[u].qnumber < REFMIN1 ==> s[j].qnumber <= s[u].qnumber)
  }

  predicate Rivals(u: Proc, p: Proc) { u.state.Runnable? && Live(p) && u.queue == p.queue && u.queue < LEVELS - 1 }

  /** With anybody runnable above the last level, at most one process runs. */
  ghost predicate Alone(s: seq<Proc>, ran: set<int>)
    requires |s| == NPROC
  {
    forall u, i, j :: 0 <= u < NPROC && Upper(s[u]) && i in ran && j in ran ==> i == j
  }

  predicate Upper(u: Proc) { u.state.Runnable? && u.queue < LEVELS - 1 }

  /** A round dispatches nobody only if nobody was runnable, or the search missed somebody. */
  ghost predicate NotIdle(s: seq<Proc>, ran: set<int>)
    requires |s| == NPROC
  {
    ran == {} ==>
      || (forall u :: 0 <= u < NPROC ==> !s[u].state.Runnable?)
      || (exists u :: 0 <= u < NPROC && Live(s[u]) && s[u].qnumber >= REFMIN1)
  }

  /** c was in queue 0 with a number up to q, and no longer is. */
  ghost predicate Demoted(s: seq<Proc>, t: seq<Proc>, c: int, q: int)
    requires 0 <= c < |s| == |t|
  {
    Live(s[c]) && s[c].queue == 0 && s[c].qnumber <= q && t[c].queue != 0
  }

  /** A runnable process in queue 0 whose number the search for the smallest one, which starts
      from refmin1, can see, or cannot. */
  predicate Seen(p: Proc) { p.state.Runnable? && p.queue == 0 && p.qnumber < REFMIN1 }

  predicate Unseen(p: Proc) { p.state.Runnable? && p.queue == 0 && p.qnumber >= REFMIN1 }

  /** u's place in queue 0 keeps p, which is elsewhere, from being chosen. */
  predicate KeepsOut(u: Proc, p: Proc) {
    u.state.Runnable? && u.queue == 0 && p.state.Runnable? && p.queue != 0
  }

  class Scheduler {
    const procs: array<Proc>
    const roqd: array<int>
    /** The slots that were given the hart, in order. */
    ghost var turns: seq<int>

    ghost predicate Valid()
      reads procs, roqd
    {
      && procs.Length == NPROC && roqd.Length == LEVELS
      && forall j :: 0 <= j < NPROC ==> Ok(procs[j], roqd[0]) && !procs[j].state.Running?
    }

    /** procinit: no process yet, and no queue position given out. */
    constructor ()
      ensures Valid() && turns == [] && forall j :: 0 <= j < NPROC ==> procs[j].state.Unused?
      ensures fresh(procs) && fresh(roqd)
    {
      procs := new Proc[NPROC](j => Proc(Unused, 0, 0, 0, 0));
      roqd := new int[LEVELS](j => 0);
      turns := [];
    }

    /** Interrupts are on between two lock-held regions. */
    method Interrupt()
      requires procs.Length == NPROC
      modifies procs
      ensures forall j :: 0 <= j < NPROC ==> Woken(old(procs[j]), procs[j])
    {
      var i := 0;
      while i < NPROC
        invariant 0 <= i <= NPROC
        invariant forall j :: 0 <= j < i ==> Woken(old(procs[j]), procs[j])
        invariant forall j :: i <= j < NPROC ==> procs[j] == old(procs[j])
      {
        var p := procs[i];
        assert Woken(p, p);
        var q :| Woken(p, q);
        procs[i] := q;
        i := i + 1;
      }
    }

    /** The chosen process takes the hart, runs, and gives it back. */
    method Switch(i: int)
      requires Valid() && 0 <= i < NPROC && procs[i].state.Runnable?
      modifies procs, roqd, `turns
      ensures turns == old(turns) + [i]
      ensures Valid() && LeaveEffect(old(procs[i]), procs[i])
      ensures forall j :: 0 <= j < NPROC && j != i ==> RunEffect(old(procs[j]), procs[j])
      ensures roqd[0] >= old(roqd[0])
    {
      turns := turns + [i];
      procs[i] := procs[i].(state := Running);
      var r := roqd[0];
      var r' :| r' >= r;
      roqd[0] := r';
      var k := 0;
      while k < NPROC
        invariant 0 <= k <= NPROC && roqd[0] == r' >= r && turns == old(turns) + [i]
        invariant forall j :: 0 <= j < k && j != i ==>
                  RunEffect(old(procs[j]), procs[j]) && Ok(procs[j], r') && !procs[j].state.Running?
        invariant forall j :: k <= j < NPROC && j != i ==> procs[j] == old(procs[j])
        invariant if i < k then LeaveEffect(old(procs[i]), procs[i]) else procs[i] == old(procs[i]).(state := Running)
      {
        var p := procs[k];
        if k == i {
          assert LeaveEffect(p, p.(state := Runnable));
          var q :| LeaveEffect(p, q);
          assert LeaveEffect(p, q) && p == old(procs[i]).(state := Running);
          procs[k] := q;
        } else {
          assert RunEffect(p, p);
          var q :| RunEffect(p, q);
          procs[k] := q;
        }
        k := k + 1;
      }
    }

    /** The scan for the smallest queue number with a runnable process; 4 if there is none. */
    method FindLevel() returns (qm: int)
      requires Valid()
      modifies procs
      ensures Valid() && 0 <= qm <= LEVELS
      ensures forall j :: 0 <= j < NPROC ==> Woken(old(procs[j]), procs[j])
      ensures forall j :: 0 <= j < NPROC && old(procs[j]).state.Runnable? ==> qm <= old(procs[j]).queue
      ensures qm == LEVELS || exists j :: 0 <= j < NPROC && Stands(procs[j], qm)
    {
      qm := LEVELS;
      var i := 0;
      while i < NPROC
        invariant 0 <= i <= NPROC && 0 <= qm <= LEVELS && Valid()
        invariant forall j :: 0 <= j < NPROC ==> Woken(old(procs[j]), procs[j])
        invariant forall j :: 0 <= j < i && old(procs[j]).state.Runnable? ==> qm <= old(procs[j]).queue
        invariant qm == LEVELS || exists j :: 0 <= j < NPROC && Stands(procs[j], qm)
      {
        ghost var w: int :| qm == LEVELS || (0 <= w < NPROC && Stands(procs[w], qm));
        Interrupt();
        assert qm == LEVELS || Stands(procs[w], qm);
        if procs[i].state.Runnable? && procs[i].queue < qm {
          qm := procs[i].queue;
          assert Stands(procs[i], qm);
        }
        i := i + 1;
      }
    }

    /** The scan for prngd: the runnable process of level qm with the smallest qnumber
        below refmin1, or -1. */
    method Select(qm: int) returns (c: int)
      requires Valid()
      modifies procs
      ensures Valid() && -1 <= c < NPROC
      ensures forall j :: 0 <= j < NPROC ==> Woken(old(procs[j]), procs[j])
      ensures c >= 0 ==> Candidate(procs[c], qm)
      ensures forall j :: 0 <= j < NPROC && Candidate(old(procs[j]), qm) ==>
                c >= 0 && procs[c].qnumber <= old(procs[j]).qnumber
    {
      var refm := REFMIN1;
      c := -1;
      var i := 0;
      while i < NPROC
        invariant 0 <= i <= NPROC && -1 <= c < i && Valid() && refm <= REFMIN1
        invariant forall j :: 0 <= j < NPROC ==> Woken(old(procs[j]), procs[j])
        invariant if c >= 0 then Candidate(procs[c], qm) && refm == procs[c].qnumber else refm == REFMIN1
        invariant forall j :: 0 <= j < i && Candidate(old(procs[j]), qm) ==> refm <= old(procs[j]).qnumber
      {
        Interrupt();
        if procs[i].state.Runnable? && procs[i].queue == qm {
          if procs[i].qnumber < refm {
            c := i;
            refm := procs[i].qnumber;
          }
        }
        i := i + 1;
      }
    }
  
    /** A runnable process is passed over: its wait grows, and at the limit it goes to the
        tail of queue 0. In the low levels a process already in queue 0 keeps its place. */
    method Age(j: int, evenQueue0: bool)
      requires Valid() && 0 <= j < NPROC && procs[j].state.Runnable?
      modifies procs, roqd
      ensures Valid() && roqd[0] >= old(roqd[0])
      ensures forall i :: 0 <= i < NPROC && i != j ==> procs[i] == old(procs[i])
      ensures var p := old(procs[j]);
              if (evenQueue0 || p.queue != 0) && p.waited + 1 >= AGE_LIMIT
              then procs[j] == p.(queue := 0, used := 0, waited := 0, qnumber := old(roqd[0]))
                   && roqd[0] == old(roqd[0]) + 1
              else procs[j] == p.(waited := p.waited + 1) && roqd[0] == old(roqd[0])
      ensures procs[j].state.Runnable? && Entered(old(procs[j]), procs[j], old(roqd[0]), roqd[0])
      ensures !evenQueue0 ==> Aged(old(procs[j]), procs[j], old(roqd[0]), roqd[0])
    {
      var p := procs[j].(waited := procs[j].waited + 1);
      if (evenQueue0 || p.queue != 0) && p.waited >= AGE_LIMIT {
        p := p.(queue := 0, used := 0, waited := 0, qnumber := roqd[0]);
        roqd[0] := roqd[0] + 1;
      }
      procs[j] := p;
    }

    /** The chosen process runs one turn and is charged for it; a used-up slice demotes it. */
    method Dispatch(c: int)
      requires Valid() && 0 <= c < NPROC && procs[c].state.Runnable? && procs[c].queue < LEVELS - 1
      modifies procs, roqd, `turns
      ensures turns == old(turns) + [c]
      ensures Valid() && roqd[0] >= old(roqd[0])
      ensures forall j :: 0 <= j < NPROC && j != c ==> RunEffect(old(procs[j]), procs[j])
      ensures old(procs[c]).queue <= procs[c].queue <= old(procs[c]).queue + 1 && procs[c].waited == 0 && Live(procs[c])
      ensures procs[c].queue > old(procs[c]).queue <==> old(procs[c]).used + 1 >= Slice(old(procs[c]).queue)
      ensures var p := old(procs[c]);
              if p.used + 1 < Slice(p.queue) then procs[c].used == p.used + 1 && procs[c].qnumber == p.qnumber
              else procs[c].used == 0 && roqd[p.queue + 1] == procs[c].qnumber + 1
    {
      Switch(c);
      var p := procs[c].(used := procs[c].used + 1);
      if p.used >= Slice(p.queue) && p.queue != 4 {
        var q := p.queue + 1;
        p := p.(queue := q, used := 0, qnumber := roqd[q]);
        roqd[q] := roqd[q] + 1;
      }
      procs[c] := p.(waited := 0);
    }

    /** The second pass of a round below level 3, at one slot: c runs, everyone else waits. */
    method Visit(i: int, c: int)
      requires Valid() && 0 <= i < NPROC && (i == c ==> procs[c].queue < LEVELS - 1)
      modifies procs, roqd, `turns
      ensures i != c ==> turns == old(turns)
      ensures i == c && old(procs[i]).state.Runnable? ==> turns == old(turns) + [c]
      ensures Valid() && roqd[0] >= old(roqd[0])
      ensures forall j :: 0 <= j < NPROC && j != i && old(procs[j]).state.Runnable? ==> procs[j] == old(procs[j])
      ensures forall j :: 0 <= j < NPROC ==> Entered(old(procs[j]), procs[j], old(roqd[0]), roqd[0])
      ensures i != c && old(procs[i]).state.Runnable? ==> Aged(old(procs[i]), procs[i], old(roqd[0]), roqd[0])
      ensures i == c && old(procs[i]).state.Runnable? ==> Charged(old(procs[i]), procs[i])
      ensures i == c && old(procs[i]).state.Runnable? && old(procs[i]).queue == 0 ==> procs[i].queue != 0
      ensures i != c ==> forall j :: 0 <= j < NPROC && j != i ==> Woken(old(procs[j]), procs[j])
    {
      Interrupt();
      if procs[i].state.Runnable? && i != c {
        Age(i, false);
      } else if procs[i].state.Runnable? && i == c {
        Dispatch(c);
      }
    }

    method Pass(qm: int, c: int, ghost s: seq<Proc>, ghost r: int)
      requires Valid() && |s| == NPROC && r == roqd[0]
      requires -1 <= c < NPROC && qm != 3
      requires c >= 0 ==> procs[c].state.Runnable? && procs[c].queue == qm
      requires forall j :: 0 <= j < NPROC ==> Woken(s[j], procs[j])
      modifies procs, roqd, `turns
      ensures turns == old(turns) + if c >= 0 then [c] else []
      ensures Valid() && r <= roqd[0]
      ensures forall j :: 0 <= j < NPROC && s[j].state.Runnable? && j != c ==> Aged(s[j], procs[j], r, roqd[0])
      ensures forall j :: 0 <= j < NPROC ==> Entered(s[j], procs[j], r, roqd[0])
      ensures c >= 0 && qm == 0 ==> procs[c].queue != 0
      ensures c >= 0 ==> Charged(old(procs[c]), procs[c])
    {
      ghost var chosen := if c >= 0 then procs[c] else procs[0];
      var i := 0;
      while i < NPROC
        invariant 0 <= i <= NPROC && Valid() && r <= roqd[0]
        invariant forall j :: i <= j < NPROC && s[j].state.Runnable? ==> procs[j] == s[j]
        invariant forall j :: 0 <= j < i && s[j].state.Runnable? && j != c ==> Aged(s[j], procs[j], r, roqd[0])
        invariant forall j :: 0 <= j < NPROC ==> Entered(s[j], procs[j], r, roqd[0])
        invariant c >= i ==> procs[c] == chosen
        invariant turns == old(turns) + if 0 <= c < i then [c] else []
        invariant 0 <= c < i && qm == 0 ==> procs[c].queue != 0
        invariant 0 <= c < i ==> Charged(chosen, procs[c])
      {
        Visit(i, c);
        i := i + 1;
      }
    }

    /** After i ran at level 3, every other runnable process ages. */
    method AgeOthers(i: int)
      requires Valid() && 0 <= i < NPROC
      modifies procs, roqd
      ensures Valid() && roqd[0] >= old(roqd[0])
      ensures forall j :: 0 <= j < NPROC ==> Entered(old(procs[j]), procs[j], old(roqd[0]), roqd[0])
      ensures forall j :: 0 <= j < NPROC && old(procs[j]).state.Runnable? ==> procs[j].state.Runnable?
      ensures forall j :: 0 <= j < NPROC ==>
                if j != i && old(procs[j]).state.Runnable? then Older(old(procs[j]), procs[j], old(roqd[0]), roqd[0])
                else procs[j] == old(procs[j])
    {
      var q := 0;
      while q < NPROC
        invariant 0 <= q <= NPROC && Valid() && roqd[0] >= old(roqd[0])
        invariant forall j :: 0 <= j < NPROC ==> Entered(old(procs[j]), procs[j], old(roqd[0]), roqd[0])
        invariant forall j :: q <= j < NPROC ==> procs[j] == old(procs[j])
        invariant forall j :: 0 <= j < NPROC && old(procs[j]).state.Runnable? ==> procs[j].state.Runnable?
        invariant forall j :: 0 <= j < q ==>
                    if j != i && old(procs[j]).state.Runnable?
                    then Older(old(procs[j]), procs[j], old(roqd[0]), roqd[0])
                    else procs[j] == old(procs[j])
      {
        if q != i && procs[q].state.Runnable? {
          Age(q, true);
        }
        q := q + 1;
      }
    }

    /** A round at level 3: every runnable process runs, in table order. */
    method Sweep(ghost s: seq<Proc>, ghost r: int) returns (ghost order: seq<int>)
      requires Valid() && |s| == NPROC && r == roqd[0]
      requires forall j :: 0 <= j < NPROC ==> Woken(s[j], procs[j])
      modifies procs, roqd, `turns
      ensures turns == old(turns) + order
      ensures Valid() && r <= roqd[0]
      ensures forall j :: 0 <= j < NPROC && s[j].state.Runnable? ==> j in order
      ensures forall j :: 0 <= j < NPROC ==> Entered(s[j], procs[j], r, roqd[0])
    {
      hide Older;
      order := [];
      var i := 0;
      while i < NPROC
        invariant 0 <= i <= NPROC && Valid() && r <= roqd[0] && turns == old(turns) + order
        invariant forall j :: 0 <= j < i && s[j].state.Runnable? ==> j in order
        invariant forall j :: i <= j < NPROC && s[j].state.Runnable? ==> procs[j].state.Runnable?
        invariant forall j :: 0 <= j < NPROC ==> Entered(s[j], procs[j], r, roqd[0])
      {
        Interrupt();
        if procs[i].state.Runnable? {
          Switch(i);
          order := order + [i];
          AgeOthers(i);
        }
        i := i + 1;
      }
    }

    /** A round at a level above the last, or with nobody runnable. */
    method Serve(qm: int, ghost s: seq<Proc>) returns (ghost ran: set<int>)
      requires Valid() && 0 <= qm <= LEVELS && qm != 3 && Searched(s, procs[..], roqd[0], qm)
      modifies procs, roqd, `turns
      ensures Valid()
      ensures old(turns) <= turns && ran == set x | x in turns[|old(turns)|..]
      ensures RoundRel(s, old(roqd[0]), ran, procs[..], roqd[0])
    {
      hide Aged, Entered, Ok, RoundRel, Woken, Searched, Candidate, Charged;
      ghost var mid, r := procs[..], roqd[0];
      SearchedTable(s, mid, r, qm);
      var c := Select(qm);
      ghost var sel := procs[..];
      WokenTwice(s, mid, sel);
      assert c >= 0 ==> sel[c].state.Runnable? && sel[c].queue == qm by { CandidateStands(sel, qm, c); }
      Pass(qm, c, s, r);
      ran := if c >= 0 then {c} else {};
      assert turns[|old(turns)|..] == if c >= 0 then [c] else [];
      ghost var t := procs[..];
      Served(s, mid, sel, t, r, roqd[0], qm, c);
    }

    /** One turn of the scheduler's endless loop. */
    method Round() returns (ghost ran: set<int>)
      requires Valid()
      modifies procs, roqd, `turns
      ensures Valid()
      ensures old(turns) <= turns && ran == set x | x in turns[|old(turns)|..]
      ensures RoundRel(old(procs[..]), old(roqd[0]), ran, procs[..], roqd[0])
    {
      hide Aged, Entered, Ok, RoundRel, Woken;
      ghost var s, r := procs[..], roqd[0];
      Levelled(s, r);
      var qm := FindLevel();
      ghost var mid := procs[..];
      assert Searched(s, mid, r, qm);
      if qm == 3 {
        ghost var order := Sweep(s, r);
        ran := set x | x in order;
        assert turns[|old(turns)|..] == order;
        ghost var t := procs[..];
        Swept(s, ran, t, r, roqd[0]);
      } else {
        ran := Serve(qm, s);
      }
    }
  }

  /** The scan over s for a level, with sleepers woken meanwhile, has found qm. */
  ghost predicate Searched(s: seq<Proc>, mid: seq<Proc>, r: int, qm: int) {
    && |s| == |mid| == NPROC && (forall j :: 0 <= j < NPROC ==> Woken(s[j], mid[j]))
    && (forall j :: 0 <= j < NPROC && s[j].state.Runnable? ==> qm <= s[j].queue)
    && (forall j :: 0 <= j < NPROC && Live(s[j]) ==> 0 <= s[j].queue < LEVELS)
    && (qm == LEVELS || exists j :: 0 <= j < NPROC && Stands(mid[j], qm))
  }

  lemma SearchedTable(s: seq<Proc>, mid: seq<Proc>, r: int, qm: int)
    requires Searched(s, mid, r, qm)
    ensures |s| == |mid| == NPROC && forall j :: 0 <= j < NPROC ==> Woken(s[j], mid[j])
  {
  }

  lemma CandidateStands(sel: seq<Proc>, qm: int, c: int)
    requires |sel| == NPROC && -1 <= c < NPROC && (c >= 0 ==> Candidate(sel[c], qm))
    ensures c >= 0 ==> sel[c].state.Runnable? && sel[c].queue == qm
  {
  }

  /** A round that chooses c from `sel`. */
  lemma Served(s: seq<Proc>, mid: seq<Proc>, sel: seq<Proc>, t: seq<Proc>, r: int, r': int, qm: int, c: int)
    requires Searched(s, mid, r, qm) && 0 <= qm && |sel| == |t| == NPROC && -1 <= c < NPROC && r <= r'
    requires forall j :: 0 <= j < NPROC ==> Woken(mid[j], sel[j])
    requires c >= 0 ==> Candidate(sel[c], qm)
    requires c >= 0 && qm == 0 ==> t[c].queue != 0
    requires c >= 0 ==> Charged(sel[c], t[c])
    requires forall j :: 0 <= j < NPROC && Candidate(mid[j], qm) ==> c >= 0 && sel[c].qnumber <= mid[j].qnumber
    requires forall j :: 0 <= j < NPROC && s[j].state.Runnable? && j != c ==> Aged(s[j], t[j], r, r')
    requires forall j :: 0 <= j < NPROC ==> Entered(s[j], t[j], r, r')
    ensures RoundRel(s, r, if c >= 0 then {c} else {}, t, r')
  {
    hide Aged, Entered, Woken, Candidate, Ranked, Ordered, Alone, NotIdle, Queue0, Charged;
    Dispatched(s, mid, sel, qm, c);
    if c >= 0 {
      StillCharged(s[c], mid[c], sel[c], t[c]);
    }
    OthersDemoted(s, mid, sel, t, qm, c);
  }

  /** Waking changes nothing that a turn is charged to. */
  lemma StillCharged(a: Proc, b: Proc, c: Proc, d: Proc)
    requires Woken(a, b) && Woken(b, c) && Charged(c, d)
    ensures Charged(a, d)
  {
  }

  lemma WokenTwice(s: seq<Proc>, t: seq<Proc>, u: seq<Proc>)
    requires |s| == |t| == |u| == NPROC && forall j :: 0 <= j < NPROC ==> Woken(s[j], t[j]) && Woken(t[j], u[j])
    ensures forall j :: 0 <= j < NPROC ==> Woken(s[j], u[j])
  {
    forall j | 0 <= j < NPROC ensures Woken(s[j], u[j]) {
      assert Woken(s[j], t[j]) && Woken(t[j], u[j]);
    }
  }

  lemma Levelled(s: seq<Proc>, r: int)
    requires |s| == NPROC && forall j :: 0 <= j < NPROC ==> Ok(s[j], r)
    ensures forall j :: 0 <= j < NPROC && Live(s[j]) ==> 0 <= s[j].queue < LEVELS
  {
  }

  /** A choice from queue 0 lets whoever it passed over move up; nothing unseen, and nobody below queue 0
      with somebody in it, is chosen. */
  lemma OthersDemoted(s: seq<Proc>, mid: seq<Proc>, sel: seq<Proc>, t: seq<Proc>, qm: int, c: int)
    requires |s| == |mid| == |sel| == |t| == NPROC && -1 <= c < NPROC
    requires forall j :: 0 <= j < NPROC ==> Woken(s[j], mid[j]) && Woken(mid[j], sel[j])
    requires forall j :: 0 <= j < NPROC && s[j].state.Runnable? ==> qm <= s[j].queue
    requires forall j :: 0 <= j < NPROC && Live(s[j]) ==> 0 <= s[j].queue
    requires 0 <= qm && (c >= 0 ==> Candidate(sel[c], qm)) && (c >= 0 && qm == 0 ==> t[c].queue != 0)
    requires forall j :: 0 <= j < NPROC && Candidate(mid[j], qm) ==> c >= 0 && sel[c].qnumber <= mid[j].qnumber
    ensures Queue0(s, if c >= 0 then {c} else {}, t)
  {
    if c >= 0 {
      assert Woken(s[c], mid[c]) && Woken(mid[c], sel[c]);
    }
    forall j | 0 <= j < NPROC && Seen(s[j]) && j != c ensures 0 <= c && Demoted(s, t, c, s[j].qnumber) {
      assert Woken(s[j], mid[j]);
      assert Candidate(mid[j], qm);
    }
  }

  /** A sweep: everybody runnable is at the last level, and all of them run. */
  lemma Swept(s: seq<Proc>, ran: set<int>, t: seq<Proc>, r: int, r': int)
    requires |s| == |t| == NPROC && r <= r'
    requires forall j :: 0 <= j < NPROC && s[j].state.Runnable? ==> s[j].queue >= LEVELS - 1 && j in ran
    requires forall j :: 0 <= j < NPROC && Live(s[j]) ==> 0 <= s[j].queue < LEVELS
    requires forall j :: 0 <= j < NPROC ==> Entered(s[j], t[j], r, r')
    ensures RoundRel(s, r, ran, t, r')
  {
    hide Entered, Aged;
    assert Ranked(s, ran) && Ordered(s, ran) && Alone(s, ran) && NotIdle(s, ran);
  }

  /** The search at level qm of a table that is s but for sleepers woken, `mid` before it and `sel` after. */
  lemma Dispatched(s: seq<Proc>, mid: seq<Proc>, sel: seq<Proc>, qm: int, c: int)
    requires |s| == |mid| == |sel| == NPROC && -1 <= c < NPROC
    requires forall j :: 0 <= j < NPROC ==> Woken(s[j], mid[j]) && Woken(mid[j], sel[j])
    requires forall j :: 0 <= j < NPROC && s[j].state.Runnable? ==> qm <= s[j].queue
    requires forall j :: 0 <= j < NPROC && Live(s[j]) ==> s[j].queue < LEVELS
    requires qm == LEVELS || exists j :: 0 <= j < NPROC && Stands(mid[j], qm)
    requires c >= 0 ==> Candidate(sel[c], qm)
    requires forall j :: 0 <= j < NPROC && Candidate(mid[j], qm) ==> c >= 0 && sel[c].qnumber <= mid[j].qnumber
    ensures var ran := if c >= 0 then {c} else {};
            Ranked(s, ran) && Ordered(s, ran) && Alone(s, ran) && NotIdle(s, ran)
  {
    if c >= 0 {
      assert Woken(s[c], mid[c]) && Woken(mid[c], sel[c]);
      forall u | 0 <= u < NPROC && Rivals(s[u], s[c]) && s[u].qnumber < REFMIN1
        ensures s[c].qnumber <= s[u].qnumber
      {
        assert Woken(s[u], mid[u]);
        assert Candidate(mid[u], qm);
      }
    } else if qm == LEVELS {
      forall u | 0 <= u < NPROC ensures !s[u].state.Runnable? {
        assert s[u].state.Runnable? ==> Live(s[u]);
      }
    } else {
      var j :| 0 <= j < NPROC && Stands(mid[j], qm);
      assert Woken(s[j], mid[j]) && !Candidate(mid[j], qm);
      assert Live(s[j]) && s[j].qnumber >= REFMIN1;
    }
  }

  /** Runnable, at level qm. */
  predicate Stands(p: Proc, qm: int) { p.state.Runnable? && p.queue == qm }

  predicate Candidate(p: Proc, qm: int) {
    p.state.Runnable? && p.queue == qm && p.qnumber < REFMIN1
  }

  // ---- bounded waiting ----

  /** The slots in queue 0 that would be chosen before p. */
  ghost function Ahead(s: seq<Proc>, p: int): set<int>
    requires 0 <= p < |s|
  {
    set q | 0 <= q < |s| && q != p && Live(s[q]) && s[q].queue == 0 && s[q].qnumber <= s[p].qnumber
  }

  /** An upper bound on the rounds until p is dispatched. */
  ghost function Rank(s: seq<Proc>, p: int): int
    requires 0 <= p < |s|
  {
    if s[p].queue == 0 then |Ahead(s, p)| + 1 else NPROC + AGE_LIMIT - s[p].waited
  }

  ghost predicate Table(s: seq<Proc>, r: int) {
    |s| == NPROC && forall j :: 0 <= j < NPROC ==> Ok(s[j], r)
  }

  lemma AheadBound(s: seq<Proc>, p: int)
    requires |s| == NPROC && 0 <= p < NPROC
    ensures |Ahead(s, p)| < NPROC
  {
    UpToSize(NPROC);
    assert forall q :: q in Ahead(s, p) ==> q in UpTo(NPROC) - {p};
    SubsetSize(Ahead(s, p), UpTo(NPROC) - {p});
  }

  ghost function UpTo(n: nat): set<int> {
    if n == 0 then {} else UpTo(n - 1) + {n - 1}
  }

  lemma {:induction false} UpToSize(n: nat)
    ensures |UpTo(n)| == n && forall q :: q in UpTo(n) <==> 0 <= q < n
  {
    if n > 0 {
      UpToSize(n - 1);
    }
  }

  /** A process passed over in a round is closer to being dispatched. */
  lemma RankDecreases(s: seq<Proc>, r: int, ran: set<int>, t: seq<Proc>, r': int, p: int)
    requires Table(s, r) && Table(t, r') && RoundRel(s, r, ran, t, r')
    requires 0 <= p < NPROC && s[p].state.Runnable? && p !in ran && !Unseen(s[p])
    ensures t[p].state.Runnable? && 0 < Rank(t, p) < Rank(s, p)
  {
    AheadBound(t, p);
    if s[p].queue == 0 {
      var c :| 0 <= c < NPROC && c != p && Demoted(s, t, c, s[p].qnumber);
      assert Ahead(t, p) <= Ahead(s, p) - {c} by {
        forall q | q in Ahead(t, p) ensures q in Ahead(s, p) - {c} {
          assert Entered(s[q], t[q], r, r');
        }
      }
      assert c in Ahead(s, p);
      SubsetSize(Ahead(t, p), Ahead(s, p) - {c});
    }
  }

  /** A run: the k-th round takes tables[k] to tables[k+1], with roqd[0] going from
      rs[k] to rs[k+1], and dispatches rans[k]. */
  ghost predicate Rounds(tables: seq<seq<Proc>>, rs: seq<int>, rans: seq<set<int>>) {
    && |tables| == |rs| == |rans| + 1
    && (forall k :: 0 <= k < |tables| ==> Table(tables[k], rs[k]))
    && (forall k :: 0 <= k < |rans| ==>
          RoundRel(tables[k], rs[k], rans[k], tables[k + 1], rs[k + 1]))
  }

  /** roqd[0] has not passed refmin1 before any of the rounds. */
  ghost predicate Early(rs: seq<int>, n: nat) {
    n <= |rs| && forall k :: 0 <= k < n ==> rs[k] <= REFMIN1
  }

  lemma {:induction false} WaitsAtMostRank(tables: seq<seq<Proc>>, rs: seq<int>, rans: seq<set<int>>, p: int)
    returns (k: nat)
    requires Rounds(tables, rs, rans) && 0 <= p < NPROC && tables[0][p].state.Runnable?
    requires Seen(tables[0][p]) || Early(rs, |rans|)
    requires Rank(tables[0], p) <= |rans|
    ensures k < |rans| && k < Rank(tables[0], p) && p in rans[k]
    decreases |rans|
  {
    assert Ok(tables[0][p], rs[0]);
    if p in rans[0] {
      AheadBound(tables[0], p);
      return 0;
    }
    RankDecreases(tables[0], rs[0], rans[0], tables[1], rs[1], p);
    assert Aged(tables[0][p], tables[1][p], rs[0], rs[1]);
    var i := WaitsAtMostRank(tables[1..], rs[1..], rans[1..], p);
    k := i + 1;
  }

  /** Bounded waiting: whatever the other processes do, a runnable process is dispatched
      within 48 + NPROC rounds, as long as roqd[0] has not passed refmin1. */
  lemma BoundedWaiting(tables: seq<seq<Proc>>, rs: seq<int>, rans: seq<set<int>>, p: int) returns (k: nat)
    requires Rounds(tables, rs, rans) && |rans| >= AGE_LIMIT + NPROC && Early(rs, AGE_LIMIT + NPROC)
    requires 0 <= p < NPROC && tables[0][p].state.Runnable?
    ensures k < AGE_LIMIT + NPROC && p in rans[k]
  {
    var n := AGE_LIMIT + NPROC;
    assert Ok(tables[0][p], rs[0]);
    AheadBound(tables[0], p);
    k := WaitsAtMostRank(tables[..n + 1], rs[..n + 1], rans[..n], p);
  }

  // ---- past refmin1 ----

  /** With an unseen process about, a runnable process that is not seen is never dispatched: it
      can only age, and that puts it in queue 0 with a number at or past refmin1. */
  lemma {:induction false} NeverRuns(tables: seq<seq<Proc>>, rs: seq<int>, rans: seq<set<int>>, u: int, p: int, k: nat)
    requires Rounds(tables, rs, rans) && 0 <= u < NPROC && 0 <= p < NPROC && Unseen(tables[0][u])
    requires tables[0][p].state.Runnable? && !Seen(tables[0][p]) && k < |rans|
    ensures p !in rans[k]
    decreases k
  {
    var s, t := tables[0], tables[1];
    assert u !in rans[0] && (Unseen(s[p]) || KeepsOut(s[u], s[p]));
    if k > 0 {
      assert Ok(s[u], rs[0]);
      assert Aged(s[u], t[u], rs[0], rs[1]) && Aged(s[p], t[p], rs[0], rs[1]);
      NeverRuns(tables[1..], rs[1..], rans[1..], u, p, k - 1);
    }
  }

  /** Once a process waits in queue 0 with a number at or past refmin1, the runnable processes that
      are ever dispatched again are exactly those in queue 0 with smaller numbers. */
  lemma ServedBesideUnseen(tables: seq<seq<Proc>>, rs: seq<int>, rans: seq<set<int>>, u: int, p: int)
    requires Rounds(tables, rs, rans) && |rans| >= NPROC && 0 <= u < NPROC && Unseen(tables[0][u])
    requires 0 <= p < NPROC && tables[0][p].state.Runnable?
    ensures (exists k :: 0 <= k < |rans| && p in rans[k]) <==> Seen(tables[0][p])
  {
    if Seen(tables[0][p]) {
      AheadBound(tables[0], p);
      var k := WaitsAtMostRank(tables, rs, rans, p);
    } else {
      forall k | 0 <= k < |rans| ensures p !in rans[k] {
        NeverRuns(tables, rs, rans, u, p, k);
      }
    }
  }

  /** Before round k, p is in queue 0 with a number at or past refmin1, and has not run since the start. */
  ghost predicate LostAt(tables: seq<seq<Proc>>, rans: seq<set<int>>, p: int, k: int)
    requires 0 <= k < |tables| == |rans| + 1 && 0 <= p < |tables[k]|
  {
    Unseen(tables[k][p]) && forall j :: 0 <= j < k ==> p !in rans[j]
  }

  /** Within its rank a runnable process has run or is lost. */
  lemma {:induction false} RunsOrLost(tables: seq<seq<Proc>>, rs: seq<int>, rans: seq<set<int>>, p: int)
    returns (k: nat)
    requires Rounds(tables, rs, rans) && 0 <= p < NPROC && tables[0][p].state.Runnable?
    requires Rank(tables[0], p) <= |rans|
    ensures k < |rans| && k < Rank(tables[0], p) && (p in rans[k] || LostAt(tables, rans, p, k))
    decreases |rans|
  {
    assert Ok(tables[0][p], rs[0]);
    AheadBound(tables[0], p);
    if p in rans[0] || Unseen(tables[0][p]) {
      return 0;
    }
    RankDecreases(tables[0], rs[0], rans[0], tables[1], rs[1], p);
    var i := RunsOrLost(tables[1..], rs[1..], rans[1..], p);
    k := i + 1;
    if p !in rans[k] {
      assert LostAt(tables[1..], rans[1..], p, i);
      forall j | 0 <= j < k ensures p !in rans[j] {
        assert j == 0 || rans[j] == rans[1..][j - 1];
      }
    }
  }

  lemma LostStays(tables: seq<seq<Proc>>, rs: seq<int>, rans: seq<set<int>>, p: int, k: nat, m: nat)
    requires Rounds(tables, rs, rans) && 0 <= p < NPROC && k < |rans| && LostAt(tables, rans, p, k) && m < |rans|
    ensures p !in rans[m]
  {
    if m >= k {
      assert rans[k..][m - k] == rans[m];
      NeverRuns(tables[k..], rs[k..], rans[k..], p, p, m - k);
    }
  }

  /** Bounded waiting, exactly: in every run a runnable process is dispatched unless it comes to wait in
      queue 0 at or past refmin1 before its turn, within 48 + NPROC rounds; if it is dispatched at all,
      it is dispatched within 48 + NPROC rounds. */
  lemma ServedExactly(tables: seq<seq<Proc>>, rs: seq<int>, rans: seq<set<int>>, p: int)
    requires Rounds(tables, rs, rans) && |rans| >= AGE_LIMIT + NPROC
    requires 0 <= p < NPROC && tables[0][p].state.Runnable?
    ensures (exists k :: 0 <= k < |rans| && p in rans[k])
            <==> !(exists k :: 0 <= k < AGE_LIMIT + NPROC && LostAt(tables, rans, p, k))
    ensures (exists k :: 0 <= k < |rans| && p in rans[k]) ==> exists k :: 0 <= k < AGE_LIMIT + NPROC && p in rans[k]
  {
    assert Ok(tables[0][p], rs[0]);
    AheadBound(tables[0], p);
    var k := RunsOrLost(tables, rs, rans, p);
    forall l: nat, m: nat | l < |rans| && LostAt(tables, rans, p, l) && m < |rans| ensures p !in rans[m] {
      LostStays(tables, rs, rans, p, l, m);
    }
  }

  /** With roqd[0] at refmin1 and somebody in queue 0, a process elsewhere that is passed over for the
      48th time is lost, whatever happens in the round. */
  lemma AgesOut(s: seq<Proc>, r: int, ran: set<int>, t: seq<Proc>, r': int, u: int, p: int)
    requires RoundRel(s, r, ran, t, r') && r >= REFMIN1 && 0 <= p < NPROC
    requires 0 <= u < NPROC && s[u].state.Runnable? && s[u].queue == 0
    requires s[p].state.Runnable? && s[p].queue != 0 && s[p].waited + 1 >= AGE_LIMIT
    ensures p !in ran && Unseen(t[p])
  {
    assert KeepsOut(s[u], s[p]) && Aged(s[p], t[p], r, r');
  }

  /** A table with roqd[0] at refmin1: slot 1 is next, slot 0 has been passed over 47 times. */
  function Brink(): seq<Proc> {
    seq(NPROC, j => if j == 0 then Proc(Runnable, 1, 0, AGE_LIMIT - 1, 0)
                    else if j == 1 then Proc(Runnable, 0, 0, 0, REFMIN1 - 1)
                    else Proc(Unused, 0, 0, 0, 0))
  }

  /** The code run on it: a scheduler in that state loses slot 0 in its next round, every time. */
  method LosesSlot0(sched: Scheduler) returns (ghost ran: set<int>)
    requires sched.procs.Length == NPROC && sched.roqd.Length == LEVELS
    requires sched.procs[..] == Brink() && sched.roqd[0] == REFMIN1
    modifies sched.procs, sched.roqd, sched`turns
    ensures 0 !in ran && Unseen(sched.procs[0])
  {
    ghost var s := sched.procs[..];
    assert forall j :: 0 <= j < NPROC ==> sched.procs[j] == s[j];
    ran := sched.Round();
    AgesOut(s, REFMIN1, ran, sched.procs[..], sched.roqd[0], 1, 0);
  }

  /** The same after slot 1 had its turn. */
  function PastBrink(): seq<Proc> {
    Brink()[0 := Proc(Runnable, 0, 0, 0, REFMIN1)][1 := Proc(Runnable, 1, 0, 0, 0)]
  }

  /** Such a round: slot 1 is dispatched and demoted, and slot 0, which was not lost, is lost after it. */
  lemma BrinkRound()
    ensures Rounds([Brink(), PastBrink()], [REFMIN1, REFMIN1 + 1], [{1}])
    ensures Brink()[0].state.Runnable? && !Unseen(Brink()[0]) && LostAt([Brink(), PastBrink()], [{1}], 0, 1)
  {
    hide RoundRel, Brink, PastBrink;
    BrinkTables();
    BrinkRel();
  }

  lemma BrinkTables()
    ensures Table(Brink(), REFMIN1) && Table(PastBrink(), REFMIN1 + 1)
    ensures Brink()[0].state.Runnable? && !Unseen(Brink()[0]) && Unseen(PastBrink()[0])
  {
  }

  lemma BrinkRel()
    ensures RoundRel(Brink(), REFMIN1, {1}, PastBrink(), REFMIN1 + 1)
  {
    hide Queue0, Ranked, Ordered, Alone, NotIdle, Billed;
    BrinkQueue0();
    BrinkChoice();
  }

  lemma BrinkQueue0()
    ensures Queue0(Brink(), {1}, PastBrink()) && Billed(Brink(), {1}, PastBrink())
  {
    assert Demoted(Brink(), PastBrink(), 1, REFMIN1 - 1);
  }

  lemma BrinkChoice()
    ensures Ranked(Brink(), {1}) && Ordered(Brink(), {1}) && Alone(Brink(), {1}) && NotIdle(Brink(), {1})
  {
    assert 1 in {1};
  }

  /** A process in queue 0 with a number below refmin1 waits at most NPROC rounds, whatever roqd[0]. */
  lemma SeenWaits(tables: seq<seq<Proc>>, rs: seq<int>, rans: seq<set<int>>, p: int) returns (k: nat)
    requires Rounds(tables, rs, rans) && |rans| >= NPROC && 0 <= p < NPROC && Seen(tables[0][p])
    ensures k < NPROC && p in rans[k]
  {
    AheadBound(tables[0], p);
    k := WaitsAtMostRank(tables, rs, rans, p);
  }
}

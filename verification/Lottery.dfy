/** The lottery scheduler: rg and scheduler() under `#ifdef LBS`. */
module Lottery {
  import opened Params

  datatype Proc = Proc(state: ProcState, tickets: int)
  datatype ProcState = Runnable | Sleeping | Other

  /** The tickets that take part in a draw. */
  function Stake(p: Proc): int {
    if p.state.Runnable? then p.tickets else 0
  }

  function Sum(s: seq<Proc>, n: nat): int
    requires n <= |s|
  {
    if n == 0 then 0 else Sum(s, n - 1) + Stake(s[n - 1])
  }

  /** allocproc gives one ticket, fork copies, settickets rejects fewer than one; a slot that was never
      used has none. */
  predicate Table(s: seq<Proc>) {
    |s| == NPROC && forall j :: 0 <= j < |s| ==> s[j].state.Other? || s[j].tickets >= 1
  }

  predicate Wakes(a: Proc, b: Proc) { b == a || (a.state.Sleeping? && b == a.(state := Runnable)) }

  /** Some sleepers have been woken. */
  predicate Woken(s: seq<Proc>, t: seq<Proc>) {
    && |s| == |t|
    && forall j :: 0 <= j < |s| ==> Wakes(s[j], t[j])
  }

  // rg's three xorshift steps, in uint64
  function Left13(x: bv64): bv64 { x ^ (x << 13) }
  function Right17(x: bv64): bv64 { x ^ (x >> 17) }
  function Left5(x: bv64): bv64 { x ^ (x << 5) }

  function Mix(x: bv64): bv64 { Left5(Right17(Left13(x))) }

  // x ^ (x << n) is x times 1 + s, for the shift s, over the bits mod 2. Squaring 1 + s doubles the shift,
  // until nothing is left of it; so each step is undone by a few more of its kind.
  function Undo13(x: bv64): bv64 {
    var y := x ^ (x << 13);
    var z := y ^ (y << 26);
    z ^ (z << 52)
  }

  function Undo17(x: bv64): bv64 {
    var y := x ^ (x >> 17);
    y ^ (y >> 34)
  }

  function Undo5(x: bv64): bv64 {
    var y := x ^ (x << 5);
    var z := y ^ (y << 10);
    var w := z ^ (z << 20);
    w ^ (w << 40)
  }

  function Unmix(x: bv64): bv64 { Undo13(Undo17(Undo5(x))) }

  lemma Bits13(x: bv64)
    ensures Undo13(x ^ (x << 13)) == x
  {
  }

  lemma Undone13(x: bv64)
    ensures Undo13(Left13(x)) == x
  {
    assert Left13(x) == x ^ (x << 13);
    hide Left13, Undo13;
    Bits13(x);
  }

  lemma Bits17(x: bv64)
    ensures Undo17(x ^ (x >> 17)) == x
  {
  }

  lemma Undone17(x: bv64)
    ensures Undo17(Right17(x)) == x
  {
    assert Right17(x) == x ^ (x >> 17);
    hide Right17, Undo17;
    Bits17(x);
  }

  lemma Bits5(x: bv64)
    ensures Undo5(x ^ (x << 5)) == x
  {
  }

  lemma Undone5(x: bv64)
    ensures Undo5(Left5(x)) == x
  {
    assert Left5(x) == x ^ (x << 5);
    hide Left5, Undo5;
    Bits5(x);
  }

  /** The mixing loses nothing. */
  lemma MixUndone(x: bv64)
    ensures Unmix(Mix(x)) == x
  {
    hide Left13, Right17, Left5, Undo13, Undo17, Undo5;
    Undone13(x);
    Undone17(Left13(x));
    Undone5(Right17(Left13(x)));
  }

  /** rg(0, total): the tick count, mixed, modulo total. */
  function Rg(ticks: bv32, total: int): (r: int)
    requires 0 < total < INT_LIMIT
    ensures 0 <= r < total
  {
    (Mix(ticks as bv64) as int) % total
  }

  /** The draw is what the mixed tick count leaves over a multiple of the total, and different tick
      counts are mixed into different numbers. */
  lemma DrawsDiffer(t: bv32, u: bv32, total: int) returns (q: int)
    requires t != u && 0 < total < INT_LIMIT
    ensures Mix(t as bv64) != Mix(u as bv64) && Mix(t as bv64) as int == q * total + Rg(t, total)
  {
    hide Mix, Unmix;
    MixUndone(t as bv64);
    MixUndone(u as bv64);
    Widened(t, u);
    q := DrawIs(t, total);
  }

  lemma DrawIs(t: bv32, total: int) returns (q: int)
    requires 0 < total < INT_LIMIT
    ensures Mix(t as bv64) as int == q * total + Rg(t, total)
  {
    hide Mix;
    q := Quotient(Mix(t as bv64) as int, total);
  }

  lemma Quotient(m: int, n: int) returns (q: int)
    requires n > 0
    ensures m == q * n + m % n
  {
    q := m / n;
  }

  lemma Widened(t: bv32, u: bv32)
    requires t != u
    ensures t as bv64 != u as bv64
  {
  }

  /** The slot whose stake covers draw r, walking the table from slot k; -1 if none does. */
  function Winner(s: seq<Proc>, k: nat, r: int): int
    requires k <= |s|
    decreases |s| - k
  {
    if k == |s| then -1
    else if s[k].state.Runnable? && s[k].tickets > r then k
    else Winner(s, k + 1, r - Stake(s[k]))
  }

  lemma {:induction false} SumMonotone(s: seq<Proc>, m: nat, n: nat)
    requires Table(s) && m <= n <= |s|
    ensures Sum(s, m) <= Sum(s, n)
  {
    if m < n {
      SumMonotone(s, m, n - 1);
    }
  }

  /** Slot i wins exactly the draws between the stakes before it and the stakes up to it. */
  lemma {:induction false} WinnerExactly(s: seq<Proc>, k: nat, r: int, i: int)
    requires Table(s) && k <= |s| && Sum(s, k) <= r && 0 <= i < |s|
    ensures Winner(s, k, r - Sum(s, k)) == i <==> k <= i && Sum(s, i) <= r < Sum(s, i + 1)
    decreases |s| - k
  {
    if k < |s| {
      if s[k].state.Runnable? && s[k].tickets > r - Sum(s, k) {
        if k < i {
          SumMonotone(s, k + 1, i);
        } else if i < k {
          SumMonotone(s, i + 1, k);
        }
      } else {
        WinnerExactly(s, k + 1, r, i);
      }
    }
  }

  /** Every draw below the total has a winner, and it is runnable. */
  lemma {:induction false} SomeoneWins(s: seq<Proc>, k: nat, r: int)
    requires Table(s) && k <= |s| && Sum(s, k) <= r < Sum(s, |s|)
    ensures k <= Winner(s, k, r - Sum(s, k)) < |s|
    ensures s[Winner(s, k, r - Sum(s, k))].state.Runnable?
    decreases |s| - k
  {
    if !(s[k].state.Runnable? && s[k].tickets > r - Sum(s, k)) {
      SomeoneWins(s, k + 1, r);
    }
  }

  /** The draws below total that slot i wins, as a set. */
  ghost function Draws(s: seq<Proc>, i: int, total: int): set<int> {
    set r | 0 <= r < total && Winner(s, 0, r) == i
  }

  ghost function Interval(lo: int, n: nat): set<int> {
    if n == 0 then {} else Interval(lo, n - 1) + {lo + n - 1}
  }

  lemma {:induction false} IntervalIs(lo: int, n: nat)
    ensures |Interval(lo, n)| == n && forall x :: x in Interval(lo, n) <==> lo <= x < lo + n
  {
    if n > 0 {
      IntervalIs(lo, n - 1);
    }
  }

  /** Proportionality: of the Sum draws, slot i wins exactly as many as it holds tickets. */
  lemma Proportional(s: seq<Proc>, i: int)
    requires Table(s) && 0 <= i < |s|
    ensures |Draws(s, i, Sum(s, |s|))| == Stake(s[i])
  {
    var n := Stake(s[i]);
    SumMonotone(s, 0, i);
    SumMonotone(s, i + 1, |s|);
    IntervalIs(Sum(s, i), n);
    forall r ensures r in Draws(s, i, Sum(s, |s|)) <==> r in Interval(Sum(s, i), n) {
      if 0 <= r {
        WinnerExactly(s, 0, r, i);
      }
    }
    assert Draws(s, i, Sum(s, |s|)) == Interval(Sum(s, i), n);
  }

  lemma {:induction false} WakingAdds(s: seq<Proc>, t: seq<Proc>, n: nat)
    requires Table(s) && Woken(s, t) && n <= |s|
    ensures Sum(s, n) <= Sum(t, n)
  {
    if n > 0 {
      WakingAdds(s, t, n - 1);
    }
  }

  /** The suffix of stakes the walk still has to cross. */
  function Rest(s: seq<Proc>, k: nat): int
    requires k <= |s|
  {
    Sum(s, |s|) - Sum(s, k)
  }

  lemma {:induction false} RestGrows(s: seq<Proc>, t: seq<Proc>, k: nat)
    requires Table(s) && Woken(s, t) && k <= |s|
    ensures Rest(s, k) <= Rest(t, k)
    decreases |s| - k
  {
    if k < |s| {
      RestGrows(s, t, k + 1);
    }
  }

  class Scheduler {
    const procs: array<Proc>

    ghost predicate Valid()
      reads procs
    {
      procs.Length == NPROC && Table(procs[..])
    }

    /** The table after boot: every slot unused, with no tickets. */
    constructor ()
      ensures Valid() && fresh(procs) && forall j :: 0 <= j < NPROC ==> procs[j] == Proc(Other, 0)
    {
      procs := new Proc[NPROC](j => Proc(Other, 0));
    }

    method Interrupt()
      requires Valid()
      modifies procs
      ensures Valid() && Woken(old(procs[..]), procs[..])
    {
      var i := 0;
      while i < NPROC
        invariant 0 <= i <= NPROC
        invariant forall j :: 0 <= j < i ==> Wakes(old(procs[j]), procs[j])
        invariant forall j :: i <= j < NPROC ==> procs[j] == old(procs[j])
      {
        var wake: bool := *;
        if wake && procs[i].state.Sleeping? {
          procs[i] := procs[i].(state := Runnable);
        }
        i := i + 1;
      }
    }

    /** The first loop: tickets of the runnable processes. A process woken behind the scan
        is not counted. */
    method Total() returns (sum: int)
      requires Valid()
      modifies procs
      ensures Valid() && Woken(old(procs[..]), procs[..])
      ensures Sum(old(procs[..]), NPROC) <= sum <= Sum(procs[..], NPROC)
    {
      sum := 0;
      var i := 0;
      ghost var s := procs[..];
      while i < NPROC
        invariant 0 <= i <= NPROC && Valid() && Woken(s, procs[..])
        invariant Sum(s, i) <= sum <= Sum(procs[..], i)
      {
        ghost var t := procs[..];
        Interrupt();
        WakingAdds(t, procs[..], i);
        if procs[i].state.Runnable? {
          sum := sum + procs[i].tickets;
        }
        i := i + 1;
      }
    }

    /** The second loop. Interrupts between its locked regions may make more processes
        runnable; a draw below the total of the first loop still finds a winner, and with
        no wake-ups it is the winner of that draw. */
    method Walk(draw: int) returns (winner: int)
      requires Valid() && 0 <= draw < Sum(procs[..], NPROC)
      modifies procs
      ensures Valid() && Woken(old(procs[..]), procs[..])
      ensures 0 <= winner < NPROC && procs[winner].state.Runnable?
      ensures procs[..] == old(procs[..]) ==> winner == Winner(old(procs[..]), 0, draw)
    {
      var left := draw;
      var i := 0;
      ghost var s := procs[..];
      while i < NPROC
        invariant 0 <= i <= NPROC && Valid() && Woken(s, procs[..])
        invariant 0 <= left < Rest(procs[..], i)
        invariant procs[..] == s ==> Winner(s, 0, draw) == Winner(s, i, left)
      {
        ghost var t := procs[..];
        Interrupt();
        RestGrows(t, procs[..], i);
        if procs[i].state.Runnable? {
          if procs[i].tickets > left {
            return i;
          } else {
            left := left - procs[i].tickets;
          }
        }
        i := i + 1;
      }
    }
  
    /** One turn of the scheduler's loop up to the choice. With somebody runnable and a total
        that fits an int, the round has a runnable winner whatever is woken meanwhile. */
    method Choose(ticks: bv32) returns (winner: int)
      requires Valid() && 0 < Sum(procs[..], NPROC)
      modifies procs
      ensures Valid() && Woken(old(procs[..]), procs[..])
      ensures Sum(procs[..], NPROC) < INT_LIMIT ==> 0 <= winner < NPROC && procs[winner].state.Runnable?
      ensures Sum(procs[..], NPROC) < INT_LIMIT && procs[..] == old(procs[..]) ==>
                winner == Winner(procs[..], 0, Rg(ticks, Sum(procs[..], NPROC)))
    {
      ghost var s := procs[..];
      var sum := Total();
      ghost var t := procs[..];
      if sum >= INT_LIMIT {
        return -1;          // the source's int total has wrapped around
      }
      var draw := Rg(ticks, sum);
      winner := Walk(draw);
      WakingAdds(t, procs[..], NPROC);
      assert procs[..] == s ==> t == s by {
        if procs[..] == s {
          forall j | 0 <= j < NPROC ensures t[j] == s[j] {
            assert procs[j] == procs[..][j];
          }
        }
      }
    }
  }
}

/** A circular doubly linked list of indices, threaded through next and prev. */
module LruRing {
  import opened Collections

  function Succ(r: seq<nat>, k: nat): nat { if k + 1 == |r| then 0 else k + 1 }

  /** next and prev run round r, forwards and backwards. */
  ghost predicate Linked(next: seq<nat>, prev: seq<nat>, r: seq<nat>) {
    forall k :: 0 <= k < |r| ==> LinkedAt(next, prev, r, k)
  }

  ghost predicate LinkedAt(next: seq<nat>, prev: seq<nat>, r: seq<nat>, k: nat)
    requires k < |r|
  {
    && r[k] < |next| && r[Succ(r, k)] < |prev|
    && next[r[k]] == r[Succ(r, k)] && prev[r[Succ(r, k)]] == r[k]
  }

  /** r holds exactly the numbers below n, each once. */
  ghost predicate Whole(r: seq<nat>, n: nat) {
    Distinct(r) && |r| == n && forall x: nat :: x < n <==> x in r
  }

  function Without(r: seq<nat>, p: nat): (t: seq<nat>)
    requires p < |r|
    ensures |t| == |r| - 1 && forall j :: 0 <= j < |t| ==> t[j] == r[if j < p then j else j + 1]
  {
    r[..p] + r[p + 1..]
  }

  /** The element at p moves to just behind the first. */
  function ToFront(r: seq<nat>, p: nat): seq<nat>
    requires 1 <= p < |r|
  {
    [r[0], r[p]] + Without(r, p)[1..]
  }

  lemma SameElement(r: seq<nat>, i: nat, j: nat)
    requires Distinct(r) && i < |r| && j < |r|
    ensures r[i] == r[j] ==> i == j
    ensures r[Succ(r, i)] == r[Succ(r, j)] ==> i == j
  {
  }

  /** b->next->prev = b->prev; b->prev->next = b->next */
  lemma Unlink(next: seq<nat>, prev: seq<nat>, r: seq<nat>, p: nat)
    requires Distinct(r) && Linked(next, prev, r) && 1 <= p < |r|
    ensures r[p] < |next| && r[p] < |prev| && next[r[p]] < |prev| && prev[r[p]] < |next|
    ensures Linked(next[prev[r[p]] := next[r[p]]], prev[next[r[p]] := prev[r[p]]], Without(r, p))
  {
    hide Without;
    assert LinkedAt(next, prev, r, p) && LinkedAt(next, prev, r, p - 1);
    var t := Without(r, p);
    var nx, pv := next[prev[r[p]] := next[r[p]]], prev[next[r[p]] := prev[r[p]]];
    forall k | 0 <= k < |t| ensures LinkedAt(nx, pv, t, k) {
      UnlinkAt(next, prev, r, p, k);
    }
  }

  lemma UnlinkAt(next: seq<nat>, prev: seq<nat>, r: seq<nat>, p: nat, k: nat)
    requires Distinct(r) && Linked(next, prev, r) && 1 <= p < |r| && k < |r| - 1
    requires r[p] < |next| && r[p] < |prev| && next[r[p]] < |prev| && prev[r[p]] < |next|
    ensures LinkedAt(next[prev[r[p]] := next[r[p]]], prev[next[r[p]] := prev[r[p]]], Without(r, p), k)
  {
    hide Without, Linked;
    LinkedIs(next, prev, r, p);
    LinkedIs(next, prev, r, p - 1);
    var j := if k < p then k else k + 1;
    LinkedIs(next, prev, r, j);
    SameElement(r, j, p - 1);
    SameElement(r, j, p);
  }

  lemma LinkedIs(next: seq<nat>, prev: seq<nat>, r: seq<nat>, k: nat)
    requires Linked(next, prev, r) && k < |r|
    ensures LinkedAt(next, prev, r, k)
  {
  }

  /** b->next = head.next; b->prev = &head; head.next->prev = b; head.next = b */
  function FrontNext(next: seq<nat>, h: nat, b: nat): seq<nat>
    requires h < |next| && b < |next|
  {
    next[b := next[h]][h := b]
  }

  function FrontPrev(next: seq<nat>, prev: seq<nat>, h: nat, b: nat): seq<nat>
    requires h < |next| && b < |prev| && next[h] < |prev|
  {
    prev[b := h][next[h] := b]
  }

  lemma LinkFront(next: seq<nat>, prev: seq<nat>, r: seq<nat>, b: nat)
    requires Distinct(r) && |r| >= 1 && Linked(next, prev, r) && b !in r && b < |next| && b < |prev|
    ensures r[0] < |next| && next[r[0]] < |prev|
    ensures Linked(FrontNext(next, r[0], b), FrontPrev(next, prev, r[0], b), [r[0], b] + r[1..])
  {
    assert LinkedAt(next, prev, r, 0);
    var t := [r[0], b] + r[1..];
    var nx, pv := FrontNext(next, r[0], b), FrontPrev(next, prev, r[0], b);
    forall k | 0 <= k < |t| ensures LinkedAt(nx, pv, t, k) {
      FrontAt(next, prev, r, b, k);
    }
  }

  lemma FrontAt(next: seq<nat>, prev: seq<nat>, r: seq<nat>, b: nat, k: nat)
    requires Distinct(r) && |r| >= 1 && Linked(next, prev, r) && b !in r && b < |next| && b < |prev| && k <= |r|
    requires r[0] < |next| && next[r[0]] < |prev|
    ensures LinkedAt(FrontNext(next, r[0], b), FrontPrev(next, prev, r[0], b), [r[0], b] + r[1..], k)
  {
    hide Linked;
    var t := [r[0], b] + r[1..];
    assert forall j :: 2 <= j < |t| ==> t[j] == r[j - 1];
    LinkedIs(next, prev, r, 0);
    if k >= 2 {
      LinkedIs(next, prev, r, k - 1);
      SameElement(r, k - 1, 0);
    }
  }

  lemma ToFrontWhole(r: seq<nat>, p: nat, n: nat)
    requires Whole(r, n) && 1 <= p < |r|
    ensures Whole(ToFront(r, p), n) && ToFront(r, p)[0] == r[0] && ToFront(r, p)[1] == r[p]
    ensures Distinct(Without(r, p)) && r[p] !in Without(r, p)
  {
    hide Without;
    var t, w := ToFront(r, p), Without(r, p);
    forall x: nat ensures x < n <==> x in t {
      ToFrontHas(r, p, x);
    }
    assert forall j :: 2 <= j < |t| ==> t[j] == w[j - 1];
  }

  lemma ToFrontHas(r: seq<nat>, p: nat, x: nat)
    requires 1 <= p < |r|
    ensures x in ToFront(r, p) <==> x in r
  {
    hide Without;
    var t, w := ToFront(r, p), Without(r, p);
    assert forall j :: 2 <= j < |t| ==> t[j] == w[j - 1];
    if x in r {
      var i :| 0 <= i < |r| && r[i] == x;
      if i == 0 {
        assert t[0] == x;
      } else if i == p {
        assert t[1] == x;
      } else if i < p {
        assert t[i + 1] == w[i];
      } else {
        assert t[i] == w[i - 1];
      }
    }
    if x in t {
      var i :| 0 <= i < |t| && t[i] == x;
      if i >= 2 {
        assert t[i] == w[i - 1];
      }
    }
  }
}

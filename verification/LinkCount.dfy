/** Directories, and how many entries name an inode. */
module LinkCount {
  datatype Entry = Entry(inum: nat, name: string)      // inum 0: an empty slot

  datatype Kind = Unused | Dir | File

  datatype Node = Node(kind: Kind, nlink: int, entries: seq<Entry>)

  type Nodes = seq<Node>

  const ROOT: nat := 1
  const EMPTY: Entry := Entry(0, "")

  /** nlink is a short. */
  const MAXLINK: int := 0x7fff

  function Short(x: int): int { (x + 0x8000) % 0x1_0000 - 0x8000 }

  lemma ShortIs(x: int)
    ensures -0x8000 <= Short(x) <= MAXLINK && (Short(x) == x <==> -0x8000 <= x <= MAXLINK)
    ensures Short(x) == 0 <==> x % 0x1_0000 == 0
    ensures Short(x) < 1 <==> x % 0x1_0000 == 0 || x % 0x1_0000 > MAXLINK
  {
  }

  lemma ShortSteps(x: int)
    ensures Short(Short(x) + 1) == Short(x + 1) && Short(Short(x) - 1) == Short(x - 1) && Short(x + 1) != Short(x)
  {
  }

  lemma ShortSum(x: int, y: int)
    ensures Short(Short(x) + y) == Short(x + y)
  {
    var q := (x + 0x8000) / 0x1_0000;
    assert Short(x) + y + 0x8000 == x + y + 0x8000 - q * 0x1_0000;
  }

  /** Does the entry count towards inode i's links? "." does not. */
  function Names(e: Entry, i: nat): nat { if e.inum == i && i != 0 && e.name != "." then 1 else 0 }

  function Entries(es: seq<Entry>, i: nat, n: nat): nat
    requires n <= |es|
  {
    if n == 0 then 0 else Entries(es, i, n - 1) + Names(es[n - 1], i)
  }

  /** A directory's entries count while it has links itself. */
  predicate Live(x: Node) { x.kind.Dir? && x.nlink > 0 }

  function Weight(x: Node, i: nat): nat { if Live(x) then Entries(x.entries, i, |x.entries|) else 0 }

  /** The entries that name i in the first n inodes. */
  function Count(nodes: Nodes, i: nat, n: nat): nat
    requires n <= |nodes|
  {
    if n == 0 then 0 else Count(nodes, i, n - 1) + Weight(nodes[n - 1], i)
  }

  lemma {:induction false} EntriesSame(es: seq<Entry>, fs: seq<Entry>, i: nat, n: nat)
    requires n <= |es| && n <= |fs| && forall k :: 0 <= k < n ==> Names(es[k], i) == Names(fs[k], i)
    ensures Entries(es, i, n) == Entries(fs, i, n)
  {
    if n > 0 {
      EntriesSame(es, fs, i, n - 1);
    }
  }

  lemma {:induction false} EntriesUpdate(es: seq<Entry>, k: nat, e: Entry, i: nat, n: nat)
    requires k < n <= |es|
    ensures Entries(es[k := e], i, n) == Entries(es, i, n) - Names(es[k], i) + Names(e, i)
  {
    if n - 1 == k {
      EntriesSame(es, es[k := e], i, n - 1);
    } else {
      EntriesUpdate(es, k, e, i, n - 1);
    }
  }

  lemma EntriesAppend(es: seq<Entry>, e: Entry, i: nat)
    ensures Entries(es + [e], i, |es| + 1) == Entries(es, i, |es|) + Names(e, i)
  {
    EntriesSame(es, es + [e], i, |es|);
  }

  lemma {:induction false} EntryCounts(es: seq<Entry>, k: nat, i: nat, n: nat)
    requires k < n <= |es|
    ensures Entries(es, i, n) >= Names(es[k], i)
  {
    if k < n - 1 {
      EntryCounts(es, k, i, n - 1);
    }
  }

  lemma {:induction false} EntriesNone(es: seq<Entry>, i: nat, n: nat)
    requires n <= |es| && forall k :: 0 <= k < n ==> Names(es[k], i) == 0
    ensures Entries(es, i, n) == 0
  {
    if n > 0 {
      EntriesNone(es, i, n - 1);
    }
  }

  lemma {:induction false} CountSame(a: Nodes, b: Nodes, i: nat, n: nat)
    requires n <= |a| && n <= |b| && forall d :: 0 <= d < n ==> Weight(a[d], i) == Weight(b[d], i)
    ensures Count(a, i, n) == Count(b, i, n)
  {
    if n > 0 {
      CountSame(a, b, i, n - 1);
    }
  }

  lemma {:induction false} CountUpdate(nodes: Nodes, d: nat, x: Node, i: nat, n: nat)
    requires d < n <= |nodes|
    ensures Count(nodes[d := x], i, n) == Count(nodes, i, n) - Weight(nodes[d], i) + Weight(x, i)
  {
    if n - 1 == d {
      CountSame(nodes, nodes[d := x], i, n - 1);
    } else {
      CountUpdate(nodes, d, x, i, n - 1);
    }
  }

  lemma {:induction false} WeightCounts(nodes: Nodes, d: nat, i: nat, n: nat)
    requires d < n <= |nodes|
    ensures Count(nodes, i, n) >= Weight(nodes[d], i)
  {
    if d < n - 1 {
      WeightCounts(nodes, d, i, n - 1);
    }
  }

  /** Only directory d names i. */
  lemma {:induction false} CountOnly(nodes: Nodes, d: nat, i: nat, n: nat)
    requires n <= |nodes| && d < |nodes| && forall x :: 0 <= x < n && x != d ==> Weight(nodes[x], i) == 0
    ensures Count(nodes, i, n) == if d < n then Weight(nodes[d], i) else 0
  {
    if n > 0 {
      CountOnly(nodes, d, i, n - 1);
    }
  }

  lemma {:induction false} TwoWeights(nodes: Nodes, a: nat, b: nat, i: nat, n: nat)
    requires a < b < n <= |nodes|
    ensures Count(nodes, i, n) >= Weight(nodes[a], i) + Weight(nodes[b], i)
  {
    if b == n - 1 {
      WeightCounts(nodes, a, i, n - 1);
    } else {
      TwoWeights(nodes, a, b, i, n - 1);
    }
  }

  /** Only entry k names i. */
  lemma {:induction false} EntriesOnly(es: seq<Entry>, k: nat, i: nat, n: nat)
    requires n <= |es| && k < |es| && forall j :: 0 <= j < n && j != k ==> Names(es[j], i) == 0
    ensures Entries(es, i, n) == if k < n then Names(es[k], i) else 0
  {
    if n > 0 {
      EntriesOnly(es, k, i, n - 1);
    }
  }

  /** Only entries k and l name i. */
  lemma {:induction false} EntriesTwo(es: seq<Entry>, k: nat, l: nat, i: nat, n: nat)
    requires n <= |es| && forall j :: 0 <= j < n && j != k && j != l ==> Names(es[j], i) == 0
    ensures Entries(es, i, n) <= (if k < n then Names(es[k], i) else 0) + if l < n then Names(es[l], i) else 0
  {
    if n > 0 {
      EntriesTwo(es, k, l, i, n - 1);
    }
  }
}

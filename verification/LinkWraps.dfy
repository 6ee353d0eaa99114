/** Runs in which a link count, a short, wraps: they need no more than four full directories. */
module LinkWraps {
  import opened LinkCount
  import opened Links
  import opened DirNames
  import opened LinkRuns
  import opened LinksCode

  /** MAXFILE * BSIZE / sizeof(struct dirent) */
  const MAXENTRIES: nat := 17152
  const DIRSIZ: nat := 14

  /** Three wheels of 26 letters each. */
  datatype Wheels = Wheels(a: nat, b: nat, c: nat)

  predicate Turned(w: Wheels) { w.a < 26 && w.b < 26 && w.c < 26 }

  function Value(w: Wheels): nat { 676 * w.a + 26 * w.b + w.c }

  function Turn(w: Wheels): Wheels {
    if w.c + 1 < 26 then Wheels(w.a, w.b, w.c + 1)
    else if w.b + 1 < 26 then Wheels(w.a, w.b + 1, 0)
    else Wheels(w.a + 1, 0, 0)
  }

  /** Where they stand after j turns. */
  function Wheel(j: nat): Wheels { if j == 0 then Wheels(0, 0, 0) else Turn(Wheel(j - 1)) }

  lemma {:induction false} WheelValue(j: nat)
    requires j < 17576
    ensures Turned(Wheel(j)) && Value(Wheel(j)) == j
  {
    if j > 0 {
      WheelValue(j - 1);
      StepValue(Wheel(j - 1), j);
    }
  }

  lemma StepValue(w: Wheels, j: nat)
    requires Turned(w) && Value(w) + 1 == j < 17576
    ensures Turned(Turn(w)) && Value(Turn(w)) == j
  {
  }

  function Letter(x: nat): char
    requires x < 26
  {
    'a' + x as char
  }

  /** A name for the j-th link in a directory. */
  function Label(j: nat): string {
    var w := Wheel(j);
    if Turned(w) then [Letter(w.a), Letter(w.b), Letter(w.c)] else "zzz"
  }

  lemma LabelsDiffer(j: nat, k: nat)
    requires j < k < 17576
    ensures Label(j) != Label(k)
  {
    hide Wheel, Turned, Value, Letter;
    WheelValue(j);
    WheelValue(k);
    if Label(j) == Label(k) {
      assert Label(j)[0] == Label(k)[0] && Label(j)[1] == Label(k)[1] && Label(j)[2] == Label(k)[2];
      SameWheels(Wheel(j), Wheel(k));
    }
  }

  lemma SameWheels(v: Wheels, w: Wheels)
    requires Turned(v) && Turned(w)
    requires Letter(v.a) == Letter(w.a) && Letter(v.b) == Letter(w.b) && Letter(v.c) == Letter(w.c)
    ensures v == w
  {
    SameLetter(v.a, w.a);
    SameLetter(v.b, w.b);
    SameLetter(v.c, w.c);
  }

  lemma SameLetter(x: nat, y: nat)
    requires x < 26 && y < 26 && Letter(x) == Letter(y)
    ensures x == y
  {
    assert Letter(x) as int == 'a' as int + x && Letter(y) as int == 'a' as int + y;
  }

  /** Directories as a disk can hold them: not too long, with different names that fit an entry. */
  ghost predicate Plausible(s: State) {
    forall d: nat :: IsDir(s, d) ==> Listed(s.nodes[d].entries)
  }

  ghost predicate Listed(es: seq<Entry>) {
    && |es| <= MAXENTRIES && (forall k :: 0 <= k < |es| ==> |es[k].name| <= DIRSIZ)
    && forall j, k :: 0 <= j < k < |es| ==> es[j].name != es[k].name
  }

  // ---- many links in one directory ----

  function Batch(i: nat, m: nat): seq<Entry> { seq(m, j requires 0 <= j => Entry(i, Label(j))) }

  /** Directory d after m more links to i. */
  function Bulk(s: State, d: nat, i: nat, m: nat): State
    requires d < |s.nodes| && i < |s.nodes|
  {
    s.(nodes := s.nodes[d := s.nodes[d].(entries := s.nodes[d].entries + Batch(i, m))]
                       [i := s.nodes[i].(nlink := Short(s.nodes[i].nlink + m))])
  }

  /** The calls that make them, in a directory of c entries. */
  function Calls(d: nat, i: nat, c: nat, m: nat): seq<Step> {
    if m == 0 then [] else Calls(d, i, c, m - 1) + [Begin(i), Done(d, c + m - 1, i, Label(m - 1))]
  }

  ghost predicate Linkable(s: State, d: nat, i: nat) {
    && IsDir(s, d) && s.nodes[d].nlink > 0 && |s.nodes[d].entries| >= 2
    && 0 < i < |s.nodes| && s.nodes[i].kind.File? && -0x8000 <= s.nodes[i].nlink <= MAXLINK
    && forall k :: 0 <= k < |s.nodes[d].entries| ==> |s.nodes[d].entries[k].name| != 3
  }

  /** The next label is new. */
  lemma LabelNew(s: State, d: nat, i: nat, m: nat)
    requires Linkable(s, d, i) && m < 17576
    ensures !Holds(Bulk(s, d, i, m).nodes[d].entries, Label(m))
  {
    hide Label, Short;
    var es := s.nodes[d].entries;
    LabelLength(m);
    forall k: nat | k < |es| + m ensures (es + Batch(i, m))[k].name != Label(m) {
      if k >= |es| {
        LabelsDiffer(k - |es|, m);
      }
    }
  }

  lemma BulkNone(s: State, d: nat, i: nat)
    requires Linkable(s, d, i)
    ensures Bulk(s, d, i, 0) == s
  {
    ShortIs(s.nodes[i].nlink);
    assert Batch(i, 0) == [];
    assert s.nodes[d].entries + [] == s.nodes[d].entries;
    assert Bulk(s, d, i, 0).nodes == s.nodes;
  }

  lemma BulkMore(s: State, d: nat, i: nat, m: nat)
    requires Linkable(s, d, i) && m > 0
    ensures var u, e := Bulk(s, d, i, m - 1), Entry(i, Label(m - 1));
            LinkDone(LinkBegin(u, i), d, |s.nodes[d].entries| + m - 1, e) == Bulk(s, d, i, m)
  {
    hide Label, Short;
    var u, e, c := Bulk(s, d, i, m - 1), Entry(i, Label(m - 1)), |s.nodes[d].entries|;
    var t := LinkDone(LinkBegin(u, i), d, c + m - 1, e);
    ShortSteps(s.nodes[i].nlink + m - 1);
    assert Batch(i, m) == Batch(i, m - 1) + [e];
    assert t.nodes[d].entries == Bulk(s, d, i, m).nodes[d].entries;
    assert t.nodes == Bulk(s, d, i, m).nodes;
    assert t.pend == s.pend;
  }

  lemma {:induction false} BulkRun(s: State, d: nat, i: nat, m: nat)
    requires Linkable(s, d, i) && m <= 17576
    ensures Execution(s, Calls(d, i, |s.nodes[d].entries|, m), Bulk(s, d, i, m))
    ensures FreesRightly(s, Calls(d, i, |s.nodes[d].entries|, m))
    ensures 0 <= s.nodes[i].nlink <= MAXLINK - m ==> StaysLow(s, Calls(d, i, |s.nodes[d].entries|, m))
  {
    hide Label, Short, Batch, Enabled, Next, Overflows;
    var c := |s.nodes[d].entries|;
    if m == 0 {
      BulkNone(s, d, i);
    } else {
      BulkRun(s, d, i, m - 1);
      BulkPair(s, d, i, m);
      Append(s, Calls(d, i, c, m - 1), Bulk(s, d, i, m - 1),
             [Begin(i), Done(d, c + m - 1, i, Label(m - 1))], Bulk(s, d, i, m));
    }
  }

  lemma BulkPair(s: State, d: nat, i: nat, m: nat)
    requires Linkable(s, d, i) && 0 < m <= 17576
    ensures var u, b := Bulk(s, d, i, m - 1), [Begin(i), Done(d, |s.nodes[d].entries| + m - 1, i, Label(m - 1))];
            && Execution(u, b, Bulk(s, d, i, m)) && FreesRightly(u, b)
            && (0 <= s.nodes[i].nlink <= MAXLINK - m ==> StaysLow(u, b))
  {
    hide Short, Batch, Execution, FreesRightly, StaysLow, Holds;
    var u, c := Bulk(s, d, i, m - 1), |s.nodes[d].entries|;
    LabelNew(s, d, i, m - 1);
    var a, e := Begin(i), Done(d, c + m - 1, i, Label(m - 1));
    ShortIs(s.nodes[i].nlink + m - 1);
    BulkMore(s, d, i, m);
    BatchLength(i, m - 1);
    assert |Label(m - 1)| == 3;
    PairRun(u, a, LinkBegin(u, i), e, Bulk(s, d, i, m));
  }

  lemma PairRun(u: State, a: Step, v: State, e: Step, w: State)
    requires Enabled(u, a) && Next(u, a) == v && Enabled(v, e) && Next(v, e) == w && !a.Free? && !e.Free?
    ensures Execution(u, [a, e], w) && FreesRightly(u, [a, e])
    ensures !Overflows(u, a) && !Overflows(v, e) ==> StaysLow(u, [a, e])
  {
    hide Enabled, Next, Overflows;
    assert [a, e][1..] == [e] && [e][1..] == [];
    assert Execution(w, [], w) && FreesRightly(w, []) && StaysLow(w, []);
    assert Execution(v, [e], w) && FreesRightly(v, [e]);
    assert !Overflows(v, e) ==> StaysLow(v, [e]);
  }

  lemma BatchLength(i: nat, m: nat)
    ensures |Batch(i, m)| == m
  {
  }

  lemma {:induction false} BulkRefs(s: State, d: nat, i: nat, m: nat)
    requires Linkable(s, d, i)
    ensures Refs(Bulk(s, d, i, m), i) == Refs(s, i) + m
  {
    hide Short, Refs, Label, Batch;
    if m == 0 {
      BulkNone(s, d, i);
    } else {
      var u, c := Bulk(s, d, i, m - 1), |s.nodes[d].entries|;
      BulkRefs(s, d, i, m - 1);
      BulkMore(s, d, i, m);
      BatchLength(i, m - 1);
      LinkBeginRefs(u, i, i);
      assert |Label(m - 1)| == 3 by { LabelLength(m - 1); }
      LinkDoneRefs(LinkBegin(u, i), d, c + m - 1, Entry(i, Label(m - 1)), i);
    }
  }

  lemma LabelLength(j: nat)
    ensures |Label(j)| == 3
  {
  }

  // ---- three directories and a file ----

  const FILE: nat := 5

  function Setup(): seq<Step> {
    [MakeDir(2, ROOT, 2, "a"), MakeDir(3, ROOT, 3, "b"), MakeDir(4, ROOT, 4, "c"), MakeFile(FILE, ROOT, FILE, "f")]
  }

  function Sub(d: nat): seq<Entry> { [Entry(d, "."), Entry(ROOT, "..")] }

  function Top(): seq<Entry> { Sub(ROOT) + [Entry(2, "a"), Entry(3, "b"), Entry(4, "c"), Entry(FILE, "f")] }

  /** The nodes after Setup. */
  function Home(n: nat): State
    requires n > FILE
  {
    State(RootOnly(n).nodes[ROOT := Node(Dir, 4, Top())][2 := Node(Dir, 1, Sub(2))][3 := Node(Dir, 1, Sub(3))]
                           [4 := Node(Dir, 1, Sub(4))][FILE := Node(File, 1, [])],
          multiset{}, map[2 := Pos(ROOT, 2), 3 := Pos(ROOT, 3), 4 := Pos(ROOT, 4)])
  }

  lemma OneStep(s: State, a: Step, t: State, b: seq<Step>, u: State)
    requires Enabled(s, a) && Next(s, a) == t && !a.Free? && !a.Begin? && Execution(t, b, u)
    requires FreesRightly(t, b) && StaysLow(t, b)
    ensures Execution(s, [a] + b, u) && FreesRightly(s, [a] + b) && StaysLow(s, [a] + b)
  {
    hide Enabled, Next;
    assert ([a] + b)[1..] == b;
  }

  /** The first k directories of Home. */
  function Partway(n: nat, k: nat): State
    requires n > FILE && k <= 3
  {
    State(seq(n, i => if i == ROOT then Node(Dir, 1 + k, Top()[..2 + k])
                      else if 2 <= i < 2 + k then Node(Dir, 1, Sub(i)) else Node(Unused, 0, [])),
          multiset{}, map d: nat | 2 <= d < 2 + k :: Pos(ROOT, d))
  }

  lemma PartwayStep(n: nat, k: nat)
    requires n > FILE && k < 3
    ensures var s, a := Partway(n, k), MakeDir(2 + k, ROOT, 2 + k, Top()[2 + k].name);
            Enabled(s, a) && Next(s, a) == Partway(n, k + 1)
  {
    var s, a, t := Partway(n, k), MakeDir(2 + k, ROOT, 2 + k, Top()[2 + k].name), Partway(n, k + 1);
    ShortIs(2 + k);
    assert Enabled(s, a);
    var u := Next(s, a);
    assert u.nodes[ROOT].entries == t.nodes[ROOT].entries;
    assert u.nodes[2 + k].entries == Sub(2 + k);
    assert u.nodes == t.nodes;
    assert u.place == t.place;
  }

  lemma SetupRun(n: nat)
    requires n > FILE
    ensures Execution(RootOnly(n), Setup(), Home(n)) && FreesRightly(RootOnly(n), Setup())
    ensures StaysLow(RootOnly(n), Setup())
  {
    hide Execution, FreesRightly, StaysLow;
    var f := MakeFile(FILE, ROOT, FILE, "f");
    FirstAndLast(n);
    Nothing(Home(n));
    OneStep(Partway(n, 3), f, Home(n), [], Home(n));
    PartwayStep(n, 2);
    OneStep(Partway(n, 2), MakeDir(4, ROOT, 4, "c"), Partway(n, 3), [f] + [], Home(n));
    PartwayStep(n, 1);
    OneStep(Partway(n, 1), MakeDir(3, ROOT, 3, "b"), Partway(n, 2), [MakeDir(4, ROOT, 4, "c")] + ([f] + []), Home(n));
    PartwayStep(n, 0);
    OneStep(Partway(n, 0), MakeDir(2, ROOT, 2, "a"), Partway(n, 1),
            [MakeDir(3, ROOT, 3, "b")] + ([MakeDir(4, ROOT, 4, "c")] + ([f] + [])), Home(n));
    assert Setup() == [MakeDir(2, ROOT, 2, "a")]
                      + ([MakeDir(3, ROOT, 3, "b")] + ([MakeDir(4, ROOT, 4, "c")] + ([f] + [])));
  }

  lemma Nothing(s: State)
    ensures Execution(s, [], s) && FreesRightly(s, []) && StaysLow(s, [])
  {
  }

  lemma FirstAndLast(n: nat)
    requires n > FILE
    ensures Partway(n, 0) == RootOnly(n)
    ensures var f := MakeFile(FILE, ROOT, FILE, "f"); Enabled(Partway(n, 3), f) && Next(Partway(n, 3), f) == Home(n)
  {
    assert Top()[..2] == Sub(ROOT);
    assert Partway(n, 0).nodes == RootOnly(n).nodes;
    assert Partway(n, 0).place == map[];
    var s, f := Partway(n, 3), MakeFile(FILE, ROOT, FILE, "f");
    assert Enabled(s, f);
    assert Next(s, f).nodes[ROOT].entries == Top();
    assert Next(s, f).nodes == Home(n).nodes;
    assert Next(s, f).place == Home(n).place;
  }

  // ---- as many links as it takes ----

  /** A run that links the file a, b, c and d more times in the four directories. */
  function Run(a: nat, b: nat, c: nat, d: nat): seq<Step> {
    Setup() + Calls(ROOT, FILE, 6, a) + Calls(2, FILE, 2, b) + Calls(3, FILE, 2, c) + Calls(4, FILE, 2, d)
  }

  function At(n: nat, a: nat, b: nat, c: nat, d: nat): State
    requires n > FILE
  {
    Bulk(Bulk(Bulk(Bulk(Home(n), ROOT, FILE, a), 2, FILE, b), 3, FILE, c), 4, FILE, d)
  }

  /** A batch of links at the end of a run. */
  lemma Batched(s0: State, steps: seq<Step>, s: State, d: nat, m: nat)
    requires Execution(s0, steps, s) && FreesRightly(s0, steps) && Linkable(s, d, FILE) && m <= 17576
    ensures var t, more := Bulk(s, d, FILE, m), steps + Calls(d, FILE, |s.nodes[d].entries|, m);
            && Execution(s0, more, t) && FreesRightly(s0, more)
            && (StaysLow(s0, steps) && 0 <= s.nodes[FILE].nlink <= MAXLINK - m ==> StaysLow(s0, more))
            && Refs(t, FILE) == Refs(s, FILE) + m && t.nodes[FILE].nlink == Short(s.nodes[FILE].nlink + m)
            && (forall e: nat :: e != d && Linkable(s, e, FILE) ==> Linkable(t, e, FILE))
  {
    hide Execution, FreesRightly, StaysLow, Refs, Calls, Short;
    BulkRun(s, d, FILE, m);
    BulkRefs(s, d, FILE, m);
    Append(s0, steps, s, Calls(d, FILE, |s.nodes[d].entries|, m), Bulk(s, d, FILE, m));
    ShortIs(s.nodes[FILE].nlink + m);
  }

  lemma HomeReady(n: nat)
    requires n > FILE
    ensures Exact(Home(n)) && Refs(Home(n), FILE) == 1
    ensures forall e :: 1 <= e <= 4 ==> Linkable(Home(n), e, FILE)
  {
    hide Exact, Execution, StaysLow;
    RootInv(n);
    SetupRun(n);
    RunExact(RootOnly(n), Setup(), Home(n));
    ExactAt(Home(n), FILE);
  }

  /** The run, and the count it ends with. */
  lemma Reached(n: nat, a: nat, b: nat, c: nat, d: nat)
    requires n > FILE && a <= 17576 && b <= 17576 && c <= 17576 && d <= 17576
    ensures var t := At(n, a, b, c, d);
            && Execution(RootOnly(n), Run(a, b, c, d), t) && FreesRightly(RootOnly(n), Run(a, b, c, d))
            && (1 + a + b + c + d <= MAXLINK ==> StaysLow(RootOnly(n), Run(a, b, c, d)) && Exact(t))
            && Inv(t) && t.pend == multiset{} && IsDir(t, ROOT) && |t.nodes| > FILE
            && Refs(t, FILE) == 1 + a + b + c + d && t.nodes[FILE].nlink == Short(1 + a + b + c + d)
  {
    hide Execution, FreesRightly, StaysLow, Refs, Calls, Short, Exact, Inv, Setup, Batch;
    var z, s := RootOnly(n), Home(n);
    SetupRun(n);
    HomeReady(n);
    var s1 := Bulk(s, ROOT, FILE, a);
    var s2 := Bulk(s1, 2, FILE, b);
    var s3 := Bulk(s2, 3, FILE, c);
    Batched(z, Setup(), s, ROOT, a);
    Batched(z, Setup() + Calls(ROOT, FILE, 6, a), s1, 2, b);
    Batched(z, Setup() + Calls(ROOT, FILE, 6, a) + Calls(2, FILE, 2, b), s2, 3, c);
    Batched(z, Setup() + Calls(ROOT, FILE, 6, a) + Calls(2, FILE, 2, b) + Calls(3, FILE, 2, c), s3, 4, d);
    Sums(a, b, c, d);
    RootInv(n);
    assert Inv(z) by { ExactInv(z); }
    RunInv(z, Run(a, b, c, d), At(n, a, b, c, d));
    RunExact(z, Run(a, b, c, d), At(n, a, b, c, d));
  }

  lemma ExactInv(s: State)
    requires Exact(s)
    ensures Inv(s)
  {
  }

  lemma Sums(a: nat, b: nat, c: nat, d: nat)
    ensures Short(Short(Short(Short(1 + a) + b) + c) + d) == Short(1 + a + b + c + d)
    ensures 1 + a + b + c + d <= MAXLINK ==>
              Short(1 + a) == 1 + a && Short(Short(1 + a) + b) == 1 + a + b
              && Short(Short(Short(1 + a) + b) + c) == 1 + a + b + c
  {
    hide Short;
    ShortSum(1 + a, b);
    ShortSum(1 + a + b, c);
    ShortSum(1 + a + b + c, d);
    ShortIs(1 + a);
    ShortIs(1 + a + b);
    ShortIs(1 + a + b + c);
  }

  /** What the directories hold then. */
  lemma AtEntries(n: nat, a: nat, b: nat, c: nat, d: nat)
    requires n > FILE
    ensures var t := At(n, a, b, c, d);
            && |t.nodes| == n && t.nodes[ROOT].entries == Top() + Batch(FILE, a)
            && t.nodes[2].entries == Sub(2) + Batch(FILE, b) && t.nodes[3].entries == Sub(3) + Batch(FILE, c)
            && t.nodes[4].entries == Sub(4) + Batch(FILE, d)
            && forall x: nat :: IsDir(t, x) <==> 1 <= x <= 4
  {
    hide Short, Batch;
  }

  lemma BatchListed(es: seq<Entry>, m: nat)
    requires Listed(es) && |es| + m <= MAXENTRIES && forall k :: 0 <= k < |es| ==> |es[k].name| != 3
    ensures Listed(es + Batch(FILE, m))
  {
    hide Label;
    var fs := es + Batch(FILE, m);
    forall k | |es| <= k < |fs| ensures fs[k].name == Label(k - |es|) && |fs[k].name| == 3 {
      LabelLength(k - |es|);
    }
    forall j, k | 0 <= j < k < |fs| ensures fs[j].name != fs[k].name {
      if |es| <= j {
        LabelsDiffer(j - |es|, k - |es|);
      }
    }
  }

  /** Up to 17146 links fit in the root, and 17150 in each of the others. */
  lemma AtPlausible(n: nat, a: nat, b: nat, c: nat, d: nat)
    requires n > FILE && a <= 17146 && b <= 17150 && c <= 17150 && d <= 17150
    ensures Plausible(At(n, a, b, c, d))
  {
    hide Batch, At;
    AtEntries(n, a, b, c, d);
    BatchListed(Top(), a);
    BatchListed(Sub(2), b);
    BatchListed(Sub(3), c);
    BatchListed(Sub(4), d);
  }

  lemma AtFile(n: nat, a: nat, b: nat, c: nat, d: nat)
    requires n > FILE
    ensures var t := At(n, a, b, c, d);
            && |t.nodes| == n && t.nodes[FILE].kind.File? && IsDir(t, ROOT)
            && First(t.nodes[ROOT].entries, FILE, "f") && t.nodes[ROOT].entries[FILE].inum == FILE
  {
    hide Short, Batch;
    AtEntries(n, a, b, c, d);
  }

  /** A run from mkfs's root to a state with a count that is exact and at its limit. */
  ghost predicate AtLimit(n: nat, steps: seq<Step>, t: State) {
    && Execution(RootOnly(n), steps, t) && Exact(t) && Plausible(t)
    && |t.nodes| > FILE && t.nodes[FILE].kind.File? && t.nodes[FILE].nlink == MAXLINK
  }

  /** A run, with no link in progress at its end, to a count of -32768 where 32768 entries name the file,
      and where sys_unlink of one of them panics. */
  ghost predicate PastLimit(n: nat, steps: seq<Step>, t: State) {
    && Execution(RootOnly(n), steps, t) && Inv(t) && Plausible(t) && t.pend == multiset{}
    && |t.nodes| > FILE && t.nodes[FILE].nlink == -0x8000 && Count(t.nodes, FILE, |t.nodes|) == 0x8000
    && IsDir(t, ROOT) && UnlinkPanics(t, ROOT, "f")
  }

  /** A run, with no link in progress at its end, to a count of 0 where 65536 entries name the file; the
      last iput frees it, and the entries lead to a free inode. */
  ghost predicate Dangles(n: nat, steps: seq<Step>, t: State) {
    && Execution(RootOnly(n), steps, t) && Inv(t) && Plausible(t) && t.pend == multiset{}
    && |t.nodes| > FILE && Count(t.nodes, FILE, |t.nodes|) == 0x1_0000
    && Enabled(t, Free(FILE)) && FreesNamed(t, Free(FILE)) && !Inv(Next(t, Free(FILE)))
    && LeadsNowhere(Next(t, Free(FILE)))
  }

  /** The root's entry "f" leads to a free inode. */
  ghost predicate LeadsNowhere(t: State) {
    && IsDir(t, ROOT) && First(t.nodes[ROOT].entries, FILE, "f") && t.nodes[ROOT].entries[FILE].inum == FILE
    && FILE < |t.nodes| && t.nodes[FILE].kind.Unused?
  }

  /** 32767 links, however they are spread: the count is exact and at its limit. */
  lemma LimitReached(n: nat, a: nat, b: nat, c: nat, d: nat)
    requires n > FILE && a <= 17146 && b <= 17150 && c <= 17150 && d <= 17150 && 1 + a + b + c + d == MAXLINK
    ensures AtLimit(n, Run(a, b, c, d), At(n, a, b, c, d))
  {
    hide Short, Exact, Run, Execution, Plausible, At;
    Reached(n, a, b, c, d);
    AtPlausible(n, a, b, c, d);
    AtFile(n, a, b, c, d);
    ShortIs(MAXLINK);
  }

  /** There the first half of a link makes the counts inexact, though still right as shorts. */
  lemma LimitPassed(n: nat, steps: seq<Step>, t: State)
    requires AtLimit(n, steps, t)
    ensures Enabled(t, Begin(FILE)) && Overflows(t, Begin(FILE))
    ensures Inv(Next(t, Begin(FILE))) && !Exact(Next(t, Begin(FILE)))
  {
    hide Short, Inv, Execution, Fits, Plausible;
    ExactInv(t);
    LinkBeginOk(t, FILE);
    LinkBeginExact(t, FILE);
  }

  /** With one link more, complete, the count is -32768 and sys_unlink panics. */
  lemma UnlinkPanicReached(n: nat, a: nat, b: nat, c: nat, d: nat)
    requires n > FILE && a <= 17146 && b <= 17150 && c <= 17150 && d <= 17150 && 1 + a + b + c + d == 0x8000
    ensures PastLimit(n, Run(a, b, c, d), At(n, a, b, c, d))
  {
    hide Short, Inv, Run, Execution, Plausible, At;
    Reached(n, a, b, c, d);
    AtPlausible(n, a, b, c, d);
    AtFile(n, a, b, c, d);
    WrapsDown();
  }

  /** With 65536 the count is 0, and the last iput frees the inode that all of them still name. */
  lemma NamedInodeFreed(n: nat, a: nat, b: nat, c: nat, d: nat)
    requires n > FILE && a <= 17146 && b <= 17150 && c <= 17150 && d <= 17150 && 1 + a + b + c + d == 0x1_0000
    ensures Dangles(n, Run(a, b, c, d), At(n, a, b, c, d))
  {
    hide Short, Inv, Run, Execution, Plausible, At;
    Reached(n, a, b, c, d);
    AtPlausible(n, a, b, c, d);
    AtFile(n, a, b, c, d);
    WrapsDown();
    FreedOk(At(n, a, b, c, d), FILE);
  }
}

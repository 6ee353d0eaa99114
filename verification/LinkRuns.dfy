/** Runs of link, create, unlink and the last iput, interleaved as their locks allow: the two halves of
    a link are separate steps, and any other step may come between them. */
module LinkRuns {
  import opened LinkCount
  import opened Links
  import opened DirNames

  datatype Step =
    | Begin(i: nat)
    | Done(d: nat, k: nat, i: nat, name: string)
    | Undo(i: nat)
    | MakeFile(i: nat, d: nat, k: nat, name: string)
    | MakeDir(i: nat, d: nat, k: nat, name: string)
    | Remove(d: nat, k: nat, i: nat)
    | Free(i: nat)

  /** The checks each operation makes before it acts, on directories that have links. The limit for
      MakeDir is the one that MkdirFits shows to hold with at most 32767 inodes; link has none. A
      Remove that finds a count below 1 is a panic, and no step. */
  ghost predicate Enabled(s: State, a: Step) {
    match a
    case Begin(i) => 0 < i < |s.nodes| && s.nodes[i].kind.File?
    case Done(d, k, i, name) =>
      && Room(s, d, k) && name != "." && name != ".." && i in s.pend && 0 < i < |s.nodes|
      && !Holds(s.nodes[d].entries, name)
    case Undo(i) => i in s.pend && 0 < i < |s.nodes|
    case MakeFile(i, d, k, name) => Creates(s, i, d, k, name) && !Holds(s.nodes[d].entries, name)
    case MakeDir(i, d, k, name) => CreatesDir(s, i, d, k, name) && !Holds(s.nodes[d].entries, name)
    case Remove(d, k, i) => Unlinks(s, d, k, i) && s.nodes[i].nlink >= 1
    case Free(i) => 0 < i < |s.nodes| && s.nodes[i].nlink == 0
  }

  function Next(s: State, a: Step): State
    requires Enabled(s, a)
  {
    match a
    case Begin(i) => LinkBegin(s, i)
    case Done(d, k, i, name) => LinkDone(s, d, k, Entry(i, name))
    case Undo(i) => LinkUndo(s, i)
    case MakeFile(i, d, k, name) => NewFile(s, i, d, k, name)
    case MakeDir(i, d, k, name) => NewDir(s, i, d, k, name)
    case Remove(d, k, i) => Unlink(s, d, k, i)
    case Free(i) => Freed(s, i)
  }

  /** The last iput of an inode that is still named: its count has wrapped around to 0. */
  predicate FreesNamed(s: State, a: Step) { a.Free? && Refs(s, a.i) > 0 }

  /** A link that takes a count past the largest short. */
  predicate Overflows(s: State, a: Step) { a.Begin? && a.i < |s.nodes| && s.nodes[a.i].nlink >= MAXLINK }

  /** Every step keeps the counts right as shorts, unless it frees an inode that is still named. */
  lemma StepInv(s: State, a: Step)
    requires Inv(s) && Enabled(s, a)
    ensures |Next(s, a).nodes| == |s.nodes|
    ensures Inv(Next(s, a)) <==> !FreesNamed(s, a)
  {
    hide Counts, Tree, Refs, Short;
    match a
    case Begin(i) => LinkBeginOk(s, i);
    case Done(d, k, i, name) => LinkDoneOk(s, d, k, Entry(i, name));
    case Undo(i) => LinkUndoOk(s, i);
    case MakeFile(i, d, k, name) => NewFileOk(s, i, d, k, name);
    case MakeDir(i, d, k, name) => NewDirOk(s, i, d, k, name);
    case Remove(d, k, i) => UnlinkOk(s, d, k, i);
    case Free(i) => FreedOk(s, i);
  }

  /** Every step keeps the counts exact, unless it takes one past the largest short. */
  lemma StepExact(s: State, a: Step)
    requires Exact(s) && Enabled(s, a)
    ensures Exact(Next(s, a)) <==> !Overflows(s, a)
  {
    hide Counts, Tree, Refs, Short, Fits;
    match a
    case Begin(i) => LinkBeginExact(s, i);
    case Done(d, k, i, name) => LinkDoneOk(s, d, k, Entry(i, name));
    case Undo(i) => LinkUndoOk(s, i);
    case MakeFile(i, d, k, name) => NewFileOk(s, i, d, k, name);
    case MakeDir(i, d, k, name) => NewDirOk(s, i, d, k, name);
    case Remove(d, k, i) => UnlinkOk(s, d, k, i);
    case Free(i) => FreedOk(s, i);
  }

  /** Where `name` leads in directory x after a step: link and create make their name lead to their
      inode, mkdir gives its directory the dots, unlink's name leads nowhere, and nothing else changes
      but that a freed directory has no names. */
  function Leads(s: State, a: Step, x: nat, name: string): nat {
    match a
    case Done(d, _, i, m) => if x == d && name == m then i else Found(s, x, name)
    case MakeFile(i, d, _, m) => if x == d && name == m then i else Found(s, x, name)
    case MakeDir(i, d, _, m) =>
      if x == d && name == m then i
      else if x == i then (if name == "." then i else if name == ".." then d else 0)
      else Found(s, x, name)
    case Remove(d, k, _) =>
      if x == d && d < |s.nodes| && k < |s.nodes[d].entries| && name == s.nodes[d].entries[k].name then 0
      else Found(s, x, name)
    case Free(i) => if x == i then 0 else Found(s, x, name)
    case _ => Found(s, x, name)
  }

  lemma StepNames(s: State, a: Step)
    requires Inv(s) && Named(s) && Enabled(s, a)
    ensures Named(Next(s, a)) && forall x: nat, m: string :: Found(Next(s, a), x, m) == Leads(s, a, x, m)
  {
    hide Counts, Tree, Named, Found;
    match a
    case Begin(i) => LinkNames(s, i);
    case Done(d, k, i, name) => LinkDoneNames(s, d, k, Entry(i, name));
    case Undo(i) => LinkNames(s, i);
    case MakeFile(i, d, k, name) => NewFileNames(s, i, d, k, name);
    case MakeDir(i, d, k, name) => NewDirNames(s, i, d, k, name);
    case Remove(d, k, i) =>
      UnlinkFacts(s, d, k, i);
      UnlinkNames(s, d, k, i);
    case Free(i) => FreedNames(s, i);
  }

  /** While counts are exact, no decrement takes one below zero, so unlink does not panic, and an inode
      that is freed is named by nothing. */
  lemma CountsSuffice(s: State, a: Step)
    requires Exact(s)
    ensures a.Undo? && Enabled(s, a) ==> s.nodes[a.i].nlink > 0
    ensures a.Remove? && Unlinks(s, a.d, a.k, a.i) ==> s.nodes[a.i].nlink >= 1 && s.nodes[a.d].nlink >= 1
    ensures a.Free? && Enabled(s, a) ==> Refs(s, a.i) == 0
  {
    hide Counts, Tree, Refs, Short;
    if a.Undo? && Enabled(s, a) {
      LinkUndoOk(s, a.i);
    } else if a.Remove? && Unlinks(s, a.d, a.k, a.i) {
      UnlinkOk(s, a.d, a.k, a.i);
    } else if a.Free? && Enabled(s, a) {
      FreedOk(s, a.i);
    }
  }

  ghost predicate Execution(s: State, steps: seq<Step>, t: State)
    decreases |steps|
  {
    if steps == [] then t == s
    else Enabled(s, steps[0]) && Execution(Next(s, steps[0]), steps[1..], t)
  }

  /** No step of the run frees an inode that is still named. */
  ghost predicate FreesRightly(s: State, steps: seq<Step>)
    decreases |steps|
  {
    steps != [] && Enabled(s, steps[0]) ==> !FreesNamed(s, steps[0]) && FreesRightly(Next(s, steps[0]), steps[1..])
  }

  /** No step of the run takes a count past the largest short. */
  ghost predicate StaysLow(s: State, steps: seq<Step>)
    decreases |steps|
  {
    steps != [] && Enabled(s, steps[0]) ==> !Overflows(s, steps[0]) && StaysLow(Next(s, steps[0]), steps[1..])
  }

  /** All states of the run satisfy the invariant, or even have exact counts. */
  ghost predicate AlwaysInv(s: State, steps: seq<Step>)
    decreases |steps|
  {
    Inv(s) && (steps != [] && Enabled(s, steps[0]) ==> AlwaysInv(Next(s, steps[0]), steps[1..]))
  }

  ghost predicate AlwaysExact(s: State, steps: seq<Step>)
    decreases |steps|
  {
    Exact(s) && (steps != [] && Enabled(s, steps[0]) ==> AlwaysExact(Next(s, steps[0]), steps[1..]))
  }

  /** The counts are right as shorts all along a run if and only if it frees no inode still named. */
  lemma {:induction false} RunInv(s: State, steps: seq<Step>, t: State)
    requires Inv(s) && Execution(s, steps, t)
    ensures AlwaysInv(s, steps) <==> FreesRightly(s, steps)
    ensures FreesRightly(s, steps) ==> Inv(t) && |t.nodes| == |s.nodes|
    decreases |steps|
  {
    hide Counts, Tree, Next, Enabled;
    if steps != [] {
      StepInv(s, steps[0]);
      if Inv(Next(s, steps[0])) {
        RunInv(Next(s, steps[0]), steps[1..], t);
      }
    }
  }

  /** The counts are exact all along a run if and only if it takes none past the largest short. */
  lemma {:induction false} RunExact(s: State, steps: seq<Step>, t: State)
    requires Exact(s) && Execution(s, steps, t)
    ensures AlwaysExact(s, steps) <==> StaysLow(s, steps)
    ensures StaysLow(s, steps) ==> Exact(t) && |t.nodes| == |s.nodes|
    decreases |steps|
  {
    hide Counts, Tree, Next, Enabled, Fits;
    if steps != [] {
      StepInv(s, steps[0]);
      StepExact(s, steps[0]);
      if Exact(Next(s, steps[0])) {
        RunExact(Next(s, steps[0]), steps[1..], t);
      }
    }
  }

  /** No step of the run makes `name` in directory d lead elsewhere. */
  ghost predicate Untouched(s: State, steps: seq<Step>, d: nat, name: string)
    decreases |steps|
  {
    steps != [] && Enabled(s, steps[0]) ==>
      Leads(s, steps[0], d, name) == Found(s, d, name) && Untouched(Next(s, steps[0]), steps[1..], d, name)
  }

  /** Names in use in one directory stay distinct along every run that frees no inode still named, and a
      name leads where it did until a step that is about it. */
  lemma {:induction false} RunNames(s: State, steps: seq<Step>, t: State, d: nat, name: string)
    requires Inv(s) && Named(s) && Execution(s, steps, t) && FreesRightly(s, steps)
    ensures Named(t) && (Untouched(s, steps, d, name) ==> Found(t, d, name) == Found(s, d, name))
    decreases |steps|
  {
    hide Counts, Tree, Next, Enabled, Named, Found, Leads;
    if steps != [] {
      StepInv(s, steps[0]);
      StepNames(s, steps[0]);
      RunNames(Next(s, steps[0]), steps[1..], t, d, name);
    }
  }

  /** One run after another. */
  lemma {:induction false} Append(s: State, a: seq<Step>, t: State, b: seq<Step>, u: State)
    requires Execution(s, a, t) && Execution(t, b, u)
    ensures Execution(s, a + b, u)
    ensures FreesRightly(s, a) && FreesRightly(t, b) ==> FreesRightly(s, a + b)
    ensures StaysLow(s, a) && StaysLow(t, b) ==> StaysLow(s, a + b)
    decreases |a|
  {
    hide Next, Enabled, FreesNamed, Overflows;
    if a == [] {
      assert a + b == b;
    } else {
      assert (a + b)[0] == a[0] && (a + b)[1..] == a[1..] + b;
      Append(Next(s, a[0]), a[1..], t, b, u);
    }
  }

  /** Whatever happened since mkfs made the root, short of a link past the largest short: each inode's
      count is the number of entries naming it plus the links to it in progress, and no entry of a
      directory leads to a free inode. */
  lemma LinksBalance(n: nat, steps: seq<Step>, t: State, i: nat)
    requires n > ROOT && Execution(RootOnly(n), steps, t) && StaysLow(RootOnly(n), steps) && 0 < i < n
    ensures i < |t.nodes| && t.nodes[i].nlink == Count(t.nodes, i, |t.nodes|) + t.pend[i]
    ensures t.nodes[i].kind.Unused? ==>
              t.nodes[i].nlink == 0
              && forall d: nat, k: nat :: IsDir(t, d) && 2 <= k < |t.nodes[d].entries| ==>
                    t.nodes[d].entries[k].inum != i
  {
    RootInv(n);
    RunExact(RootOnly(n), steps, t);
    ExactAt(t, i);
    if t.nodes[i].kind.Unused? {
      FreeUnnamed(t, i);
    }
  }

  /** And with any number of links: the count is that number as a short holds it, until an inode is
      freed that is still named. No directory has a name twice. */
  lemma CountsWrap(n: nat, steps: seq<Step>, t: State, i: nat)
    requires n > ROOT && Execution(RootOnly(n), steps, t) && FreesRightly(RootOnly(n), steps) && 0 < i < n
    ensures i < |t.nodes| && t.nodes[i].nlink == Short(Count(t.nodes, i, |t.nodes|) + t.pend[i]) && Named(t)
  {
    hide Tree, Execution, FreesRightly, AlwaysInv, Short, Named;
    RootInv(n);
    RootNamed(n);
    RunNames(RootOnly(n), steps, t, ROOT, ".");
    RunInv(RootOnly(n), steps, t);
    assert CountAt(t, i);
  }

  /** Directories without links do come up: make one, and remove it while some process has it open. */
  lemma DeadDirReached(n: nat) returns (t: State)
    requires n > 2
    ensures Exact(RootOnly(n)) && Execution(RootOnly(n), [MakeDir(2, ROOT, 2, "d"), Remove(ROOT, 2, 2)], t)
    ensures Exact(t) && IsDir(t, 2) && t.nodes[2].nlink == 0
  {
    RootInv(n);
    var s := RootOnly(n);
    var a, b := MakeDir(2, ROOT, 2, "d"), Remove(ROOT, 2, 2);
    assert Enabled(s, a);
    StepExact(s, a);
    var m := Next(s, a);
    assert Enabled(m, b);
    StepExact(m, b);
    t := Next(m, b);
    assert [a, b][1..] == [b] && [b][1..] == [];
    assert Execution(t, [], t);
    assert Execution(m, [b], t);
  }
}

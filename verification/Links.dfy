/** sysfile.c's link counts: what create, link, unlink and the last iput keep. */
module Links {
  import opened LinkCount

  /** Slot k of directory d. */
  datatype Pos = Pos(d: nat, k: nat)

  /** The inodes; for every link call in progress the inode whose count it has already raised; and the
      slot in which each directory with links, other than the root, stands. */
  datatype State = State(nodes: Nodes, pend: multiset<nat>, place: map<nat, Pos>)

  predicate IsDir(s: State, d: nat) { d < |s.nodes| && s.nodes[d].kind.Dir? }

  /** Directory d: "." and ".." come first. */
  predicate DirAt(s: State, d: nat)
    requires IsDir(s, d)
  {
    var es := s.nodes[d].entries;
    && d != 0 && |es| >= 2 && es[0] == Entry(d, ".") && es[1].name == ".." && 0 < es[1].inum < |s.nodes|
    && (d == ROOT ==> es[1].inum == ROOT)
    && (Live(s.nodes[d]) ==> d == ROOT || d in s.place)
  }

  /** A slot in use below ".." names an inode in use, never the root, in a directory with links; and a
      directory stands in one slot only. */
  predicate SlotAt(s: State, d: nat, k: nat)
    requires IsDir(s, d) && k < |s.nodes[d].entries|
  {
    var e := s.nodes[d].entries[k];
    k >= 2 && e.inum != 0 ==>
      && e.name != "." && e.name != ".." && e.inum != ROOT && e.inum < |s.nodes| && s.nodes[d].nlink > 0
      && !s.nodes[e.inum].kind.Unused?
      && (s.nodes[e.inum].kind.Dir? ==> e.inum in s.place && s.place[e.inum] == Pos(d, k))
  }

  /** Where directory x stands is what its ".." says. */
  predicate PlaceAt(s: State, x: nat)
    requires x in s.place
  {
    var p := s.place[x];
    && IsDir(s, x) && s.nodes[x].nlink > 0 && x != ROOT && x != 0
    && |s.nodes[x].entries| >= 2 && s.nodes[x].entries[1].inum == p.d
    && IsDir(s, p.d) && 2 <= p.k < |s.nodes[p.d].entries| && s.nodes[p.d].entries[p.k].inum == x
  }

  ghost predicate Tree(s: State) {
    && IsDir(s, ROOT) && s.nodes[ROOT].nlink > 0
    && (forall d: nat {:trigger DirAt(s, d)} :: IsDir(s, d) ==> DirAt(s, d))
    && (forall d: nat, k: nat {:trigger SlotAt(s, d, k)} :: IsDir(s, d) && k < |s.nodes[d].entries| ==> SlotAt(s, d, k))
    && (forall x {:trigger PlaceAt(s, x)} :: x in s.place ==> PlaceAt(s, x))
  }

  /** The entries that name inode i, plus the links to it in progress. */
  function Refs(s: State, i: nat): nat { if i == 0 then 0 else Count(s.nodes, i, |s.nodes|) + s.pend[i] }

  /** An inode's link count is the number of references, as a short holds it; a directory's count, and
      that of a free inode, has not wrapped. */
  predicate CountAt(s: State, i: nat)
    requires i < |s.nodes|
  {
    && s.nodes[i].nlink == Short(Refs(s, i))
    && (s.pend[i] > 0 ==> s.nodes[i].kind.File?)
    && (s.nodes[i].kind.Dir? ==> Refs(s, i) <= MAXLINK)
    && (s.nodes[i].kind.Unused? ==> Refs(s, i) == 0)
  }

  ghost predicate Counts(s: State) { forall i {:trigger CountAt(s, i)} :: 0 <= i < |s.nodes| ==> CountAt(s, i) }

  ghost predicate Inv(s: State) { Tree(s) && Counts(s) }

  /** No count has wrapped. */
  ghost predicate Fits(s: State) { forall i {:trigger Refs(s, i)} :: 0 <= i < |s.nodes| ==> Refs(s, i) <= MAXLINK }

  /** Every count is exactly the number of references. */
  ghost predicate Exact(s: State) { Inv(s) && Fits(s) }

  lemma ExactAt(s: State, i: nat)
    requires Exact(s) && i < |s.nodes|
    ensures s.nodes[i].nlink == Refs(s, i)
  {
    assert CountAt(s, i);
    ShortIs(Refs(s, i));
  }

  /** A directory's count is exact in any case. */
  lemma DirExact(s: State, d: nat)
    requires Counts(s) && IsDir(s, d)
    ensures 0 <= s.nodes[d].nlink == Refs(s, d) <= MAXLINK
  {
    assert CountAt(s, d);
    ShortIs(Refs(s, d));
  }

  /** Counts after a step, from the references after it. */
  lemma CountFrom(s: State, t: State, i: nat)
    requires i < |s.nodes| == |t.nodes| && CountAt(s, i) && t.nodes[i].kind == s.nodes[i].kind
    requires t.pend[i] > 0 ==> t.nodes[i].kind.File?
    requires || (Refs(t, i) == Refs(s, i) && t.nodes[i].nlink == s.nodes[i].nlink)
             || (Refs(t, i) == Refs(s, i) + 1 && t.nodes[i].nlink == Short(s.nodes[i].nlink + 1)
                 && !t.nodes[i].kind.Unused? && (t.nodes[i].kind.Dir? ==> s.nodes[i].nlink < MAXLINK))
             || (Refs(t, i) == Refs(s, i) - 1 && t.nodes[i].nlink == Short(s.nodes[i].nlink - 1))
    ensures CountAt(t, i)
  {
    hide Refs, Short;
    ShortIs(Refs(s, i));
    ShortSteps(Refs(s, i));
  }

  // ---- one more entry ----

  /** dirlink writes into slot k, empty or just past the end. */
  function Entered(es: seq<Entry>, k: nat, e: Entry): seq<Entry>
    requires k <= |es|
  {
    if k < |es| then es[k := e] else es + [e]
  }

  lemma EnteredWeight(x: Node, k: nat, e: Entry, i: nat)
    requires Live(x) && k <= |x.entries| && (k < |x.entries| ==> x.entries[k].inum == 0)
    ensures Weight(x.(entries := Entered(x.entries, k, e)), i) == Weight(x, i) + Names(e, i)
  {
    if k < |x.entries| {
      EntriesUpdate(x.entries, k, e, i, |x.entries|);
    } else {
      EntriesAppend(x.entries, e, i);
    }
  }

  /** The entry goes in; its inode is a file that already exists. */
  function Enter(s: State, d: nat, k: nat, e: Entry): State
    requires d < |s.nodes| && k <= |s.nodes[d].entries|
  {
    s.(nodes := s.nodes[d := s.nodes[d].(entries := Entered(s.nodes[d].entries, k, e))])
  }

  /** A slot that dirlink may use. */
  ghost predicate Space(s: State, d: nat, k: nat) {
    IsDir(s, d) && 2 <= k <= |s.nodes[d].entries| && (k < |s.nodes[d].entries| ==> s.nodes[d].entries[k].inum == 0)
  }

  /** ... in a directory that has links. */
  ghost predicate Room(s: State, d: nat, k: nat) { Space(s, d, k) && s.nodes[d].nlink > 0 }

  lemma EnterTree(s: State, d: nat, k: nat, e: Entry)
    requires Tree(s) && Room(s, d, k) && e.name != "." && e.name != ".." && e.inum != ROOT && e.inum != 0
    requires e.inum < |s.nodes| && s.nodes[e.inum].kind.File?
    ensures Tree(Enter(s, d, k, e))
  {
    var t := Enter(s, d, k, e);
    assert DirAt(s, d);
    forall x: nat | IsDir(t, x) ensures DirAt(t, x) {
      assert DirAt(s, x);
    }
    forall x: nat, j: nat | IsDir(t, x) && j < |t.nodes[x].entries| ensures SlotAt(t, x, j) {
      if x != d || j != k {
        assert SlotAt(s, x, j);
      }
    }
    forall x | x in t.place ensures PlaceAt(t, x) {
      assert PlaceAt(s, x);
    }
  }

  // ---- link ----

  /** sys_link's first half: nlink++ under the inode's lock. */
  function LinkBegin(s: State, i: nat): State
    requires i < |s.nodes|
  {
    s.(nodes := s.nodes[i := s.nodes[i].(nlink := Short(s.nodes[i].nlink + 1))], pend := s.pend + multiset{i})
  }

  lemma FileTree(s: State, i: nat, n: int)
    requires Tree(s) && i < |s.nodes| && s.nodes[i].kind.File?
    ensures Tree(s.(nodes := s.nodes[i := s.nodes[i].(nlink := n)]))
  {
    var t := s.(nodes := s.nodes[i := s.nodes[i].(nlink := n)]);
    forall x: nat | IsDir(t, x) ensures DirAt(t, x) {
      assert DirAt(s, x);
    }
    forall x: nat, j: nat | IsDir(t, x) && j < |t.nodes[x].entries| ensures SlotAt(t, x, j) {
      assert SlotAt(s, x, j);
    }
    forall x | x in t.place ensures PlaceAt(t, x) {
      assert PlaceAt(s, x);
    }
  }

  lemma FileCount(s: State, i: nat, n: int, x: nat)
    requires i < |s.nodes| && s.nodes[i].kind.File?
    ensures var u := s.nodes[i := s.nodes[i].(nlink := n)]; Count(u, x, |u|) == Count(s.nodes, x, |s.nodes|)
  {
    CountUpdate(s.nodes, i, s.nodes[i].(nlink := n), x, |s.nodes|);
  }

  lemma LinkBeginRefs(s: State, i: nat, x: nat)
    requires 0 < i < |s.nodes| && s.nodes[i].kind.File?
    ensures Refs(LinkBegin(s, i), x) == Refs(s, x) + if x == i then 1 else 0
  {
    hide Short;
    FileCount(s, i, Short(s.nodes[i].nlink + 1), x);
  }

  lemma LinkBeginOk(s: State, i: nat)
    requires Inv(s) && 0 < i < |s.nodes| && s.nodes[i].kind.File?
    ensures Inv(LinkBegin(s, i))
  {
    hide Short, Refs;
    var t := LinkBegin(s, i);
    FileTree(s, i, Short(s.nodes[i].nlink + 1));
    TreePend(s.(nodes := t.nodes), t.pend);
    forall x | 0 <= x < |t.nodes| ensures CountAt(t, x) {
      assert CountAt(s, x);
      LinkBeginRefs(s, i, x);
      CountFrom(s, t, x);
    }
  }

  /** sys_link does not look for room in the count: it stays exact if and only if it is below 32767. */
  lemma LinkBeginExact(s: State, i: nat)
    requires Exact(s) && 0 < i < |s.nodes| && s.nodes[i].kind.File?
    ensures Exact(LinkBegin(s, i)) <==> s.nodes[i].nlink < MAXLINK
  {
    hide Short, Refs, Inv;
    ExactAt(s, i);
    LinkBeginOk(s, i);
    forall x | 0 <= x < |s.nodes| ensures Refs(LinkBegin(s, i), x) == Refs(s, x) + if x == i then 1 else 0 {
      LinkBeginRefs(s, i, x);
    }
  }

  lemma TreePend(s: State, pend: multiset<nat>)
    requires Tree(s)
    ensures Tree(s.(pend := pend))
  {
    var t := s.(pend := pend);
    forall x: nat | IsDir(t, x) ensures DirAt(t, x) {
      assert DirAt(s, x);
    }
    forall x: nat, j: nat | IsDir(t, x) && j < |t.nodes[x].entries| ensures SlotAt(t, x, j) {
      assert SlotAt(s, x, j);
    }
    forall x | x in t.place ensures PlaceAt(t, x) {
      assert PlaceAt(s, x);
    }
  }

  /** sys_link's second half when dirlink succeeds. */
  function LinkDone(s: State, d: nat, k: nat, e: Entry): State
    requires d < |s.nodes| && k <= |s.nodes[d].entries|
  {
    Enter(s, d, k, e).(pend := s.pend - multiset{e.inum})
  }

  lemma LinkDoneRefs(s: State, d: nat, k: nat, e: Entry, x: nat)
    requires Room(s, d, k) && e.name != "." && e.inum in s.pend && 0 < e.inum
    ensures Refs(LinkDone(s, d, k, e), x) == Refs(s, x)
  {
    var t := LinkDone(s, d, k, e);
    CountUpdate(s.nodes, d, t.nodes[d], x, |s.nodes|);
    EnteredWeight(s.nodes[d], k, e, x);
  }

  lemma LinkDoneOk(s: State, d: nat, k: nat, e: Entry)
    requires Inv(s) && Room(s, d, k) && e.name != "." && e.name != ".." && e.inum in s.pend && 0 < e.inum < |s.nodes|
    ensures Inv(LinkDone(s, d, k, e)) && (Exact(s) ==> Exact(LinkDone(s, d, k, e)))
  {
    hide Short, Refs;
    var t := LinkDone(s, d, k, e);
    assert CountAt(s, e.inum);
    assert e.inum != ROOT;
    EnterTree(s, d, k, e);
    TreePend(Enter(s, d, k, e), t.pend);
    forall x | 0 <= x < |t.nodes| ensures CountAt(t, x) && Refs(t, x) == Refs(s, x) {
      assert CountAt(s, x);
      LinkDoneRefs(s, d, k, e, x);
      CountFrom(s, t, x);
    }
  }

  /** dirlink does not check dp->nlink. In a directory that has lost its last link (some process's
      current directory, say) the new entry does not count: the balance is kept exactly when the
      directory has links. */
  lemma LinkDoneBalanced(s: State, d: nat, k: nat, e: Entry)
    requires Inv(s) && Space(s, d, k) && e.name != "." && e.name != ".." && e.inum in s.pend && 0 < e.inum < |s.nodes|
    ensures Inv(LinkDone(s, d, k, e)) <==> s.nodes[d].nlink > 0
  {
    hide Short;
    var t := LinkDone(s, d, k, e);
    if s.nodes[d].nlink > 0 {
      LinkDoneOk(s, d, k, e);
    } else {
      assert CountAt(s, e.inum);
      CountUpdate(s.nodes, d, t.nodes[d], e.inum, |s.nodes|);
      ShortSteps(Refs(t, e.inum));
      assert !CountAt(t, e.inum);
    }
  }

  /** sys_link's undo path. */
  function LinkUndo(s: State, i: nat): State
    requires i < |s.nodes|
  {
    s.(nodes := s.nodes[i := s.nodes[i].(nlink := Short(s.nodes[i].nlink - 1))], pend := s.pend - multiset{i})
  }

  lemma LinkUndoRefs(s: State, i: nat, x: nat)
    requires i in s.pend && 0 < i < |s.nodes| && s.nodes[i].kind.File?
    ensures Refs(LinkUndo(s, i), x) == Refs(s, x) - if x == i then 1 else 0
  {
    hide Short;
    FileCount(s, i, Short(s.nodes[i].nlink - 1), x);
  }

  /** The undo restores the balance, and takes an exact count not below zero. */
  lemma LinkUndoOk(s: State, i: nat)
    requires Inv(s) && i in s.pend && 0 < i < |s.nodes|
    ensures Inv(LinkUndo(s, i)) && (Exact(s) ==> s.nodes[i].nlink > 0 && Exact(LinkUndo(s, i)))
  {
    hide Short, Refs;
    assert CountAt(s, i);
    var t := LinkUndo(s, i);
    FileTree(s, i, Short(s.nodes[i].nlink - 1));
    TreePend(s.(nodes := t.nodes), t.pend);
    forall x | 0 <= x < |t.nodes| ensures CountAt(t, x) && Refs(t, x) <= Refs(s, x) {
      assert CountAt(s, x);
      LinkUndoRefs(s, i, x);
      CountFrom(s, t, x);
    }
    LinkUndoRefs(s, i, i);
    if Exact(s) {
      ExactAt(s, i);
    }
  }

  /** A link that fails leaves the state as it found it, even across a wrap. */
  lemma UndoUndoes(s: State, i: nat)
    requires i < |s.nodes| && -0x8000 <= s.nodes[i].nlink <= MAXLINK
    ensures LinkUndo(LinkBegin(s, i), i) == s
  {
    ShortIs(s.nodes[i].nlink);
    ShortSteps(s.nodes[i].nlink + 1);
    assert LinkUndo(LinkBegin(s, i), i).nodes == s.nodes;
  }

  // ---- create ----

  /** create of a file: the new inode, and its entry. */
  function NewFile(s: State, i: nat, d: nat, k: nat, name: string): State
    requires i < |s.nodes| && d < |s.nodes| && k <= |s.nodes[d].entries|
  {
    var es := Entered(s.nodes[d].entries, k, Entry(i, name));
    s.(nodes := s.nodes[i := Node(File, 1, [])][d := s.nodes[d].(entries := es)])
  }

  /** create of a directory: "." and "..", the entry, and dp->nlink++ for "..". */
  function NewDir(s: State, i: nat, d: nat, k: nat, name: string): State
    requires i < |s.nodes| && d < |s.nodes| && k <= |s.nodes[d].entries|
  {
    var es := Entered(s.nodes[d].entries, k, Entry(i, name));
    s.(nodes := s.nodes[i := Node(Dir, 1, [Entry(i, "."), Entry(d, "..")])]
                       [d := Node(s.nodes[d].kind, Short(s.nodes[d].nlink + 1), es)],
       place := s.place[i := Pos(d, k)])
  }

  /** A free inode, a slot, and a name for them. */
  ghost predicate Offers(s: State, i: nat, d: nat, k: nat, name: string) {
    0 < i < |s.nodes| && s.nodes[i].kind.Unused? && Space(s, d, k) && name != "." && name != ".."
  }

  /** ... in a directory that has links. */
  ghost predicate Creates(s: State, i: nat, d: nat, k: nat, name: string) {
    Offers(s, i, d, k, name) && Room(s, d, k)
  }

  /** ... and whose count has room for one more. */
  ghost predicate CreatesDir(s: State, i: nat, d: nat, k: nat, name: string) {
    Creates(s, i, d, k, name) && s.nodes[d].nlink < MAXLINK
  }

  /** A free inode is named by nothing. */
  lemma FreeUnnamed(s: State, i: nat)
    requires Inv(s) && 0 < i < |s.nodes| && s.nodes[i].kind.Unused?
    ensures Count(s.nodes, i, |s.nodes|) == 0 && s.pend[i] == 0 && s.nodes[i].nlink == 0 && i !in s.place && i != ROOT
    ensures Refs(s, i) == 0
    ensures forall d: nat, k: nat :: IsDir(s, d) && 2 <= k < |s.nodes[d].entries| ==> s.nodes[d].entries[k].inum != i
  {
    assert CountAt(s, i);
    forall x | x in s.place ensures IsDir(s, x) {
      assert PlaceAt(s, x);
    }
    forall d: nat, k: nat | IsDir(s, d) && 2 <= k < |s.nodes[d].entries| ensures s.nodes[d].entries[k].inum != i {
      assert SlotAt(s, d, k);
    }
  }

  lemma NewFileTree(s: State, i: nat, d: nat, k: nat, name: string)
    requires Inv(s) && Creates(s, i, d, k, name)
    ensures Tree(NewFile(s, i, d, k, name))
  {
    hide Counts;
    var t := NewFile(s, i, d, k, name);
    FreeUnnamed(s, i);
    assert DirAt(s, d);
    forall x: nat | IsDir(t, x) ensures DirAt(t, x) {
      assert DirAt(s, x);
    }
    forall x: nat, j: nat | IsDir(t, x) && j < |t.nodes[x].entries| ensures SlotAt(t, x, j) {
      if x != d || j != k {
        assert SlotAt(s, x, j);
      }
    }
    forall x | x in t.place ensures PlaceAt(t, x) {
      assert PlaceAt(s, x);
    }
  }

  lemma NewFileRefs(s: State, i: nat, d: nat, k: nat, name: string, x: nat)
    requires Inv(s) && Creates(s, i, d, k, name)
    ensures Refs(NewFile(s, i, d, k, name), x) == Refs(s, x) + if x == i then 1 else 0
  {
    hide Tree, Counts;
    var t := NewFile(s, i, d, k, name);
    var u := s.nodes[i := Node(File, 1, [])];
    CountUpdate(s.nodes, i, Node(File, 1, []), x, |s.nodes|);
    CountUpdate(u, d, t.nodes[d], x, |s.nodes|);
    EnteredWeight(s.nodes[d], k, Entry(i, name), x);
  }

  lemma NewFileOk(s: State, i: nat, d: nat, k: nat, name: string)
    requires Inv(s) && Creates(s, i, d, k, name)
    ensures Inv(NewFile(s, i, d, k, name)) && (Exact(s) ==> Exact(NewFile(s, i, d, k, name)))
  {
    hide Tree, Short, Refs;
    var t := NewFile(s, i, d, k, name);
    NewFileTree(s, i, d, k, name);
    FreeUnnamed(s, i);
    ShortIs(1);
    forall x | 0 <= x < |t.nodes| ensures CountAt(t, x) && Refs(t, x) <= (if x == i then 1 else Refs(s, x)) {
      assert CountAt(s, x);
      NewFileRefs(s, i, d, k, name, x);
      if x != i {
        CountFrom(s, t, x);
      }
    }
  }

  /** Nor does create. A file made in a directory without links gets a count that no entry backs: the
      balance is kept exactly when the directory has links. */
  lemma NewFileBalanced(s: State, i: nat, d: nat, k: nat, name: string)
    requires Inv(s) && Offers(s, i, d, k, name)
    ensures Inv(NewFile(s, i, d, k, name)) <==> s.nodes[d].nlink > 0
  {
    hide Tree;
    var t := NewFile(s, i, d, k, name);
    if s.nodes[d].nlink > 0 {
      NewFileOk(s, i, d, k, name);
    } else {
      FreeUnnamed(s, i);
      ShortIs(0);
      CountUpdate(s.nodes, i, Node(File, 1, []), i, |s.nodes|);
      CountUpdate(s.nodes[i := Node(File, 1, [])], d, t.nodes[d], i, |s.nodes|);
      assert !CountAt(t, i);
    }
  }

  lemma NewDirTree(s: State, i: nat, d: nat, k: nat, name: string)
    requires Inv(s) && CreatesDir(s, i, d, k, name)
    ensures Tree(NewDir(s, i, d, k, name))
  {
    hide Counts, DirAt, SlotAt, PlaceAt, Short;
    var t := NewDir(s, i, d, k, name);
    NewDirNlink(s, i, d, k, name);
    forall x: nat | IsDir(t, x) ensures DirAt(t, x) {
      NewDirDir(s, i, d, k, name, x);
    }
    forall x: nat, j: nat | IsDir(t, x) && j < |t.nodes[x].entries| ensures SlotAt(t, x, j) {
      NewDirSlot(s, i, d, k, name, x, j);
    }
    forall x | x in t.place ensures PlaceAt(t, x) {
      NewDirPlace(s, i, d, k, name, x);
    }
    FreeUnnamed(s, i);
  }

  lemma NewDirDir(s: State, i: nat, d: nat, k: nat, name: string, x: nat)
    requires Inv(s) && CreatesDir(s, i, d, k, name) && IsDir(NewDir(s, i, d, k, name), x)
    ensures DirAt(NewDir(s, i, d, k, name), x)
  {
    hide Counts, Short;
    FreeUnnamed(s, i);
    NewDirNlink(s, i, d, k, name);
    assert DirAt(s, d);
    if x != i {
      assert DirAt(s, x);
    }
  }

  lemma NewDirSlot(s: State, i: nat, d: nat, k: nat, name: string, x: nat, j: nat)
    requires Inv(s) && CreatesDir(s, i, d, k, name)
    requires IsDir(NewDir(s, i, d, k, name), x) && j < |NewDir(s, i, d, k, name).nodes[x].entries|
    ensures SlotAt(NewDir(s, i, d, k, name), x, j)
  {
    hide Counts, Short;
    FreeUnnamed(s, i);
    NewDirNlink(s, i, d, k, name);
    if x != i && (x != d || j != k) {
      assert SlotAt(s, x, j);
    }
  }

  lemma NewDirPlace(s: State, i: nat, d: nat, k: nat, name: string, x: nat)
    requires Inv(s) && CreatesDir(s, i, d, k, name) && x in NewDir(s, i, d, k, name).place
    ensures PlaceAt(NewDir(s, i, d, k, name), x)
  {
    hide Counts, Short;
    FreeUnnamed(s, i);
    NewDirNlink(s, i, d, k, name);
    if x != i {
      assert PlaceAt(s, x) && DirAt(s, x);
    }
  }

  /** The parent's count, one higher. */
  lemma NewDirNlink(s: State, i: nat, d: nat, k: nat, name: string)
    requires Inv(s) && CreatesDir(s, i, d, k, name)
    ensures NewDir(s, i, d, k, name).nodes[d].nlink == s.nodes[d].nlink + 1
  {
    ShortIs(s.nodes[d].nlink + 1);
  }

  lemma NewDirRefs(s: State, i: nat, d: nat, k: nat, name: string, x: nat)
    requires Inv(s) && CreatesDir(s, i, d, k, name) && x != 0
    ensures Refs(NewDir(s, i, d, k, name), x)
            == Refs(s, x) + (if x == i then 1 else 0) + (if x == d then 1 else 0)
  {
    hide Tree, Counts, Short;
    var t := NewDir(s, i, d, k, name);
    NewDirNlink(s, i, d, k, name);
    var y := Node(Dir, 1, [Entry(i, "."), Entry(d, "..")]);
    var u := s.nodes[i := y];
    CountUpdate(s.nodes, i, y, x, |s.nodes|);
    CountUpdate(u, d, t.nodes[d], x, |s.nodes|);
    EnteredWeight(s.nodes[d], k, Entry(i, name), x);
    assert Entries(y.entries, x, 2) == Entries(y.entries, x, 1) + Names(y.entries[1], x);
    assert Entries(y.entries, x, 1) == Entries(y.entries, x, 0) + Names(y.entries[0], x);
  }

  lemma NewDirOk(s: State, i: nat, d: nat, k: nat, name: string)
    requires Inv(s) && CreatesDir(s, i, d, k, name)
    ensures Inv(NewDir(s, i, d, k, name)) && (Exact(s) ==> Exact(NewDir(s, i, d, k, name)))
  {
    hide Tree, Short, Refs;
    var t := NewDir(s, i, d, k, name);
    NewDirTree(s, i, d, k, name);
    FreeUnnamed(s, i);
    DirExact(s, d);
    NewDirNlink(s, i, d, k, name);
    assert d != 0 by { ZeroFree(s); }
    ShortIs(1);
    forall x | 0 <= x < |t.nodes| ensures CountAt(t, x) && (Exact(s) ==> Refs(t, x) <= MAXLINK) {
      NewDirCount(s, i, d, k, name, x);
    }
  }

  lemma ZeroFree(s: State)
    requires Tree(s) && |s.nodes| > 0
    ensures !IsDir(s, 0)
  {
    assert IsDir(s, 0) ==> DirAt(s, 0);
  }

  lemma NewDirCount(s: State, i: nat, d: nat, k: nat, name: string, x: nat)
    requires Inv(s) && CreatesDir(s, i, d, k, name) && x < |s.nodes| && d != 0 && i != d && Refs(s, i) == 0
    ensures CountAt(NewDir(s, i, d, k, name), x)
    ensures Exact(s) ==> Refs(NewDir(s, i, d, k, name), x) <= MAXLINK
  {
    hide Tree, Short, Refs;
    var t := NewDir(s, i, d, k, name);
    assert CountAt(s, x) && CountAt(s, d);
    ShortIs(1);
    DirExact(s, d);
    if x == 0 {
      NoRefs(s, t);
    } else {
      NewDirRefs(s, i, d, k, name, x);
    }
    if x != i {
      CountFrom(s, t, x);
    }
  }

  lemma NoRefs(s: State, t: State)
    ensures Refs(s, 0) == Refs(t, 0) == 0
  {
  }

  /** A directory made in one without links brings that one back to life, and with it the ".." that
      nothing backs any more: the count of the inode it names is one too low. */
  lemma RevivedCount(s: State, i: nat, d: nat, k: nat, name: string)
    requires Inv(s) && Offers(s, i, d, k, name) && s.nodes[d].nlink == 0
    ensures |s.nodes[d].entries| >= 2 && s.nodes[d].entries[1].inum < |s.nodes|
    ensures var t, p := NewDir(s, i, d, k, name), s.nodes[d].entries[1].inum;
            t.nodes[p].nlink == Short(Refs(t, p) - 1)
  {
    hide Tree, Short;
    assert DirAt(s, d) by { DirsOk(s, d); }
    var t, es := NewDir(s, i, d, k, name), s.nodes[d].entries;
    var p, x := es[1].inum, Node(Dir, 1, [Entry(i, "."), Entry(d, "..")]);
    FreeUnnamed(s, i);
    ShortIs(1);
    assert CountAt(s, p) && CountAt(s, d) && i != d;
    DirExact(s, d);
    CountUpdate(s.nodes, i, x, p, |s.nodes|);
    CountUpdate(s.nodes[i := x], d, t.nodes[d], p, |s.nodes|);
    assert Entries(x.entries, p, 2) == Entries(x.entries, p, 1) + Names(x.entries[1], p);
    assert Entries(x.entries, p, 1) == Names(x.entries[0], p);
    DeadEntries(s, d, p);
    if k < |es| {
      EntriesUpdate(es, k, Entry(i, name), p, |es|);
    } else {
      EntriesAppend(es, Entry(i, name), p);
    }
  }

  lemma DirsOk(s: State, d: nat)
    requires Tree(s) && IsDir(s, d)
    ensures DirAt(s, d)
  {
  }

  /** A directory without links is empty: only its ".." names anything. */
  lemma DeadEntries(s: State, d: nat, p: nat)
    requires Tree(s) && IsDir(s, d) && s.nodes[d].nlink == 0 && p != 0
    ensures |s.nodes[d].entries| >= 2
    ensures var es := s.nodes[d].entries; Entries(es, p, |es|) == Names(es[1], p)
  {
    assert DirAt(s, d);
    var es := s.nodes[d].entries;
    forall j | 0 <= j < |es| && j != 1 ensures Names(es[j], p) == 0 {
      assert SlotAt(s, d, j);
    }
    EntriesOnly(es, 1, p, |es|);
  }

  /** mkdir keeps the balance if and only if the directory has links and its count has room. */
  lemma NewDirBalanced(s: State, i: nat, d: nat, k: nat, name: string)
    requires Inv(s) && Offers(s, i, d, k, name)
    ensures Inv(NewDir(s, i, d, k, name)) <==> 0 < s.nodes[d].nlink < MAXLINK
  {
    hide Tree, Short, Refs;
    DirExact(s, d);
    var t := NewDir(s, i, d, k, name);
    if 0 < s.nodes[d].nlink < MAXLINK {
      NewDirOk(s, i, d, k, name);
    } else if s.nodes[d].nlink == 0 {
      RevivedCount(s, i, d, k, name);
      assert DirAt(s, d) by { DirsOk(s, d); }
      var p := s.nodes[d].entries[1].inum;
      ShortSteps(Refs(t, p) - 1);
      assert !CountAt(t, p);
    } else {
      assert Short(MAXLINK + 1) == -0x8000 by { WrapsDown(); }
      NotBelowWrapped(t, d, k);
    }
  }

  lemma WrapsDown()
    ensures Short(MAXLINK + 1) == -0x8000 && Short(1) == 1 && Short(0x1_0000) == 0
  {
  }

  /** A slot in use in a directory without a positive count. */
  lemma NotBelowWrapped(t: State, d: nat, k: nat)
    requires IsDir(t, d) && 2 <= k < |t.nodes[d].entries| && t.nodes[d].entries[k].inum != 0 && t.nodes[d].nlink <= 0
    ensures !Inv(t)
  {
    hide Counts;
    assert !SlotAt(t, d, k);
  }

  /** A directory names another at most once through "..", and once more if that one stands in it. */
  lemma DirWeightBound(s: State, d: nat, x: nat)
    requires Tree(s) && IsDir(s, d) && x < |s.nodes|
    ensures Weight(s.nodes[x], d) <= 1 + if d in s.place && s.place[d].d == x then 1 else 0
    ensures x == 0 || s.nodes[x].kind.Unused? ==> Weight(s.nodes[x], d) == 0
  {
    ZeroFree(s);
    if Live(s.nodes[x]) {
      assert DirAt(s, x);
      var es, y := s.nodes[x].entries, if d in s.place && s.place[d].d == x then s.place[d].k else 0;
      forall j | 0 <= j < |es| && j != 1 && j != y ensures Names(es[j], d) == 0 {
        assert SlotAt(s, x, j);
      }
      EntriesTwo(es, 1, y, d, |es|);
    }
  }

  lemma {:induction false} DirNamedBound(s: State, i: nat, d: nat, m: nat)
    requires Tree(s) && IsDir(s, d) && 0 < i < |s.nodes| && s.nodes[i].kind.Unused? && m <= |s.nodes|
    ensures Count(s.nodes, d, m)
            + (if m > 0 then 1 else 0) + (if i < m then 1 else 0)
            <= m + if d in s.place && s.place[d].d < m then 1 else 0
  {
    hide Tree;
    if m > 0 {
      DirNamedBound(s, i, d, m - 1);
      DirWeightBound(s, d, m - 1);
    }
  }

  /** With at most 32767 inodes a directory's count always has room for one more. */
  lemma MkdirFits(s: State, i: nat, d: nat, k: nat, name: string)
    requires Inv(s) && Creates(s, i, d, k, name) && |s.nodes| <= MAXLINK
    ensures CreatesDir(s, i, d, k, name)
  {
    hide Tree;
    DirExact(s, d);
    assert CountAt(s, d);
    DirNamedBound(s, i, d, |s.nodes|);
  }

  // ---- unlink ----

  /** isdirempty: nothing after "." and "..". */
  predicate Bare(s: State, i: nat)
    requires i < |s.nodes|
  {
    forall k :: 2 <= k < |s.nodes[i].entries| ==> s.nodes[i].entries[k].inum == 0
  }

  /** sys_unlink's entry: slot k of directory d, naming i. */
  ghost predicate Unlinks(s: State, d: nat, k: nat, i: nat) {
    && IsDir(s, d) && 2 <= k < |s.nodes[d].entries| && s.nodes[d].entries[k].inum == i && i != 0
    && i < |s.nodes| && (s.nodes[i].kind.Dir? ==> Bare(s, i))
  }

  /** What the slot says, and when the panic on nlink < 1 comes: never while the count is exact. */
  lemma UnlinkFacts(s: State, d: nat, k: nat, i: nat)
    requires Inv(s) && Unlinks(s, d, k, i)
    ensures i != d && i != ROOT && !s.nodes[i].kind.Unused? && s.nodes[d].nlink > 0
    ensures SlotAt(s, d, k) && Refs(s, i) >= 1
    ensures Names(s.nodes[d].entries[k], i) == 1
    ensures s.nodes[i].nlink < 1 <==> Refs(s, i) % 0x1_0000 == 0 || Refs(s, i) % 0x1_0000 > MAXLINK
    ensures Exact(s) || IsDir(s, i) ==> s.nodes[i].nlink >= 1
  {
    assert SlotAt(s, d, k) && CountAt(s, i);
    EntryCounts(s.nodes[d].entries, k, i, |s.nodes[d].entries|);
    WeightCounts(s.nodes, d, i, |s.nodes|);
    ShortIs(Refs(s, i));
  }

  /** An empty directory's one entry is the slot it stands in. */
  lemma EmptyDirNamed(s: State, d: nat, k: nat, i: nat, x: nat)
    requires Tree(s) && Unlinks(s, d, k, i) && IsDir(s, i) && i != ROOT && SlotAt(s, d, k) && x < |s.nodes|
    ensures Weight(s.nodes[x], i) == if x == d && Live(s.nodes[d]) then 1 else 0
  {
    if Live(s.nodes[x]) {
      var es := s.nodes[x].entries;
      forall j | 0 <= j < |es| && !(x == d && j == k) ensures Names(es[j], i) == 0 {
        EmptyDirEntry(s, d, k, i, x, j);
      }
      if x == d {
        EntriesOnly(es, k, i, |es|);
      } else {
        EntriesNone(es, i, |es|);
      }
    }
  }

  lemma EmptyDirEntry(s: State, d: nat, k: nat, i: nat, x: nat, j: nat)
    requires Tree(s) && Unlinks(s, d, k, i) && IsDir(s, i) && i != ROOT && SlotAt(s, d, k)
    requires x < |s.nodes| && Live(s.nodes[x]) && j < |s.nodes[x].entries| && !(x == d && j == k)
    ensures Names(s.nodes[x].entries[j], i) == 0
  {
    assert DirAt(s, x) && SlotAt(s, x, j);
    if x in s.place {
      assert PlaceAt(s, x);
    }
  }

  lemma EmptyDirOnce(s: State, d: nat, k: nat, i: nat)
    requires Inv(s) && Unlinks(s, d, k, i) && IsDir(s, i)
    ensures s.nodes[i].nlink == 1
  {
    UnlinkFacts(s, d, k, i);
    DirExact(s, i);
    assert CountAt(s, i);
    forall x | 0 <= x < |s.nodes| && x != d ensures Weight(s.nodes[x], i) == 0 {
      EmptyDirNamed(s, d, k, i, x);
    }
    EmptyDirNamed(s, d, k, i, d);
    CountOnly(s.nodes, d, i, |s.nodes|);
  }

  /** dp keeps a link after losing an empty subdirectory's "..". */
  lemma ParentKeepsLink(s: State, d: nat, k: nat, i: nat)
    requires Inv(s) && Unlinks(s, d, k, i) && IsDir(s, i)
    ensures s.nodes[d].nlink >= 2
  {
    UnlinkFacts(s, d, k, i);
    DirExact(s, d);
    assert CountAt(s, d) && DirAt(s, i) && DirAt(s, d) && PlaceAt(s, i) && CountAt(s, 0);
    EntryCounts(s.nodes[i].entries, 1, d, |s.nodes[i].entries|);
    assert Weight(s.nodes[i], d) >= 1;
    var p := if d == ROOT then ROOT else s.place[d].d;
    if d == ROOT {
      EntryCounts(s.nodes[d].entries, 1, d, |s.nodes[d].entries|);
    } else {
      assert PlaceAt(s, d);
      assert SlotAt(s, p, s.place[d].k);
      EntryCounts(s.nodes[p].entries, s.place[d].k, d, |s.nodes[p].entries|);
    }
    assert Weight(s.nodes[p], d) >= 1 && p != i;
    if p < i {
      TwoWeights(s.nodes, p, i, d, |s.nodes|);
    } else {
      TwoWeights(s.nodes, i, p, d, |s.nodes|);
    }
  }

  /** sys_unlink. The source drops dp's lock before it lowers ip's count, but holds ip's lock over both;
      nobody can see ip in between. */
  function Unlink(s: State, d: nat, k: nat, i: nat): State
    requires d < |s.nodes| && k < |s.nodes[d].entries| && i < |s.nodes|
  {
    var x := s.nodes[d];
    var n := if s.nodes[i].kind.Dir? then Short(x.nlink - 1) else x.nlink;
    s.(nodes := s.nodes[d := Node(x.kind, n, x.entries[k := EMPTY])]
                       [i := s.nodes[i].(nlink := Short(s.nodes[i].nlink - 1))],
       place := s.place - {i})
  }

  /** What UnlinkFacts, EmptyDirOnce and ParentKeepsLink say, and the counts afterwards. */
  ghost predicate Unlinking(s: State, d: nat, k: nat, i: nat) {
    && Unlinks(s, d, k, i) && i != d && i != ROOT && SlotAt(s, d, k) && s.nodes[d].nlink > 0
    && !s.nodes[i].kind.Unused?
    && (IsDir(s, i) ==> s.nodes[i].nlink == 1 && s.nodes[d].nlink >= 2)
    && (IsDir(s, i) ==> Unlink(s, d, k, i).nodes[i].nlink == 0
                        && Unlink(s, d, k, i).nodes[d].nlink == s.nodes[d].nlink - 1)
  }

  lemma UnlinkReady(s: State, d: nat, k: nat, i: nat)
    requires Inv(s) && Unlinks(s, d, k, i)
    ensures Unlinking(s, d, k, i)
  {
    hide Tree, Counts;
    UnlinkFacts(s, d, k, i);
    if IsDir(s, i) {
      EmptyDirOnce(s, d, k, i);
      ParentKeepsLink(s, d, k, i);
      DirExact(s, d);
      ShortIs(s.nodes[d].nlink - 1);
      ShortIs(0);
    }
  }

  lemma UnlinkTree(s: State, d: nat, k: nat, i: nat)
    requires Tree(s) && Unlinking(s, d, k, i)
    ensures Tree(Unlink(s, d, k, i))
  {
    hide SlotAt, PlaceAt, Short;
    var t := Unlink(s, d, k, i);
    assert DirAt(s, d);
    forall x: nat | IsDir(t, x) ensures DirAt(t, x) {
      assert DirAt(s, x);
    }
    forall x: nat, j: nat | IsDir(t, x) && j < |t.nodes[x].entries| ensures SlotAt(t, x, j) {
      UnlinkSlot(s, d, k, i, x, j);
    }
    forall x | x in t.place ensures PlaceAt(t, x) {
      UnlinkPlace(s, d, k, i, x);
    }
  }

  lemma UnlinkSlot(s: State, d: nat, k: nat, i: nat, x: nat, j: nat)
    requires Tree(s) && Unlinking(s, d, k, i)
    requires IsDir(Unlink(s, d, k, i), x) && j < |Unlink(s, d, k, i).nodes[x].entries|
    ensures SlotAt(Unlink(s, d, k, i), x, j)
  {
    hide Short;
    assert SlotAt(s, x, j);
  }

  lemma UnlinkPlace(s: State, d: nat, k: nat, i: nat, x: nat)
    requires Tree(s) && Unlinking(s, d, k, i) && x in Unlink(s, d, k, i).place
    ensures PlaceAt(Unlink(s, d, k, i), x)
  {
    hide Short;
    assert PlaceAt(s, x);
  }

  lemma UnlinkRefs(s: State, d: nat, k: nat, i: nat, x: nat)
    requires Tree(s) && Unlinking(s, d, k, i) && x != 0
    ensures Refs(Unlink(s, d, k, i), x)
            == Refs(s, x) - (if x == i then 1 else 0) - (if x == d && IsDir(s, i) then 1 else 0)
  {
    hide Short;
    var t := Unlink(s, d, k, i);
    var u := s.nodes[d := t.nodes[d]];
    CountUpdate(s.nodes, d, t.nodes[d], x, |s.nodes|);
    CountUpdate(u, i, t.nodes[i], x, |s.nodes|);
    EntriesUpdate(s.nodes[d].entries, k, EMPTY, x, |s.nodes[d].entries|);
    if IsDir(s, i) {
      LastWeight(s, d, k, i, x);
    }
  }

  /** An empty directory names its parent only. */
  lemma LastWeight(s: State, d: nat, k: nat, i: nat, x: nat)
    requires Tree(s) && Unlinks(s, d, k, i) && IsDir(s, i) && Live(s.nodes[i]) && x != 0 && SlotAt(s, d, k)
    ensures Weight(s.nodes[i], x) == if x == d then 1 else 0
  {
    assert DirAt(s, i) && PlaceAt(s, i);
    EntriesOnly(s.nodes[i].entries, 1, x, |s.nodes[i].entries|);
  }

  lemma UnlinkOk(s: State, d: nat, k: nat, i: nat)
    requires Inv(s) && Unlinks(s, d, k, i)
    ensures Inv(Unlink(s, d, k, i))
    ensures Exact(s) ==> s.nodes[i].nlink >= 1 && s.nodes[d].nlink >= 1 && Exact(Unlink(s, d, k, i))
  {
    hide Tree, Short, Refs, Unlinking;
    UnlinkFacts(s, d, k, i);
    UnlinkReady(s, d, k, i);
    UnlinkTree(s, d, k, i);
    var t := Unlink(s, d, k, i);
    forall x | 0 <= x < |t.nodes| ensures CountAt(t, x) && Refs(t, x) <= Refs(s, x) {
      UnlinkCount(s, d, k, i, x);
    }
  }

  lemma UnlinkCount(s: State, d: nat, k: nat, i: nat, x: nat)
    requires Inv(s) && Unlinking(s, d, k, i) && x < |s.nodes|
    ensures CountAt(Unlink(s, d, k, i), x) && Refs(Unlink(s, d, k, i), x) <= Refs(s, x)
  {
    hide Tree, Short, Refs, SlotAt;
    var t := Unlink(s, d, k, i);
    assert CountAt(s, x);
    if x == 0 {
      NoRefs(s, t);
      assert d != 0 by { ZeroFree(s); }
    } else {
      UnlinkRefs(s, d, k, i, x);
    }
    CountFrom(s, t, x);
  }

  // ---- the last iput ----

  /** iput of an inode without links that nobody refers to. */
  function Freed(s: State, i: nat): State
    requires i < |s.nodes|
  {
    s.(nodes := s.nodes[i := Node(Unused, 0, [])])
  }

  lemma FreedRefs(s: State, i: nat, x: nat)
    requires Counts(s) && i < |s.nodes| && s.nodes[i].nlink == 0
    ensures Refs(Freed(s, i), x) == Refs(s, x)
  {
    CountUpdate(s.nodes, i, Node(Unused, 0, []), x, |s.nodes|);
  }

  /** iput frees an inode whose count is 0. No entry that counts names it, and no link to it is in
      progress, if and only if the count has not wrapped around to 0; then all stays well. */
  lemma FreedOk(s: State, i: nat)
    requires Inv(s) && 0 < i < |s.nodes| && s.nodes[i].nlink == 0
    ensures Refs(s, i) == 0 <==> Refs(s, i) < 0x1_0000
    ensures Inv(Freed(s, i)) <==> Refs(s, i) == 0
    ensures Exact(s) ==> Refs(s, i) == 0 && Exact(Freed(s, i))
    ensures Refs(s, i) == 0 ==>
              forall d: nat, k: nat :: IsDir(s, d) && 2 <= k < |s.nodes[d].entries| ==> s.nodes[d].entries[k].inum != i
  {
    hide Tree, Short, Refs;
    assert CountAt(s, i);
    ShortIs(Refs(s, i));
    var t := Freed(s, i);
    FreedRefs(s, i, i);
    if Refs(s, i) == 0 {
      Unnamed(s, i);
      FreedTree(s, i);
      forall x | 0 <= x < |t.nodes| ensures CountAt(t, x) && Refs(t, x) == Refs(s, x) {
        assert CountAt(s, x);
        FreedRefs(s, i, x);
        ShortIs(0);
      }
    } else {
      assert !CountAt(t, i);
    }
  }

  lemma Unnamed(s: State, i: nat)
    requires Tree(s) && 0 < i && Refs(s, i) == 0
    ensures s.pend[i] == 0
    ensures forall d: nat, k: nat :: IsDir(s, d) && 2 <= k < |s.nodes[d].entries| ==> s.nodes[d].entries[k].inum != i
  {
    hide Tree;
    forall d: nat, k: nat | IsDir(s, d) && 2 <= k < |s.nodes[d].entries| ensures s.nodes[d].entries[k].inum != i {
      NotNamed(s, d, k, i);
    }
  }

  lemma NotNamed(s: State, d: nat, k: nat, i: nat)
    requires Tree(s) && IsDir(s, d) && 2 <= k < |s.nodes[d].entries| && 0 < i && Count(s.nodes, i, |s.nodes|) == 0
    ensures s.nodes[d].entries[k].inum != i
  {
    assert SlotAt(s, d, k);
    EntryCounts(s.nodes[d].entries, k, i, |s.nodes[d].entries|);
    WeightCounts(s.nodes, d, i, |s.nodes|);
  }

  lemma FreedTree(s: State, i: nat)
    requires Tree(s) && i < |s.nodes| && s.nodes[i].nlink == 0
    requires forall d: nat, k: nat :: IsDir(s, d) && 2 <= k < |s.nodes[d].entries| ==> s.nodes[d].entries[k].inum != i
    ensures Tree(Freed(s, i))
  {
    var t := Freed(s, i);
    forall x: nat | IsDir(t, x) ensures DirAt(t, x) {
      assert DirAt(s, x);
    }
    forall x: nat, j: nat | IsDir(t, x) && j < |t.nodes[x].entries| ensures SlotAt(t, x, j) {
      assert SlotAt(s, x, j);
    }
    forall x | x in t.place ensures PlaceAt(t, x) {
      assert PlaceAt(s, x);
      assert SlotAt(s, s.place[x].d, s.place[x].k);
    }
  }

  /** mkfs's root directory, before any file. */
  function RootOnly(n: nat): State {
    State(seq(n, i => if i == ROOT then Node(Dir, 1, [Entry(ROOT, "."), Entry(ROOT, "..")]) else Node(Unused, 0, [])),
          multiset{}, map[])
  }

  lemma RootInv(n: nat)
    requires n > ROOT
    ensures Exact(RootOnly(n))
  {
    var s := RootOnly(n);
    var nodes := s.nodes;
    var es := nodes[ROOT].entries;
    forall d: nat | IsDir(s, d) ensures DirAt(s, d) {
    }
    forall i | 0 <= i < n ensures CountAt(s, i) && Refs(s, i) <= MAXLINK {
      CountOnly(nodes, ROOT, i, n);
      assert Entries(es, i, 2) == Entries(es, i, 1) + Names(es[1], i);
      assert Entries(es, i, 1) == Entries(es, i, 0) + Names(es[0], i);
    }
  }
}

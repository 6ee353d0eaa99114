/** fs.c's and sysfile.c's directory operations, run against the link-count invariant. Whether the disk
    refuses a write, because it is full, is a parameter. */
module LinksCode {
  import opened LinkCount
  import opened Links
  import opened DirNames

  /** What sys_unlink lets go: a name other than the dots, of a file or of an empty directory. */
  ghost predicate Removable(s: State, d: nat, name: string)
    requires IsDir(s, d)
  {
    && name != "." && name != ".."
    && exists k: nat :: First(s.nodes[d].entries, k, name) && Leaves(s, s.nodes[d].entries[k].inum)
  }

  predicate Leaves(s: State, i: nat) { i < |s.nodes| && (IsDir(s, i) ==> Bare(s, i)) }

  /** What create returns for a name that leads to inode j. */
  predicate Opens(s: State, j: nat, dir: bool, i: int) {
    j < |s.nodes| && i == if !dir && s.nodes[j].kind.File? then j else -1
  }

  /** ilock panics on an inode without a type. */
  predicate Untyped(s: State, j: nat) { j < |s.nodes| && s.nodes[j].kind.Unused? }

  /** sys_unlink panics on an inode whose count is below 1. */
  predicate Uncounted(s: State, j: nat) { j < |s.nodes| && s.nodes[j].nlink < 1 }

  /** The name, other than the dots, leads to an inode whose count is below 1. */
  ghost predicate UnlinkPanics(s: State, d: nat, name: string)
    requires IsDir(s, d)
  {
    && name != "." && name != ".."
    && exists k: nat :: First(s.nodes[d].entries, k, name) && Uncounted(s, s.nodes[d].entries[k].inum)
  }

  /** Making a file or a directory in d keeps the counts balanced. */
  predicate Sustains(s: State, d: nat, dir: bool)
    requires d < |s.nodes|
  {
    s.nodes[d].nlink > 0 && (dir ==> s.nodes[d].nlink < MAXLINK)
  }

  ghost predicate Makes(s: State, t: State, i: nat, d: nat, k: nat, name: string, dir: bool) {
    Offers(s, i, d, k, name) && t == if dir then NewDir(s, i, d, k, name) else NewFile(s, i, d, k, name)
  }

  class Directories {
    var s: State

    /** What mkfs leaves: the root directory alone. */
    constructor (n: nat)
      requires n > ROOT
      ensures Exact(s) && Named(s) && s == RootOnly(n)
    {
      RootInv(n);
      RootNamed(n);
      s := RootOnly(n);
    }

    /** dirlookup: the first slot in use for the name, or -1. */
    method Dirlookup(d: nat, name: string) returns (k: int)
      requires IsDir(s, d)
      ensures k == -1 <==> !Holds(s.nodes[d].entries, name)
      ensures k != -1 ==> 0 <= k && First(s.nodes[d].entries, k, name)
      ensures Found(s, d, name) == if k == -1 then 0 else s.nodes[d].entries[k].inum
    {
      k := 0;
      while k < |s.nodes[d].entries|
        invariant 0 <= k <= |s.nodes[d].entries| && forall j :: 0 <= j < k ==> !Is(s.nodes[d].entries, j, name)
      {
        if Is(s.nodes[d].entries, k, name) {
          LookupFirst(s.nodes[d].entries, k, name);
          return;
        }
        k := k + 1;
      }
      LookupNone(s.nodes[d].entries, name);
      k := -1;
    }

    /** dirlink's choice of slot: the first empty one, or the end; -1 exactly if the name is taken or
        the disk refuses the write. */
    method Slot(d: nat, name: string, full: bool) returns (k: int)
      requires Inv(s) && IsDir(s, d)
      ensures k == -1 <==> full || Holds(s.nodes[d].entries, name)
      ensures k != -1 ==> 0 <= k && Space(s, d, k) && forall j :: 0 <= j < k ==> s.nodes[d].entries[j].inum != 0
    {
      hide Counts;
      k := Dirlookup(d, name);
      if k != -1 {
        return -1;
      }
      DotsInUse(s, d);
      k := 0;
      while k < |s.nodes[d].entries|
        invariant 0 <= k <= |s.nodes[d].entries| && forall j :: 0 <= j < k ==> s.nodes[d].entries[j].inum != 0
      {
        if s.nodes[d].entries[k].inum == 0 {
          break;
        }
        k := k + 1;
      }
      if full {
        k := -1;
      }
    }

    /** ialloc: the first free inode, or -1 if there is none. */
    method Ialloc() returns (i: int)
      ensures i == -1 <==> forall j :: 0 < j < |s.nodes| ==> !s.nodes[j].kind.Unused?
      ensures i != -1 ==>
                0 < i < |s.nodes| && s.nodes[i].kind.Unused? && forall j :: 0 < j < i ==> !s.nodes[j].kind.Unused?
    {
      i := 1;
      while i < |s.nodes|
        invariant 1 <= i && forall j :: 0 < j < i && j < |s.nodes| ==> !s.nodes[j].kind.Unused?
      {
        if s.nodes[i].kind.Unused? {
          return;
        }
        i := i + 1;
      }
      i := -1;
    }

    /** create of a file or a directory. A name already there is returned if both are files, and
        refused otherwise; a new one fails exactly if there is no free inode or the disk refuses a dot
        entry (`broken`) or the name's entry (`full`). No failure, early or late, leaves a trace. The
        counts stay balanced unless something is made in a directory that has no links itself, or a
        directory in one whose count is at its limit. It panics exactly if the name leads to a free
        inode, which only the ".." of a directory without links does. A new name leads to the new inode,
        and every other name of every directory where it led before. */
    method Create(d: nat, name: string, dir: bool, broken: bool, full: bool) returns (i: int, panics: bool)
      requires Inv(s) && IsDir(s, d)
      modifies this
      ensures |s.nodes| == |old(s).nodes|
      ensures Inv(s) <==> s == old(s) || Sustains(old(s), d, dir)
      ensures Exact(old(s)) && Inv(s) ==> Exact(s)
      ensures i == -1 || panics ==> s == old(s)
      ensures panics <==> exists k: nat :: First(old(s).nodes[d].entries, k, name)
                                           && Untyped(old(s), old(s).nodes[d].entries[k].inum)
      ensures panics ==> name == ".." && old(s).nodes[d].nlink == 0
      ensures Holds(old(s).nodes[d].entries, name) && !panics ==>
                s == old(s)
                && exists k: nat :: First(s.nodes[d].entries, k, name) && Opens(s, s.nodes[d].entries[k].inum, dir, i)
      ensures !Holds(old(s).nodes[d].entries, name) ==>
                (i == -1 <==> full || (dir && broken) || forall j :: 0 < j < |s.nodes| ==>
                      !old(s).nodes[j].kind.Unused?)
      ensures !Holds(old(s).nodes[d].entries, name) && i != -1 ==>
                0 <= i && exists k: nat :: Makes(old(s), s, i, d, k, name, dir)
      ensures !Holds(old(s).nodes[d].entries, name) && i != -1 ==>
                if dir then BindsDir(old(s), s, d, name, i) else Binds(old(s), s, d, name, i)
      ensures Named(old(s)) ==> Named(s)
    {
      hide Counts, Tree, NewDir, NewFile, Named, Binds, BindsDir, Found;
      panics := false;
      var k := Dirlookup(d, name);
      if k != -1 {
        EntryInRange(s, d, k);
        i := s.nodes[d].entries[k].inum;
        panics := s.nodes[i].kind.Unused?;
        if panics {
          OnlyDotDot(s, d, k);
        }
        if dir || !s.nodes[i].kind.File? {
          i := -1;
        }
        return;
      }
      i := Ialloc();
      if i == -1 {
        return;
      }
      if dir && broken {
        return -1, false;
      }
      k := Slot(d, name, full);
      if k == -1 {
        return -1, false;
      }
      DotsTaken(s, d, name);
      assert Offers(s, i, d, k, name);
      assert Makes(s, if dir then NewDir(s, i, d, k, name) else NewFile(s, i, d, k, name), i, d, k, name, dir);
      NewKind(s, i, d, k, name);
      if dir {
        NewDirNames(s, i, d, k, name);
        NewDirBalanced(s, i, d, k, name);
        if Sustains(s, d, dir) {
          NewDirOk(s, i, d, k, name);
        }
        s := NewDir(s, i, d, k, name);
      } else {
        NewFileNames(s, i, d, k, name);
        NewFileBalanced(s, i, d, k, name);
        if Sustains(s, d, dir) {
          NewFileOk(s, i, d, k, name);
        }
        s := NewFile(s, i, d, k, name);
      }
    }

    /** sys_link up to the point where the inode is unlocked; directories are refused. An exact count
        stays exact unless it was at its limit. */
    method LinkStart(i: nat) returns (ok: bool)
      requires Inv(s) && 0 < i < |s.nodes| && !s.nodes[i].kind.Unused?
      modifies this
      ensures Inv(s) && (ok <==> old(s).nodes[i].kind.File?)
      ensures s == if ok then LinkBegin(old(s), i) else old(s)
      ensures Exact(old(s)) ==> (Exact(s) <==> !ok || old(s).nodes[i].nlink < MAXLINK)
      ensures SameNames(old(s), s) && (Named(old(s)) ==> Named(s))
    {
      hide Counts, Tree, LinkBegin, Named, Found;
      LinkNames(s, i);
      ok := s.nodes[i].kind.File?;
      if ok {
        LinkBeginOk(s, i);
        if Exact(s) {
          LinkBeginExact(s, i);
        }
        s := LinkBegin(s, i);
      }
    }

    /** The rest of sys_link, for a link started before: an entry, or the undo. The counts stay balanced
        unless the entry goes into a directory that has no links itself. The name leads to i then, and
        every other name where it led before. */
    method LinkFinish(i: nat, d: nat, name: string, full: bool) returns (ok: bool)
      requires Inv(s) && 0 < i < |s.nodes| && i in s.pend && IsDir(s, d)
      modifies this
      ensures s.pend == old(s).pend - multiset{i}
      ensures Inv(s) <==> !ok || old(s).nodes[d].nlink > 0
      ensures Exact(old(s)) && Inv(s) ==> Exact(s)
      ensures ok <==> !full && !Holds(old(s).nodes[d].entries, name)
      ensures !ok ==> s == LinkUndo(old(s), i) && (Exact(old(s)) ==> old(s).nodes[i].nlink > 0)
      ensures ok ==> exists k: nat :: Space(old(s), d, k) && s == LinkDone(old(s), d, k, Entry(i, name))
      ensures if ok then Binds(old(s), s, d, name, i) else SameNames(old(s), s)
      ensures Named(old(s)) ==> Named(s)
    {
      hide Counts, Tree, LinkDone, LinkUndo, Named, Found;
      var k := Slot(d, name, full);
      if k == -1 {
        LinkUndoOk(s, i);
        LinkNames(s, i);
        UndoPend(s, i);
        s := LinkUndo(s, i);
        return false;
      }
      DotsTaken(s, d, name);
      LinkDoneNames(s, d, k, Entry(i, name));
      LinkDoneBalanced(s, d, k, Entry(i, name));
      if s.nodes[d].nlink > 0 {
        LinkDoneOk(s, d, k, Entry(i, name));
      }
      DonePend(s, d, k, Entry(i, name));
      s := LinkDone(s, d, k, Entry(i, name));
      ok := true;
    }

    /** isdirempty */
    method Isdirempty(i: nat) returns (empty: bool)
      requires IsDir(s, i)
      ensures empty <==> Bare(s, i)
    {
      var off := 2;
      while off < |s.nodes[i].entries|
        invariant off >= 2 && forall k :: 2 <= k < off && k < |s.nodes[i].entries| ==> s.nodes[i].entries[k].inum == 0
      {
        if s.nodes[i].entries[off].inum != 0 {
          return false;
        }
        off := off + 1;
      }
      empty := true;
    }

    /** sys_unlink of a name in directory d: refused exactly for ".", "..", a missing name, or a
        directory that is not empty. It panics exactly if the count it finds is below 1, which an exact
        count never is. Afterwards the name leads nowhere, and every other name where it did. */
    method SysUnlink(d: nat, name: string) returns (ok: bool, panics: bool)
      requires Inv(s) && IsDir(s, d)
      modifies this
      ensures Inv(s) && (!ok ==> s == old(s))
      ensures panics <==> UnlinkPanics(old(s), d, name)
      ensures ok <==> Removable(old(s), d, name) && !panics
      ensures Exact(old(s)) ==> !panics && Exact(s)
      ensures ok ==> exists k: nat, i: nat :: Unlinks(old(s), d, k, i) && old(s).nodes[d].entries[k].name == name
                                              && old(s).nodes[i].nlink >= 1 && old(s).nodes[d].nlink >= 1
                                              && s == Unlink(old(s), d, k, i)
      ensures Named(old(s)) ==> Named(s) && (ok ==> Binds(old(s), s, d, name, 0))
    {
      hide Counts, Tree, Unlink, Named, Found;
      ok, panics := false, false;
      if name == "." || name == ".." {
        return;
      }
      var k := Dirlookup(d, name);
      if k == -1 {
        return;
      }
      BelowDots(s, d, k);
      var i := s.nodes[d].entries[k].inum;
      EntryLeads(s, d, k);
      if s.nodes[i].nlink < 1 {
        UncountedWrapped(s, d, k, i);
        return false, true;
      }
      if s.nodes[i].kind.Dir? {
        var empty := Isdirempty(i);
        if !empty {
          return;
        }
      }
      assert Unlinks(s, d, k, i);
      UnlinkFacts(s, d, k, i);
      UnlinkOk(s, d, k, i);
      if Named(s) {
        UnlinkNames(s, d, k, i);
      }
      s := Unlink(s, d, k, i);
      ok := true;
    }

    /** The last iput of an inode: it is freed if its count is 0. Nothing names it then, and all stays
        well, if and only if the count has not wrapped around to 0. */
    method LastIput(i: nat)
      requires Inv(s) && 0 < i < |s.nodes|
      modifies this
      ensures s == if old(s).nodes[i].nlink == 0 then Freed(old(s), i) else old(s)
      ensures Inv(s) <==> old(s).nodes[i].nlink != 0 || Refs(old(s), i) < 0x1_0000
      ensures Exact(old(s)) ==> Exact(s)
      ensures Inv(s) && old(s).nodes[i].nlink == 0 ==>
                Count(old(s).nodes, i, |old(s).nodes|) == 0 && i !in old(s).pend
      ensures forall x: nat, m: string :: x != i ==> Found(s, x, m) == Found(old(s), x, m)
      ensures Named(old(s)) ==> Named(s)
    {
      hide Counts, Tree, Named, Found;
      if s.nodes[i].nlink == 0 {
        FreedNames(s, i);
        FreedOk(s, i);
        s := Freed(s, i);
      }
    }
  }

  /** "." and ".." are never empty slots. */
  lemma DotsInUse(s: State, d: nat)
    requires Inv(s) && IsDir(s, d)
    ensures |s.nodes[d].entries| >= 2 && s.nodes[d].entries[0].inum != 0 && s.nodes[d].entries[1].inum != 0
    ensures Is(s.nodes[d].entries, 0, ".") && Is(s.nodes[d].entries, 1, "..")
  {
    assert DirAt(s, d);
  }

  /** So no new entry is called "." or "..". */
  lemma DotsTaken(s: State, d: nat, name: string)
    requires Inv(s) && IsDir(s, d) && !Holds(s.nodes[d].entries, name)
    ensures name != "." && name != ".."
  {
    DotsInUse(s, d);
  }

  /** An entry in use names an inode of the disk. */
  lemma EntryInRange(s: State, d: nat, k: nat)
    requires Inv(s) && IsDir(s, d) && k < |s.nodes[d].entries| && s.nodes[d].entries[k].inum != 0
    ensures s.nodes[d].entries[k].inum < |s.nodes|
  {
    assert DirAt(s, d) && SlotAt(s, d, k);
  }

  /** An entry in use leads to an inode in use. */
  lemma EntryLeads(s: State, d: nat, k: nat)
    requires Inv(s) && IsDir(s, d) && k < |s.nodes[d].entries| && s.nodes[d].entries[k].inum != 0
    requires (s.nodes[d].nlink > 0 || k >= 2)
    ensures s.nodes[d].entries[k].inum < |s.nodes| && !s.nodes[s.nodes[d].entries[k].inum].kind.Unused?
  {
    assert DirAt(s, d) && SlotAt(s, d, k);
    if d in s.place {
      assert PlaceAt(s, d);
    }
  }

  /** Only the ".." of a directory without links can lead to a free inode. */
  lemma OnlyDotDot(s: State, d: nat, k: nat)
    requires Inv(s) && IsDir(s, d) && k < |s.nodes[d].entries| && s.nodes[d].entries[k].inum != 0
    requires Untyped(s, s.nodes[d].entries[k].inum)
    ensures s.nodes[d].entries[k].name == ".." && s.nodes[d].nlink == 0
  {
    hide Counts;
    DirExact(s, d);
    assert DirAt(s, d) && SlotAt(s, d, k);
    if s.nodes[d].nlink > 0 {
      EntryLeads(s, d, k);
    }
  }

  /** A count below 1 in an entry's inode has wrapped; a directory's has not. */
  lemma UncountedWrapped(s: State, d: nat, k: nat, i: nat)
    requires Inv(s) && IsDir(s, d) && 2 <= k < |s.nodes[d].entries| && s.nodes[d].entries[k].inum == i
    requires 0 < i < |s.nodes| && s.nodes[i].nlink < 1
    ensures !Exact(s) && s.nodes[i].kind.File?
  {
    hide Tree, Short;
    assert SlotAt(s, d, k) by { SlotsOk(s, d, k); }
    EntryCounts(s.nodes[d].entries, k, i, |s.nodes[d].entries|);
    WeightCounts(s.nodes, d, i, |s.nodes|);
    if Exact(s) {
      ExactAt(s, i);
    }
    if IsDir(s, i) {
      DirExact(s, i);
    }
  }

  lemma SlotsOk(s: State, d: nat, k: nat)
    requires Tree(s) && IsDir(s, d) && k < |s.nodes[d].entries|
    ensures SlotAt(s, d, k)
  {
  }

  lemma BelowDots(s: State, d: nat, k: nat)
    requires Inv(s) && IsDir(s, d) && k < |s.nodes[d].entries| && s.nodes[d].entries[k].name != "."
    requires s.nodes[d].entries[k].name != ".."
    ensures k >= 2
  {
    assert DirAt(s, d);
  }

  lemma NewKind(s: State, i: nat, d: nat, k: nat, name: string)
    requires Offers(s, i, d, k, name)
    ensures NewDir(s, i, d, k, name) != s && NewFile(s, i, d, k, name) != s
    ensures NewDir(s, i, d, k, name).nodes[i].kind.Dir? && NewFile(s, i, d, k, name).nodes[i].kind.File?
    ensures |NewDir(s, i, d, k, name).nodes| == |NewFile(s, i, d, k, name).nodes| == |s.nodes|
  {
  }

  lemma UndoPend(s: State, i: nat)
    requires i < |s.nodes|
    ensures LinkUndo(s, i).pend == s.pend - multiset{i}
  {
  }

  lemma DonePend(s: State, d: nat, k: nat, e: Entry)
    requires d < |s.nodes| && k <= |s.nodes[d].entries|
    ensures LinkDone(s, d, k, e).pend == s.pend - multiset{e.inum}
  {
  }

  /** With no link in progress, an exact count is the number of entries that name the inode. */
  lemma Balanced(s: State, i: nat)
    requires Exact(s) && s.pend == multiset{} && 0 < i < |s.nodes|
    ensures s.nodes[i].nlink == Count(s.nodes, i, |s.nodes|)
  {
    ExactAt(s, i);
  }
}

/** Directories as maps: where each name leads, and what the directory operations do to that. */
module DirNames {
  import opened LinkCount
  import opened Links

  /** Slot k of these entries is in use for `name`. */
  predicate Is(es: seq<Entry>, k: nat, name: string)
    requires k < |es|
  {
    es[k].inum != 0 && es[k].name == name
  }

  ghost predicate Holds(es: seq<Entry>, name: string) { exists k :: 0 <= k < |es| && Is(es, k, name) }

  /** Slot k is the first in use for `name`. */
  predicate First(es: seq<Entry>, k: nat, name: string) {
    k < |es| && Is(es, k, name) && forall j :: 0 <= j < k ==> !Is(es, j, name)
  }

  /** The inode that the first slot in use for `name` names, or 0. */
  function Lookup(es: seq<Entry>, name: string): nat {
    if es == [] then 0 else if Is(es, 0, name) then es[0].inum else Lookup(es[1..], name)
  }

  lemma {:induction false} LookupFirst(es: seq<Entry>, k: nat, name: string)
    requires First(es, k, name)
    ensures Lookup(es, name) == es[k].inum
  {
    if k > 0 {
      assert !Is(es, 0, name);
      forall j: nat | j < |es| - 1 ensures Is(es[1..], j, name) == Is(es, j + 1, name) {
      }
      LookupFirst(es[1..], k - 1, name);
    }
  }

  lemma {:induction false} LookupNone(es: seq<Entry>, name: string)
    requires !Holds(es, name)
    ensures Lookup(es, name) == 0
  {
    if es != [] {
      assert !Is(es, 0, name);
      forall j: nat | j < |es| - 1 ensures !Is(es[1..], j, name) {
        assert !Is(es, j + 1, name);
      }
      LookupNone(es[1..], name);
    }
  }

  lemma {:induction false} FirstOf(es: seq<Entry>, k: nat, name: string) returns (f: nat)
    requires k < |es| && Is(es, k, name)
    ensures f <= k && First(es, f, name)
  {
    if j: nat :| j < k && Is(es, j, name) {
      f := FirstOf(es, j, name);
    } else {
      f := k;
    }
  }

  /** Two lists lead to the same inode if their slots in use for the name are the same. */
  lemma LookupSame(es: seq<Entry>, fs: seq<Entry>, name: string)
    requires forall k: nat :: k < |es| && Is(es, k, name) ==> k < |fs| && fs[k] == es[k]
    requires forall k: nat :: k < |fs| && Is(fs, k, name) ==> k < |es| && fs[k] == es[k]
    ensures Lookup(es, name) == Lookup(fs, name)
  {
    hide Lookup;
    if k: nat :| k < |es| && Is(es, k, name) {
      var f := FirstOf(es, k, name);
      LookupFirst(es, f, name);
      assert forall j: nat :: j < f ==> j < |fs| && !Is(fs, j, name);
      LookupFirst(fs, f, name);
    } else {
      LookupNone(es, name);
      LookupNone(fs, name);
    }
  }

  /** No two slots in use have one name. */
  ghost predicate Unique(es: seq<Entry>) {
    forall j, k :: 0 <= j < k < |es| && es[j].inum != 0 && es[k].inum != 0 ==> es[j].name != es[k].name
  }

  /** An entry under a new name, in an empty slot or at the end: the name leads to its inode, and every
      other name leads where it did. */
  lemma EnteredLookup(es: seq<Entry>, k: nat, e: Entry, name: string)
    requires k <= |es| && (k < |es| ==> es[k].inum == 0) && e.inum != 0 && !Holds(es, e.name)
    ensures Lookup(Entered(es, k, e), name) == if name == e.name then e.inum else Lookup(es, name)
  {
    var fs := Entered(es, k, e);
    if name == e.name {
      forall j: nat | j < k ensures !Is(fs, j, name) {
        assert !Is(es, j, name);
      }
      LookupFirst(fs, k, name);
    } else {
      LookupSame(es, fs, name);
    }
  }

  lemma EnteredUnique(es: seq<Entry>, k: nat, e: Entry)
    requires Unique(es) && k <= |es| && (k < |es| ==> es[k].inum == 0) && e.inum != 0 && !Holds(es, e.name)
    ensures Unique(Entered(es, k, e))
  {
    forall j: nat | j < |es| && es[j].inum != 0 ensures es[j].name != e.name {
      assert !Is(es, j, e.name);
    }
  }

  /** Emptying a slot takes its name away, if it stands there only, and no other. */
  lemma ErasedLookup(es: seq<Entry>, k: nat, name: string)
    requires Unique(es) && k < |es| && es[k].inum != 0
    ensures Lookup(es[k := EMPTY], name) == if name == es[k].name then 0 else Lookup(es, name)
    ensures Unique(es[k := EMPTY])
  {
    var fs := es[k := EMPTY];
    if name == es[k].name {
      assert !Holds(fs, name);
      LookupNone(fs, name);
    } else {
      LookupSame(es, fs, name);
    }
  }

  // ---- the whole tree ----

  /** Where `name` leads in directory d; 0 is nowhere. */
  function Found(s: State, d: nat, name: string): nat {
    if IsDir(s, d) then Lookup(s.nodes[d].entries, name) else 0
  }

  /** In no directory do two slots in use have one name. */
  ghost predicate Named(s: State) {
    forall d: nat {:trigger IsDir(s, d)} :: IsDir(s, d) ==> Unique(s.nodes[d].entries)
  }

  /** Of all names only `name` in d leads elsewhere now: to i. */
  ghost predicate Binds(s: State, t: State, d: nat, name: string, i: nat) {
    && Found(t, d, name) == i
    && forall x: nat, m: string :: x != d || m != name ==> Found(t, x, m) == Found(s, x, m)
  }

  /** Of all names only `name` in d leads elsewhere now, to i; and i is a new directory, in which "." and
      ".." lead to itself and to d. */
  ghost predicate BindsDir(s: State, t: State, d: nat, name: string, i: nat) {
    && Found(t, d, name) == i && Found(t, i, ".") == i && Found(t, i, "..") == d
    && (forall m: string :: m != "." && m != ".." ==> Found(t, i, m) == 0)
    && (forall x: nat, m: string :: x != i && (x != d || m != name) ==> Found(t, x, m) == Found(s, x, m))
  }

  ghost predicate SameNames(s: State, t: State) {
    forall x: nat, m: string :: Found(t, x, m) == Found(s, x, m)
  }

  /** Directories keep their entries. */
  lemma SameEntries(s: State, t: State)
    requires |t.nodes| == |s.nodes|
    requires forall x: nat :: x < |s.nodes| ==>
               t.nodes[x].kind == s.nodes[x].kind && t.nodes[x].entries == s.nodes[x].entries
    ensures SameNames(s, t) && (Named(s) ==> Named(t))
  {
    if Named(s) {
      forall d: nat | IsDir(t, d) ensures Unique(t.nodes[d].entries) {
        assert IsDir(s, d);
      }
    }
  }

  /** dirlink of a name that is not there. */
  lemma EnterNames(s: State, d: nat, k: nat, e: Entry)
    requires Space(s, d, k) && e.inum != 0 && !Holds(s.nodes[d].entries, e.name)
    ensures Binds(s, Enter(s, d, k, e), d, e.name, e.inum) && (Named(s) ==> Named(Enter(s, d, k, e)))
  {
    hide Entered, Lookup, Holds;
    var t := Enter(s, d, k, e);
    forall x: nat, m: string ensures Found(t, x, m) == if x == d && m == e.name then e.inum else Found(s, x, m) {
      if x == d {
        EnteredLookup(s.nodes[d].entries, k, e, m);
      }
    }
    if Named(s) {
      forall x: nat | IsDir(t, x) ensures Unique(t.nodes[x].entries) {
        assert IsDir(s, x);
        if x == d {
          EnteredUnique(s.nodes[d].entries, k, e);
        }
      }
    }
  }

  lemma LinkDoneNames(s: State, d: nat, k: nat, e: Entry)
    requires Space(s, d, k) && e.inum != 0 && !Holds(s.nodes[d].entries, e.name)
    ensures Binds(s, LinkDone(s, d, k, e), d, e.name, e.inum) && (Named(s) ==> Named(LinkDone(s, d, k, e)))
  {
    hide Enter, Lookup;
    EnterNames(s, d, k, e);
    SameEntries(Enter(s, d, k, e), LinkDone(s, d, k, e));
  }

  /** The first and the last half of link that fails lead no name elsewhere. */
  lemma LinkNames(s: State, i: nat)
    requires i < |s.nodes|
    ensures SameNames(s, LinkBegin(s, i)) && (Named(s) ==> Named(LinkBegin(s, i)))
    ensures SameNames(s, LinkUndo(s, i)) && (Named(s) ==> Named(LinkUndo(s, i)))
  {
    SameEntries(s, LinkBegin(s, i));
    SameEntries(s, LinkUndo(s, i));
  }

  lemma NewFileNames(s: State, i: nat, d: nat, k: nat, name: string)
    requires Offers(s, i, d, k, name) && !Holds(s.nodes[d].entries, name)
    ensures Binds(s, NewFile(s, i, d, k, name), d, name, i) && (Named(s) ==> Named(NewFile(s, i, d, k, name)))
  {
    hide Lookup, Entered, Holds;
    var e := Entry(i, name);
    var m, t := Enter(s, d, k, e), NewFile(s, i, d, k, name);
    EnterNames(s, d, k, e);
    forall x: nat ensures IsDir(t, x) <==> IsDir(m, x) {
    }
    forall x: nat, n: string ensures Found(t, x, n) == Found(m, x, n) {
    }
    if Named(s) {
      forall x: nat | IsDir(t, x) ensures Unique(t.nodes[x].entries) {
        assert IsDir(m, x);
      }
    }
  }

  lemma NewDirNames(s: State, i: nat, d: nat, k: nat, name: string)
    requires Offers(s, i, d, k, name) && !Holds(s.nodes[d].entries, name)
    ensures BindsDir(s, NewDir(s, i, d, k, name), d, name, i) && (Named(s) ==> Named(NewDir(s, i, d, k, name)))
  {
    hide Lookup, Entered, Holds, Short;
    var e := Entry(i, name);
    var m, t := Enter(s, d, k, e), NewDir(s, i, d, k, name);
    EnterNames(s, d, k, e);
    forall n: string
      ensures Lookup(t.nodes[i].entries, n) == if n == "." then i else if n == ".." then d else 0
    {
      DotsLookup(i, d, n);
    }
    forall x: nat | x != i ensures IsDir(t, x) <==> IsDir(m, x) {
    }
    forall x: nat, n: string | x != i ensures Found(t, x, n) == Found(m, x, n) {
    }
    if Named(s) {
      forall x: nat | IsDir(t, x) ensures Unique(t.nodes[x].entries) {
        assert x != i ==> IsDir(m, x);
      }
    }
  }

  lemma DotsLookup(i: nat, d: nat, n: string)
    requires i != 0
    ensures Lookup([Entry(i, "."), Entry(d, "..")], n) == if n == "." then i else if n == ".." then d else 0
  {
    var es := [Entry(i, "."), Entry(d, "..")];
    assert es[1..] == [Entry(d, "..")];
    assert Lookup(es[1..], n) == if n == ".." then d else 0;
  }

  /** sys_unlink: the name leads nowhere, and every other name where it did. */
  lemma UnlinkNames(s: State, d: nat, k: nat, i: nat)
    requires Named(s) && Unlinks(s, d, k, i) && i != d
    ensures Binds(s, Unlink(s, d, k, i), d, s.nodes[d].entries[k].name, 0) && Named(Unlink(s, d, k, i))
  {
    hide Lookup, Short;
    var t, name := Unlink(s, d, k, i), s.nodes[d].entries[k].name;
    assert IsDir(s, d);
    forall x: nat, m: string ensures Found(t, x, m) == if x == d && m == name then 0 else Found(s, x, m) {
      if x == d {
        ErasedLookup(s.nodes[d].entries, k, m);
      }
    }
    forall x: nat | IsDir(t, x) ensures Unique(t.nodes[x].entries) {
      assert IsDir(s, x);
      if x == d {
        ErasedLookup(s.nodes[d].entries, k, name);
      }
    }
  }

  /** The last iput of an inode: its own names are gone, if it was a directory, and no others. */
  lemma FreedNames(s: State, i: nat)
    requires i < |s.nodes|
    ensures forall x: nat, m: string :: Found(Freed(s, i), x, m) == if x == i then 0 else Found(s, x, m)
    ensures Named(s) ==> Named(Freed(s, i))
  {
    var t := Freed(s, i);
    if Named(s) {
      forall x: nat | IsDir(t, x) ensures Unique(t.nodes[x].entries) {
        assert IsDir(s, x);
      }
    }
  }

  lemma RootNamed(n: nat)
    requires n > ROOT
    ensures Named(RootOnly(n))
  {
  }
}

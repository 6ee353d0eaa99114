/** file.c: reads and writes through an open inode file. */
module FileCode {
  import opened Params
  import opened Blocks
  import opened FsOwner
  import opened FsBytes
  import opened FsInode
  import opened FsCode

  /** ((MAXOPBLOCKS-1-1-2) / 2) * BSIZE */
  const MAX_WRITE: nat := 3072

  /** The file system is sound and every file readable. */
  ghost predicate Sound(fs: Fs)
    reads fs
  {
    Good(fs.sb, fs.s) && Sized(fs.s) && NoHoles(fs.s)
  }

  /** Files other than i read as before. */
  ghost predicate OthersSame(s: State, t: State, i: nat)
    requires Sized(s) && NoHoles(s) && Sized(t) && NoHoles(t)
  {
    |t.nodes| == |s.nodes| && forall j :: 0 <= j < |s.nodes| && j != i ==> Content(t, j) == Content(s, j)
  }

  /** c after `a` was copied over it at off, of which n bytes count; a write past the end never
      happens. */
  function Patched(c: seq<Byte>, off: nat, a: seq<Byte>, n: nat): seq<Byte>
    requires n <= |a|
  {
    if off <= |c| then Partly(c, off, a, n) else c
  }

  lemma PatchedNothing(c: seq<Byte>, off: nat)
    ensures Patched(c, off, [], 0) == c
  {
  }

  lemma PatchedTwice(c: seq<Byte>, off: nat, a: seq<Byte>, b: seq<Byte>, n: nat)
    requires off <= |c| && n <= |b|
    ensures off + |a| <= |Patched(c, off, a, |a|)|
    ensures Patched(Patched(c, off, a, |a|), off + |a|, b, n) == Patched(c, off, a + b, |a| + n)
  {
    PartlyAll(c, off, a);
    var l, r := Splice(Splice(c, off, a), off + |a|, b), Splice(c, off, a + b);
    assert |l| == |r|;
    forall p | 0 <= p < |r| ensures l[p] == r[p] {
    }
    assert l == r;
  }

  /** begin_op and end_op around one chunk: the log's budget starts afresh, and the operation has
      logged no more than it was admitted for. */
  method BeginOp(fs: Fs)
    requires Sound(fs)
    modifies fs
    ensures Sound(fs) && fs.s == old(fs.s).(logged := {}) && OthersSame(old(fs.s), fs.s, |fs.s.nodes|)
  {
    hide Good;
    RelogKeeps(fs.sb, fs.s);
    fs.s := fs.s.(logged := {});
  }

  lemma RelogKeeps(sb: Super, s: State)
    requires Good(sb, s) && Sized(s) && NoHoles(s)
    ensures var t := s.(logged := {}); Good(sb, t) && Sized(t) && NoHoles(t) && OthersSame(s, t, |s.nodes|)
  {
    hide Good;
    RelogGood(sb, s, {});
    var t := s.(logged := {});
    forall j, p | 0 <= j < |s.nodes| && 0 <= p < MAXBYTES ensures Mapped(t, j, p) == Mapped(s, j, p) {
    }
    forall j | 0 <= j < |s.nodes| ensures Content(t, j) == Content(s, j) {
    }
  }

  /** From s to t in one transaction: the blocks in which they differ were logged, but for those in
      `loose`, and no more blocks than begin_op reserves. */
  ghost predicate Transacted(sb: Super, s: State, t: State, loose: set<nat>) {
    AllLogged(sb, s.(logged := {}), t, loose) && |t.logged| <= MAXOPBLOCKS
  }

  lemma RelogSaved(sb: Super, s: State)
    requires Saved(sb, s)
    ensures Saved(sb, s.(logged := {}))
  {
  }

  method EndOp(fs: Fs)
    requires |fs.s.logged| <= MAXOPBLOCKS
  {
  }

  class File {
    const readable: bool
    const writable: bool
    const ip: nat
    var off: nat

    /** One transaction of filewrite: all that it changes is in the transaction, but for the block of a
        chunk whose copy failed. */
    method WriteChunkOp(fs: Fs, src: seq<Byte>, fault: nat) returns (r: int, ghost k: nat, ghost loose: set<nat>)
      requires Sound(fs) && ip < |fs.s.nodes| && off < UINT_LIMIT && |src| <= MAX_WRITE
      modifies this`off, fs
      ensures Sound(fs) && OthersSame(old(fs.s), fs.s, ip) && off <= Max(old(off), MAXBYTES)
      ensures r == -1 || 0 <= r <= |src|
      ensures r == -1 <==> Refused(|Content(old(fs.s), ip)|, old(off), |src|)
      ensures r != -1 ==> old(off) <= |Content(old(fs.s), ip)|
      ensures off == old(off) + Arrived(r)
      ensures Arrived(r) <= k <= |src| && k <= fault && (Arrived(r) < k ==> k == fault < |src| && r != -1)
      ensures Content(fs.s, ip) == Patched(Content(old(fs.s), ip), old(off), src[..k], Arrived(r))
      ensures 0 <= r < |src| ==> Full(fs.sb, fs.s) || k == fault
      ensures Transacted(fs.sb, old(fs.s), fs.s, loose) && (Arrived(r) == k ==> loose == {})
      ensures Saved(fs.sb, old(fs.s)) ==> Saved(fs.sb, fs.s)
    {
      hide Good, NoHoles, Full, Content, Partly, Saved, AllLogged, DataBlock;
      BeginOp(fs);
      ghost var c := Content(fs.s, ip);
      if Saved(fs.sb, old(fs.s)) {
        RelogSaved(fs.sb, old(fs.s));
      }
      r, k, loose := fs.Writei(ip, src, off, fault);
      if r > 0 {
        off := off + r;
      }
      if r == -1 {
        k := 0;
      }
      LoggedSize(fs.s.logged);
      SizeLimit(fs.s, ip);
      PatchedNothing(c, old(off));
      EndOp(fs);
    }

    /** filewrite on an inode file: chunks of at most MAX_WRITE bytes, each its own transaction.
        The first k bytes arrive; the call reports n only if all did, and stops early only when
        the disk is full, writei refuses the next chunk, or byte `fault` of src cannot be copied, in
        which case up to q bytes of the file are overwritten. `moments` are the states between the
        transactions. */
    method FileWrite(fs: Fs, src: seq<Byte>, n: int, fault: nat)
      returns (ret: int, ghost k: nat, ghost q: nat, ghost moments: seq<State>, ghost loose: set<nat>)
      requires Sound(fs) && ip < |fs.s.nodes| && off < UINT_LIMIT
      requires n < INT_LIMIT && |src| == if n < 0 then 0 else n
      modifies this`off, fs
      ensures Sound(fs) && OthersSame(old(fs.s), fs.s, ip) && ip < |fs.s.nodes|
      ensures ret == if writable && k == n then n else -1
      ensures k <= q <= |src| && q <= Max(k, fault) && off == old(off) + k && (k < q ==> q == fault)
      ensures Content(fs.s, ip) == Patched(Content(old(fs.s), ip), old(off), src[..q], k)
      ensures writable && k < |src| ==>
                || Full(fs.sb, fs.s) || q == fault
                || Refused(|Content(fs.s, ip)|, off, Least(|src| - k, MAX_WRITE))
      ensures !writable ==> fs.s == old(fs.s)
      ensures moments != [] && moments[0] == old(fs.s) && moments[|moments| - 1] == fs.s
      ensures Chunked(fs.sb, moments, ip, Content(old(fs.s), ip), old(off), src, loose)
      ensures k == q ==> loose == {}
      ensures Saved(fs.sb, old(fs.s)) ==> forall j :: 0 <= j < |moments| ==> Saved(fs.sb, moments[j])
    {
      hide Good, NoHoles, Full, Content, Patched, OthersSame, Refused, Saved, Chunked, Transacted;
      SameSelf(fs.s, ip);
      PatchedNothing(Content(fs.s, ip), off);
      k, q, moments, loose := 0, 0, [fs.s], {};
      NoChunks(fs.sb, fs.s, ip, off, src);
      if !writable {
        return -1, 0, 0, moments, {};
      }
      var i := 0;
      while i < n
        invariant Sound(fs) && OthersSame(old(fs.s), fs.s, ip) && ip < |fs.s.nodes| && off < UINT_LIMIT
        invariant 0 <= i <= |src| && k == q == i <= fault && off == old(off) + i
        invariant Content(fs.s, ip) == Patched(Content(old(fs.s), ip), old(off), src[..i], i)
        invariant i != 0 ==> old(off) <= |Content(old(fs.s), ip)|
        invariant moments != [] && moments[0] == old(fs.s) && moments[|moments| - 1] == fs.s && loose == {}
        invariant i < n ==> i == (|moments| - 1) * MAX_WRITE
        invariant Chunked(fs.sb, moments, ip, Content(old(fs.s), ip), old(off), src, {})
        invariant Saved(fs.sb, old(fs.s)) ==> forall j :: 0 <= j < |moments| ==> Saved(fs.sb, moments[j])
      {
        var n1 := Least(n - i, MAX_WRITE);
        ghost var mid := fs.s;
        ghost var got;
        var r;
        ghost var lost;
        r, got, lost := WriteChunkOp(fs, src[i..i + n1], fault - i);
        OneMore(fs.sb, moments, fs.s, ip, Content(old(fs.s), ip), old(off), src, lost);
        moments, loose := moments + [fs.s], lost;
        SameTrans(old(fs.s), mid, fs.s, ip);
        NextPatch(Content(old(fs.s), ip), old(off), src, i, n1, got, r);
        k, q := i + Arrived(r), i + got;
        if r != n1 {
          break;
        }
        i := i + r;
      }
      ret := if i == n then n else -1;
    }

    /** fileread on an inode file: no transaction, no change to the file system; the offset moves
        past what was read. A negative count becomes a large unsigned one. */
    method FileRead(fs: Fs, n: int, copies: nat) returns (r: int, dst: seq<Byte>)
      requires Sound(fs) && ip < |fs.s.nodes| && off < UINT_LIMIT && 0 - INT_LIMIT <= n < INT_LIMIT
      modifies this`off, fs
      ensures fs.s == old(fs.s)
      ensures r == -1 ==> off == old(off)
      ensures r != -1 ==> readable && r == |dst| && off == old(off) + r
                          && dst == ReadSlice(Content(fs.s, ip), old(off), n % UINT_LIMIT)
      ensures readable && copies >= n % UINT_LIMIT ==> r != -1
    {
      hide Good, NoHoles, Content, ReadSlice;
      if !readable {
        return -1, [];
      }
      r, dst := fs.Readi(ip, off, n % UINT_LIMIT, copies);
      if r > 0 {
        off := off + r;
      }
    }
  }

  /** State s is sound, and inode i reads there as c with the first m bytes of src in place from off on. */
  ghost predicate Written(sb: Super, s: State, i: nat, c: seq<Byte>, off: nat, src: seq<Byte>, m: nat) {
    && Good(sb, s) && Sized(s) && NoHoles(s) && i < |s.nodes|
    && m <= |src| && Content(s, i) == Patched(c, off, src[..m], m)
  }

  /** Each moment leads to the next by one transaction, of which only the last may leave changes out;
      before the j-th, j chunks of MAX_WRITE bytes have been written. */
  ghost predicate Chunked(sb: Super, moments: seq<State>, i: nat, c: seq<Byte>, off: nat, src: seq<Byte>,
                          loose: set<nat>) {
    && (forall j :: 0 <= j < |moments| - 1 ==>
          Transacted(sb, moments[j], moments[j + 1], if j == |moments| - 2 then loose else {}))
    && (forall j :: 0 <= j < |moments| - 1 ==> Written(sb, moments[j], i, c, off, src, j * MAX_WRITE))
  }

  lemma NoChunks(sb: Super, s: State, i: nat, off: nat, src: seq<Byte>)
    requires Sized(s) && NoHoles(s) && i < |s.nodes|
    ensures Chunked(sb, [s], i, Content(s, i), off, src, {})
  {
  }

  lemma OneMore(sb: Super, moments: seq<State>, t: State, i: nat, c: seq<Byte>, off: nat, src: seq<Byte>,
                loose: set<nat>)
    requires moments != [] && Chunked(sb, moments, i, c, off, src, {})
    requires Written(sb, moments[|moments| - 1], i, c, off, src, (|moments| - 1) * MAX_WRITE)
    requires Transacted(sb, moments[|moments| - 1], t, loose)
    ensures Chunked(sb, moments + [t], i, c, off, src, loose)
  {
    hide Written, Transacted;
    var ms := moments + [t];
    forall j | 0 <= j < |ms| - 1
      ensures Transacted(sb, ms[j], ms[j + 1], if j == |ms| - 2 then loose else {})
      ensures Written(sb, ms[j], i, c, off, src, j * MAX_WRITE)
    {
      if j < |moments| - 1 {
        assert Transacted(sb, moments[j], moments[j + 1], if j == |moments| - 2 then {} else {});
        assert Written(sb, moments[j], i, c, off, src, j * MAX_WRITE);
      }
    }
  }

  function Least(a: nat, b: nat): nat { if a > b then b else a }

  /** How many bytes a writei that returned r stored. */
  function Arrived(r: int): nat { if r > 0 then r else 0 }

  lemma LoggedSize(l: set<nat>)
    ensures l - {} == l
  {
  }

  lemma SizeLimit(s: State, i: nat)
    requires Sized(s) && NoHoles(s) && i < |s.nodes|
    ensures |Content(s, i)| == s.nodes[i].size <= MAXBYTES
  {
  }

  lemma SameSelf(s: State, i: nat)
    requires Sized(s) && NoHoles(s)
    ensures OthersSame(s, s, i)
  {
  }

  lemma SameTrans(s: State, t: State, u: State, i: nat)
    requires Sized(s) && NoHoles(s) && Sized(t) && NoHoles(t) && Sized(u) && NoHoles(u)
    requires OthersSame(s, t, i) && OthersSame(t, u, i)
    ensures OthersSame(s, u, i) && |u.nodes| == |s.nodes|
  {
    hide NoHoles, Content;
  }

  /** The next chunk continues the patch. */
  lemma NextPatch(c: seq<Byte>, off: nat, src: seq<Byte>, i: nat, n1: nat, got: nat, r: int)
    requires i + n1 <= |src| && Arrived(r) <= got <= n1
    requires (i != 0 ==> off <= |c|) && (i == 0 && got > 0 ==> off <= |c|)
    ensures Patched(Patched(c, off, src[..i], i), off + i, src[i..i + n1][..got], Arrived(r))
            == Patched(c, off, src[..i + got], i + Arrived(r))
  {
    var x := src[i..i + n1][..got];
    assert src[..i + got] == src[..i] + x;
    if off <= |c| {
      PatchedTwice(c, off, src[..i], x, Arrived(r));
    }
  }
}

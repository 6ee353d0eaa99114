/** Runs of the file layer: any sequence of calls, on an image that mkfs made, acts on files as byte
    sequences. */
module FsRuns {
  import opened Params
  import opened Blocks
  import opened FsOwner
  import opened FsBytes
  import opened FsInode
  import opened FsTrunc
  import opened FsCode
  import Mkfs

  /** What a caller sees of an inode. */
  datatype File = File(kind: nat, nlink: int, data: seq<Byte>)

  ghost predicate Sound(sb: Super, s: State) {
    Good(sb, s) && Sized(s) && NoHoles(s) && FreeBare(s) && Saved(sb, s)
  }

  ghost function Files(s: State): (f: seq<File>)
    requires Sized(s) && NoHoles(s)
    ensures |f| == |s.nodes|
    ensures forall i :: 0 <= i < |f| ==> f[i] == File(s.nodes[i].kind, s.nodes[i].nlink, Content(s, i))
  {
    seq(|s.nodes|, i requires 0 <= i < |s.nodes| => File(s.nodes[i].kind, s.nodes[i].nlink, Content(s, i)))
  }

  datatype Call =
    | Write(i: nat, src: seq<Byte>, off: nat, fault: nat)
    | Read(i: nat, off: nat, n: nat, copies: nat)
    | Trunc(i: nat)
    | Put(i: nat, ref: nat, valid: bool)
    | Alloc(kind: nat)
    | Links(i: nat, links: int)

  datatype Result = Skipped | None | Num(n: int) | Bytes(b: seq<Byte>)

  /** ilock refuses inodes without a type; the arguments are uints, types and link counts shorts. */
  predicate Allowed(f: seq<File>, c: Call) {
    match c
    case Write(i, src, off, _) => i < |f| && f[i].kind != 0 && |src| < UINT_LIMIT && off < UINT_LIMIT
    case Read(i, off, n, _) => i < |f| && f[i].kind != 0 && off < UINT_LIMIT && n < UINT_LIMIT
    case Trunc(i) => i < |f| && f[i].kind != 0
    case Put(i, ref, _) => i < |f| && f[i].kind != 0 && ref >= 1
    case Alloc(kind) => 0 < kind < 0x8000
    case Links(i, n) => i < |f| && f[i].kind != 0 && -0x8000 <= n < 0x8000
  }

  /** What a call does to the files, and what it returns. */
  ghost predicate Follows(f: seq<File>, c: Call, r: Result, g: seq<File>)
    requires Allowed(f, c)
  {
    match c
    case Write(i, src, off, fault) =>
      if Refused(|f[i].data|, off, |src|) then r == Num(-1) && g == f
      else r.Num? && 0 <= r.n && exists k: nat :: Wrote(f, i, src, off, fault, r.n, k, g)
    case Read(i, off, n, copies) =>
      g == f && (r == Bytes(ReadSlice(f[i].data, off, n)) || (r == Num(-1) && copies < n))
    case Trunc(i) => r == None && g == f[i := f[i].(data := [])]
    case Put(i, ref, valid) =>
      r == None && g == if ref == 1 && valid && f[i].nlink == 0 then f[i := File(0, 0, [])] else f
    case Alloc(kind) =>
      if forall j :: 0 < j < |f| ==> f[j].kind != 0 then r == Num(-1) && g == f
      else r.Num? && 0 < r.n < |f| && f[r.n].kind == 0 && (forall j :: 0 < j < r.n ==> f[j].kind != 0)
           && g == f[r.n := File(kind, 0, [])]
    case Links(i, n) => r == None && g == f[i := f[i].(nlink := n)]
  }

  /** n bytes of src were written, and up to k of them overwrite what was there. */
  ghost predicate Wrote(f: seq<File>, i: nat, src: seq<Byte>, off: nat, fault: nat, n: nat, k: nat, g: seq<File>)
    requires i < |f|
  {
    && off <= |f[i].data| && n <= k <= |src| && k <= fault && (n < k ==> k == fault)
    && g == f[i := f[i].(data := Partly(f[i].data, off, src[..k], n))]
  }

  lemma FilesAt(s: State, t: State, i: nat, x: File)
    requires Sized(s) && NoHoles(s) && Sized(t) && NoHoles(t) && i < |s.nodes| == |t.nodes|
    requires Files(t)[i] == x && forall j :: 0 <= j < |s.nodes| && j != i ==> Files(t)[j] == Files(s)[j]
    ensures Files(t) == Files(s)[i := x]
  {
  }

  /** A change to inode i that leaves it in use keeps free inodes bare. */
  lemma StillBare(s: State, t: State, i: nat)
    requires FreeBare(s) && OnlyNode(s, t, i) && i < |s.nodes|
    requires t.nodes[i].kind == 0 ==> Bare(t, i) && t.nodes[i].size == 0
    ensures FreeBare(t)
  {
    forall j | 0 <= j < |t.nodes| && t.nodes[j].kind == 0 ensures Bare(t, j) && t.nodes[j].size == 0 {
      assert j != i ==> Bare(s, j);
    }
  }

  /** One call. */
  method Perform(fs: Fs, c: Call) returns (r: Result)
    requires Sound(fs.sb, fs.s) && Allowed(Files(fs.s), c)
    modifies fs
    ensures Sound(fs.sb, fs.s) && Follows(Files(old(fs.s)), c, r, Files(fs.s))
    ensures c.Write? && r.Num? && 0 <= r.n < |c.src| ==> Full(fs.sb, fs.s) || c.fault < |c.src|
    ensures (c.Write? && c.fault < |c.src|) || AllLogged(fs.sb, old(fs.s), fs.s, {})
  {
    hide Good, NoHoles, Content, FreeBare, Splice, Partly, Truncated, ReadSlice, Saved, AllLogged, DataBlock;
    ghost var s := fs.s;
    NoneLogged(fs.sb, s);
    match c
    case Write(i, src, off, fault) =>
      ghost var k;
      var n;
      ghost var loose;
      n, k, loose := fs.Writei(i, src, off, fault);
      StillBare(s, fs.s, i);
      if n != -1 {
        FilesAt(s, fs.s, i, Files(s)[i].(data := Partly(Content(s, i), off, src[..k], n)));
        assert Wrote(Files(s), i, src, off, fault, n, k, Files(fs.s));
      }
      r := Num(n);
    case Read(i, off, n, copies) =>
      var m, dst := fs.Readi(i, off, n, copies);
      r := if m == -1 then Num(-1) else Bytes(dst);
    case Trunc(i) =>
      fs.Itrunc(i);
      AfterTruncation(fs.sb, s, fs.s, i, s.nodes[i].kind);
      r := None;
    case Put(i, ref, valid) =>
      var _, _ := fs.Iput(i, ref, valid);
      if ref == 1 && valid && s.nodes[i].nlink == 0 {
        AfterTruncation(fs.sb, s, fs.s, i, 0);
      }
      r := None;
    case Alloc(kind) =>
      var i := fs.Ialloc(kind);
      if i != -1 {
        NoContent(s, i);
        StillBare(s, fs.s, i);
        FilesAt(s, fs.s, i, File(kind, 0, []));
      }
      r := Num(i);
    case Links(i, n) =>
      fs.SetNlink(i, n);
      StillBare(s, fs.s, i);
      FilesAt(s, fs.s, i, Files(s)[i].(nlink := n));
      r := None;
  }

  lemma NoContent(s: State, i: nat)
    requires Sized(s) && NoHoles(s) && FreeBare(s) && i < |s.nodes| && s.nodes[i].kind == 0
    ensures Content(s, i) == []
  {
  }

  lemma AfterTruncation(sb: Super, s: State, t: State, i: nat, kind: nat)
    requires FreeBare(s) && Truncated(sb, s, t, i, kind) && Saved(sb, t)
    ensures Sound(sb, t) && Files(t) == Files(s)[i := File(kind, s.nodes[i].nlink, [])]
  {
    hide Good, NoHoles, FreeBare, Saved;
    StillBare(s, t, i);
    assert Content(t, i) == [];
    FilesAt(s, t, i, File(kind, s.nodes[i].nlink, []));
  }

  /** Each call took one list of files to the next, or was not allowed. */
  ghost predicate Trace(fs: seq<seq<File>>, calls: seq<Call>, rs: seq<Result>) {
    && |fs| == |calls| + 1 && |rs| == |calls|
    && forall k :: 0 <= k < |calls| ==> Goes(fs[k], calls[k], rs[k], fs[k + 1])
  }

  ghost predicate Goes(f: seq<File>, c: Call, r: Result, g: seq<File>) {
    if Allowed(f, c) then Follows(f, c, r, g) else r == Skipped && g == f
  }

  /** Any sequence of calls keeps bitmap and slots in agreement and leaves no holes, and its results
      and effects are those of files as byte sequences. */
  method Run(fs: Fs, calls: seq<Call>) returns (rs: seq<Result>, ghost trace: seq<seq<File>>)
    requires Sound(fs.sb, fs.s)
    modifies fs
    ensures Sound(fs.sb, fs.s) && Trace(trace, calls, rs)
    ensures trace[0] == Files(old(fs.s)) && trace[|calls|] == Files(fs.s)
  {
    hide Good, NoHoles, Content, FreeBare, Follows, Saved;
    rs, trace := [], [Files(fs.s)];
    var k := 0;
    while k < |calls|
      invariant 0 <= k <= |calls| && Sound(fs.sb, fs.s) && Trace(trace, calls[..k], rs)
      invariant trace[0] == Files(old(fs.s)) && trace[k] == Files(fs.s)
    {
      var allowed := Permitted(fs, calls[k]);
      var r := Skipped;
      if allowed {
        r := Perform(fs, calls[k]);
      }
      ghost var g := Files(fs.s);
      assert Goes(trace[k], calls[k], r, g);
      rs, trace, k := rs + [r], trace + [g], k + 1;
    }
    assert calls[..k] == calls;
  }

  /** Allowed, as the code can see it. */
  method Permitted(fs: Fs, c: Call) returns (ok: bool)
    requires Sound(fs.sb, fs.s)
    ensures ok == Allowed(Files(fs.s), c)
  {
    hide Good, NoHoles, Content, FreeBare, Saved;
    var n := |fs.s.nodes|;
    ok := match c
      case Write(i, src, off, _) => i < n && fs.s.nodes[i].kind != 0 && |src| < UINT_LIMIT && off < UINT_LIMIT
      case Read(i, off, m, _) => i < n && fs.s.nodes[i].kind != 0 && off < UINT_LIMIT && m < UINT_LIMIT
      case Trunc(i) => i < n && fs.s.nodes[i].kind != 0
      case Put(i, ref, _) => i < n && fs.s.nodes[i].kind != 0 && ref >= 1
      case Alloc(kind) => 0 < kind < 0x8000
      case Links(i, links) => i < n && fs.s.nodes[i].kind != 0 && -0x8000 <= links < 0x8000;
  }

  /** From mkfs on: an image that comes out whole, with a root directory that does not end on a block
      boundary, is a sound file system holding the given files, and stays sound under any calls. */
  method FromImage(b: Mkfs.Builder, dot: seq<Byte>, dotdot: seq<Byte>, sources: seq<Mkfs.Source>, calls: seq<Call>)
    returns (ok: bool, rs: seq<Result>, ghost trace: seq<seq<File>>)
    requires Mkfs.Fresh(b.sb, b.s) && b.freeblock == b.sb.meta
    requires |Mkfs.Entries(dot + dotdot, sources, |sources|)| % BSIZE != 0
    modifies b
    ensures !ok ==> b.freeblock == b.sb.size || Mkfs.TooLong(dot + dotdot, sources) || |sources| + 2 > b.sb.ninodes
    ensures ok ==> Sound(b.sb, b.s) && Trace(trace, calls, rs) && trace[0] == Files(b.s)
    ensures ok ==> Mkfs.Holds(b.s, dot + dotdot, sources)
  {
    hide Good, NoHoles, FreeBare, Content, Saved, Mkfs.Fresh;
    rs, trace := [], [];
    ok := b.Make(dot, dotdot, sources);
    if ok {
      var fs := new Fs(b.sb, b.s);
      rs, trace := Run(fs, calls);
    }
  }
}

/** sh.c's parser as it runs: recursive descent that moves one position along the line, and
    nulterminate cutting the line into C strings. A panic is reported as !ok. */
module ShellCode {
  import opened ShellSyntax

  class Parser {
    const line: string
    var ps: nat

    /** parsecmd's start: at the head of the line. */
    constructor (line: string)
      ensures this.line == line && ps == 0
    {
      this.line, ps := line, 0;
    }

    method Peek(toks: string) returns (r: bool)
      requires ps <= |line|
      modifies this
      ensures ps == Skip(line, old(ps)) <= |line|
      ensures r <==> Char(line, ps) != '\0' && Char(line, ps) in toks
    {
      var s := ps;
      while s < |line| && White(line[s])
        invariant s <= |line| && Skip(line, s) == Skip(line, ps)
      {
        s := s + 1;
      }
      ps := s;
      r := Char(line, s) != '\0' && Char(line, s) in toks;
    }

    /** White space from s on. */
    method Blanks(s: nat) returns (e: nat)
      requires s <= |line|
      ensures e == Skip(line, s)
    {
      e := s;
      while e < |line| && White(line[e])
        invariant e <= |line| && Skip(line, e) == Skip(line, s)
      {
        e := e + 1;
      }
    }

    method Gettoken() returns (t: Token)
      requires ps <= |line| && Line(line)
      modifies this
      ensures t == GetToken(line, old(ps)) && ps == t.next
    {
      hide Skip, WordEnd, White, Symbol;
      var s := Blanks(ps);
      var q, ret := s, Char(line, s);
      if ret == '\0' {
      } else if ret in "|();&<" {
        s := s + 1;
      } else if ret == '>' {
        s := s + 1;
        if Char(line, s) == '>' {
          ret := '+';
          s := s + 1;
        }
      } else {
        ret := 'a';
        s := Letters(s);
      }
      var eq := s;
      s := Blanks(s);
      EndSkip(line, q);
      ps := s;
      t := Token(ret, q, eq, s);
    }

    /** The letters of a word from s on. */
    method Letters(s: nat) returns (e: nat)
      requires s <= |line| && Line(line)
      ensures e == WordEnd(line, s)
    {
      hide White, Symbol;
      e := s;
      while e < |line| && !White(line[e]) && !Symbol(line[e])
        invariant e <= |line| && WordEnd(line, e) == WordEnd(line, s)
      {
        e := e + 1;
      }
    }

    /** parseredirs: the redirections to wrap around the command, innermost first. */
    method Parseredirs() returns (ok: bool, list: seq<Redirection>)
      requires ps <= |line| && Line(line)
      modifies this
      ensures ps <= |line| && ParseRedirs(line, old(ps)) == if ok then Redirs(list, ps) else NoFile
    {
      hide GetToken, Skip, White, ParseRedirs, Prepend, ModeOf;
      list := [];
      ghost var p0 := ps;
      PrependNone(ParseRedirs(line, ps));
      while true
        invariant ps <= |line|
        invariant ParseRedirs(line, p0) == Prepend(list, ParseRedirs(line, ps))
        decreases |line| - ps
      {
        ghost var at := ps;
        RedirsCases(line, at, list);
        var more := Peek("<>");
        if !more {
          return true, list;
        }
        var tok := Gettoken();
        var f := Gettoken();
        if f.ret != 'a' {
          return false, list;
        }
        list := list + [Redirection(Span(f.q, f.eq), ModeOf(tok.ret))];
      }
    }

    /** parseexec's loop. The source fills argv inside the Exec that the redirections already wrap;
        here the words and the redirections are gathered apart. */
    method Parseargs() returns (ok: bool, argv: seq<Span>, list: seq<Redirection>)
      requires ps <= |line| && Line(line)
      modifies this
      ensures ps <= |line| && ParseArgs(line, old(ps), 0) == if ok then Args(argv, list, ps) else BadArgs
    {
      hide GetToken, Skip, White, ParseRedirs, ParseArgs;
      argv, list := [], [];
      ghost var p0 := ps;
      while true
        invariant ps <= |line|
        invariant ParseArgs(line, p0, 0) == After(argv, list, ParseArgs(line, ps, |argv|))
        decreases |line| - ps
      {
        ghost var p1 := ps;
        var stop := Peek("|)&;");
        ArgsPeek(line, p1, |argv|);
        ArgsCases(line, ps, |argv|);
        if stop {
          return true, argv, list;
        }
        var t := Gettoken();
        if t.ret == '\0' {
          return true, argv, list;
        }
        if t.ret != 'a' {
          return false, argv, list;
        }
        if |argv| + 1 >= MAXARGS {
          return false, argv, list;
        }
        var fine, more := Parseredirs();
        if !fine {
          return false, argv, list;
        }
        AfterMore(argv, list, Span(t.q, t.eq), more, ParseArgs(line, ps, |argv| + 1));
        argv, list := argv + [Span(t.q, t.eq)], list + more;
      }
    }

    method Parseexec() returns (ok: bool, c: Cmd<Span>)
      requires ps <= |line| && Line(line)
      modifies this
      ensures ps <= |line| && (ok ==> old(ps) <= ps) && ParseExec(line, old(ps)) == Result(ok, c, ps)
      decreases |line| - ps, 1
    {
      hide GetToken, Skip, ParseArgs, ParseRedirs, ParseLine, ParsePipe, Wrap;
      ghost var p0 := ps;
      var block := Peek("(");
      if block {
        ok, c := Parseblock();
        return;
      }
      var list, argv, rest;
      ok, list := Parseredirs();
      if !ok {
        return false, Exec([]);
      }
      ok, argv, rest := Parseargs();
      c := Wrap(Exec(argv), list + rest);
    }

    method Parseblock() returns (ok: bool, c: Cmd<Span>)
      requires ps < |line| && Line(line) && line[ps] == '('
      modifies this
      ensures ps <= |line| && (ok ==> old(ps) <= ps) && ParseBlock(line, old(ps)) == Result(ok, c, ps)
      decreases |line| - ps, 0
    {
      hide Skip, ParseRedirs, ParseExec, ParsePipe, ParseLine, ParseBacks, Wrap;
      ghost var p0 := ps;
      var open := Gettoken();
      Moves(line, p0);
      ok, c := Parseline();
      if !ok {
        return;
      }
      ghost var inner := c;
      var closed := Peek(")");
      if !closed {
        return false, c;
      }
      var close := Gettoken();
      var list;
      ok, list := Parseredirs();
      c := Wrap(c, list);
    }

    method Parsepipe() returns (ok: bool, c: Cmd<Span>)
      requires ps <= |line| && Line(line)
      modifies this
      ensures ps <= |line| && (ok ==> old(ps) <= ps) && ParsePipe(line, old(ps)) == Result(ok, c, ps)
      decreases |line| - ps, 2
    {
      hide GetToken, Skip, ParseExec, White;
      ok, c := Parseexec();
      if !ok {
        return;
      }
      var piped := Peek("|");
      if piped {
        Moves(line, ps);
        var t := Gettoken();
        var r;
        ok, r := Parsepipe();
        c := Pipe(c, r);
      }
    }

    /** parseline's loop over ampersands. */
    method Parsebacks(c0: Cmd<Span>) returns (c: Cmd<Span>)
      requires ps <= |line| && Line(line)
      modifies this
      ensures old(ps) <= ps <= |line| && ParseBacks(line, old(ps), c0) == Ok(c, ps)
    {
      hide GetToken, Skip, White;
      c := c0;
      ghost var p1 := ps;
      var back := Peek("&");
      PeekBacks(line, p1, c);
      while back
        invariant p1 <= ps <= |line| && ps == Skip(line, ps) && (back <==> Char(line, ps) == '&')
        invariant ParseBacks(line, p1, c0) == ParseBacks(line, ps, c)
        decreases |line| - ps
      {
        Moves(line, ps);
        var t := Gettoken();
        c := Back(c);
        ghost var p2 := ps;
        back := Peek("&");
        PeekBacks(line, p2, c);
      }
    }

    method Parseline() returns (ok: bool, c: Cmd<Span>)
      requires ps <= |line| && Line(line)
      modifies this
      ensures ps <= |line| && (ok ==> old(ps) <= ps) && ParseLine(line, old(ps)) == Result(ok, c, ps)
      decreases |line| - ps, 3
    {
      hide GetToken, Skip, ParsePipe, White, ParseBacks;
      ok, c := Parsepipe();
      if !ok {
        return;
      }
      ghost var p1 := ps;
      c := Parsebacks(c);
      StayPut(line, ps);
      var more := Peek(";");
      if more {
        Moves(line, ps);
        var t := Gettoken();
        var r;
        ok, r := Parseline();
        c := List(c, r);
      }
    }

    /** parsecmd up to nulterminate. */
    method Parsecmd() returns (ok: bool, c: Cmd<Span>)
      requires ps == 0 && Line(line)
      modifies this
      ensures ParseCmd(line) == if ok then Ok(c, |line|) else Panic
    {
      hide ParseLine, Skip;
      ok, c := Parseline();
      if ok {
        var b := Peek("");
        ok := ps == |line|;
      }
    }
  }

  lemma EndSkip(s: string, q: nat)
    requires q <= |s|
    ensures Char(s, q) == '\0' && Line(s) ==> Skip(s, q) == q
  {
    if q < |s| {
      assert s[q] in s;
    }
  }

  function Prepend(list: seq<Redirection>, r: Redirs): Redirs {
    match r
    case NoFile => NoFile
    case Redirs(rest, pos) => Redirs(list + rest, pos)
  }

  lemma PrependNone(r: Redirs)
    ensures Prepend([], r) == r
  {
  }

  /** What parseredirs' loop does at i, after `list`. */
  lemma RedirsCases(s: string, i: nat, list: seq<Redirection>)
    requires i <= |s| && Line(s)
    ensures var j := Skip(s, i);
            var t := GetToken(s, j);
            var f := GetToken(s, t.next);
            Prepend(list, ParseRedirs(s, i)) ==
            if !(Char(s, j) in "<>") then Redirs(list, j)
            else if f.ret != 'a' then NoFile
            else Prepend(list + [Redirection(Span(f.q, f.eq), ModeOf(t.ret))], ParseRedirs(s, f.next))
    ensures Char(s, Skip(s, i)) in "<>" ==> GetToken(s, Skip(s, i)).next > i
  {
    hide GetToken;
    var j := Skip(s, i);
    if Char(s, j) in "<>" {
      Moves(s, j);
      var f := GetToken(s, GetToken(s, j).next);
      if f.ret == 'a' && ParseRedirs(s, f.next).Redirs? {
        var x := Redirection(Span(f.q, f.eq), ModeOf(GetToken(s, j).ret));
        assert list + ([x] + ParseRedirs(s, f.next).list) == list + [x] + ParseRedirs(s, f.next).list;
      }
    }
  }

  function Result(ok: bool, c: Cmd<Span>, pos: nat): Parsed { if ok then Ok(c, pos) else Panic }

  function After(argv: seq<Span>, list: seq<Redirection>, r: Args): Args {
    match r
    case BadArgs => BadArgs
    case Args(a, l, pos) => Args(argv + a, list + l, pos)
  }

  lemma AfterMore(argv: seq<Span>, list: seq<Redirection>, w: Span, more: seq<Redirection>, r: Args)
    ensures After(argv, list, After([w], more, r)) == After(argv + [w], list + more, r)
  {
  }

  /** What parseexec's loop does at i. */
  lemma ArgsCases(s: string, i: nat, argc: nat)
    requires Line(s) && i <= |s| && Skip(s, i) == i
    ensures var t := GetToken(s, i);
            ParseArgs(s, i, argc) ==
            if Char(s, i) in "|)&;" then Args([], [], i)
            else if t.ret == '\0' then Args([], [], t.next)
            else if t.ret != 'a' || argc + 1 >= MAXARGS || ParseRedirs(s, t.next).NoFile? then BadArgs
            else After([Span(t.q, t.eq)], ParseRedirs(s, t.next).list,
                       ParseArgs(s, ParseRedirs(s, t.next).pos, argc + 1))
  {
    hide GetToken, Skip, ParseRedirs;
  }

  /** gettoken moves on from any character. */
  lemma Moves(s: string, i: nat)
    requires Line(s) && i < |s| && Char(s, i) != '\0' && !White(s[i])
    ensures GetToken(s, i).next > i
  {
  }

  lemma SkipTwice(s: string, i: nat)
    requires i <= |s|
    ensures Skip(s, Skip(s, i)) == Skip(s, i)
  {
  }

  lemma StayPut(s: string, i: nat)
    requires i <= |s|
    ensures !White(Char(s, i)) ==> Skip(s, i) == i
  {
  }

  lemma ArgsPeek(s: string, i: nat, argc: nat)
    requires i <= |s| && Line(s)
    ensures ParseArgs(s, i, argc) == ParseArgs(s, Skip(s, i), argc) && Skip(s, Skip(s, i)) == Skip(s, i)
  {
    hide GetToken, Skip;
    SkipTwice(s, i);
  }

  lemma PeekBacks(s: string, i: nat, c: Cmd<Span>)
    requires i <= |s| && Line(s)
    ensures Skip(s, Skip(s, i)) == Skip(s, i) && ParseBacks(s, i, c) == ParseBacks(s, Skip(s, i), c)
  {
    hide GetToken, Skip;
    SkipTwice(s, i);
  }

  // ---- nulterminate ----

  /** w is one of the command's words. */
  ghost predicate HasWord(c: Cmd<Span>, w: Span) {
    match c
    case Exec(argv) => w in argv
    case Redir(d, f, _) => w == f || HasWord(d, w)
    case Pipe(l, r) => HasWord(l, w) || HasWord(r, w)
    case List(l, r) => HasWord(l, w) || HasWord(r, w)
    case Back(d) => HasWord(d, w)
  }

  /** Where nulterminate writes. */
  ghost predicate Cut(c: Cmd<Span>, i: nat) { exists w :: HasWord(c, w) && w.eq == i }

  /** nulterminate: a NUL after every word, and no other change. */
  method Nulterminate(buf: array<char>, c: Cmd<Span>, line: string)
    requires WordsIn(line, c) && buf.Length == |line| + 1
    modifies buf
    ensures forall i :: 0 <= i < buf.Length ==> buf[i] == if Cut(c, i) then '\0' else old(buf[i])
    decreases c
  {
    hide IsWord;
    match c
    case Exec(argv) =>
      CutExec(argv);
      var i := 0;
      while i < |argv|
        invariant 0 <= i <= |argv|
        invariant forall k :: 0 <= k < buf.Length ==> buf[k] == if CutBefore(argv, i, k) then '\0' else old(buf[k])
      {
        WordFits(line, argv[i]);
        buf[argv[i].eq] := '\0';
        i := i + 1;
      }
    case Redir(d, f, m) =>
      WordFits(line, f);
      CutRedir(d, f, m);
      Nulterminate(buf, d, line);
      buf[f.eq] := '\0';
    case Pipe(l, r) =>
      CutPair(l, r);
      Nulterminate(buf, l, line);
      Nulterminate(buf, r, line);
    case List(l, r) =>
      CutPair(l, r);
      Nulterminate(buf, l, line);
      Nulterminate(buf, r, line);
    case Back(d) =>
      CutBack(d);
      Nulterminate(buf, d, line);
  }

  lemma WordFits(s: string, w: Span)
    requires IsWord(s, w)
    ensures w.eq <= |s|
  {
  }

  ghost predicate CutBefore(argv: seq<Span>, n: nat, k: int)
    requires n <= |argv|
  {
    exists i :: 0 <= i < n && argv[i].eq == k
  }

  lemma CutExec(argv: seq<Span>)
    ensures forall i: nat :: Cut(Exec(argv), i) <==> CutBefore(argv, |argv|, i)
  {
    forall i: nat ensures Cut(Exec(argv), i) <==> CutBefore(argv, |argv|, i) {
      if CutBefore(argv, |argv|, i) {
        var x :| 0 <= x < |argv| && argv[x].eq == i;
        assert HasWord(Exec(argv), argv[x]);
      }
      if Cut(Exec(argv), i) {
        var w :| HasWord(Exec(argv), w) && w.eq == i;
        assert w in argv;
      }
    }
  }

  lemma CutRedir(d: Cmd<Span>, f: Span, m: Mode)
    ensures forall i: nat :: Cut(Redir(d, f, m), i) <==> i == f.eq || Cut(d, i)
  {
    forall i: nat ensures Cut(Redir(d, f, m), i) <==> i == f.eq || Cut(d, i) {
      assert HasWord(Redir(d, f, m), f);
      if Cut(d, i) {
        var w :| HasWord(d, w) && w.eq == i;
        assert HasWord(Redir(d, f, m), w);
      }
    }
  }

  lemma CutPair(l: Cmd<Span>, r: Cmd<Span>)
    ensures forall i: nat :: Cut(Pipe(l, r), i) <==> Cut(l, i) || Cut(r, i)
    ensures forall i: nat :: Cut(List(l, r), i) <==> Cut(l, i) || Cut(r, i)
  {
    forall i: nat
      ensures (Cut(Pipe(l, r), i) <==> Cut(l, i) || Cut(r, i)) && (Cut(List(l, r), i) <==> Cut(l, i) || Cut(r, i))
    {
      if Cut(l, i) {
        var w :| HasWord(l, w) && w.eq == i;
        assert HasWord(Pipe(l, r), w) && HasWord(List(l, r), w);
      }
      if Cut(r, i) {
        var w :| HasWord(r, w) && w.eq == i;
        assert HasWord(Pipe(l, r), w) && HasWord(List(l, r), w);
      }
    }
  }

  lemma CutBack(d: Cmd<Span>)
    ensures forall i: nat :: Cut(Back(d), i) <==> Cut(d, i)
  {
    forall i: nat ensures Cut(Back(d), i) <==> Cut(d, i) {
      if Cut(d, i) {
        var w :| HasWord(d, w) && w.eq == i;
        assert HasWord(Back(d), w);
      }
    }
  }

  // ---- words read back ----

  /** The C string that starts at i. */
  function CString(b: seq<char>, i: nat): string
    requires i <= |b|
    decreases |b| - i
  {
    if i == |b| || b[i] == '\0' then "" else [b[i]] + CString(b, i + 1)
  }

  lemma {:induction false} CStringIs(b: seq<char>, i: nat, e: nat)
    requires i <= e < |b| && b[e] == '\0' && forall k :: i <= k < e ==> b[k] != '\0'
    ensures CString(b, i) == b[i..e]
    decreases e - i
  {
    if i < e {
      CStringIs(b, i + 1, e);
      assert b[i..e] == [b[i]] + b[i + 1..e];
    }
  }

  lemma {:induction false} HasWordIn(s: string, c: Cmd<Span>, w: Span)
    requires WordsIn(s, c) && HasWord(c, w)
    ensures IsWord(s, w)
    decreases c
  {
    match c
    case Exec(argv) =>
    case Redir(d, f, _) => if w != f { HasWordIn(s, d, w); }
    case Pipe(l, r) => if HasWord(l, w) { HasWordIn(s, l, w); } else { HasWordIn(s, r, w); }
    case List(l, r) => if HasWord(l, w) { HasWordIn(s, l, w); } else { HasWordIn(s, r, w); }
    case Back(d) => HasWordIn(s, d, w);
  }

  /** No word is cut short: NULs go only to places outside words. */
  lemma NoCutInside(s: string, c: Cmd<Span>, w: Span, k: nat)
    requires WordsIn(s, c) && IsWord(s, w) && w.q <= k < w.eq
    ensures !Cut(c, k)
  {
    if Cut(c, k) {
      var v :| HasWord(c, v) && v.eq == k;
      HasWordIn(s, c, v);
    }
  }

  /** After nulterminate every word of the command, however it was parsed, reads as its token. */
  lemma ReadsBack(s: string, c: Cmd<Span>, b: seq<char>, w: Span)
    requires Line(s) && WordsIn(s, c) && HasWord(c, w) && |b| == |s| + 1
    requires forall i :: 0 <= i < |b| ==> b[i] == if Cut(c, i) then '\0' else Char(s, i)
    ensures w.q < w.eq <= |s| && CString(b, w.q) == s[w.q..w.eq]
  {
    hide WordsIn, CString;
    HasWordIn(s, c, w);
    assert Cut(c, w.eq);
    forall k | w.q <= k < w.eq ensures b[k] == s[k] != '\0' {
      NoCutInside(s, c, w, k);
      assert WordChar(s[k]);
    }
    CStringIs(b, w.q, w.eq);
    assert b[w.q..w.eq] == s[w.q..w.eq];
  }

  /** parsecmd in full: if the line parses, its words are spans of the line, and nulterminate makes
      each a C string equal to its token. */
  method ParseAndCut(p: Parser, buf: array<char>) returns (ok: bool, c: Cmd<Span>)
    requires p.ps == 0 && Line(p.line) && buf.Length == |p.line| + 1 && buf[..] == p.line + ['\0']
    modifies p, buf
    ensures ParseCmd(p.line) == if ok then Ok(c, |p.line|) else Panic
    ensures ok ==> WordsIn(p.line, c)
    ensures ok ==> forall w :: HasWord(c, w) ==> w.q < w.eq <= |p.line| && CString(buf[..], w.q) == p.line[w.q..w.eq]
  {
    hide ParseLine, WordsIn, CString, Cut, HasWord;
    ok, c := p.Parsecmd();
    if ok {
      LineIn(p.line, 0);
      Nulterminate(buf, c, p.line);
      forall w | HasWord(c, w) ensures w.q < w.eq <= |p.line| && CString(buf[..], w.q) == p.line[w.q..w.eq] {
        ReadsBack(p.line, c, buf[..], w);
      }
    }
  }
}

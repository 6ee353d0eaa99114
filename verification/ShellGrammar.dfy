/** The shell's grammar, said of token sequences and the trees they stand for, and that the parser
    follows it. */
module ShellGrammar {
  import opened ShellSyntax
  import opened ShellAccept

  function WordOf(t: Token): Span { Span(t.q, t.eq) }

  // ---- the grammar ----

  /** What a run of words and redirections says, read from left to right. */
  datatype Simple = Simple(argv: seq<Span>, list: seq<Redirection>) | Broken

  function Gather(ts: seq<Token>): Simple
    decreases |ts|
  {
    if ts == [] then Simple([], [])
    else if ts[0].ret == 'a' then
      var r := Gather(ts[1..]);
      if r.Broken? then Broken else Simple([WordOf(ts[0])] + r.argv, r.list)
    else if Redirects(ts[0].ret) && |ts| >= 2 && ts[1].ret == 'a' then
      var r := Gather(ts[2..]);
      if r.Broken? then Broken
      else Simple(r.argv, [Redirection(WordOf(ts[1]), ModeOf(ts[0].ret))] + r.list)
    else Broken
  }

  /** exec: words and redirections, the first redirection innermost. */
  predicate IsExec(ts: seq<Token>, c: Cmd<Span>) {
    var g := Gather(ts);
    g.Simple? && |g.argv| < MAXARGS && c == Wrap(Exec(g.argv), g.list)
  }

  /** block: ( line ) and redirections. */
  ghost predicate IsBlock(ts: seq<Token>, c: Cmd<Span>)
    decreases |ts|, 0
  {
    exists k: nat, d: Cmd<Span> :: IsBlockAt(ts, c, k, d)
  }

  ghost predicate IsBlockAt(ts: seq<Token>, c: Cmd<Span>, k: nat, d: Cmd<Span>)
    decreases |ts|, 0, 0
  {
    && 0 < k < |ts| && ts[0].ret == '(' && ts[k].ret == ')' && IsLine(ts[1..k], d)
    && var g := Gather(ts[k + 1..]);
       g.Simple? && g.argv == [] && c == Wrap(d, g.list)
  }

  /** pipe: exec or block, or one of these, | and a pipe. */
  ghost predicate IsPipe(ts: seq<Token>, c: Cmd<Span>)
    decreases |ts|, 1
  {
    || IsExec(ts, c) || IsBlock(ts, c)
    || (c.Pipe? && exists k: nat :: && k < |ts| && ts[k].ret == '|'
                                    && (IsExec(ts[..k], c.left) || IsBlock(ts[..k], c.left))
                                    && IsPipe(ts[k + 1..], c.right))
  }

  /** A pipe and any number of ampersands. */
  ghost predicate IsBack(ts: seq<Token>, c: Cmd<Span>)
    decreases |ts|, 2
  {
    || IsPipe(ts, c)
    || (c.Back? && ts != [] && ts[|ts| - 1].ret == '&' && IsBack(ts[..|ts| - 1], c.cmd))
  }

  /** line: one of these, or one of these, ; and a line. */
  ghost predicate IsLine(ts: seq<Token>, c: Cmd<Span>)
    decreases |ts|, 3
  {
    || IsBack(ts, c)
    || (c.List? && exists k: nat :: && k < |ts| && ts[k].ret == ';'
                                    && IsBack(ts[..k], c.left) && IsLine(ts[k + 1..], c.right))
  }

  // ---- the tokens of a line ----

  lemma LexSkip(s: string, i: nat)
    requires i <= |s| && Line(s)
    ensures Lex(s, Skip(s, i)) == Lex(s, i)
  {
    SkipTwice(s, i);
  }

  /** ts are the tokens from i up to j. */
  ghost predicate Between(s: string, i: nat, ts: seq<Token>, j: nat)
    requires Line(s)
  {
    i <= |s| && j <= |s| && Lex(s, i) == ts + Lex(s, j)
  }

  lemma NothingBetween(s: string, i: nat)
    requires i <= |s| && Line(s)
    ensures Between(s, i, [], Skip(s, i))
  {
    LexSkip(s, i);
    assert Lex(s, i) == [] + Lex(s, i);
  }

  lemma OneBetween(s: string, i: nat)
    requires i <= |s| && Line(s) && Sign(s, i) != '\0'
    ensures Between(s, i, [GetToken(s, i)], GetToken(s, i).next)
    ensures GetToken(s, Skip(s, i)) == GetToken(s, i) && Skip(s, i) < |s|
  {
    SkipTwice(s, i);
    SignIs(s, i);
  }

  lemma Joined(s: string, i: nat, a: seq<Token>, j: nat, b: seq<Token>, k: nat)
    requires Line(s) && Between(s, i, a, j) && Between(s, j, b, k)
    ensures Between(s, i, a + b, k)
  {
    assert a + (b + Lex(s, k)) == a + b + Lex(s, k);
  }

  // ---- words and redirections ----

  lemma {:induction false} GatherBoth(a: seq<Token>, b: seq<Token>)
    requires Gather(a).Simple? && Gather(b).Simple?
    ensures Gather(a + b) == Simple(Gather(a).argv + Gather(b).argv, Gather(a).list + Gather(b).list)
    decreases |a|
  {
    if a == [] {
      assert a + b == b;
    } else if a[0].ret == 'a' {
      assert (a + b)[1..] == a[1..] + b;
      GatherBoth(a[1..], b);
      hide Gather;
      Regroup([WordOf(a[0])], Gather(a[1..]).argv, Gather(b).argv);
    } else {
      assert (a + b)[2..] == a[2..] + b;
      GatherBoth(a[2..], b);
      assert (a + b)[0] == a[0] && (a + b)[1] == a[1];
      hide Gather;
      Regroup([Redirection(WordOf(a[1]), ModeOf(a[0].ret))], Gather(a[2..]).list, Gather(b).list);
    }
  }

  lemma Regroup<T>(x: seq<T>, y: seq<T>, z: seq<T>)
    ensures x + (y + z) == x + y + z
  {
  }

  lemma GatherWord(t: Token)
    requires t.ret == 'a'
    ensures Gather([t]) == Simple([WordOf(t)], [])
  {
    assert Gather([t][1..]) == Simple([], []);
  }

  lemma GatherRedir(t: Token, f: Token)
    requires Redirects(t.ret) && f.ret == 'a'
    ensures Gather([t] + [f]) == Simple([], [Redirection(WordOf(f), ModeOf(t.ret))])
  {
    assert ([t] + [f])[2..] == [];
  }

  lemma {:induction false} RedirsFollow(s: string, i: nat) returns (ts: seq<Token>)
    requires i <= |s| && Line(s)
    ensures var r := ParseRedirs(s, i);
            r.Redirs? ==> Between(s, i, ts, r.pos) && Gather(ts) == Simple([], r.list)
    decreases |s| - i
  {
    hide GetToken, Skip, Char, Lex, Gather, Between;
    ts := [];
    SignIs(s, i);
    var j := Skip(s, i);
    if Char(s, j) in "<>" {
      OneBetween(s, i);
      var t := GetToken(s, j);
      var f := GetToken(s, t.next);
      if f.ret == 'a' {
        OneBetween(s, t.next);
        Joined(s, i, [t], t.next, [f], f.next);
        GatherRedir(t, f);
        var rest := RedirsFollow(s, f.next);
        if ParseRedirs(s, f.next).Redirs? {
          Joined(s, i, [t] + [f], f.next, rest, ParseRedirs(s, f.next).pos);
          GatherBoth([t] + [f], rest);
          ts := [t] + [f] + rest;
        }
      }
    } else {
      NothingBetween(s, i);
      GatherNone();
    }
  }

  lemma GatherNone()
    ensures Gather([]) == Simple([], [])
  {
  }

  lemma {:induction false} ArgsFollow(s: string, i: nat, argc: nat) returns (ts: seq<Token>)
    requires i <= |s| && Line(s)
    ensures var r := ParseArgs(s, i, argc);
            r.Args? ==> Between(s, i, ts, r.pos) && Gather(ts) == Simple(r.argv, r.list)
    decreases |s| - i
  {
    hide GetToken, Skip, Char, Lex, Gather, Between, ParseRedirs;
    ts := [];
    SignIs(s, i);
    GatherNone();
    var j := Skip(s, i);
    if Char(s, j) in "|)&;" {
      NothingBetween(s, i);
    } else {
      var t := GetToken(s, j);
      if t.ret == '\0' {
        LastBetween(s, i);
      } else if t.ret == 'a' && argc + 1 < MAXARGS {
        SkipTwice(s, i);
        OneBetween(s, i);
        var a := RedirsFollow(s, t.next);
        match ParseRedirs(s, t.next)
        case NoFile =>
        case Redirs(list, pos) =>
          var b := ArgsFollow(s, pos, argc + 1);
          ts := WordsJoin(s, i, t, a, pos, b, argc);
      }
    }
  }

  lemma LastBetween(s: string, i: nat)
    requires i <= |s| && Line(s) && GetToken(s, Skip(s, i)).ret == '\0'
    ensures Between(s, i, [], GetToken(s, Skip(s, i)).next)
  {
    SkipTwice(s, i);
    AtEnd(s, i);
  }

  lemma WordsJoin(s: string, i: nat, t: Token, a: seq<Token>, pos: nat, b: seq<Token>, argc: nat)
    returns (ts: seq<Token>)
    requires i <= |s| && pos <= |s| && Line(s) && t.ret == 'a'
    requires Between(s, i, [t], t.next) && Between(s, t.next, a, pos)
    requires Gather(a).Simple? && Gather(a).argv == []
    ensures var r := ParseArgs(s, pos, argc + 1);
            r.Args? && Between(s, pos, b, r.pos) && Gather(b) == Simple(r.argv, r.list) ==>
              Between(s, i, ts, r.pos) && Gather(ts) == Simple([WordOf(t)] + r.argv, Gather(a).list + r.list)
  {
    hide Gather, Between, ParseArgs;
    var r := ParseArgs(s, pos, argc + 1);
    ts := [t] + a + b;
    if r.Args? && Between(s, pos, b, r.pos) && Gather(b) == Simple(r.argv, r.list) {
      Joined(s, i, [t], t.next, a, pos);
      Joined(s, i, [t] + a, pos, b, r.pos);
      GatherWord(t);
      GatherBoth([t], a);
      GatherBoth([t] + a, b);
      assert [WordOf(t)] + [] + r.argv == [WordOf(t)] + r.argv && [] + Gather(a).list == Gather(a).list;
    }
  }

  // ---- commands ----

  lemma {:induction false} ExecFollows(s: string, i: nat) returns (ts: seq<Token>)
    requires i <= |s| && Line(s)
    ensures var r := ParseExec(s, i);
            r.Ok? ==> Between(s, i, ts, r.pos) && (IsExec(ts, r.cmd) || IsBlock(ts, r.cmd))
    decreases |s| - i, 1
  {
    hide GetToken, Skip, Char, Lex, Gather, Between, ParseRedirs, ParseArgs, IsBlock, Wrap;
    ts := [];
    var j := Skip(s, i);
    NothingBetween(s, i);
    if Char(s, j) == '(' {
      IsThere(s, j);
      ts := BlockFollows(s, j);
      if ParseBlock(s, j).Ok? {
        Later(s, i, ts, ParseBlock(s, j).pos);
      }
    } else {
      var a := RedirsFollow(s, j);
      match ParseRedirs(s, j)
      case NoFile =>
      case Redirs(list, pos) =>
        var b := ArgsFollow(s, pos, 0);
        ArgsIn(s, pos, 0);
        match ParseArgs(s, pos, 0)
        case BadArgs =>
        case Args(argv, rest, end) =>
          Joined(s, j, a, pos, b, end);
          Later(s, i, a + b, end);
          GatherBoth(a, b);
          assert [] + argv == argv;
          ts := a + b;
    }
  }

  lemma Later(s: string, i: nat, ts: seq<Token>, j: nat)
    requires i <= |s| && Line(s) && Between(s, Skip(s, i), ts, j)
    ensures Between(s, i, ts, j)
  {
    LexSkip(s, i);
  }

  lemma {:induction false} BlockFollows(s: string, i: nat) returns (ts: seq<Token>)
    requires i < |s| && Line(s) && s[i] == '('
    ensures var r := ParseBlock(s, i); r.Ok? ==> Between(s, i, ts, r.pos) && IsBlock(ts, r.cmd)
    decreases |s| - i, 0
  {
    hide GetToken, Skip, Char, Lex, Gather, Between, ParseRedirs, ParseLine, Wrap, IsLine, IsBlockAt;
    ts := [];
    OpenSign(s, i);
    BlockIs(s, i);
    var t := GetToken(s, i);
    var inner := LineFollows(s, t.next);
    var l := ParseLine(s, t.next);
    if l.Ok? {
      var k := Skip(s, l.pos);
      if Char(s, k) == ')' {
        CloseSign(s, l.pos);
        var u := GetToken(s, k);
        var list := RedirsFollow(s, u.next);
        var r := ParseRedirs(s, u.next);
        if r.Redirs? {
          Joined(s, i, [t], t.next, inner, l.pos);
          Joined(s, i, [t] + inner, l.pos, [u], u.next);
          Joined(s, i, [t] + inner + [u], u.next, list, r.pos);
          ts := [t] + inner + [u] + list;
          BlockMade(t, inner, u, list, l.cmd);
        }
      }
    }
  }

  lemma BlockMade(t: Token, inner: seq<Token>, u: Token, list: seq<Token>, d: Cmd<Span>)
    requires t.ret == '(' && u.ret == ')' && IsLine(inner, d) && Gather(list).Simple? && Gather(list).argv == []
    ensures IsBlock([t] + inner + [u] + list, Wrap(d, Gather(list).list))
  {
    hide Gather, IsLine;
    var ts, k := [t] + inner + [u] + list, |inner| + 1;
    assert ts[1..k] == inner && ts[k + 1..] == list;
    assert IsBlockAt(ts, Wrap(d, Gather(list).list), k, d);
  }

  lemma OpenSign(s: string, i: nat)
    requires i < |s| && Line(s) && s[i] == '('
    ensures GetToken(s, i).ret == '(' && GetToken(s, i).next > i && Between(s, i, [GetToken(s, i)], GetToken(s, i).next)
  {
    hide GetToken;
    StillBlack(s, i);
    SignIs(s, i);
    OneBetween(s, i);
  }

  lemma CloseSign(s: string, i: nat)
    requires i <= |s| && Line(s) && Char(s, Skip(s, i)) in ")|&;"
    ensures var u := GetToken(s, Skip(s, i));
            u.ret == Char(s, Skip(s, i)) && Skip(s, i) < u.next && Between(s, i, [u], u.next)
  {
    hide GetToken, Between, Skip;
    SignIs(s, i);
    OneBetween(s, i);
  }

  lemma {:induction false} PipeFollows(s: string, i: nat) returns (ts: seq<Token>)
    requires i <= |s| && Line(s)
    ensures var r := ParsePipe(s, i); r.Ok? ==> Between(s, i, ts, r.pos) && IsPipe(ts, r.cmd)
    decreases |s| - i, 2
  {
    hide GetToken, Skip, Char, Lex, Between, ParseExec, IsExec, IsBlock;
    ts := ExecFollows(s, i);
    match ParseExec(s, i)
    case Panic =>
    case Ok(l, pos) =>
      var j := Skip(s, pos);
      if Char(s, j) == '|' {
        CloseSign(s, pos);
        var t := GetToken(s, j);
        var rest := PipeFollows(s, t.next);
        var r := ParsePipe(s, t.next);
        if r.Ok? {
          Joined(s, i, ts, pos, [t], t.next);
          Joined(s, i, ts + [t], t.next, rest, r.pos);
          PipeMade(ts, t, rest, l, r.cmd);
          ts := ts + [t] + rest;
        }
      } else {
        NothingBetween(s, pos);
        Joined(s, i, ts, pos, [], j);
        assert ts + [] == ts;
      }
  }

  lemma PipeMade(a: seq<Token>, t: Token, b: seq<Token>, l: Cmd<Span>, r: Cmd<Span>)
    requires t.ret == '|' && (IsExec(a, l) || IsBlock(a, l)) && IsPipe(b, r)
    ensures IsPipe(a + [t] + b, Pipe(l, r))
  {
    hide IsExec, IsBlock;
    var ts := a + [t] + b;
    assert ts[..|a|] == a && ts[|a| + 1..] == b && ts[|a|] == t;
  }

  /** The ampersands after a command, of which ts is what came before. */
  lemma {:induction false} BacksFollow(s: string, h: nat, ts: seq<Token>, i: nat, c: Cmd<Span>) returns (us: seq<Token>)
    requires Line(s) && Between(s, h, ts, i) && IsBack(ts, c)
    ensures var r := ParseBacks(s, i, c); Between(s, h, us, r.pos) && IsBack(us, r.cmd)
    decreases |s| - i
  {
    BetweenRange(s, h, ts, i);
    hide GetToken, Skip, Char, Lex, Between, IsBack, IsPipe;
    var j := Skip(s, i);
    if Char(s, j) == '&' {
      CloseSign(s, i);
      var t := GetToken(s, j);
      Joined(s, h, ts, i, [t], t.next);
      BackMade(ts, t, c);
      us := BacksFollow(s, h, ts + [t], t.next, Back(c));
    } else {
      NothingBetween(s, i);
      Joined(s, h, ts, i, [], j);
      assert ts + [] == ts;
      us := ts;
    }
  }

  lemma BetweenRange(s: string, i: nat, ts: seq<Token>, j: nat)
    requires Line(s) && Between(s, i, ts, j)
    ensures i <= |s| && j <= |s|
  {
  }

  lemma BackMade(ts: seq<Token>, t: Token, c: Cmd<Span>)
    requires t.ret == '&' && IsBack(ts, c)
    ensures IsBack(ts + [t], Back(c))
  {
    hide IsPipe;
    assert (ts + [t])[..|ts|] == ts;
  }

  lemma {:induction false} LineFollows(s: string, i: nat) returns (ts: seq<Token>)
    requires i <= |s| && Line(s)
    ensures var r := ParseLine(s, i); r.Ok? ==> Between(s, i, ts, r.pos) && IsLine(ts, r.cmd)
    decreases |s| - i, 3
  {
    hide GetToken, Skip, Char, Lex, Between, ParsePipe, ParseBacks, IsPipe;
    ts := PipeFollows(s, i);
    match ParsePipe(s, i)
    case Panic =>
    case Ok(p, pos) =>
      assert IsBack(ts, p);
      hide IsBack, IsLine;
      ts := BacksFollow(s, i, ts, pos, p);
      var b := ParseBacks(s, pos, p);
      BlackAfter(s, pos, p);
      LineMade(ts, b.cmd);
      if Char(s, b.pos) == ';' {
        CloseSign(s, b.pos);
        var t := GetToken(s, b.pos);
        var rest := LineFollows(s, t.next);
        var r := ParseLine(s, t.next);
        if r.Ok? {
          Joined(s, i, ts, b.pos, [t], t.next);
          Joined(s, i, ts + [t], t.next, rest, r.pos);
          ListMade(ts, t, rest, b.cmd, r.cmd);
          ts := ts + [t] + rest;
        }
      }
  }

  lemma LineMade(ts: seq<Token>, c: Cmd<Span>)
    requires IsBack(ts, c)
    ensures IsLine(ts, c)
  {
  }

  lemma ListMade(a: seq<Token>, t: Token, b: seq<Token>, l: Cmd<Span>, r: Cmd<Span>)
    requires t.ret == ';' && IsBack(a, l) && IsLine(b, r)
    ensures IsLine(a + [t] + b, List(l, r))
  {
    hide IsBack;
    var ts := a + [t] + b;
    assert ts[..|a|] == a && ts[|a| + 1..] == b && ts[|a|] == t;
  }

  /** What parsecmd returns is a tree that the grammar gives to the tokens of the whole line. */
  lemma ParsesByGrammar(s: string)
    requires Line(s) && ParseCmd(s).Ok?
    ensures IsLine(Lex(s, 0), ParseCmd(s).cmd)
  {
    hide IsLine, ParseLine;
    var ts := LineFollows(s, 0);
    var pos := ParseLine(s, 0).pos;
    LexSkip(s, pos);
    EndEmpty(s);
    assert ts + [] == ts;
  }

  lemma EndEmpty(s: string)
    requires Line(s)
    ensures Lex(s, |s|) == []
  {
  }
}

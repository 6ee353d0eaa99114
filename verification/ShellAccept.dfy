/** Which lines sh accepts, said of their tokens from left to right. */
module ShellAccept {
  import opened ShellSyntax

  /** What has been read of the innermost command.
      Fresh: nothing. Words: n words and perhaps redirections. Closed: a parenthesised list. Amp: an
      ampersand after the command. FileFor: a redirection sign that waits for its file. */
  datatype Mode = Fresh | Words(n: nat) | Closed | Amp | FileFor(n: nat, closed: bool)

  /** How many parentheses are open, and the mode; or a refusal. */
  datatype Reading = Reading(depth: nat, mode: Mode) | Refused

  predicate Redirects(t: char) { t == '<' || t == '>' || t == '+' }

  /** One token more. A word counts against MAXARGS. After an ampersand there may only be another, or the
      end of the list; a redirection sign wants a file; a parenthesis opens only where a command starts. */
  function Reads(r: Reading, t: char): Reading {
    if r.Refused? then Refused
    else if r.mode.FileFor? then
      if t != 'a' then Refused else Reading(r.depth, if r.mode.closed then Closed else Words(r.mode.n))
    else if t == ';' then Reading(r.depth, Fresh)
    else if t == '&' then Reading(r.depth, Amp)
    else if t == ')' then if r.depth == 0 then Refused else Reading(r.depth - 1, Closed)
    else if r.mode.Amp? then Refused
    else if t == '|' then Reading(r.depth, Fresh)
    else if Redirects(t) then
      Reading(r.depth, FileFor(if r.mode.Words? then r.mode.n else 0, r.mode.Closed?))
    else if r.mode.Closed? then Refused
    else if t == '(' then if r.mode.Fresh? then Reading(r.depth + 1, Fresh) else Refused
    else if t == 'a' then
      var n := if r.mode.Words? then r.mode.n else 0;
      if n + 1 < MAXARGS then Reading(r.depth, Words(n + 1)) else Refused
    else Refused
  }

  function ReadAll(r: Reading, ts: seq<Token>): Reading
    decreases |ts|
  {
    if ts == [] then r else ReadAll(Reads(r, ts[0].ret), ts[1..])
  }

  /** All parentheses closed, and no file missing. */
  predicate Complete(r: Reading) { r.Reading? && r.depth == 0 && !r.mode.FileFor? }

  predicate Accepts(r: Reading, ts: seq<Token>) { Complete(ReadAll(r, ts)) }

  /** The tokens of the line from position i on. */
  function Lex(s: string, i: nat): seq<Token>
    requires i <= |s| && Line(s)
    decreases |s| - i
  {
    var t := GetToken(s, i);
    if t.ret == '\0' then [] else [t] + Lex(s, t.next)
  }

  /** The line from position i on is accepted in this state. */
  predicate Goes(s: string, i: nat, d: nat, m: Mode)
    requires i <= |s| && Line(s)
  {
    Accepts(Reading(d, m), Lex(s, i))
  }

  // ---- one token ----

  lemma {:induction false} RefusedForGood(ts: seq<Token>)
    ensures ReadAll(Refused, ts) == Refused
    decreases |ts|
  {
    if ts != [] {
      RefusedForGood(ts[1..]);
    }
  }

  /** What the next token does. */
  lemma GoesOn(s: string, i: nat, d: nat, m: Mode)
    requires i <= |s| && Line(s)
    ensures var t := GetToken(s, i);
            Goes(s, i, d, m) <==>
              if t.ret == '\0' then d == 0 && !m.FileFor?
              else var r := Reads(Reading(d, m), t.ret); r.Reading? && Goes(s, t.next, r.depth, r.mode)
  {
    hide GetToken, Reads;
    var t := GetToken(s, i);
    if t.ret != '\0' {
      var r := Reads(Reading(d, m), t.ret);
      assert Lex(s, i)[1..] == Lex(s, t.next);
      if r.Refused? {
        RefusedForGood(Lex(s, t.next));
      }
    }
  }

  lemma {:induction false} SkipTwice(s: string, i: nat)
    requires i <= |s| && Line(s)
    ensures Skip(s, Skip(s, i)) == Skip(s, i) && GetToken(s, Skip(s, i)) == GetToken(s, i)
    ensures Lex(s, Skip(s, i)) == Lex(s, i)
  {
    StillBlack(s, Skip(s, i));
  }

  lemma StillBlack(s: string, j: nat)
    requires j <= |s| && !White(Char(s, j))
    ensures Skip(s, j) == j
  {
  }

  /** The character at a token's start says which token it is. */
  lemma TokenAt(s: string, j: nat)
    requires j <= |s| && Line(s) && Skip(s, j) == j
    ensures var c, t := Char(s, j), GetToken(s, j).ret;
            && (t == '\0' <==> j == |s|) && (c == '\0' <==> j == |s|)
            && (t == '|' <==> c == '|') && (t == '(' <==> c == '(') && (t == ')' <==> c == ')')
            && (t == '&' <==> c == '&') && (t == ';' <==> c == ';') && (Redirects(t) <==> c in "<>")
            && t in "|()&;<>+a\0"
    ensures Skip(s, GetToken(s, j).next) == GetToken(s, j).next
  {
    var t := GetToken(s, j);
    StillBlack(s, t.next);
  }

  /** The token at i. */
  function Sign(s: string, i: nat): char
    requires i <= |s| && Line(s)
  {
    GetToken(s, i).ret
  }

  lemma SignIs(s: string, i: nat)
    requires i <= |s| && Line(s)
    ensures var c, t := Char(s, Skip(s, i)), Sign(s, i);
            && (t == '\0' <==> Skip(s, i) == |s|)
            && (t == '|' <==> c == '|') && (t == '(' <==> c == '(') && (t == ')' <==> c == ')')
            && (t == '&' <==> c == '&') && (t == ';' <==> c == ';') && (Redirects(t) <==> c in "<>")
            && t in "|()&;<>+a\0"
  {
    hide GetToken, Skip, Char;
    SkipTwice(s, i);
    TokenAt(s, Skip(s, i));
  }

  /** At the end of a command it no longer matters what it was. */
  lemma SameAtStop(s: string, i: nat, d: nat, n: nat)
    requires i <= |s| && Line(s) && Sign(s, i) in "|)&;\0"
    ensures Goes(s, i, d, Words(n)) <==> Goes(s, i, d, Closed)
  {
    hide GetToken, Goes, Lex;
    GoesOn(s, i, d, Words(n));
    GoesOn(s, i, d, Closed);
  }

  lemma SameUnlessOpen(s: string, i: nat, d: nat)
    requires i <= |s| && Line(s) && Sign(s, i) != '('
    ensures Goes(s, i, d, Fresh) <==> Goes(s, i, d, Words(0))
  {
    hide GetToken, Goes, Lex;
    GoesOn(s, i, d, Fresh);
    GoesOn(s, i, d, Words(0));
  }

  // ---- the parsing routines ----

  function Target(n: nat, closed: bool): Mode { if closed then Closed else Words(n) }

  lemma {:induction false} RedirsGo(s: string, i: nat, d: nat, n: nat, closed: bool)
    requires i <= |s| && Line(s)
    ensures var r := ParseRedirs(s, i);
            if r.NoFile? then !Goes(s, i, d, Target(n, closed))
            else !Redirects(Sign(s, r.pos))
                 && (Goes(s, i, d, Target(n, closed)) <==> Goes(s, r.pos, d, Target(n, closed)))
    decreases |s| - i
  {
    hide GetToken, Goes, Lex, Skip, Char;
    SignIs(s, i);
    SkipTwice(s, i);
    SameTokens(s, i, d, Target(n, closed));
    GoesOn(s, i, d, Target(n, closed));
    var j := Skip(s, i);
    if Char(s, j) in "<>" {
      var t := GetToken(s, j);
      var f := GetToken(s, t.next);
      GoesOn(s, t.next, d, FileFor(if closed then 0 else n, closed));
      if f.ret == 'a' {
        RedirsGo(s, f.next, d, n, closed);
      }
    }
  }

  lemma SameTokens(s: string, i: nat, d: nat, m: Mode)
    requires i <= |s| && Line(s)
    ensures Goes(s, Skip(s, i), d, m) == Goes(s, i, d, m) && Sign(s, Skip(s, i)) == Sign(s, i)
  {
    SkipTwice(s, i);
  }

  lemma {:induction false} ArgsGo(s: string, i: nat, argc: nat, d: nat)
    requires i <= |s| && Line(s) && !Redirects(Sign(s, i))
    ensures var r := ParseArgs(s, i, argc);
            if r.BadArgs? then !Goes(s, i, d, Words(argc))
            else Sign(s, r.pos) in "|)&;\0" && (Goes(s, i, d, Words(argc)) <==> Goes(s, r.pos, d, Closed))
    decreases |s| - i
  {
    hide GetToken, Goes, Lex, Skip, Char, ParseRedirs;
    SignIs(s, i);
    SameTokens(s, i, d, Words(argc));
    SameTokens(s, i, d, Closed);
    SkipTwice(s, i);
    GoesOn(s, i, d, Words(argc));
    var j := Skip(s, i);
    if Char(s, j) in "|)&;" {
      SameAtStop(s, i, d, argc);
    } else {
      var t := GetToken(s, j);
      if t.ret == '\0' {
        AtEnd(s, j);
        GoesOn(s, t.next, d, Closed);
      } else if t.ret == 'a' && argc + 1 < MAXARGS {
        RedirsGo(s, t.next, d, argc + 1, false);
        match ParseRedirs(s, t.next)
        case NoFile =>
        case Redirs(list, pos) => ArgsGo(s, pos, argc + 1, d);
      }
    }
  }

  lemma AtEnd(s: string, j: nat)
    requires j <= |s| && Line(s) && GetToken(s, j).ret == '\0'
    ensures Sign(s, GetToken(s, j).next) == '\0'
  {
    StillBlack(s, GetToken(s, j).next);
  }

  lemma {:induction false} ExecGoes(s: string, i: nat, d: nat)
    requires i <= |s| && Line(s)
    ensures var r := ParseExec(s, i);
            if r.Panic? then !Goes(s, i, d, Fresh)
            else !Redirects(Sign(s, r.pos)) && (Goes(s, i, d, Fresh) <==> Goes(s, r.pos, d, Closed))
    decreases |s| - i, 1
  {
    hide GetToken, Goes, Lex, Skip, Char;
    SignIs(s, i);
    SameTokens(s, i, d, Fresh);
    var j := Skip(s, i);
    if Char(s, j) == '(' {
      IsThere(s, j);
      BlockGoes(s, j, d);
    } else {
      SameUnlessOpen(s, j, d);
      RedirsGo(s, j, d, 0, false);
      match ParseRedirs(s, j)
      case NoFile =>
      case Redirs(list, pos) => ArgsGo(s, pos, 0, d);
    }
  }

  lemma IsThere(s: string, j: nat)
    requires j <= |s| && Char(s, j) != '\0'
    ensures j < |s| && s[j] == Char(s, j)
  {
  }

  /** Where neither a list nor an ampersand goes on, only a closing parenthesis or the end may follow. */
  lemma ListEnds(s: string, i: nat, d: nat)
    requires i <= |s| && Line(s) && Sign(s, i) !in ";&"
    ensures var k := Skip(s, i);
            if d > 0 && Char(s, k) == ')' then Goes(s, i, d, Amp) <==> Goes(s, GetToken(s, k).next, d - 1, Closed)
            else Goes(s, i, d, Amp) <==> d == 0 && k == |s|
  {
    hide GetToken, Goes, Lex, Skip, Char;
    SignIs(s, i);
    SkipTwice(s, i);
    GoesOn(s, i, d, Amp);
  }

  lemma OpenGoes(s: string, i: nat, d: nat)
    requires i < |s| && Line(s) && s[i] == '('
    ensures GetToken(s, i).next > i && (Goes(s, i, d, Fresh) <==> Goes(s, GetToken(s, i).next, d + 1, Fresh))
  {
    hide GetToken, Goes, Lex;
    StillBlack(s, i);
    SignIs(s, i);
    GoesOn(s, i, d, Fresh);
  }

  /** parseblock, unfolded once. */
  lemma BlockIs(s: string, i: nat)
    requires i < |s| && Line(s) && s[i] == '('
    ensures var l := ParseLine(s, GetToken(s, i).next);
            ParseBlock(s, i) ==
            if l.Panic? then Panic
            else
              var k := Skip(s, l.pos);
              if Char(s, k) != ')' then Panic
              else
                var r := ParseRedirs(s, GetToken(s, k).next);
                if r.NoFile? then Panic else Ok(Wrap(l.cmd, r.list), r.pos)
  {
    hide GetToken, Skip, Char, ParseRedirs, Wrap;
  }

  lemma {:induction false} BlockGoes(s: string, i: nat, d: nat)
    requires i < |s| && Line(s) && s[i] == '('
    ensures var r := ParseBlock(s, i);
            if r.Panic? then !Goes(s, i, d, Fresh)
            else !Redirects(Sign(s, r.pos)) && (Goes(s, i, d, Fresh) <==> Goes(s, r.pos, d, Closed))
    decreases |s| - i, 0
  {
    hide GetToken, Goes, Lex, Skip, Char, ParseLine, ParseRedirs, Reads, Sign;
    OpenGoes(s, i, d);
    var t := GetToken(s, i);
    BlockIs(s, i);
    LineGoes(s, t.next, d + 1);
    var l := ParseLine(s, t.next);
    if l.Ok? {
      ListEnds(s, l.pos, d + 1);
      if Char(s, Skip(s, l.pos)) == ')' {
        RedirsGo(s, GetToken(s, Skip(s, l.pos)).next, d, 0, true);
      }
    }
  }

  lemma {:induction false} PipeGoes(s: string, i: nat, d: nat)
    requires i <= |s| && Line(s)
    ensures var r := ParsePipe(s, i);
            if r.Panic? then !Goes(s, i, d, Fresh)
            else !Redirects(Sign(s, r.pos)) && Sign(s, r.pos) != '|'
                 && (Goes(s, i, d, Fresh) <==> Goes(s, r.pos, d, Closed))
    decreases |s| - i, 2
  {
    hide GetToken, Goes, Lex, Skip, Char;
    ExecGoes(s, i, d);
    match ParseExec(s, i)
    case Panic =>
    case Ok(l, pos) =>
      SignIs(s, pos);
      SkipTwice(s, pos);
      SameTokens(s, pos, d, Closed);
      GoesOn(s, pos, d, Closed);
      var j := Skip(s, pos);
      if Char(s, j) == '|' {
        PipeGoes(s, GetToken(s, j).next, d);
      }
  }

  /** From an ampersand on, or from a command that neither a pipe nor a redirection follows. */
  lemma {:induction false} BacksGo(s: string, i: nat, c: Cmd<Span>, d: nat, m: Mode)
    requires i <= |s| && Line(s) && (m.Amp? || (m.Closed? && !Redirects(Sign(s, i)) && Sign(s, i) != '|'))
    ensures var r := ParseBacks(s, i, c);
            Sign(s, r.pos) != '&' && (Goes(s, i, d, m) <==> Goes(s, r.pos, d, Amp))
    decreases |s| - i
  {
    hide GetToken, Goes, Lex, Skip, Char;
    SignIs(s, i);
    SkipTwice(s, i);
    SameTokens(s, i, d, m);
    SameTokens(s, i, d, Amp);
    GoesOn(s, i, d, m);
    GoesOn(s, i, d, Amp);
    var j := Skip(s, i);
    if Char(s, j) == '&' {
      BacksGo(s, GetToken(s, j).next, Back(c), d, Amp);
    }
  }

  lemma {:induction false} LineGoes(s: string, i: nat, d: nat)
    requires i <= |s| && Line(s)
    ensures var r := ParseLine(s, i);
            if r.Panic? then !Goes(s, i, d, Fresh)
            else Sign(s, r.pos) !in ";&" && (Goes(s, i, d, Fresh) <==> Goes(s, r.pos, d, Amp))
    decreases |s| - i, 3
  {
    hide GetToken, Goes, Lex, Skip, Char;
    PipeGoes(s, i, d);
    match ParsePipe(s, i)
    case Panic =>
    case Ok(p, pos) =>
      BacksGo(s, pos, p, d, Closed);
      var b := ParseBacks(s, pos, p);
      BlackAfter(s, pos, p);
      SignIs(s, b.pos);
      GoesOn(s, b.pos, d, Amp);
      if Char(s, b.pos) == ';' {
        LineGoes(s, GetToken(s, b.pos).next, d);
      }
  }

  lemma BlackAfter(s: string, i: nat, c: Cmd<Span>)
    requires i <= |s| && Line(s)
    ensures var j := ParseBacks(s, i, c).pos; Skip(s, j) == j
  {
    StillBlack(s, ParseBacks(s, i, c).pos);
  }

  /** sh accepts a line, and does not panic, exactly if its tokens are accepted. */
  lemma AcceptsExactly(s: string)
    requires Line(s)
    ensures ParseCmd(s).Ok? <==> Accepts(Reading(0, Fresh), Lex(s, 0))
  {
    LineGoes(s, 0, 0);
    match ParseLine(s, 0)
    case Panic =>
    case Ok(c, pos) =>
      ListEnds(s, pos, 0);
  }
}

/** sh.c's grammar: what each parsing routine makes of a line from a given position. */
module ShellSyntax {
  const MAXARGS: nat := 10

  predicate White(c: char) { c in " \t\r\n\U{0b}" }

  predicate Symbol(c: char) { c in "<|>&;()" }

  predicate WordChar(c: char) { !White(c) && !Symbol(c) && c != '\0' }

  /** A command line: getcmd's buffer up to its NUL. */
  predicate Line(s: string) { '\0' !in s }

  /** *s, the terminating NUL included. */
  function Char(s: string, i: nat): char { if i < |s| then s[i] else '\0' }

  /** The three redirections: open for reading as 0, create or truncate as 1, create as 1. */
  datatype Mode = In | Out | Append

  /** A command tree over words: spans of the line, or strings. */
  datatype Cmd<W> =
    | Exec(argv: seq<W>)
    | Redir(cmd: Cmd<W>, file: W, mode: Mode)
    | Pipe(left: Cmd<W>, right: Cmd<W>)
    | List(left: Cmd<W>, right: Cmd<W>)
    | Back(cmd: Cmd<W>)

  /** A word from q up to eq. */
  datatype Span = Span(q: nat, eq: nat)

  // ---- tokens ----

  function Skip(s: string, i: nat): (j: nat)
    requires i <= |s|
    ensures i <= j <= |s| && !White(Char(s, j))
    decreases |s| - i
  {
    if i < |s| && White(s[i]) then Skip(s, i + 1) else i
  }

  function WordEnd(s: string, i: nat): (j: nat)
    requires i <= |s| && Line(s)
    ensures i <= j <= |s| && !WordChar(Char(s, j)) && forall k :: i <= k < j ==> WordChar(s[k])
    decreases |s| - i
  {
    if i < |s| && !White(s[i]) && !Symbol(s[i]) then WordEnd(s, i + 1) else i
  }

  /** The span scans as one word. */
  ghost predicate IsWord(s: string, w: Span) {
    && w.q < w.eq <= |s| && !WordChar(Char(s, w.eq))
    && forall k :: w.q <= k < w.eq ==> WordChar(s[k])
  }

  /** gettoken's result, the token's span, and the position after it and the white space that follows. */
  datatype Token = Token(ret: char, q: nat, eq: nat, next: nat)

  function GetToken(s: string, i: nat): (t: Token)
    requires i <= |s| && Line(s)
    ensures i <= t.q <= t.eq <= t.next <= |s|
    ensures t.ret != '\0' ==> t.q < t.eq
    ensures t.ret == 'a' ==> IsWord(s, Span(t.q, t.eq))
  {
    var q := Skip(s, i);
    var c := Char(s, q);
    if c == '\0' then Token(c, q, q, q)
    else if c in "|();&<" then Token(c, q, q + 1, Skip(s, q + 1))
    else if c == '>' then
      if Char(s, q + 1) == '>' then Token('+', q, q + 2, Skip(s, q + 2)) else Token(c, q, q + 1, Skip(s, q + 1))
    else Token('a', q, WordEnd(s, q), Skip(s, WordEnd(s, q)))
  }

  lemma {:induction false} SkipsWhite(s: string, i: nat)
    requires i <= |s|
    ensures forall k :: i <= k < Skip(s, i) ==> White(s[k])
    decreases |s| - i
  {
    if i < |s| && White(s[i]) {
      SkipsWhite(s, i + 1);
    }
  }

  /** A token is what its characters say, and only white space lies before and after it. */
  lemma TokenIs(s: string, i: nat)
    requires i <= |s| && Line(s)
    ensures var t := GetToken(s, i);
            && (forall k :: i <= k < t.q || t.eq <= k < t.next ==> White(s[k])) && (t.ret == '\0' ==> t.q == |s|)
            && (t.ret in "|();&<>" ==> t.eq == t.q + 1 && s[t.q] == t.ret && (t.ret == '>' ==> Char(s, t.eq) != '>'))
            && (t.ret == '+' ==> t.eq == t.q + 2 && s[t.q] == s[t.q + 1] == '>')
            && (t.ret == 'a' ==> IsWord(s, Span(t.q, t.eq))) && t.ret in "|();&<>+a\0"
  {
    SkipsWhite(s, i);
    SkipsWhite(s, GetToken(s, i).eq);
  }

  function ModeOf(ret: char): Mode { if ret == '<' then In else if ret == '>' then Out else Append }

  // ---- redirections ----

  datatype Redirection = Redirection(file: Span, mode: Mode)

  datatype Redirs = Redirs(list: seq<Redirection>, pos: nat) | NoFile

  /** parseredirs, with the redirections it wraps around the command. */
  function ParseRedirs(s: string, i: nat): (r: Redirs)
    requires i <= |s| && Line(s)
    ensures r.Redirs? ==> i <= r.pos <= |s|
    decreases |s| - i
  {
    var j := Skip(s, i);
    if Char(s, j) in "<>" then
      var t := GetToken(s, j);
      var f := GetToken(s, t.next);
      if f.ret != 'a' then NoFile
      else
        match ParseRedirs(s, f.next)
        case NoFile => NoFile
        case Redirs(list, pos) => Redirs([Redirection(Span(f.q, f.eq), ModeOf(t.ret))] + list, pos)
    else Redirs([], j)
  }

  /** The first redirection is the innermost. */
  function Wrap(c: Cmd<Span>, list: seq<Redirection>): Cmd<Span>
    decreases |list|
  {
    if list == [] then c else Wrap(Redir(c, list[0].file, list[0].mode), list[1..])
  }

  // ---- commands ----

  datatype Args = Args(argv: seq<Span>, list: seq<Redirection>, pos: nat) | BadArgs

  /** parseexec's loop: words, each with the redirections after it, up to a closing symbol or the end.
      `argc` words have been read before. */
  function ParseArgs(s: string, i: nat, argc: nat): (r: Args)
    requires i <= |s| && Line(s)
    ensures r.Args? ==> i <= r.pos <= |s|
    decreases |s| - i
  {
    var j := Skip(s, i);
    if Char(s, j) in "|)&;" then Args([], [], j)
    else
      var t := GetToken(s, j);
      if t.ret == '\0' then Args([], [], t.next)
      else if t.ret != 'a' || argc + 1 >= MAXARGS then BadArgs
      else
        match ParseRedirs(s, t.next)
        case NoFile => BadArgs
        case Redirs(list, pos) =>
          match ParseArgs(s, pos, argc + 1)
          case BadArgs => BadArgs
          case Args(argv, rest, end) => Args([Span(t.q, t.eq)] + argv, list + rest, end)
  }

  datatype Parsed = Ok(cmd: Cmd<Span>, pos: nat) | Panic

  function ParseExec(s: string, i: nat): (r: Parsed)
    requires i <= |s| && Line(s)
    ensures r.Ok? ==> i <= r.pos <= |s|
    decreases |s| - i, 1
  {
    var j := Skip(s, i);
    if Char(s, j) == '(' then ParseBlock(s, j)
    else
      match ParseRedirs(s, j)
      case NoFile => Panic
      case Redirs(list, pos) =>
        match ParseArgs(s, pos, 0)
        case BadArgs => Panic
        case Args(argv, rest, end) => Ok(Wrap(Exec(argv), list + rest), end)
  }

  function ParseBlock(s: string, i: nat): (r: Parsed)
    requires i < |s| && Line(s) && s[i] == '('
    ensures r.Ok? ==> i <= r.pos <= |s|
    decreases |s| - i, 0
  {
    var t := GetToken(s, i);
    match ParseLine(s, t.next)
    case Panic => Panic
    case Ok(c, pos) =>
      var k := Skip(s, pos);
      if Char(s, k) != ')' then Panic
      else
        match ParseRedirs(s, GetToken(s, k).next)
        case NoFile => Panic
        case Redirs(list, end) => Ok(Wrap(c, list), end)
  }

  function ParsePipe(s: string, i: nat): (r: Parsed)
    requires i <= |s| && Line(s)
    ensures r.Ok? ==> i <= r.pos <= |s|
    decreases |s| - i, 2
  {
    match ParseExec(s, i)
    case Panic => Panic
    case Ok(l, pos) =>
      var j := Skip(s, pos);
      if Char(s, j) == '|' then
        match ParsePipe(s, GetToken(s, j).next)
        case Panic => Panic
        case Ok(r, end) => Ok(Pipe(l, r), end)
      else Ok(l, j)
  }

  /** parseline's loop over ampersands. */
  function ParseBacks(s: string, i: nat, c: Cmd<Span>): (r: Parsed)
    requires i <= |s| && Line(s)
    ensures r.Ok? && i <= r.pos <= |s| && !White(Char(s, r.pos)) && Char(s, r.pos) != '&'
    decreases |s| - i
  {
    var j := Skip(s, i);
    if Char(s, j) == '&' then ParseBacks(s, GetToken(s, j).next, Back(c)) else Ok(c, j)
  }

  function ParseLine(s: string, i: nat): (r: Parsed)
    requires i <= |s| && Line(s)
    ensures r.Ok? ==> i <= r.pos <= |s|
    decreases |s| - i, 3
  {
    match ParsePipe(s, i)
    case Panic => Panic
    case Ok(p, pos) =>
      var b := ParseBacks(s, pos, p);
      if Char(s, b.pos) == ';' then
        match ParseLine(s, GetToken(s, b.pos).next)
        case Panic => Panic
        case Ok(r, end) => Ok(List(b.cmd, r), end)
      else b
  }

  /** parsecmd: the whole line, or a panic. */
  function ParseCmd(s: string): Parsed
    requires Line(s)
  {
    match ParseLine(s, 0)
    case Panic => Panic
    case Ok(c, pos) => if Skip(s, pos) != |s| then Panic else Ok(c, |s|)
  }

  // ---- the words of a parsed command ----

  /** Every word of the tree is a word of the line. */
  ghost predicate WordsIn(s: string, c: Cmd<Span>) {
    match c
    case Exec(argv) => |argv| < MAXARGS && forall i :: 0 <= i < |argv| ==> IsWord(s, argv[i])
    case Redir(d, f, _) => IsWord(s, f) && WordsIn(s, d)
    case Pipe(l, r) => WordsIn(s, l) && WordsIn(s, r)
    case List(l, r) => WordsIn(s, l) && WordsIn(s, r)
    case Back(d) => WordsIn(s, d)
  }

  ghost predicate FilesIn(s: string, list: seq<Redirection>) {
    forall i :: 0 <= i < |list| ==> IsWord(s, list[i].file)
  }

  lemma {:induction false} RedirsIn(s: string, i: nat)
    requires i <= |s| && Line(s)
    ensures ParseRedirs(s, i).Redirs? ==> FilesIn(s, ParseRedirs(s, i).list)
    decreases |s| - i
  {
    var j := Skip(s, i);
    if Char(s, j) in "<>" {
      var t := GetToken(s, j);
      var f := GetToken(s, t.next);
      if f.ret == 'a' {
        RedirsIn(s, f.next);
      }
    }
  }

  lemma {:induction false} WrapIn(s: string, c: Cmd<Span>, list: seq<Redirection>)
    requires WordsIn(s, c) && FilesIn(s, list)
    ensures WordsIn(s, Wrap(c, list))
    decreases |list|
  {
    if list != [] {
      WrapIn(s, Redir(c, list[0].file, list[0].mode), list[1..]);
    }
  }

  lemma {:induction false} ArgsIn(s: string, i: nat, argc: nat)
    requires i <= |s| && Line(s)
    ensures var r := ParseArgs(s, i, argc);
            r.Args? ==> FilesIn(s, r.list) && (forall k :: 0 <= k < |r.argv| ==> IsWord(s, r.argv[k]))
                        && (|r.argv| > 0 ==> argc + |r.argv| < MAXARGS)
    decreases |s| - i
  {
    hide IsWord, GetToken, Skip;
    var j := Skip(s, i);
    if Char(s, j) !in "|)&;" {
      var t := GetToken(s, j);
      if t.ret == 'a' && argc + 1 < MAXARGS {
        RedirsIn(s, t.next);
        match ParseRedirs(s, t.next)
        case NoFile =>
        case Redirs(list, pos) => ArgsIn(s, pos, argc + 1);
      }
    }
  }

  lemma {:induction false} ExecIn(s: string, i: nat)
    requires i <= |s| && Line(s)
    ensures ParseExec(s, i).Ok? ==> WordsIn(s, ParseExec(s, i).cmd)
    decreases |s| - i, 1
  {
    var j := Skip(s, i);
    if Char(s, j) == '(' {
      BlockIn(s, j);
    } else {
      RedirsIn(s, j);
      match ParseRedirs(s, j)
      case NoFile =>
      case Redirs(list, pos) =>
        ArgsIn(s, pos, 0);
        match ParseArgs(s, pos, 0)
        case BadArgs =>
        case Args(argv, rest, end) => WrapIn(s, Exec(argv), list + rest);
    }
  }

  lemma {:induction false} BlockIn(s: string, i: nat)
    requires i < |s| && Line(s) && s[i] == '('
    ensures ParseBlock(s, i).Ok? ==> WordsIn(s, ParseBlock(s, i).cmd)
    decreases |s| - i, 0
  {
    var t := GetToken(s, i);
    LineIn(s, t.next);
    match ParseLine(s, t.next)
    case Panic =>
    case Ok(c, pos) =>
      var k := Skip(s, pos);
      if Char(s, k) == ')' {
        RedirsIn(s, GetToken(s, k).next);
        match ParseRedirs(s, GetToken(s, k).next)
        case NoFile =>
        case Redirs(list, end) => WrapIn(s, c, list);
      }
  }

  lemma {:induction false} PipeIn(s: string, i: nat)
    requires i <= |s| && Line(s)
    ensures ParsePipe(s, i).Ok? ==> WordsIn(s, ParsePipe(s, i).cmd)
    decreases |s| - i, 2
  {
    ExecIn(s, i);
    match ParseExec(s, i)
    case Panic =>
    case Ok(l, pos) =>
      var j := Skip(s, pos);
      if Char(s, j) == '|' {
        PipeIn(s, GetToken(s, j).next);
      }
  }

  lemma {:induction false} BacksIn(s: string, i: nat, c: Cmd<Span>)
    requires i <= |s| && Line(s) && WordsIn(s, c)
    ensures WordsIn(s, ParseBacks(s, i, c).cmd)
    decreases |s| - i
  {
    var j := Skip(s, i);
    if Char(s, j) == '&' {
      BacksIn(s, GetToken(s, j).next, Back(c));
    }
  }

  lemma {:induction false} LineIn(s: string, i: nat)
    requires i <= |s| && Line(s)
    ensures ParseLine(s, i).Ok? ==> WordsIn(s, ParseLine(s, i).cmd)
    decreases |s| - i, 3
  {
    PipeIn(s, i);
    match ParsePipe(s, i)
    case Panic =>
    case Ok(p, pos) =>
      BacksIn(s, pos, p);
      var b := ParseBacks(s, pos, p);
      if Char(s, b.pos) == ';' {
        LineIn(s, GetToken(s, b.pos).next);
      }
  }
}

/** A printer for command trees, with parentheses where a tree stands where the grammar wants a smaller one,
    and the round trip through the parser. */
module ShellPrint {
  import opened ShellSyntax

  type Tree = Cmd<string>

  predicate ValidWord(w: string) { w != "" && forall k :: 0 <= k < |w| ==> WordChar(w[k]) }

  /** Trees the shell can be told: valid words, at most MAXARGS - 1 of them per Exec. */
  predicate Printable(c: Tree) {
    match c
    case Exec(argv) => |argv| < MAXARGS && forall i :: 0 <= i < |argv| ==> ValidWord(argv[i])
    case Redir(d, f, _) => ValidWord(f) && Printable(d)
    case Pipe(l, r) => Printable(l) && Printable(r)
    case List(l, r) => Printable(l) && Printable(r)
    case Back(d) => Printable(d)
  }

  function Level(c: Tree): nat {
    match c
    case Exec(_) => 0
    case Redir(_, _, _) => 0
    case Pipe(_, _) => 1
    case Back(_) => 2
    case List(_, _) => 3
  }

  function Sign(m: Mode): string { match m case In => "<" case Out => ">" case Append => ">>" }

  function WordsText(argv: seq<string>): string {
    if argv == [] then "" else if |argv| == 1 then argv[0] else argv[0] + (" " + WordsText(argv[1..]))
  }

  /** c where the grammar allows commands up to `level`: in parentheses if it binds less tightly. */
  function Print(level: nat, c: Tree): string
    decreases c, 1
  {
    if level < Level(c) then "(" + (Text(c) + ")") else Text(c)
  }

  function Text(c: Tree): string
    decreases c, 0
  {
    match c
    case Exec(argv) => WordsText(argv)
    case Redir(d, f, m) => Print(0, d) + (Sign(m) + f)
    case Pipe(l, r) => Print(0, l) + ("|" + Print(1, r))
    case Back(d) => Print(2, d) + "&"
    case List(l, r) => Print(2, l) + (";" + Print(3, r))
  }

  /** The span is a word of the line and spells w. */
  ghost predicate Says(s: string, p: Span, w: string) { IsWord(s, p) && s[p.q..p.eq] == w }

  /** A parsed tree with its spans read off the line. */
  function Read(s: string, c: Cmd<Span>): Tree
    requires WordsIn(s, c)
  {
    match c
    case Exec(argv) => Exec(seq(|argv|, i requires 0 <= i < |argv| => s[argv[i].q..argv[i].eq]))
    case Redir(d, f, m) => Redir(Read(s, d), s[f.q..f.eq], m)
    case Pipe(l, r) => Pipe(Read(s, l), Read(s, r))
    case List(l, r) => List(Read(s, l), Read(s, r))
    case Back(d) => Back(Read(s, d))
  }

  // ---- text in a line ----

  predicate Here(s: string, i: nat, t: string) { i + |t| <= |s| && s[i..i + |t|] == t }

  lemma Split(s: string, i: nat, a: string, b: string)
    requires Here(s, i, a + b)
    ensures Here(s, i, a) && Here(s, i + |a|, b)
  {
    assert s[i..i + |a|] == (a + b)[..|a|];
    assert s[i + |a|..i + |a| + |b|] == (a + b)[|a|..];
  }

  lemma At(s: string, i: nat, t: string, k: nat)
    requires Here(s, i, t) && k < |t|
    ensures Char(s, i + k) == t[k]
  {
    assert s[i..i + |t|][k] == t[k];
  }

  lemma SkipNone(s: string, i: nat)
    requires i <= |s| && !White(Char(s, i))
    ensures Skip(s, i) == i
  {
  }

  lemma {:induction false} WordEndAt(s: string, i: nat, w: string)
    requires Line(s) && Here(s, i, w) && (forall k :: 0 <= k < |w| ==> WordChar(w[k])) && !WordChar(Char(s, i + |w|))
    ensures WordEnd(s, i) == i + |w|
    decreases |w|
  {
    if |w| > 0 {
      At(s, i, w, 0);
      assert w == w[..1] + w[1..];
      Split(s, i, w[..1], w[1..]);
      WordEndAt(s, i + 1, w[1..]);
    } else {
      NotWord(s, i);
    }
  }

  lemma NotWord(s: string, i: nat)
    requires Line(s) && i <= |s| && !WordChar(Char(s, i))
    ensures WordEnd(s, i) == i
  {
    if i < |s| {
      assert s[i] in s;
    }
  }

  /** A word at i, followed by one non-word character: gettoken returns it. */
  lemma WordToken(s: string, i: nat, w: string)
    requires Line(s) && Here(s, i, w) && ValidWord(w) && !WordChar(Char(s, i + |w|))
    ensures GetToken(s, i) == Token('a', i, i + |w|, Skip(s, i + |w|)) && Says(s, Span(i, i + |w|), w)
  {
    hide Skip, WordEnd;
    At(s, i, w, 0);
    assert WordChar(w[0]);
    SkipNone(s, i);
    WordEndAt(s, i, w);
  }

  /** A one-character symbol at i. */
  lemma SymbolToken(s: string, i: nat, c: char)
    requires Line(s) && i < |s| && s[i] == c && c in "|();&<" && !White(Char(s, i + 1))
    ensures GetToken(s, i) == Token(c, i, i + 1, i + 1)
  {
    SkipNone(s, i);
    SkipNone(s, i + 1);
  }

  /** A redirection sign at i, followed by a word. */
  lemma SignToken(s: string, i: nat, m: Mode)
    requires Line(s) && Here(s, i, Sign(m)) && WordChar(Char(s, i + |Sign(m)|))
    ensures Char(s, i) in "<>" && Skip(s, i) == i
    ensures GetToken(s, i).next == i + |Sign(m)| && ModeOf(GetToken(s, i).ret) == m
  {
    At(s, i, Sign(m), 0);
    if m.Append? {
      At(s, i, Sign(m), 1);
    }
    SkipNone(s, i);
    SkipNone(s, i + |Sign(m)|);
  }

  // ---- redirections ----

  datatype Redirect = Redirect(file: string, mode: Mode)

  function RedirsText(list: seq<Redirect>): string {
    if list == [] then "" else (Sign(list[0].mode) + list[0].file) + RedirsText(list[1..])
  }

  predicate ValidFiles(list: seq<Redirect>) { forall i :: 0 <= i < |list| ==> ValidWord(list[i].file) }

  /** What may follow a command at exec level. */
  predicate Stops(c: char) { c == '\0' || c in "|)&;" }

  /** The parsed redirections read as these. */
  ghost predicate SameFiles(s: string, p: seq<Redirection>, list: seq<Redirect>) {
    |p| == |list| && forall i :: 0 <= i < |p| ==> Says(s, p[i].file, list[i].file) && p[i].mode == list[i].mode
  }

  lemma SameCons(s: string, w: Span, f: string, m: Mode, p: seq<Redirection>, list: seq<Redirect>)
    requires list != [] && list[0] == Redirect(f, m) && Says(s, w, f) && SameFiles(s, p, list[1..])
    ensures SameFiles(s, [Redirection(w, m)] + p, list)
  {
    hide Says;
    var r := [Redirection(w, m)] + p;
    forall x | 0 <= x < |r| ensures Says(s, r[x].file, list[x].file) && r[x].mode == list[x].mode {
      if x > 0 {
        assert r[x] == p[x - 1] && list[x] == list[1..][x - 1];
      }
    }
  }

  lemma RedirsCons(s: string, i: nat, w: Span, m: Mode, k: nat)
    requires Line(s) && i <= |s| && Skip(s, i) == i && Char(s, i) in "<>" && ModeOf(GetToken(s, i).ret) == m
    requires GetToken(s, GetToken(s, i).next) == Token('a', w.q, w.eq, k)
    requires ParseRedirs(s, k).Redirs?
    ensures ParseRedirs(s, i) == Redirs([Redirection(w, m)] + ParseRedirs(s, k).list, ParseRedirs(s, k).pos)
  {
    hide GetToken, Skip;
  }

  lemma RedirsStart(s: string, i: nat, list: seq<Redirect>)
    requires Here(s, i, RedirsText(list)) && Stops(Char(s, i + |RedirsText(list)|))
    ensures !White(Char(s, i)) && !WordChar(Char(s, i)) && Char(s, i) != '('
  {
    if list != [] {
      var a := Sign(list[0].mode) + list[0].file;
      Split(s, i, a, RedirsText(list[1..]));
      Split(s, i, Sign(list[0].mode), list[0].file);
      At(s, i, Sign(list[0].mode), 0);
    }
  }

  lemma {:induction false} RedirsBack(s: string, i: nat, list: seq<Redirect>)
    requires Line(s) && ValidFiles(list) && Here(s, i, RedirsText(list)) && Stops(Char(s, i + |RedirsText(list)|))
    ensures var r := ParseRedirs(s, i);
            r.Redirs? && r.pos == i + |RedirsText(list)| && SameFiles(s, r.list, list)
    decreases |list|
  {
    hide GetToken, Skip, WordChar, Says, SameFiles, ParseRedirs, Stops, ModeOf, White, Here, Sign, ValidFiles,
         ValidWord;
    RedirsStart(s, i, list);
    if list != [] {
      var m, f, rest := list[0].mode, list[0].file, RedirsText(list[1..]);
      ValidRest(list);
      Split(s, i, Sign(m) + f, rest);
      var k := i + |Sign(m)|;
      RedirsStart(s, k + |f|, list[1..]);
      OneRedir(s, i, m, f);
      RedirsBack(s, k + |f|, list[1..]);
      RedirsCons(s, i, Span(k, k + |f|), m, k + |f|);
      SameCons(s, Span(k, k + |f|), f, m, ParseRedirs(s, k + |f|).list, list);
    } else {
      HereEnds(s, i, "");
      SkipNone(s, i);
      NoRedirs(s, i);
    }
  }

  lemma ValidRest(list: seq<Redirect>)
    requires ValidFiles(list) && list != []
    ensures ValidWord(list[0].file) && ValidFiles(list[1..])
  {
    hide ValidWord;
  }

  lemma HereEnds(s: string, i: nat, t: string)
    requires Here(s, i, t)
    ensures i + |t| <= |s|
  {
  }

  /** One redirection: the sign, then the file's name. */
  lemma OneRedir(s: string, i: nat, m: Mode, f: string)
    requires Line(s) && ValidWord(f) && Here(s, i, Sign(m) + f)
    requires var c := Char(s, i + |Sign(m)| + |f|); !White(c) && !WordChar(c)
    ensures var k := i + |Sign(m)|;
            && k + |f| <= |s| && Skip(s, i) == i && Char(s, i) in "<>" && ModeOf(GetToken(s, i).ret) == m
            && GetToken(s, GetToken(s, i).next) == Token('a', k, k + |f|, k + |f|) && Says(s, Span(k, k + |f|), f)
  {
    hide GetToken, Skip, WordChar, Says, ModeOf, White, ValidWord;
    var k := i + |Sign(m)|;
    Split(s, i, Sign(m), f);
    FirstLetter(s, k, f);
    SignToken(s, i, m);
    WordToken(s, k, f);
    SkipNone(s, k + |f|);
  }

  lemma FirstLetter(s: string, i: nat, w: string)
    requires Here(s, i, w) && ValidWord(w)
    ensures WordChar(Char(s, i)) && i < |s|
  {
    At(s, i, w, 0);
  }

  lemma NoRedirs(s: string, i: nat)
    requires Line(s) && i <= |s| && Skip(s, i) == i && Stops(Char(s, i))
    ensures ParseRedirs(s, i) == Redirs([], i) && SameFiles(s, [], [])
  {
  }

  // ---- words ----

  ghost predicate SameWords(s: string, p: seq<Span>, argv: seq<string>) {
    |p| == |argv| && forall i :: 0 <= i < |p| ==> Says(s, p[i], argv[i])
  }

  predicate ValidWords(argv: seq<string>) { forall i :: 0 <= i < |argv| ==> ValidWord(argv[i]) }

  lemma SameWordsCons(s: string, w: Span, p: seq<Span>, argv: seq<string>)
    requires argv != [] && Says(s, w, argv[0]) && SameWords(s, p, argv[1..])
    ensures SameWords(s, [w] + p, argv)
  {
    hide Says;
    var r := [w] + p;
    forall x | 0 <= x < |r| ensures Says(s, r[x], argv[x]) {
      if x > 0 {
        assert r[x] == p[x - 1] && argv[x] == argv[1..][x - 1];
      }
    }
  }

  lemma SkipBlank(s: string, i: nat)
    requires i < |s| && s[i] == ' ' && !White(Char(s, i + 1))
    ensures Skip(s, i) == i + 1
  {
    SkipNone(s, i + 1);
  }

  lemma NoRedirsWord(s: string, i: nat)
    requires Line(s) && i <= |s| && WordChar(Char(s, i))
    ensures Skip(s, i) == i && ParseRedirs(s, i) == Redirs([], i) && !Stops(Char(s, i)) && Char(s, i) != '('
  {
    SkipNone(s, i);
  }

  lemma ArgsNone(s: string, i: nat, argc: nat)
    requires Line(s) && i <= |s| && Stops(Char(s, i))
    ensures ParseArgs(s, i, argc) == Args([], [], i)
  {
    SkipNone(s, i);
    if i < |s| {
      assert s[i] in s;
    }
  }

  /** One word, the redirections after it, then the rest. */
  lemma ArgsCons(s: string, i: nat, argc: nat, w: Span, k: nat)
    requires Line(s) && i <= |s| && Skip(s, i) == i && !Stops(Char(s, i)) && argc + 1 < MAXARGS
    requires GetToken(s, i) == Token('a', w.q, w.eq, k)
    requires ParseRedirs(s, k).Redirs? && ParseArgs(s, ParseRedirs(s, k).pos, argc + 1).Args?
    ensures var r, a := ParseRedirs(s, k), ParseArgs(s, ParseRedirs(s, k).pos, argc + 1);
            ParseArgs(s, i, argc) == Args([w] + a.argv, r.list + a.list, a.pos)
  {
    hide GetToken, Skip, ParseRedirs;
  }

  lemma OneWord(s: string, i: nat, w: string)
    requires Line(s) && ValidWord(w) && Here(s, i, w) && !WordChar(Char(s, i + |w|))
    ensures i + |w| <= |s| && Skip(s, i) == i && !Stops(Char(s, i))
    ensures GetToken(s, i) == Token('a', i, i + |w|, Skip(s, i + |w|)) && Says(s, Span(i, i + |w|), w)
  {
    hide GetToken, Says;
    FirstLetter(s, i, w);
    NoRedirsWord(s, i);
    WordToken(s, i, w);
  }

  lemma ValidWordsRest(argv: seq<string>)
    requires ValidWords(argv) && argv != []
    ensures ValidWord(argv[0]) && ValidWords(argv[1..])
  {
    hide ValidWord;
  }

  lemma {:induction false} ArgsBack(s: string, i: nat, argv: seq<string>, list: seq<Redirect>, argc: nat)
    requires Line(s) && ValidWords(argv) && ValidFiles(list) && argv != [] && argc + |argv| < MAXARGS
    requires Here(s, i, WordsText(argv) + RedirsText(list))
    requires Stops(Char(s, i + |WordsText(argv)| + |RedirsText(list)|))
    ensures var r := ParseArgs(s, i, argc);
            && r.Args? && r.pos == i + |WordsText(argv)| + |RedirsText(list)|
            && SameWords(s, r.argv, argv) && SameFiles(s, r.list, list)
    decreases |argv|
  {
    hide GetToken, Skip, Says, SameFiles, SameWords, ParseRedirs, ParseArgs, Stops, White, WordChar, Here, ValidWord,
         ValidFiles, ValidWords, RedirsText;
    var w, k := argv[0], i + |argv[0]|;
    ValidWordsRest(argv);
    Split(s, i, WordsText(argv), RedirsText(list));
    if |argv| == 1 {
      LastWord(s, i, w, list, argc);
      assert argv == [w];
    } else {
      var rest := WordsText(argv[1..]);
      Split(s, i, w, " " + rest);
      Split(s, k, " ", rest);
      BlankThen(s, k, rest, argv[1..]);
      assert (w + (" " + rest)) + RedirsText(list) == (w + " ") + (rest + RedirsText(list));
      Split(s, i, w + " ", rest + RedirsText(list));
      OneWord(s, i, w);
      ArgsBack(s, k + 1, argv[1..], list, argc + 1);
      ArgsCons(s, i, argc, Span(i, k), k + 1);
      var a := ParseArgs(s, k + 1, argc + 1);
      SameWordsCons(s, Span(i, k), a.argv, argv);
      assert [] + a.list == a.list;
    }
  }

  lemma LastWord(s: string, i: nat, w: string, list: seq<Redirect>, argc: nat)
    requires Line(s) && ValidWord(w) && ValidFiles(list) && argc + 1 < MAXARGS
    requires Here(s, i, w) && Here(s, i + |w|, RedirsText(list)) && Stops(Char(s, i + |w| + |RedirsText(list)|))
    ensures var r := ParseArgs(s, i, argc);
            r.Args? && r.pos == i + |w| + |RedirsText(list)| && SameWords(s, r.argv, [w]) && SameFiles(s, r.list, list)
  {
    hide GetToken, Skip, Says, SameFiles, ParseRedirs, ParseArgs, Stops, White, WordChar, Here, ValidWord, ValidFiles,
         RedirsText;
    var k := i + |w|;
    RedirsStart(s, k, list);
    OneWord(s, i, w);
    SkipNone(s, k);
    RedirsBack(s, k, list);
    var r := ParseRedirs(s, k);
    HereEnds(s, k, RedirsText(list));
    ArgsNone(s, r.pos, argc + 1);
    ArgsCons(s, i, argc, Span(i, k), k);
    assert r.list + [] == r.list;
  }

  /** A blank and then a word. */
  lemma BlankThen(s: string, k: nat, rest: string, argv: seq<string>)
    requires Line(s) && Here(s, k, " ") && Here(s, k + 1, rest) && rest == WordsText(argv) && argv != []
    requires ValidWords(argv)
    ensures !WordChar(Char(s, k)) && k + 1 <= |s| && Skip(s, k) == k + 1
    ensures ParseRedirs(s, k + 1) == Redirs([], k + 1)
  {
    hide ParseRedirs;
    At(s, k, " ", 0);
    assert ValidWord(argv[0]);
    if |argv| > 1 {
      Split(s, k + 1, argv[0], " " + WordsText(argv[1..]));
    }
    FirstLetter(s, k + 1, argv[0]);
    SkipBlank(s, k);
    NoRedirsWord(s, k + 1);
  }

  // ---- trees ----

  /** The parsed tree reads as c. */
  ghost predicate Reads(s: string, p: Cmd<Span>, c: Tree)
    decreases p
  {
    match p
    case Exec(a) => c.Exec? && SameWords(s, a, c.argv)
    case Redir(d, f, m) => c.Redir? && Reads(s, d, c.cmd) && Says(s, f, c.file) && m == c.mode
    case Pipe(l, r) => c.Pipe? && Reads(s, l, c.left) && Reads(s, r, c.right)
    case List(l, r) => c.List? && Reads(s, l, c.left) && Reads(s, r, c.right)
    case Back(d) => c.Back? && Reads(s, d, c.cmd)
  }

  function WrapTree(c: Tree, list: seq<Redirect>): Tree
    decreases |list|
  {
    if list == [] then c else WrapTree(Redir(c, list[0].file, list[0].mode), list[1..])
  }

  lemma {:induction false} WrapReads(s: string, p: Cmd<Span>, l: seq<Redirection>, c: Tree, list: seq<Redirect>)
    requires Reads(s, p, c) && SameFiles(s, l, list)
    ensures Reads(s, Wrap(p, l), WrapTree(c, list))
    decreases |l|
  {
    hide Says;
    if l != [] {
      WrapReads(s, Redir(p, l[0].file, l[0].mode), l[1..], Redir(c, list[0].file, list[0].mode), list[1..]);
    }
  }

  function Base(c: Tree): Tree { if c.Redir? then Base(c.cmd) else c }

  function Files(c: Tree): seq<Redirect> { if c.Redir? then Files(c.cmd) + [Redirect(c.file, c.mode)] else [] }

  lemma {:induction false} WrapSnoc(c: Tree, list: seq<Redirect>, x: Redirect)
    ensures WrapTree(c, list + [x]) == Redir(WrapTree(c, list), x.file, x.mode)
    decreases |list|
  {
    if list == [] {
      assert (list + [x])[1..] == [];
    } else {
      assert (list + [x])[1..] == list[1..] + [x];
      WrapSnoc(Redir(c, list[0].file, list[0].mode), list[1..], x);
    }
  }

  lemma {:induction false} WrapChain(c: Tree)
    ensures WrapTree(Base(c), Files(c)) == c
  {
    if c.Redir? {
      WrapChain(c.cmd);
      WrapSnoc(Base(c), Files(c.cmd), Redirect(c.file, c.mode));
    }
  }

  lemma {:induction false} RedirsTextSnoc(list: seq<Redirect>, x: Redirect)
    ensures RedirsText(list + [x]) == RedirsText(list) + (Sign(x.mode) + x.file)
  {
    if list == [] {
      assert (list + [x])[1..] == [];
      assert RedirsText([]) == "";
    } else {
      assert (list + [x])[1..] == list[1..] + [x];
      RedirsTextSnoc(list[1..], x);
    }
  }

  /** A chain of redirections prints as its base followed by the redirections in order. */
  lemma {:induction false} ChainText(c: Tree)
    ensures Print(0, c) == Print(0, Base(c)) + RedirsText(Files(c))
  {
    if c.Redir? {
      ChainText(c.cmd);
      RedirsTextSnoc(Files(c.cmd), Redirect(c.file, c.mode));
    } else {
      assert RedirsText(Files(c)) == "";
    }
  }

  lemma {:induction false} ChainPrintable(c: Tree)
    requires Printable(c)
    ensures Printable(Base(c)) && ValidFiles(Files(c)) && (c.Redir? ==> Base(c) < c)
  {
    if c.Redir? {
      ChainPrintable(c.cmd);
    }
  }

  /** A simple command: words, then redirections. */
  lemma SimpleBack(s: string, i: nat, argv: seq<string>, list: seq<Redirect>)
    requires Line(s) && ValidWords(argv) && ValidFiles(list) && |argv| < MAXARGS
    requires Here(s, i, WordsText(argv) + RedirsText(list))
    requires Stops(Char(s, i + |WordsText(argv)| + |RedirsText(list)|))
    ensures var r := ParseExec(s, i);
            && r.Ok? && r.pos == i + |WordsText(argv)| + |RedirsText(list)|
            && Reads(s, r.cmd, WrapTree(Exec(argv), list))
  {
    hide GetToken, Skip, Says, SameFiles, ParseRedirs, ParseArgs, Stops, White, WordChar, Here, ValidWord, ValidFiles,
         RedirsText, Wrap;
    if argv == [] {
      assert WordsText(argv) + RedirsText(list) == RedirsText(list);
      RedirsStart(s, i, list);
      HereEnds(s, i, RedirsText(list));
      SkipNone(s, i);
      RedirsBack(s, i, list);
      var r := ParseRedirs(s, i);
      ArgsNone(s, r.pos, 0);
      assert r.list + [] == r.list;
      WrapReads(s, Exec([]), r.list, Exec(argv), list);
    } else {
      WordsStart(s, i, argv, list);
      ArgsBack(s, i, argv, list, 0);
      var a := ParseArgs(s, i, 0);
      assert [] + a.list == a.list;
      WrapReads(s, Exec(a.argv), a.list, Exec(argv), list);
    }
  }

  lemma WordsStart(s: string, i: nat, argv: seq<string>, list: seq<Redirect>)
    requires Line(s) && ValidWords(argv) && argv != [] && Here(s, i, WordsText(argv) + RedirsText(list))
    ensures i <= |s| && Skip(s, i) == i && Char(s, i) != '(' && ParseRedirs(s, i) == Redirs([], i)
  {
    hide ParseRedirs;
    Split(s, i, WordsText(argv), RedirsText(list));
    assert ValidWord(argv[0]);
    if |argv| > 1 {
      Split(s, i, argv[0], " " + WordsText(argv[1..]));
    }
    FirstLetter(s, i, argv[0]);
    NoRedirsWord(s, i);
  }
}

/** parsecmd undoes the printer. */
module ShellRoundTrip {
  import opened ShellSyntax
  import opened ShellPrint

  /** Printed text starts with no white space. */
  lemma {:induction false} StartsBlack(level: nat, c: Tree)
    requires Printable(c)
    ensures Print(level, c) != "" ==> !White(Print(level, c)[0])
    decreases c
  {
    match c
    case Exec(argv) =>
      if argv != [] {
        assert ValidWord(argv[0]) && WordChar(argv[0][0]);
      }
    case Redir(d, f, m) => StartsBlack(0, d);
    case Pipe(l, r) => StartsBlack(0, l);
    case List(l, r) => StartsBlack(2, l);
    case Back(d) => StartsBlack(2, d);
  }

  /** So does the line where it stands, if no white space follows it. */
  lemma BlackHere(s: string, i: nat, level: nat, c: Tree)
    requires Printable(c) && Here(s, i, Print(level, c)) && !White(Char(s, i + |Print(level, c)|))
    ensures !White(Char(s, i)) && i <= |s|
  {
    hide White;
    StartsBlack(level, c);
    if Print(level, c) != "" {
      At(s, i, Print(level, c), 0);
    }
  }

  /** What may follow a command printed at each level. */
  predicate Follows(level: nat, c: char) {
    c == '\0' || c == ')' || (level < 3 && c == ';') || (level < 2 && c == '&') || (level < 1 && c == '|')
  }

  function Rank(level: nat, c: Tree): nat
    requires level <= 3
  {
    if level >= Level(c) then level - Level(c) else level + 4 - Level(c)
  }

  // ---- the shape of printed text ----

  function Core(c: Tree): Tree { if c.Back? then Core(c.cmd) else c }

  function Amps(c: Tree): string { if c.Back? then Amps(c.cmd) + "&" else "" }

  lemma {:induction false} BackText(c: Tree)
    ensures Print(2, c) == Print(1, Core(c)) + Amps(c)
  {
    if c.Back? {
      BackText(c.cmd);
    }
  }

  lemma {:induction false} CoreOk(c: Tree)
    requires Printable(c)
    ensures Printable(Core(c)) && (c.Back? ==> Core(c) < c) && !Core(c).Back?
  {
    if c.Back? {
      CoreOk(c.cmd);
    }
  }

  // ---- ampersands ----

  /** Back(...Back(p)) with as many layers as c has over its core. */
  function Layers(p: Cmd<Span>, c: Tree): Cmd<Span> { if c.Back? then Back(Layers(p, c.cmd)) else p }

  lemma {:induction false} LayersRead(s: string, p: Cmd<Span>, c: Tree)
    requires Reads(s, p, Core(c))
    ensures Reads(s, Layers(p, c), c)
    decreases c
  {
    if c.Back? {
      LayersRead(s, p, c.cmd);
    }
  }

  lemma {:induction false} BacksGo(s: string, i: nat, p: Cmd<Span>, c: Tree)
    requires Line(s) && Here(s, i, Amps(c)) && !White(Char(s, i + |Amps(c)|))
    ensures i + |Amps(c)| <= |s| && ParseBacks(s, i, p) == ParseBacks(s, i + |Amps(c)|, Layers(p, c))
    decreases c
  {
    hide GetToken;
    if c.Back? {
      Split(s, i, Amps(c.cmd), "&");
      At(s, i + |Amps(c.cmd)|, "&", 0);
      var k := i + |Amps(c.cmd)|;
      BacksGo(s, i, p, c.cmd);
      SkipNone(s, k);
      SymbolToken(s, k, '&');
    }
  }

  lemma BacksStop(s: string, i: nat, p: Cmd<Span>)
    requires Line(s) && i <= |s| && !White(Char(s, i)) && Char(s, i) != '&'
    ensures ParseBacks(s, i, p) == Ok(p, i)
  {
    SkipNone(s, i);
  }

  // ---- each level in turn ----

  lemma {:induction false} ExecBack(s: string, i: nat, c: Tree)
    requires Line(s) && Printable(c) && Here(s, i, Print(0, c)) && Follows(0, Char(s, i + |Print(0, c)|))
    ensures var r := ParseExec(s, i); r.Ok? && r.pos == i + |Print(0, c)| && Reads(s, r.cmd, c)
    decreases c, Rank(0, c)
  {
    hide ParseExec, ParseLine, Printable, ValidFiles, Here, Reads, Line, RedirsText, WrapTree, Text, WordsText;
    ChainText(c);
    ChainPrintable(c);
    WrapChain(c);
    var b, list := Base(c), Files(c);
    if b.Exec? {
      ExecWords(b);
      SimpleBack(s, i, b.argv, list);
    } else {
      BaseIs(c);
      BlockParts(s, i, b, list);
      LineBack(s, i + 1, b);
      BlockBack(s, i, b, list);
    }
  }

  lemma BlockParts(s: string, i: nat, b: Tree, list: seq<Redirect>)
    requires Print(0, b) == "(" + (Text(b) + ")") && Here(s, i, Print(0, b) + RedirsText(list))
    ensures var k := i + 1 + |Text(b)|;
            && Here(s, i, "(") && Here(s, i + 1, Text(b)) && Here(s, k, ")") && Here(s, k + 1, RedirsText(list))
            && Char(s, k) == ')' && |Print(0, b)| == |Text(b)| + 2
  {
    hide Here, Text, RedirsText, Print;
    Split(s, i, Print(0, b), RedirsText(list));
    Split(s, i, "(", Text(b) + ")");
    Split(s, i + 1, Text(b), ")");
    At(s, i + 1 + |Text(b)|, ")", 0);
  }

  lemma ExecWords(b: Tree)
    requires b.Exec? && Printable(b)
    ensures ValidWords(b.argv) && |b.argv| < MAXARGS && Print(0, b) == WordsText(b.argv)
  {
  }

  lemma {:induction false} BaseIs(c: Tree)
    ensures !Base(c).Redir? && (!c.Redir? ==> Base(c) == c)
    ensures !Base(c).Exec? ==> Print(0, Base(c)) == "(" + (Text(Base(c)) + ")") && Print(3, Base(c)) == Text(Base(c))
  {
    if c.Redir? {
      BaseIs(c.cmd);
    }
  }

  /** A block whose inside parses. */
  lemma BlockBack(s: string, i: nat, b: Tree, list: seq<Redirect>)
    requires Line(s) && Printable(b) && ValidFiles(list) && Here(s, i, "(") && Here(s, i + 1, Text(b))
    requires Print(3, b) == Text(b)
    requires var k := i + 1 + |Text(b)|;
             Here(s, k, ")") && Here(s, k + 1, RedirsText(list)) && Stops(Char(s, k + 1 + |RedirsText(list)|))
    requires var r := ParseLine(s, i + 1); r.Ok? && r.pos == i + 1 + |Text(b)| && Reads(s, r.cmd, b)
    ensures var r := ParseExec(s, i);
            r.Ok? && r.pos == i + 2 + |Text(b)| + |RedirsText(list)| && Reads(s, r.cmd, WrapTree(b, list))
  {
    hide Reads, Line, RedirsText, WrapTree, Wrap, GetToken, Skip, ParseRedirs, ParseLine, White, Printable, ValidFiles,
         Stops, Text;
    var k := i + 1 + |Text(b)|;
    At(s, i, "(", 0);
    At(s, k, ")", 0);
    BlackSign(s, i, '(');
    BlackSign(s, k, ')');
    BlackHere(s, i + 1, 3, b);
    SkipNone(s, i);
    SymbolToken(s, i, '(');
    RedirsStart(s, k + 1, list);
    SymbolToken(s, k, ')');
    SkipNone(s, k);
    RedirsBack(s, k + 1, list);
    WrapReads(s, ParseLine(s, i + 1).cmd, ParseRedirs(s, k + 1).list, b, list);
    BlockUnfold(s, i, k);
  }

  lemma BlackSign(s: string, i: nat, c: char)
    requires Char(s, i) == c && c in "()|&;"
    ensures !White(Char(s, i)) && i < |s|
  {
  }

  lemma BlockUnfold(s: string, i: nat, k: nat)
    requires Line(s) && i < |s| && s[i] == '(' && Skip(s, i) == i && GetToken(s, i).next == i + 1 && i + 1 <= k < |s|
    requires ParseLine(s, i + 1).Ok? && ParseLine(s, i + 1).pos == k && Skip(s, k) == k
    requires s[k] == ')' && GetToken(s, k).next == k + 1
    requires ParseRedirs(s, k + 1).Redirs?
    ensures ParseExec(s, i) == Ok(Wrap(ParseLine(s, i + 1).cmd, ParseRedirs(s, k + 1).list), ParseRedirs(s, k + 1).pos)
  {
    hide GetToken, Skip, ParseLine, ParseRedirs, Wrap;
  }

  lemma {:induction false} PipeBack(s: string, i: nat, c: Tree)
    requires Line(s) && Printable(c) && Here(s, i, Print(1, c)) && Follows(1, Char(s, i + |Print(1, c)|))
    ensures var r := ParsePipe(s, i); r.Ok? && r.pos == i + |Print(1, c)| && Reads(s, r.cmd, c)
    decreases c, Rank(1, c)
  {
    hide ParsePipe, ParseExec, Here, Reads, Line, GetToken, Skip, White, Text;
    if c.Pipe? {
      var k := i + |Print(0, c.left)|;
      assert Print(1, c) == Print(0, c.left) + ("|" + Print(1, c.right)) by { PipeText(c); }
      Split(s, i, Print(0, c.left), "|" + Print(1, c.right));
      Split(s, k, "|", Print(1, c.right));
      At(s, k, "|", 0);
      ExecBack(s, i, c.left);
      PipeBack(s, k + 1, c.right);
      BlackSign(s, k, '|');
      FollowBlack(1, Char(s, k + 1 + |Print(1, c.right)|), s, k + 1 + |Print(1, c.right)|);
      BlackHere(s, k + 1, 1, c.right);
      SkipNone(s, k);
      SymbolToken(s, k, '|');
      PipeUnfold(s, i, k);
      PipeReads(s, ParseExec(s, i).cmd, ParsePipe(s, k + 1).cmd, c);
    } else {
      assert Print(1, c) == Print(0, c);
      ExecBack(s, i, c);
      var k := i + |Print(0, c)|;
      HereEnds(s, i, Print(0, c));
      FollowBlack(1, Char(s, k), s, k);
      SkipNone(s, k);
      PipeUnfold(s, i, k);
    }
  }

  lemma PipeText(c: Tree)
    requires c.Pipe?
    ensures Print(1, c) == Print(0, c.left) + ("|" + Print(1, c.right))
  {
  }

  lemma FollowBlack(level: nat, c: char, s: string, k: nat)
    requires Follows(level, c) && c == Char(s, k)
    ensures !White(Char(s, k))
  {
  }

  lemma PipeUnfold(s: string, i: nat, k: nat)
    requires Line(s) && i <= |s| && ParseExec(s, i).Ok? && ParseExec(s, i).pos == k && Skip(s, k) == k
    requires Char(s, k) == '|' ==> GetToken(s, k).next == k + 1 && k + 1 <= |s| && ParsePipe(s, k + 1).Ok?
    ensures ParsePipe(s, i) == if Char(s, k) == '|'
                               then Ok(Pipe(ParseExec(s, i).cmd, ParsePipe(s, k + 1).cmd), ParsePipe(s, k + 1).pos)
                               else ParseExec(s, i)
  {
    hide GetToken, Skip, ParseExec;
  }

  lemma PipeReads(s: string, l: Cmd<Span>, r: Cmd<Span>, c: Tree)
    requires c.Pipe? && Reads(s, l, c.left) && Reads(s, r, c.right)
    ensures Reads(s, Pipe(l, r), c)
  {
  }

  /** A pipeline and its ampersands. */
  lemma {:induction false} AmpsBack(s: string, i: nat, c: Tree)
    requires Line(s) && Printable(c) && Here(s, i, Print(2, c)) && Follows(2, Char(s, i + |Print(2, c)|))
    ensures var p := ParsePipe(s, i);
            && i <= |s| && p.Ok?
            && var b := ParseBacks(s, p.pos, p.cmd); b.pos == i + |Print(2, c)| && Reads(s, b.cmd, c)
    decreases c, Rank(2, c)
  {
    hide ParsePipe, ParseBacks, Here, Reads, Line, Printable, White;
    BackText(c);
    CoreOk(c);
    var d := Core(c);
    Split(s, i, Print(1, d), Amps(c));
    var k := i + |Print(1, d)|;
    AmpsStart(s, k, c);
    PipeBack(s, i, d);
    var p := ParsePipe(s, i);
    FollowBlack(2, Char(s, k + |Amps(c)|), s, k + |Amps(c)|);
    BacksGo(s, k, p.cmd, c);
    BacksStop(s, k + |Amps(c)|, Layers(p.cmd, c));
    LayersRead(s, p.cmd, c);
  }

  lemma {:induction false} AmpsStart(s: string, k: nat, c: Tree)
    requires Here(s, k, Amps(c)) && Follows(2, Char(s, k + |Amps(c)|))
    ensures Follows(1, Char(s, k))
    decreases c
  {
    if c.Back? {
      Split(s, k, Amps(c.cmd), "&");
      At(s, k + |Amps(c.cmd)|, "&", 0);
      AmpsAll(c);
      At(s, k, Amps(c), 0);
    }
  }

  lemma {:induction false} AmpsAll(c: Tree)
    ensures forall x :: 0 <= x < |Amps(c)| ==> Amps(c)[x] == '&'
  {
    if c.Back? {
      AmpsAll(c.cmd);
    }
  }

  lemma {:induction false} LineBack(s: string, i: nat, c: Tree)
    requires Line(s) && Printable(c) && Here(s, i, Print(3, c)) && Follows(3, Char(s, i + |Print(3, c)|))
    ensures var r := ParseLine(s, i); r.Ok? && r.pos == i + |Print(3, c)| && Reads(s, r.cmd, c)
    decreases c, Rank(3, c)
  {
    hide ParsePipe, ParseBacks, ParseLine, Here, Reads, Line, GetToken, White, Text;
    if c.List? {
      var k := i + |Print(2, c.left)|;
      assert Print(3, c) == Print(2, c.left) + (";" + Print(3, c.right)) by { ListText(c); }
      Split(s, i, Print(2, c.left), ";" + Print(3, c.right));
      Split(s, k, ";", Print(3, c.right));
      At(s, k, ";", 0);
      AmpsBack(s, i, c.left);
      LineBack(s, k + 1, c.right);
      BlackSign(s, k, ';');
      FollowBlack(3, Char(s, k + 1 + |Print(3, c.right)|), s, k + 1 + |Print(3, c.right)|);
      BlackHere(s, k + 1, 3, c.right);
      SymbolToken(s, k, ';');
      LineUnfold(s, i, k);
      var p := ParsePipe(s, i);
      ListReads(s, ParseBacks(s, p.pos, p.cmd).cmd, ParseLine(s, k + 1).cmd, c);
    } else {
      assert Print(3, c) == Print(2, c);
      AmpsBack(s, i, c);
      LineUnfold(s, i, i + |Print(3, c)|);
    }
  }

  lemma ListText(c: Tree)
    requires c.List?
    ensures Print(3, c) == Print(2, c.left) + (";" + Print(3, c.right))
  {
  }

  lemma ListReads(s: string, l: Cmd<Span>, r: Cmd<Span>, c: Tree)
    requires c.List? && Reads(s, l, c.left) && Reads(s, r, c.right)
    ensures Reads(s, List(l, r), c)
  {
  }

  lemma LineUnfold(s: string, i: nat, k: nat)
    requires Line(s) && i <= |s| && ParsePipe(s, i).Ok?
    requires var p := ParsePipe(s, i); ParseBacks(s, p.pos, p.cmd).pos == k
    requires Char(s, k) == ';' ==> GetToken(s, k).next == k + 1 && k + 1 <= |s| && ParseLine(s, k + 1).Ok?
    ensures var p := ParsePipe(s, i);
            var b := ParseBacks(s, p.pos, p.cmd);
            ParseLine(s, i) == if Char(s, k) != ';' then b
                               else Ok(List(b.cmd, ParseLine(s, k + 1).cmd), ParseLine(s, k + 1).pos)
  {
    hide GetToken, ParsePipe, ParseBacks;
  }

  // ---- the round trip ----

  lemma {:induction false} ReadsRead(s: string, p: Cmd<Span>, c: Tree)
    requires Reads(s, p, c) && Printable(c)
    ensures WordsIn(s, p) && Read(s, p) == c
    decreases p
  {
    match p
    case Exec(a) => SameArgs(s, a, c);
    case Redir(d, f, m) => ReadsRead(s, d, c.cmd);
    case Pipe(l, r) =>
      ReadsRead(s, l, c.left);
      ReadsRead(s, r, c.right);
    case List(l, r) =>
      ReadsRead(s, l, c.left);
      ReadsRead(s, r, c.right);
    case Back(d) => ReadsRead(s, d, c.cmd);
  }

  lemma SameArgs(s: string, a: seq<Span>, c: Tree)
    requires c.Exec? && SameWords(s, a, c.argv) && Printable(c)
    ensures WordsIn(s, Exec(a)) && Read(s, Exec(a)) == c
  {
    var t := Read(s, Exec(a));
    assert t.argv == c.argv;
  }

  lemma {:induction false} PrintLine(level: nat, c: Tree)
    requires Printable(c)
    ensures Line(Print(level, c)) && Line(Text(c))
    decreases c
  {
    match c
    case Exec(argv) => WordsLine(argv);
    case Redir(d, f, m) => PrintLine(0, d);
    case Pipe(l, r) =>
      PrintLine(0, l);
      PrintLine(1, r);
    case List(l, r) =>
      PrintLine(2, l);
      PrintLine(3, r);
    case Back(d) => PrintLine(2, d);
  }

  lemma {:induction false} WordsLine(argv: seq<string>)
    requires ValidWords(argv)
    ensures Line(WordsText(argv))
  {
    if argv != [] {
      assert ValidWord(argv[0]);
      if |argv| > 1 {
        WordsLine(argv[1..]);
      }
    }
  }

  /** Parsing what the printer wrote gives the tree back, for every tree the shell can be told. */
  lemma RoundTrip(c: Tree)
    requires Printable(c)
    ensures var s := Print(3, c);
            && Line(s) && ParseCmd(s).Ok? && WordsIn(s, ParseCmd(s).cmd) && Read(s, ParseCmd(s).cmd) == c
  {
    hide ParseLine, Reads, Text, Read, WordsIn, Line;
    var s := Print(3, c);
    PrintLine(3, c);
    assert s[0..|s|] == s;
    LineBack(s, 0, c);
    SkipNone(s, |s|);
    ReadsRead(s, ParseLine(s, 0).cmd, c);
  }

  lemma {:induction false} ReadPrintable(s: string, c: Cmd<Span>)
    requires WordsIn(s, c)
    ensures Printable(Read(s, c))
  {
    match c
    case Exec(argv) =>
      forall k | 0 <= k < |argv| ensures ValidWord(s[argv[k].q..argv[k].eq]) {
        assert IsWord(s, argv[k]);
      }
    case Redir(d, f, m) => ReadPrintable(s, d);
    case Pipe(l, r) =>
      ReadPrintable(s, l);
      ReadPrintable(s, r);
    case List(l, r) =>
      ReadPrintable(s, l);
      ReadPrintable(s, r);
    case Back(d) => ReadPrintable(s, d);
  }

  /** Every tree the parser makes of any line can be printed, so printing it and parsing that gives
      the tree again: RoundTrip covers all that the shell can be told. */
  lemma Reprinted(s: string)
    requires Line(s) && ParseCmd(s).Ok?
    ensures WordsIn(s, ParseCmd(s).cmd)
    ensures var c := Read(s, ParseCmd(s).cmd);
            && Printable(c) && Line(Print(3, c)) && ParseCmd(Print(3, c)).Ok?
            && WordsIn(Print(3, c), ParseCmd(Print(3, c)).cmd)
            && Read(Print(3, c), ParseCmd(Print(3, c)).cmd) == c
  {
    hide Printable, Read, WordsIn, ParseLine, Print;
    LineIn(s, 0);
    ReadPrintable(s, ParseCmd(s).cmd);
    RoundTrip(Read(s, ParseCmd(s).cmd));
  }
}

/** Printing a command tree with full parentheses and parsing it again gives the tree. */
module ShellRoundTrip {
  import opened Shell

  predicate PlainWord(w: string) {
    |w| > 0 && forall k :: 0 <= k < |w| ==> Plain(w[k])
  }

  /** Trees the shell can be told: words are plain, and a simple command has at most
      MAXARGS - 1 of them. */
  predicate Printable(c: Cmd<string>) {
    match c
    case Exec(argv) => |argv| < MAXARGS && forall i :: 0 <= i < |argv| ==> PlainWord(argv[i])
    case Redir(d, file, mode, fd) => Printable(d) && PlainWord(file) && KnownRedir(mode, fd)
    case Pipe(l, r) => Printable(l) && Printable(r)
    case List(l, r) => Printable(l) && Printable(r)
    case Back(d) => Printable(d)
  }

  function Words(ws: seq<string>): string {
    if ws == [] then "" else ws[0] + " " + Words(ws[1..])
  }

  function Operator(mode: int): string {
    if mode == O_RDONLY then "<" else if mode == O_WRONLY + O_CREATE + O_TRUNC then ">" else ">>"
  }

  function Parens(t: string): string {
    "(" + t + ")"
  }

  function Print(c: Cmd<string>): string {
    match c
    case Exec(argv) => Words(argv)
    case Redir(d, file, mode, _) => Parens(Print(d)) + (Operator(mode) + (file + " "))
    case Pipe(l, r) => Parens(Print(l)) + ("|" + Parens(Print(r)))
    case List(l, r) => Parens(Print(l)) + (";" + Parens(Print(r)))
    case Back(d) => Parens(Print(d)) + "&"
  }

  function Text(s: string, w: Span): string {
    if w.q <= w.eq <= |s| then s[w.q..w.eq] else ""
  }

  function Texts(s: string, ws: seq<Span>): (r: seq<string>)
    ensures |r| == |ws|
  {
    if ws == [] then [] else [Text(s, ws[0])] + Texts(s, ws[1..])
  }

  /** The tree with its words read off the line. */
  function Resolve(s: string, c: Cmd<Span>): Cmd<string> {
    match c
    case Exec(argv) => Exec(Texts(s, argv))
    case Redir(d, file, mode, fd) => Redir(Resolve(s, d), Text(s, file), mode, fd)
    case Pipe(l, r) => Pipe(Resolve(s, l), Resolve(s, r))
    case List(l, r) => List(Resolve(s, l), Resolve(s, r))
    case Back(d) => Back(Resolve(s, d))
  }

  /** Text t stands at position p of the line. */
  predicate At(s: string, p: nat, t: string) {
    p + |t| <= |s| && s[p..p + |t|] == t
  }

  /** What may follow a complete line: its end, or a closing parenthesis. */
  predicate Closed(s: string, e: nat) {
    e == |s| || (e < |s| && s[e] == ')')
  }

  lemma AtSplit(s: string, p: nat, t: string, u: string)
    requires At(s, p, t + u)
    ensures At(s, p, t) && At(s, p + |t|, u)
  {
    assert s[p..p + |t|] == (t + u)[..|t|];
    assert s[p + |t|..p + |t| + |u|] == (t + u)[|t|..];
  }

  lemma AtChar(s: string, p: nat, t: string, k: nat)
    requires At(s, p, t) && k < |t|
    ensures p + k < |s| && s[p + k] == t[k]
  {
    assert s[p..p + |t|][k] == t[k];
  }

  lemma {:induction false} WordEndIs(s: string, p: nat, e: nat)
    requires p <= e <= |s| && (forall k :: p <= k < e ==> !Space(s[k]) && !Symbol(s[k]))
    requires e == |s| || Space(s[e]) || Symbol(s[e])
    ensures WordEnd(s, p) == e
    decreases e - p
  {
    if p < e {
      WordEndIs(s, p + 1, e);
    }
  }

  /** A word and a space, then something that is not a space. */
  lemma WordToken(s: string, p: nat, w: string)
    requires At(s, p, w + " ") && PlainWord(w)
    requires var e := p + |w| + 1; e == |s| || !Space(s[e])
    ensures p < |s| && Plain(s[p])
    ensures GetToken(s, p) == Token('a', p, p + |w|, p + |w| + 1) && Text(s, Span(p, p + |w|)) == w
  {
    AtSplit(s, p, w, " ");
    forall k | p <= k < p + |w| ensures Plain(s[k]) {
      AtChar(s, p, w, k - p);
    }
    AtChar(s, p + |w|, " ", 0);
    WordEndIs(s, p, p + |w|);
    var e := p + |w| + 1;
    assert Skip(s, e) == e;
  }

  lemma NoRedirs(s: string, p: nat)
    requires p <= |s| && (p == |s| || (!Space(s[p]) && s[p] != '<' && s[p] != '>'))
    ensures ParseRedirs(s, p) == Ok([], p)
  {
  }

  function SpansOf(p: nat, ws: seq<string>): seq<Span>
    decreases |ws|
  {
    if ws == [] then [] else [Span(p, p + |ws[0]|)] + SpansOf(p + |ws[0]| + 1, ws[1..])
  }

  lemma WordsStart(s: string, p: nat, ws: seq<string>)
    requires At(s, p, Words(ws)) && Closed(s, p + |Words(ws)|)
    requires forall i :: 0 <= i < |ws| ==> PlainWord(ws[i])
    ensures p <= |s| && (p == |s| || s[p] == ')' || Plain(s[p]))
    ensures ws != [] ==> p < |s| && Plain(s[p])
  {
    if ws != [] {
      assert Words(ws) == ws[0] + (" " + Words(ws[1..]));
      AtChar(s, p, Words(ws), 0);
    }
  }

  lemma ArgsStop(s: string, p: nat, sofar: Simple)
    requires p <= |s| && Closed(s, p)
    ensures ParseArgs(s, p, sofar) == Ok(sofar, p)
  {
  }

  lemma PeekPlain(s: string, p: nat)
    requires p < |s| && Plain(s[p])
    ensures Peek(s, p, "|)&;") == (false, p) && Peek(s, p, "(") == (false, p)
  {
  }

  lemma ArgStep(s: string, p: nat, w: string, args: seq<Span>)
    requires At(s, p, w + " ") && PlainWord(w) && |args| + 1 < MAXARGS
    requires var e := p + |w| + 1; e == |s| || (!Space(s[e]) && s[e] != '<' && s[e] != '>')
    ensures ParseArgs(s, p, Simple(args, [])) == ParseArgs(s, p + |w| + 1, Simple(args + [Span(p, p + |w|)], []))
    ensures Text(s, Span(p, p + |w|)) == w
  {
    hide PlainWord, At, GetToken, ParseRedirs, ParseArgs, Peek, Plain, Text, Space;
    WordToken(s, p, w);
    PeekPlain(s, p);
    NoRedirs(s, p + |w| + 1);
    ArgTaken(s, p, Simple(args, []));
    assert Simple(args, []).redirs + [] == [];
  }

  /** parseexec's loop takes the word it is at. */
  lemma ArgTaken(s: string, p: nat, sofar: Simple)
    requires p <= |s| && Peek(s, p, "|)&;") == (false, p) && GetToken(s, p).kind == 'a' && |sofar.args| + 1 < MAXARGS
    requires ParseRedirs(s, GetToken(s, p).next).Ok?
    ensures var t := GetToken(s, p);
            var rs := ParseRedirs(s, t.next);
            ParseArgs(s, p, sofar) == ParseArgs(s, rs.pos, Simple(sofar.args + [Span(t.q, t.eq)], sofar.redirs + rs.value))
  {
    hide GetToken, ParseRedirs, Peek, Space, Skip;
  }

  lemma WordsCons(ws: seq<string>)
    requires ws != []
    ensures Words(ws) == (ws[0] + " ") + Words(ws[1..]) && |Words(ws)| == |ws[0]| + 1 + |Words(ws[1..])|
  {
  }

  lemma SpansCons(s: string, p: nat, ws: seq<string>, args: seq<Span>)
    requires ws != []
    ensures var first, p1 := Span(p, p + |ws[0]|), p + |ws[0]| + 1;
            && args + [first] + SpansOf(p1, ws[1..]) == args + SpansOf(p, ws)
            && Texts(s, SpansOf(p, ws)) == [Text(s, first)] + Texts(s, SpansOf(p1, ws[1..]))
  {
    var first, p1 := Span(p, p + |ws[0]|), p + |ws[0]| + 1;
    assert ([first] + SpansOf(p1, ws[1..]))[1..] == SpansOf(p1, ws[1..]);
  }

  lemma {:induction false} ArgsOk(s: string, p: nat, ws: seq<string>, args: seq<Span>)
    requires At(s, p, Words(ws)) && Closed(s, p + |Words(ws)|)
    requires (forall i :: 0 <= i < |ws| ==> PlainWord(ws[i])) && |args| + |ws| < MAXARGS
    ensures p <= |s| && ParseArgs(s, p, Simple(args, [])) == Ok(Simple(args + SpansOf(p, ws), []), p + |Words(ws)|)
    ensures Texts(s, SpansOf(p, ws)) == ws
    decreases |ws|
  {
    hide ParseArgs, PlainWord, Words, SpansOf, Texts, Text, Closed;
    if ws == [] {
      ArgsNone(s, p, ws, args);
    } else {
      ArgsMore(s, p, ws, args);
      ArgsOk(s, p + |ws[0]| + 1, ws[1..], args + [Span(p, p + |ws[0]|)]);
      SpansCons(s, p, ws, args);
      WordsCons(ws);
    }
  }

  lemma ArgsNone(s: string, p: nat, ws: seq<string>, args: seq<Span>)
    requires ws == [] && p <= |s| && Closed(s, p + |Words(ws)|)
    ensures ParseArgs(s, p, Simple(args, [])) == Ok(Simple(args + SpansOf(p, ws), []), p + |Words(ws)|)
    ensures Texts(s, SpansOf(p, ws)) == ws
  {
    assert args + [] == args;
    ArgsStop(s, p, Simple(args, []));
  }

  lemma ArgsMore(s: string, p: nat, ws: seq<string>, args: seq<Span>)
    requires ws != [] && At(s, p, Words(ws)) && Closed(s, p + |Words(ws)|)
    requires (forall i :: 0 <= i < |ws| ==> PlainWord(ws[i])) && |args| + |ws| < MAXARGS
    ensures var p1 := p + |ws[0]| + 1;
            && At(s, p1, Words(ws[1..])) && p1 + |Words(ws[1..])| == p + |Words(ws)|
            && ParseArgs(s, p, Simple(args, [])) == ParseArgs(s, p1, Simple(args + [Span(p, p + |ws[0]|)], []))
            && Text(s, Span(p, p + |ws[0]|)) == ws[0]
  {
    hide ParseArgs, PlainWord, Words;
    WordsCons(ws);
    AtSplit(s, p, ws[0] + " ", Words(ws[1..]));
    WordsStart(s, p + |ws[0]| + 1, ws[1..]);
    ArgStep(s, p, ws[0], args);
  }

  /** A closed simple command. */
  lemma ExecOk(s: string, p: nat, ws: seq<string>)
    requires At(s, p, Words(ws)) && Closed(s, p + |Words(ws)|)
    requires (forall i :: 0 <= i < |ws| ==> PlainWord(ws[i])) && |ws| < MAXARGS
    ensures ParseExec(s, p) == Ok(Exec(SpansOf(p, ws)), p + |Words(ws)|)
    ensures Resolve(s, Exec(SpansOf(p, ws))) == Exec(ws)
  {
    hide ParseArgs, ParseRedirs, ParseBlock, PlainWord, Words, SpansOf, Texts;
    WordsStart(s, p, ws);
    assert Peek(s, p, "(") == (false, p);
    NoRedirs(s, p);
    ArgsOk(s, p, ws, []);
    assert [] + SpansOf(p, ws) == SpansOf(p, ws);
  }

  /** After a complete ParseExec, a character other than |, & and ; ends the line. */
  lemma LineEnds(s: string, p: nat, c: Cmd<Span>, e: nat)
    requires p <= |s| && ParseExec(s, p) == Ok(c, e) && Closed(s, e)
    ensures ParsePipe(s, p) == Ok(c, e) && ParseLine(s, p) == Ok(c, e)
  {
    hide ParseExec;
    assert Skip(s, e) == e;
  }

  /** A parenthesised line, then what parseredirs finds. */
  lemma BlockOk(s: string, p: nat, c: Cmd<Span>, e: nat)
    requires p < |s| && s[p] == '(' && e < |s| && s[e] == ')' && p < e
    requires Skip(s, p + 1) == p + 1 && Skip(s, e + 1) == e + 1
    requires ParseLine(s, p + 1) == Ok(c, e)
    ensures ParseExec(s, p) == (var rs := ParseRedirs(s, e + 1);
                                if rs.Panic? then Panic(rs.msg) else Ok(Apply(c, rs.value), rs.pos))
  {
    hide ParseLine, ParseRedirs, ParseArgs, Apply;
    assert Skip(s, p) == p && Skip(s, e) == e;
    assert GetToken(s, p) == Token('(', p, p + 1, p + 1);
    assert GetToken(s, e) == Token(')', e, e + 1, e + 1);
    assert Peek(s, p, "(") == (true, p) && Peek(s, e, ")") == (true, e);
  }

  /** Neither a space nor the start of a redirection. */
  predicate Break(s: string, e: nat) {
    e == |s| || (e < |s| && !Space(s[e]) && s[e] != '<' && s[e] != '>')
  }

  lemma ParensAt(s: string, p: nat, t: string)
    requires At(s, p, Parens(t))
    ensures p + |t| + 1 < |s| && s[p] == '(' && s[p + |t| + 1] == ')' && At(s, p + 1, t)
  {
    AtChar(s, p, Parens(t), 0);
    AtChar(s, p, Parens(t), |t| + 1);
    assert Parens(t) == "(" + (t + ")");
    AtSplit(s, p, "(", t + ")");
    AtSplit(s, p + 1, t, ")");
  }

  /** A printed tree does not start with a space. */
  lemma PrintStart(s: string, p: nat, c: Cmd<string>)
    requires Printable(c) && At(s, p, Print(c)) && Closed(s, p + |Print(c)|)
    ensures p <= |s| && Break(s, p) && Skip(s, p) == p
  {
    if c.Exec? {
      WordsStart(s, p, c.argv);
    } else {
      assert Print(c)[0] == '(';
      AtChar(s, p, Print(c), 0);
    }
  }

  /** A parenthesised line and the redirections after it. */
  lemma BlockThen(s: string, p: nat, t: string, c: Cmd<Span>, rs: seq<Redirection>, e: nat)
    requires At(s, p, Parens(t)) && p + |t| + 2 <= |s| && Skip(s, p + |t| + 2) == p + |t| + 2
    requires Skip(s, p + 1) == p + 1 && ParseLine(s, p + 1) == Ok(c, p + |t| + 1)
    requires ParseRedirs(s, p + |t| + 2) == Ok(rs, e)
    ensures ParseExec(s, p) == Ok(Apply(c, rs), e)
  {
    hide ParseLine, ParseExec, ParseRedirs, At, Apply;
    ParensAt(s, p, t);
    BlockOk(s, p, c, p + |t| + 1);
  }

  /** `<`, `>` or `>>` and a file name. */
  lemma RedirOk(s: string, q: nat, mode: int, fd: int, file: string)
    requires At(s, q, Operator(mode) + (file + " ")) && PlainWord(file) && KnownRedir(mode, fd)
    requires Break(s, q + |Operator(mode)| + |file| + 1)
    ensures q <= |s|
    ensures var f := q + |Operator(mode)|;
            && ParseRedirs(s, q) == Ok([Redirection(Span(f, f + |file|), mode, fd)], f + |file| + 1)
            && Text(s, Span(f, f + |file|)) == file
    ensures Skip(s, q) == q
  {
    hide PlainWord, WordEnd, Text, At, GetToken, Peek, Plain, Operator, Skip;
    var f := q + |Operator(mode)|;
    AtSplit(s, q, Operator(mode), file + " ");
    OperatorToken(s, q, mode, file);
    WordToken(s, f, file);
    NoRedirs(s, f + |file| + 1);
    var r := Redirection(Span(f, f + |file|), mode, fd);
    assert [r] + [] == [r];
  }

  lemma OperatorToken(s: string, q: nat, mode: int, file: string)
    requires At(s, q, Operator(mode)) && At(s, q + |Operator(mode)|, file + " ") && PlainWord(file)
    ensures q < |s| && Peek(s, q, "<>") == (true, q)
    ensures var t := GetToken(s, q);
            && t.next == q + |Operator(mode)|
            && t.kind == (if mode == O_RDONLY then '<' else if mode == O_WRONLY + O_CREATE + O_TRUNC then '>' else '+')
  {
    hide WordEnd;
    var f := q + |Operator(mode)|;
    AtChar(s, q, Operator(mode), 0);
    AtChar(s, f, file + " ", 0);
    assert Plain(file[0]);
    if |Operator(mode)| == 2 {
      AtChar(s, q, Operator(mode), 1);
    }
    assert Skip(s, f) == f;
  }

  /** A bar between two commands. */
  lemma PipeOk(s: string, p: nat, l: Cmd<Span>, e: nat, r: Cmd<Span>, e2: nat)
    requires p <= |s| && ParseExec(s, p) == Ok(l, e) && e + 1 < |s| && s[e] == '|' && s[e + 1] == '('
    requires ParseExec(s, e + 1) == Ok(r, e2) && Closed(s, e2)
    ensures ParseLine(s, p) == Ok(Pipe(l, r), e2)
  {
    hide ParseExec;
    LineEnds(s, e + 1, r, e2);
    assert Peek(s, e, "|") == (true, e);
    assert GetToken(s, e) == Token('|', e, e + 1, e + 1);
    assert ParsePipe(s, p) == Ok(Pipe(l, r), e2);
    assert Skip(s, e2) == e2;
  }

  /** A semicolon between two commands. */
  lemma ListOk(s: string, p: nat, l: Cmd<Span>, e: nat, r: Cmd<Span>, e2: nat)
    requires p <= |s| && ParseExec(s, p) == Ok(l, e) && e + 1 < |s| && s[e] == ';' && s[e + 1] == '('
    requires ParseExec(s, e + 1) == Ok(r, e2) && Closed(s, e2)
    ensures ParseLine(s, p) == Ok(List(l, r), e2)
  {
    hide ParseExec;
    LineEnds(s, e + 1, r, e2);
    assert Skip(s, e) == e;
    assert ParsePipe(s, p) == Ok(l, e);
    assert Peek(s, e, ";") == (true, e);
    assert GetToken(s, e) == Token(';', e, e + 1, e + 1);
  }

  /** A command sent to the background. */
  lemma BackOk(s: string, p: nat, c: Cmd<Span>, e: nat)
    requires p <= |s| && ParseExec(s, p) == Ok(c, e) && e < |s| && s[e] == '&' && Closed(s, e + 1)
    ensures ParseLine(s, p) == Ok(Back(c), e + 1)
  {
    hide ParseExec;
    assert Skip(s, e) == e && Skip(s, e + 1) == e + 1;
    assert ParsePipe(s, p) == Ok(c, e);
    assert Peek(s, e, "&") == (true, e);
    assert GetToken(s, e) == Token('&', e, e + 1, e + 1);
    assert ParseBacks(s, e + 1, Back(c)) == Ok(Back(c), e + 1);
  }

  /** Where the two operands of a printed pipe or list stand. */
  lemma TwoAt(s: string, p: nat, l: string, op: string, r: string)
    requires var t := Parens(l) + (op + Parens(r)); At(s, p, t) && Closed(s, p + |t|)
    requires op == "|" || op == ";"
    ensures var e := p + |Parens(l)|;
            && At(s, p, Parens(l)) && Break(s, e) && e + 1 < |s| && s[e] == op[0] && s[e + 1] == '('
            && At(s, e + 1, Parens(r)) && Break(s, e + 1 + |Parens(r)|)
            && e + 1 + |Parens(r)| == p + |Parens(l) + (op + Parens(r))|
  {
    hide At, Parens;
    var e := p + |Parens(l)|;
    AtSplit(s, p, Parens(l), op + Parens(r));
    AtSplit(s, e, op, Parens(r));
    AtChar(s, e, op, 0);
    ParensAt(s, e + 1, r);
  }

  /** The parser reads back a printed tree that the end of the line or a `)` follows. */
  lemma {:induction false} LineOk(s: string, p: nat, c: Cmd<string>) returns (t: Cmd<Span>)
    requires Printable(c) && At(s, p, Print(c)) && Closed(s, p + |Print(c)|)
    ensures p <= |s| && ParseLine(s, p) == Ok(t, p + |Print(c)|) && Resolve(s, t) == c
    decreases c, 1
  {
    hide ParseLine, ParseExec, ParseRedirs, ParsePipe, PlainWord, At, Words, SpansOf, Parens;
    match c
    case Exec(ws) =>
      ExecOk(s, p, ws);
      t := Exec(SpansOf(p, ws));
      LineEnds(s, p, t, p + |Words(ws)|);
    case Redir(_, _, _, _) =>
      t := RedirCase(s, p, c);
    case Pipe(l, r) =>
      TwoAt(s, p, Print(l), "|", Print(r));
      var e := p + |Parens(Print(l))|;
      var a := OneBlock(s, p, l);
      var b := OneBlock(s, e + 1, r);
      t := Pipe(a, b);
      PipeOk(s, p, a, e, b, p + |Print(c)|);
    case List(l, r) =>
      TwoAt(s, p, Print(l), ";", Print(r));
      var e := p + |Parens(Print(l))|;
      var a := OneBlock(s, p, l);
      var b := OneBlock(s, e + 1, r);
      t := List(a, b);
      ListOk(s, p, a, e, b, p + |Print(c)|);
    case Back(d) =>
      AtSplit(s, p, Parens(Print(d)), "&");
      var e := p + |Parens(Print(d))|;
      AtChar(s, e, "&", 0);
      var a := OneBlock(s, p, d);
      t := Back(a);
      BackOk(s, p, a, e);
  }

  lemma {:induction false} OneBlock(s: string, p: nat, d: Cmd<string>) returns (t: Cmd<Span>)
    requires Printable(d) && At(s, p, Parens(Print(d))) && Break(s, p + |Parens(Print(d))|)
    ensures p <= |s| && ParseExec(s, p) == Ok(t, p + |Parens(Print(d))|) && Resolve(s, t) == d
    decreases d, 2
  {
    hide ParseLine, ParseExec, PlainWord, At, Print, Printable, Resolve;
    ParensAt(s, p, Print(d));
    t := LineOk(s, p + 1, d);
    PrintStart(s, p + 1, d);
    NoRedirs(s, p + |Print(d)| + 2);
    BlockThen(s, p, Print(d), t, [], p + |Print(d)| + 2);
  }

  lemma {:induction false} RedirCase(s: string, p: nat, c: Cmd<string>) returns (t: Cmd<Span>)
    requires c.Redir? && Printable(c) && At(s, p, Print(c)) && Closed(s, p + |Print(c)|)
    ensures p <= |s| && ParseLine(s, p) == Ok(t, p + |Print(c)|) && Resolve(s, t) == c
    decreases c, 0
  {
    hide ParseLine, ParseExec, ParseRedirs, PlainWord, At;
    var d, tail := c.cmd, Operator(c.mode) + (c.file + " ");
    var e := p + |Parens(Print(d))|;
    AtSplit(s, p, Parens(Print(d)), tail);
    ParensAt(s, p, Print(d));
    var a := LineOk(s, p + 1, d);
    PrintStart(s, p + 1, d);
    RedirOk(s, e, c.mode, c.fd, c.file);
    var f := e + |Operator(c.mode)|;
    var r := Redirection(Span(f, f + |c.file|), c.mode, c.fd);
    assert [r][..0] == [];
    t := Redir(a, r.file, r.mode, r.fd);
    assert t == Apply(a, [r]);
    BlockThen(s, p, Print(d), a, [r], f + |c.file| + 1);
    LineEnds(s, p, t, f + |c.file| + 1);
  }

  /** Every tree the shell can be told survives printing and parsing. */
  lemma RoundTrip(c: Cmd<string>)
    requires Printable(c)
    ensures var r := ParseCmd(Print(c)); r.Ok? && Resolve(Print(c), r.value) == c && r.pos == |Print(c)|
  {
    hide ParseLine;
    var s := Print(c);
    assert s[0..|s|] == s;
    var t := LineOk(s, 0, c);
  }
}

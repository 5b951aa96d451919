/** Which trees the parser can yield: exactly those that can be printed. */
module ShellImage {
  import opened Shell
  import opened ShellTokens
  import opened ShellRoundTrip

  lemma WordPlain(s: string, w: Span)
    requires NoNul(s) && Word(s, w)
    ensures PlainWord(Text(s, w))
  {
  }

  lemma {:induction false} TextsAt(s: string, ws: seq<Span>, i: nat)
    requires i < |ws|
    ensures Texts(s, ws)[i] == Text(s, ws[i])
  {
    if i > 0 {
      TextsAt(s, ws[1..], i - 1);
    }
  }

  lemma {:induction false} ResolvePrintable(s: string, c: Cmd<Span>)
    requires NoNul(s) && AllWords(s, c)
    ensures Printable(Resolve(s, c))
  {
    match c
    case Exec(argv) =>
      forall i | 0 <= i < |argv| ensures PlainWord(Texts(s, argv)[i]) {
        TextsAt(s, argv, i);
        WordPlain(s, argv[i]);
      }
    case Redir(d, file, _, _) =>
      ResolvePrintable(s, d);
      WordPlain(s, file);
    case Pipe(l, r) =>
      ResolvePrintable(s, l);
      ResolvePrintable(s, r);
    case List(l, r) =>
      ResolvePrintable(s, l);
      ResolvePrintable(s, r);
    case Back(d) => ResolvePrintable(s, d);
  }

  lemma {:induction false} WordsNoNul(ws: seq<string>)
    requires forall i :: 0 <= i < |ws| ==> PlainWord(ws[i])
    ensures NoNul(Words(ws))
  {
    if ws != [] {
      assert PlainWord(ws[0]);
      WordsNoNul(ws[1..]);
    }
  }

  lemma {:induction false} PrintNoNul(c: Cmd<string>)
    requires Printable(c)
    ensures NoNul(Print(c))
  {
    match c
    case Exec(argv) => WordsNoNul(argv);
    case Redir(d, file, _, _) => PrintNoNul(d);
    case Pipe(l, r) =>
      PrintNoNul(l);
      PrintNoNul(r);
    case List(l, r) =>
      PrintNoNul(l);
      PrintNoNul(r);
    case Back(d) => PrintNoNul(d);
  }

  /** Line s makes the shell build tree c. */
  ghost predicate Yields(s: string, c: Cmd<string>) {
    NoNul(s) && ParseCmd(s).Ok? && Resolve(s, ParseCmd(s).value) == c
  }

  /** The trees that lines yield are exactly the printable ones. */
  lemma PrintableIsImage(c: Cmd<string>)
    ensures Printable(c) <==> exists s :: Yields(s, c)
  {
    if Printable(c) {
      RoundTrip(c);
      PrintNoNul(c);
      assert Yields(Print(c), c);
    }
    forall s | Yields(s, c) ensures Printable(c) {
      LineWords(s, 0);
      ResolvePrintable(s, ParseCmd(s).value);
    }
  }
}

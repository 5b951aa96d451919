/** After parsing, sh.c ends every word with a NUL in place (nulterminate). The word that
    a command then sees is exactly the token. */
module ShellTokens {
  import opened Shell
  import opened ShellLoops

  /** A maximal word of the line. */
  ghost predicate Word(s: string, w: Span) {
    && w.q < w.eq <= |s|
    && (forall k :: w.q <= k < w.eq ==> !Space(s[k]) && !Symbol(s[k]))
    && (w.eq < |s| ==> Space(s[w.eq]) || Symbol(s[w.eq]))
  }

  /** The words of the tree are maximal words of the line, no simple command has too many of
      them, and the redirections are ones the shell knows. */
  ghost predicate AllWords(s: string, c: Cmd<Span>) {
    match c
    case Exec(argv) => |argv| < MAXARGS && forall i :: 0 <= i < |argv| ==> Word(s, argv[i])
    case Redir(d, file, mode, fd) => AllWords(s, d) && Word(s, file) && KnownRedir(mode, fd)
    case Pipe(l, r) => AllWords(s, l) && AllWords(s, r)
    case List(l, r) => AllWords(s, l) && AllWords(s, r)
    case Back(d) => AllWords(s, d)
  }

  ghost predicate AllFiles(s: string, rs: seq<Redirection>) {
    forall i :: 0 <= i < |rs| ==> Word(s, rs[i].file) && KnownRedir(rs[i].mode, rs[i].fd)
  }

  lemma TokenIsWord(s: string, p: nat)
    requires p <= |s| && GetToken(s, p).kind == 'a'
    ensures Word(s, Span(GetToken(s, p).q, GetToken(s, p).eq))
  {
  }

  lemma {:induction false} ApplyWords(s: string, c: Cmd<Span>, rs: seq<Redirection>)
    requires AllWords(s, c) && AllFiles(s, rs)
    ensures AllWords(s, Apply(c, rs))
    decreases |rs|
  {
    if rs != [] {
      ApplyWords(s, c, rs[..|rs| - 1]);
    }
  }

  lemma {:induction false} RedirsWords(s: string, p: nat)
    requires p <= |s| && ParseRedirs(s, p).Ok?
    ensures AllFiles(s, ParseRedirs(s, p).value)
    decreases |s| - p
  {
    hide Word, KnownRedir, Redirect, Skip, GetToken;
    var (more, p1) := Peek(s, p, "<>");
    if more {
      var op := GetToken(s, p1);
      var f := GetToken(s, op.next);
      TokenIsWord(s, op.next);
      RedirectKnown(op.kind, Span(f.q, f.eq));
      RedirsWords(s, f.next);
    }
  }

  lemma RedirectKnown(kind: char, f: Span)
    ensures var r := Redirect(kind, f); r.file == f && KnownRedir(r.mode, r.fd)
  {
  }

  lemma {:induction false} ArgsWords(s: string, p: nat, sofar: Simple)
    requires p <= |s| && ParseArgs(s, p, sofar).Ok?
    requires AllWords(s, Exec(sofar.args)) && AllFiles(s, sofar.redirs)
    ensures AllWords(s, Exec(ParseArgs(s, p, sofar).value.args)) && AllFiles(s, ParseArgs(s, p, sofar).value.redirs)
    decreases |s| - p
  {
    var (stop, p1) := Peek(s, p, "|)&;");
    var t := GetToken(s, p1);
    if !stop && t.kind != '\0' {
      TokenIsWord(s, p1);
      RedirsWords(s, t.next);
      var rs := ParseRedirs(s, t.next);
      ArgsWords(s, rs.pos, Simple(sofar.args + [Span(t.q, t.eq)], sofar.redirs + rs.value));
    }
  }

  lemma {:induction false} BacksWords(s: string, p: nat, c: Cmd<Span>)
    requires p <= |s| && AllWords(s, c)
    ensures AllWords(s, ParseBacks(s, p, c).value)
    decreases |s| - p
  {
    var (amp, p1) := Peek(s, p, "&");
    if amp {
      BacksWords(s, GetToken(s, p1).next, Back(c));
    }
  }

  lemma {:induction false} ExecWords(s: string, p: nat)
    requires p <= |s| && ParseExec(s, p).Ok?
    ensures AllWords(s, ParseExec(s, p).value)
    decreases |s| - p, 1
  {
    var (block, p1) := Peek(s, p, "(");
    if block {
      BlockWords(s, p1);
    } else {
      RedirsWords(s, p1);
      var rs := ParseRedirs(s, p1);
      ArgsWords(s, rs.pos, Simple([], rs.value));
      var r := ParseArgs(s, rs.pos, Simple([], rs.value));
      ApplyWords(s, Exec(r.value.args), r.value.redirs);
    }
  }

  lemma {:induction false} BlockWords(s: string, p: nat)
    requires p <= |s| && ParseBlock(s, p).Ok?
    ensures AllWords(s, ParseBlock(s, p).value)
    decreases |s| - p, 0
  {
    var (open, p1) := Peek(s, p, "(");
    var t := GetToken(s, p1);
    LineWords(s, t.next);
    var inner := ParseLine(s, t.next);
    var (close, p2) := Peek(s, inner.pos, ")");
    var t2 := GetToken(s, p2);
    RedirsWords(s, t2.next);
    ApplyWords(s, inner.value, ParseRedirs(s, t2.next).value);
  }

  lemma {:induction false} PipeWords(s: string, p: nat)
    requires p <= |s| && ParsePipe(s, p).Ok?
    ensures AllWords(s, ParsePipe(s, p).value)
    decreases |s| - p, 2
  {
    ExecWords(s, p);
    var l := ParseExec(s, p);
    var (bar, p1) := Peek(s, l.pos, "|");
    if bar {
      PipeWords(s, GetToken(s, p1).next);
    }
  }

  /** Every word of a parsed tree is a maximal word of the line, and the tree is within the
      shell's limits. */
  lemma {:induction false} LineWords(s: string, p: nat)
    requires p <= |s| && ParseLine(s, p).Ok?
    ensures AllWords(s, ParseLine(s, p).value)
    decreases |s| - p, 3
  {
    PipeWords(s, p);
    var c := ParsePipe(s, p);
    BacksWords(s, c.pos, c.value);
    var b := ParseBacks(s, c.pos, c.value);
    var (semi, p1) := Peek(s, b.pos, ";");
    if semi {
      LineWords(s, GetToken(s, p1).next);
    }
  }

  // ---- nulterminate ----

  /** Word w of the line belongs to the tree. */
  ghost predicate Has(c: Cmd<Span>, w: Span) {
    match c
    case Exec(argv) => w in argv
    case Redir(d, file, _, _) => Has(d, w) || w == file
    case Pipe(l, r) => Has(l, w) || Has(r, w)
    case List(l, r) => Has(l, w) || Has(r, w)
    case Back(d) => Has(d, w)
  }

  /** The buffer positions where words of the tree end. */
  ghost predicate EndsAt(c: Cmd<Span>, k: int) {
    exists w :: Has(c, w) && w.eq == k
  }

  /** The C string that starts at position q of the buffer. */
  function CString(buf: seq<char>, q: nat): string
    requires q <= |buf|
    decreases |buf| - q
  {
    if q == |buf| || buf[q] == '\0' then [] else [buf[q]] + CString(buf, q + 1)
  }

  lemma {:induction false} CStringIs(buf: seq<char>, q: nat, e: nat)
    requires q <= e < |buf| && buf[e] == '\0' && forall k :: q <= k < e ==> buf[k] != '\0'
    ensures CString(buf, q) == buf[q..e]
    decreases e - q
  {
    if q < e {
      CStringIs(buf, q + 1, e);
      assert buf[q..e] == [buf[q]] + buf[q + 1..e];
    }
  }

  ghost predicate NoNul(s: string) {
    forall k :: 0 <= k < |s| ==> s[k] != '\0'
  }

  lemma {:induction false} WordsAreWords(s: string, c: Cmd<Span>, w: Span)
    requires AllWords(s, c) && Has(c, w)
    ensures Word(s, w)
  {
    match c
    case Exec(argv) =>
    case Redir(d, file, _, _) => if Has(d, w) { WordsAreWords(s, d, w); }
    case Pipe(l, r) => if Has(l, w) { WordsAreWords(s, l, w); } else { WordsAreWords(s, r, w); }
    case List(l, r) => if Has(l, w) { WordsAreWords(s, l, w); } else { WordsAreWords(s, r, w); }
    case Back(d) => WordsAreWords(s, d, w);
  }

  /** The buffer with a NUL at the end of every word of c and otherwise as before. */
  ghost predicate Terminated(before: seq<char>, after: seq<char>, c: Cmd<Span>) {
    && |after| == |before|
    && forall k :: 0 <= k < |before| ==> after[k] == if EndsAt(c, k) then '\0' else before[k]
  }

  /** No terminator lands inside a word: afterwards each word reads as its token. */
  lemma TerminatedReadsTokens(s: string, buf: seq<char>, c: Cmd<Span>, w: Span)
    requires NoNul(s) && AllWords(s, c) && Has(c, w) && Terminated(s + ['\0'], buf, c)
    ensures w.q <= w.eq <= |s| && CString(buf, w.q) == s[w.q..w.eq]
  {
    WordsAreWords(s, c, w);
    forall k | w.q <= k < w.eq ensures buf[k] == s[k] {
      if EndsAt(c, k) {
        var v :| Has(c, v) && v.eq == k;
        WordsAreWords(s, c, v);
      }
    }
    assert EndsAt(c, w.eq);
    CStringIs(buf, w.q, w.eq);
    assert buf[w.q..w.eq] == s[w.q..w.eq];
  }

  ghost predicate Inside(c: Cmd<Span>, n: int) {
    forall w :: Has(c, w) ==> w.eq < n
  }

  lemma TerminatedBoth(b0: seq<char>, b1: seq<char>, b2: seq<char>, c: Cmd<Span>, l: Cmd<Span>, r: Cmd<Span>)
    requires Terminated(b0, b1, l) && Terminated(b1, b2, r)
    requires forall w :: Has(c, w) <==> Has(l, w) || Has(r, w)
    ensures Terminated(b0, b2, c)
  {
    forall k | 0 <= k < |b0| ensures b2[k] == if EndsAt(c, k) then '\0' else b0[k] {
      if w :| Has(c, w) && w.eq == k {
        assert EndsAt(l, k) || EndsAt(r, k);
      } else {
        assert !EndsAt(l, k) by { if w :| Has(l, w) && w.eq == k { assert Has(c, w); } }
        assert !EndsAt(r, k) by { if w :| Has(r, w) && w.eq == k { assert Has(c, w); } }
      }
    }
  }

  /** The loop of nulterminate's EXEC case. */
  method TerminateWords(argv: seq<Span>, buf: array<char>)
    requires Inside(Exec(argv), buf.Length)
    modifies buf
    ensures Terminated(old(buf[..]), buf[..], Exec(argv))
  {
    var i := 0;
    while i < |argv|
      invariant 0 <= i <= |argv|
      invariant forall k :: 0 <= k < buf.Length ==> buf[k] == if exists j :: 0 <= j < i && argv[j].eq == k then '\0' else old(buf[k])
    {
      assert Has(Exec(argv), argv[i]);
      buf[argv[i].eq] := '\0';
      i := i + 1;
    }
    forall k | 0 <= k < buf.Length ensures buf[k] == if EndsAt(Exec(argv), k) then '\0' else old(buf[k]) {
      if j :| 0 <= j < |argv| && argv[j].eq == k {
        assert Has(Exec(argv), argv[j]);
      }
    }
  }

  /** nulterminate writes a NUL at the end of every word of the tree, and nothing else. */
  method NulTerminate(c: Cmd<Span>, buf: array<char>)
    requires Inside(c, buf.Length)
    modifies buf
    ensures Terminated(old(buf[..]), buf[..], c)
    decreases c
  {
    match c
    case Exec(argv) => TerminateWords(argv, buf);
    case Redir(d, file, mode, fd) =>
      ghost var b0 := buf[..];
      assert Inside(d, buf.Length) && Has(c, file);
      NulTerminate(d, buf);
      ghost var b1 := buf[..];
      buf[file.eq] := '\0';
      assert Terminated(b1, buf[..], Exec([file]));
      TerminatedBoth(b0, b1, buf[..], c, d, Exec([file]));
    case Pipe(l, r) =>
      ghost var b0 := buf[..];
      assert Inside(l, buf.Length) && Inside(r, buf.Length);
      NulTerminate(l, buf);
      ghost var b1 := buf[..];
      NulTerminate(r, buf);
      TerminatedBoth(b0, b1, buf[..], c, l, r);
    case List(l, r) =>
      ghost var b0 := buf[..];
      assert Inside(l, buf.Length) && Inside(r, buf.Length);
      NulTerminate(l, buf);
      ghost var b1 := buf[..];
      NulTerminate(r, buf);
      TerminatedBoth(b0, b1, buf[..], c, l, r);
    case Back(d) =>
      assert forall w :: Has(c, w) <==> Has(d, w);
      assert Inside(d, buf.Length);
      NulTerminate(d, buf);
      assert forall k :: EndsAt(c, k) <==> EndsAt(d, k);
  }

  /** parsecmd on the line in buf: when it does not panic, every argument and file name of
      the tree it returns is, as a C string in the buffer, its token of the line. */
  method ParseCommand(buf: array<char>, s: string) returns (r: Result<Cmd<Span>>)
    requires buf[..] == s + ['\0'] && NoNul(s)
    modifies buf
    ensures r == ParseCmd(s)
    ensures r.Ok? ==> forall w :: Has(r.value, w) ==>
                        w.q <= w.eq <= |s| && w.q <= buf.Length && CString(buf[..], w.q) == s[w.q..w.eq]
  {
    r := ParseCmdRun(s);
    if r.Ok? {
      LineWords(s, 0);
      var c := r.value;
      forall w | Has(c, w) ensures w.eq < buf.Length { WordsAreWords(s, c, w); }
      NulTerminate(c, buf);
      forall w | Has(c, w) ensures w.q <= w.eq <= |s| && CString(buf[..], w.q) == s[w.q..w.eq] {
        TerminatedReadsTokens(s, buf[..], c, w);
      }
    }
  }
}

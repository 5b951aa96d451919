/** The command parser of user/sh.c: tokens, recursive descent, and the termination of
    the tokens in place. A position is an index into the line; the line's end is `es`. */
module Shell {
  const MAXARGS: int := 10

  const O_RDONLY: int := 0x000
  const O_WRONLY: int := 0x001
  const O_CREATE: int := 0x200
  const O_TRUNC: int := 0x400

  predicate Space(c: char) {
    c == ' ' || c == '\t' || c == '\r' || c == '\n' || c == '\U{b}'
  }

  predicate Symbol(c: char) {
    c == '<' || c == '|' || c == '>' || c == '&' || c == ';' || c == '(' || c == ')'
  }

  /** A character of a word. */
  predicate Plain(c: char) {
    !Space(c) && !Symbol(c) && c != '\0'
  }

  /** Where the spaces from p on end. */
  function Skip(s: string, p: nat): (e: nat)
    requires p <= |s|
    ensures p <= e <= |s| && (e < |s| ==> !Space(s[e]))
    ensures forall k :: p <= k < e ==> Space(s[k])
    decreases |s| - p
  {
    if p < |s| && Space(s[p]) then Skip(s, p + 1) else p
  }

  /** Where the word that starts at p ends. */
  function WordEnd(s: string, p: nat): (e: nat)
    requires p <= |s|
    ensures p <= e <= |s| && (e < |s| ==> Space(s[e]) || Symbol(s[e]))
    ensures forall k :: p <= k < e ==> !Space(s[k]) && !Symbol(s[k])
    decreases |s| - p
  {
    if p < |s| && !Space(s[p]) && !Symbol(s[p]) then WordEnd(s, p + 1) else p
  }

  /** gettoken's answer: the kind ('\0' at the end, 'a' for a word, '+' for >>), the token's
      bounds, and the new cursor. */
  datatype Token = Token(kind: char, q: nat, eq: nat, next: nat)

  function GetToken(s: string, p: nat): (t: Token)
    requires p <= |s|
    ensures p <= t.q <= t.eq <= t.next <= |s|
    ensures t.kind == '\0' <==> t.q == |s| || s[t.q] == '\0'
    ensures t.kind != '\0' ==> t.q < t.eq
  {
    var q := Skip(s, p);
    if q == |s| || s[q] == '\0' then Token('\0', q, q, Skip(s, q))
    else if s[q] == '>' then
      if q + 1 < |s| && s[q + 1] == '>' then Token('+', q, q + 2, Skip(s, q + 2)) else Token('>', q, q + 1, Skip(s, q + 1))
    else if Symbol(s[q]) then Token(s[q], q, q + 1, Skip(s, q + 1))
    else
      var e := WordEnd(s, q);
      assert e > q;
      Token('a', q, e, Skip(s, e))
  }

  /** peek: is the next character one of toks? The cursor moves past spaces. */
  function Peek(s: string, p: nat, toks: string): (r: (bool, nat))
    requires p <= |s|
    ensures p <= r.1 <= |s| && r.1 == Skip(s, p) && (r.0 ==> r.1 < |s|)
  {
    var q := Skip(s, p);
    (q < |s| && s[q] != '\0' && s[q] in toks, q)
  }

  /** gettoken, with its loops. */
  method GetTokenLoop(s: string, p: nat) returns (t: Token)
    requires p <= |s|
    ensures t == GetToken(s, p)
  {
    var q := SkipLoop(s, p);
    var e, kind := q, if q < |s| then s[q] else '\0';
    if kind == '\0' {
    } else if kind == '>' {
      e := e + 1;
      if e < |s| && s[e] == '>' {
        kind := '+';
        e := e + 1;
      }
    } else if Symbol(kind) {
      e := e + 1;
    } else {
      kind := 'a';
      while e < |s| && !Space(s[e]) && !Symbol(s[e])
        invariant q <= e <= |s| && WordEnd(s, q) == WordEnd(s, e)
      {
        e := e + 1;
      }
    }
    var next := SkipLoop(s, e);
    t := Token(kind, q, e, next);
  }

  method SkipLoop(s: string, p: nat) returns (e: nat)
    requires p <= |s|
    ensures e == Skip(s, p)
  {
    e := p;
    while e < |s| && Space(s[e])
      invariant p <= e <= |s| && Skip(s, p) == Skip(s, e)
    {
      e := e + 1;
    }
  }

  // ---- The grammar ----

  /** Command trees; T is what a word is: its bounds in the line, or its text. */
  datatype Cmd<T> =
    | Exec(argv: seq<T>)
    | Redir(cmd: Cmd<T>, file: T, mode: int, fd: int)
    | Pipe(left: Cmd<T>, right: Cmd<T>)
    | List(left: Cmd<T>, right: Cmd<T>)
    | Back(cmd: Cmd<T>)

  datatype Span = Span(q: nat, eq: nat)

  datatype Result<T> = Ok(value: T, pos: nat) | Panic(msg: string)

  datatype Redirection = Redirection(file: Span, mode: int, fd: int)

  function Apply(c: Cmd<Span>, rs: seq<Redirection>): Cmd<Span>
    decreases |rs|
  {
    if rs == [] then c
    else Redir(Apply(c, rs[..|rs| - 1]), rs[|rs| - 1].file, rs[|rs| - 1].mode, rs[|rs| - 1].fd)
  }

  /** The redirections the shell has a notation for. */
  predicate KnownRedir(mode: int, fd: int) {
    || (mode == O_RDONLY && fd == 0)
    || (mode == O_WRONLY + O_CREATE + O_TRUNC && fd == 1)
    || (mode == O_WRONLY + O_CREATE && fd == 1)
  }

  function Redirect(kind: char, f: Span): Redirection {
    if kind == '<' then Redirection(f, O_RDONLY, 0)
    else if kind == '>' then Redirection(f, O_WRONLY + O_CREATE + O_TRUNC, 1)
    else Redirection(f, O_WRONLY + O_CREATE, 1)
  }

  /** parseredirs: the redirections from p on. */
  function ParseRedirs(s: string, p: nat): (r: Result<seq<Redirection>>)
    requires p <= |s|
    ensures r.Ok? ==> p <= r.pos <= |s|
    decreases |s| - p
  {
    var (more, p1) := Peek(s, p, "<>");
    if !more then Ok([], p1)
    else
      var op := GetToken(s, p1);
      var f := GetToken(s, op.next);
      if f.kind != 'a' then Panic("missing file for redirection")
      else
        var rest := ParseRedirs(s, f.next);
        if rest.Panic? then rest
        else Ok([Redirect(op.kind, Span(f.q, f.eq))] + rest.value, rest.pos)
  }

  /** The words of a simple command so far, and the redirections among them. */
  datatype Simple = Simple(args: seq<Span>, redirs: seq<Redirection>)

  /** The loop of parseexec. */
  function ParseArgs(s: string, p: nat, sofar: Simple): (r: Result<Simple>)
    requires p <= |s|
    ensures r.Ok? ==> p <= r.pos <= |s|
    decreases |s| - p
  {
    var (stop, p1) := Peek(s, p, "|)&;");
    if stop then Ok(sofar, p1)
    else
      var t := GetToken(s, p1);
      if t.kind == '\0' then Ok(sofar, t.next)
      else if t.kind != 'a' then Panic("syntax")
      else if |sofar.args| + 1 >= MAXARGS then Panic("too many args")
      else
        var rs := ParseRedirs(s, t.next);
        if rs.Panic? then Panic(rs.msg)
        else ParseArgs(s, rs.pos, Simple(sofar.args + [Span(t.q, t.eq)], sofar.redirs + rs.value))
  }

  function ParseExec(s: string, p: nat): (r: Result<Cmd<Span>>)
    requires p <= |s|
    ensures r.Ok? ==> p <= r.pos <= |s|
    decreases |s| - p, 1
  {
    var (block, p1) := Peek(s, p, "(");
    if block then ParseBlock(s, p1)
    else
      var rs := ParseRedirs(s, p1);
      if rs.Panic? then Panic(rs.msg)
      else
        var r := ParseArgs(s, rs.pos, Simple([], rs.value));
        if r.Panic? then Panic(r.msg)
        else Ok(Apply(Exec(r.value.args), r.value.redirs), r.pos)
  }

  function ParseBlock(s: string, p: nat): (r: Result<Cmd<Span>>)
    requires p <= |s|
    ensures r.Ok? ==> p <= r.pos <= |s|
    decreases |s| - p, 0
  {
    var (open, p1) := Peek(s, p, "(");
    if !open then Panic("parseblock")
    else
      var t := GetToken(s, p1);
      var inner := ParseLine(s, t.next);
      if inner.Panic? then inner
      else
        var (close, p2) := Peek(s, inner.pos, ")");
        if !close then Panic("syntax - missing )")
        else
          var t2 := GetToken(s, p2);
          var rs := ParseRedirs(s, t2.next);
          if rs.Panic? then Panic(rs.msg)
          else Ok(Apply(inner.value, rs.value), rs.pos)
  }

  function ParsePipe(s: string, p: nat): (r: Result<Cmd<Span>>)
    requires p <= |s|
    ensures r.Ok? ==> p <= r.pos <= |s|
    decreases |s| - p, 2
  {
    var l := ParseExec(s, p);
    if l.Panic? then l
    else
      var (bar, p1) := Peek(s, l.pos, "|");
      if !bar then Ok(l.value, p1)
      else
        var r := ParsePipe(s, GetToken(s, p1).next);
        if r.Panic? then r else Ok(Pipe(l.value, r.value), r.pos)
  }

  /** parseline's loop over `&`. */
  function ParseBacks(s: string, p: nat, c: Cmd<Span>): (r: Result<Cmd<Span>>)
    requires p <= |s|
    ensures r.Ok? && p <= r.pos <= |s|
    decreases |s| - p
  {
    var (amp, p1) := Peek(s, p, "&");
    if !amp then Ok(c, p1) else ParseBacks(s, GetToken(s, p1).next, Back(c))
  }

  function ParseLine(s: string, p: nat): (r: Result<Cmd<Span>>)
    requires p <= |s|
    ensures r.Ok? ==> p <= r.pos <= |s|
    decreases |s| - p, 3
  {
    var c := ParsePipe(s, p);
    if c.Panic? then c
    else
      var b := ParseBacks(s, c.pos, c.value);
      var (semi, p1) := Peek(s, b.pos, ";");
      if !semi then Ok(b.value, p1)
      else
        var r := ParseLine(s, GetToken(s, p1).next);
        if r.Panic? then r else Ok(List(b.value, r.value), r.pos)
  }

  /** parsecmd, up to nulterminate. */
  function ParseCmd(s: string): (r: Result<Cmd<Span>>) {
    var c := ParseLine(s, 0);
    if c.Panic? then c
    else if Skip(s, c.pos) != |s| then Panic("syntax")
    else c
  }
}

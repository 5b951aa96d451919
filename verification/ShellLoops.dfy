/** The parser of user/sh.c as it runs, loop by loop: each procedure computes what its function
    in Shell says. The cursor is passed in and returned with the result. */
module ShellLoops {
  import opened Shell

  method PeekLoop(s: string, p: nat, toks: string) returns (r: bool, q: nat)
    requires p <= |s|
    ensures (r, q) == Peek(s, p, toks)
  {
    q := SkipLoop(s, p);
    r := q < |s| && s[q] != '\0' && s[q] in toks;
  }

  /** What is left of the redirections at q, put after those found so far. */
  ghost function RedirsAfter(found: seq<Redirection>, s: string, q: nat): Result<seq<Redirection>>
    requires q <= |s|
  {
    var rest := ParseRedirs(s, q);
    if rest.Panic? then rest else Ok(found + rest.value, rest.pos)
  }

  /** One redirection, at an operator. */
  lemma RedirStep(found: seq<Redirection>, s: string, q: nat)
    requires q <= |s| && Peek(s, q, "<>").0
    ensures var op := GetToken(s, Peek(s, q, "<>").1);
            var f := GetToken(s, op.next);
            RedirsAfter(found, s, q) == if f.kind != 'a' then Panic("missing file for redirection")
                                        else RedirsAfter(found + [Redirect(op.kind, Span(f.q, f.eq))], s, f.next)
  {
    var op := GetToken(s, Peek(s, q, "<>").1);
    var f := GetToken(s, op.next);
    var one, rest := [Redirect(op.kind, Span(f.q, f.eq))], ParseRedirs(s, f.next);
    if rest.Ok? {
      assert found + (one + rest.value) == (found + one) + rest.value;
    }
  }

  method ParseRedirsLoop(s: string, p: nat) returns (r: Result<seq<Redirection>>)
    requires p <= |s|
    ensures r == ParseRedirs(s, p)
  {
    var found, q := [], p;
    RedirsStart(s, p);
    var more, q1 := PeekLoop(s, q, "<>");
    while more
      invariant q <= |s| && (more, q1) == Peek(s, q, "<>") && RedirsAfter(found, s, q) == ParseRedirs(s, p)
      decreases |s| - q
    {
      RedirStep(found, s, q);
      var op := GetTokenLoop(s, q1);
      var f := GetTokenLoop(s, op.next);
      if f.kind != 'a' {
        return Panic("missing file for redirection");
      }
      found, q := found + [Redirect(op.kind, Span(f.q, f.eq))], f.next;
      more, q1 := PeekLoop(s, q, "<>");
    }
    assert found + [] == found;
    r := Ok(found, q1);
  }

  lemma RedirsStart(s: string, p: nat)
    requires p <= |s|
    ensures RedirsAfter([], s, p) == ParseRedirs(s, p)
  {
    var rest := ParseRedirs(s, p);
    assert rest.Ok? ==> [] + rest.value == rest.value;
  }

  /** parseexec's loop over the words of a simple command. */
  method ParseArgsLoop(s: string, p: nat, redirs: seq<Redirection>) returns (r: Result<Simple>)
    requires p <= |s|
    ensures r == ParseArgs(s, p, Simple([], redirs))
  {
    var sofar, q := Simple([], redirs), p;
    var stop, q1 := PeekLoop(s, q, "|)&;");
    while !stop
      invariant q <= |s| && (stop, q1) == Peek(s, q, "|)&;") && ParseArgs(s, q, sofar) == ParseArgs(s, p, Simple([], redirs))
      decreases |s| - q
    {
      var t := GetTokenLoop(s, q1);
      if t.kind == '\0' {
        return Ok(sofar, t.next);
      }
      if t.kind != 'a' {
        return Panic("syntax");
      }
      if |sofar.args| + 1 >= MAXARGS {
        return Panic("too many args");
      }
      var rs := ParseRedirsLoop(s, t.next);
      if rs.Panic? {
        return Panic(rs.msg);
      }
      sofar, q := Simple(sofar.args + [Span(t.q, t.eq)], sofar.redirs + rs.value), rs.pos;
      stop, q1 := PeekLoop(s, q, "|)&;");
    }
    r := Ok(sofar, q1);
  }

  method ParseExecRun(s: string, p: nat) returns (r: Result<Cmd<Span>>)
    requires p <= |s|
    ensures r == ParseExec(s, p)
    decreases |s| - p, 1
  {
    var block, p1 := PeekLoop(s, p, "(");
    if block {
      r := ParseBlockRun(s, p1);
      return;
    }
    var rs := ParseRedirsLoop(s, p1);
    if rs.Panic? {
      return Panic(rs.msg);
    }
    var simple := ParseArgsLoop(s, rs.pos, rs.value);
    if simple.Panic? {
      return Panic(simple.msg);
    }
    r := Ok(Apply(Exec(simple.value.args), simple.value.redirs), simple.pos);
  }

  method ParseBlockRun(s: string, p: nat) returns (r: Result<Cmd<Span>>)
    requires p <= |s|
    ensures r == ParseBlock(s, p)
    decreases |s| - p, 0
  {
    var open, p1 := PeekLoop(s, p, "(");
    if !open {
      return Panic("parseblock");
    }
    var t := GetTokenLoop(s, p1);
    var inner := ParseLineLoop(s, t.next);
    if inner.Panic? {
      return inner;
    }
    var close, p2 := PeekLoop(s, inner.pos, ")");
    if !close {
      return Panic("syntax - missing )");
    }
    var t2 := GetTokenLoop(s, p2);
    var rs := ParseRedirsLoop(s, t2.next);
    if rs.Panic? {
      return Panic(rs.msg);
    }
    r := Ok(Apply(inner.value, rs.value), rs.pos);
  }

  method ParsePipeRun(s: string, p: nat) returns (r: Result<Cmd<Span>>)
    requires p <= |s|
    ensures r == ParsePipe(s, p)
    decreases |s| - p, 2
  {
    r := ParseExecRun(s, p);
    if r.Panic? {
      return;
    }
    var bar, p1 := PeekLoop(s, r.pos, "|");
    if !bar {
      return Ok(r.value, p1);
    }
    var t := GetTokenLoop(s, p1);
    var right := ParsePipeRun(s, t.next);
    if right.Panic? {
      return right;
    }
    r := Ok(Pipe(r.value, right.value), right.pos);
  }

  method ParseLineLoop(s: string, p: nat) returns (r: Result<Cmd<Span>>)
    requires p <= |s|
    ensures r == ParseLine(s, p)
    decreases |s| - p, 3
  {
    r := ParsePipeRun(s, p);
    if r.Panic? {
      return;
    }
    var c, q := r.value, r.pos;
    var amp, q1 := PeekLoop(s, q, "&");
    while amp
      invariant p <= q <= |s| && (amp, q1) == Peek(s, q, "&") && ParseBacks(s, q, c) == ParseBacks(s, r.pos, r.value)
      decreases |s| - q
    {
      var t := GetTokenLoop(s, q1);
      c, q := Back(c), t.next;
      amp, q1 := PeekLoop(s, q, "&");
    }
    var semi, q2 := PeekLoop(s, q1, ";");
    if !semi {
      return Ok(c, q2);
    }
    var t := GetTokenLoop(s, q2);
    var rest := ParseLineLoop(s, t.next);
    if rest.Panic? {
      return rest;
    }
    r := Ok(List(c, rest.value), rest.pos);
  }

  /** parsecmd, up to nulterminate. */
  method ParseCmdRun(s: string) returns (r: Result<Cmd<Span>>)
    ensures r == ParseCmd(s)
  {
    r := ParseLineLoop(s, 0);
    if r.Ok? {
      var end := SkipLoop(s, r.pos);
      if end != |s| {
        r := Panic("syntax");
      }
    }
  }
}

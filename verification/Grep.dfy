/** The regular expression matcher of user/grep.c. A pattern is read as a list of items;
    it matches when the text can be cut into consecutive pieces, one for each item. */
module Grep {
  datatype Item = Lit(c: char) | Any | Star(c: char) | End

  /** How the matcher reads a pattern: `c*` first, then a final `$`, then `.`; every other
      character, also a `^` or `*` out of place, stands for itself. */
  function Items(re: string): seq<Item> {
    if re == [] then []
    else if |re| > 1 && re[1] == '*' then [Star(re[0])] + Items(re[2..])
    else if re == "$" then [End]
    else [if re[0] == '.' then Any else Lit(re[0])] + Items(re[1..])
  }

  predicate Fits(c: char, x: char) {
    c == '.' || c == x
  }

  /** Item `it` accepts the piece text[i..j]. */
  ghost predicate Accepts(it: Item, text: string, i: nat, j: nat)
    requires i <= j <= |text|
  {
    match it
    case Lit(c) => j == i + 1 && text[i] == c
    case Any => j == i + 1
    case Star(c) => forall k :: i <= k < j ==> Fits(c, text[k])
    case End => i == j == |text|
  }

  /** The cuts divide text, from position `at` on, into one piece per item. */
  ghost predicate Placed(items: seq<Item>, text: string, at: nat, cuts: seq<nat>) {
    && |cuts| == |items| + 1 && cuts[0] == at <= |text|
    && forall i :: 0 <= i < |items| ==> PieceFits(items, text, cuts, i)
  }

  ghost predicate PieceFits(items: seq<Item>, text: string, cuts: seq<nat>, i: nat)
    requires |cuts| == |items| + 1 && i < |items|
  {
    cuts[i] <= cuts[i + 1] <= |text| && Accepts(items[i], text, cuts[i], cuts[i + 1])
  }

  ghost predicate MatchesAt(items: seq<Item>, text: string, at: nat) {
    exists cuts :: Placed(items, text, at, cuts)
  }

  /** What grep promises: `^` anchors the pattern, otherwise it may start anywhere,
      also at the end of the text. */
  ghost predicate Matches(re: string, text: string) {
    if re != [] && re[0] == '^' then MatchesAt(Items(re[1..]), text, 0)
    else exists at :: 0 <= at <= |text| && MatchesAt(Items(re), text, at)
  }

  lemma MatchesNothing(text: string, at: nat)
    requires at <= |text|
    ensures MatchesAt([], text, at)
  {
    assert Placed([], text, at, [at]);
  }

  /** The first item takes a piece and the others match what follows it. */
  lemma MatchesCons(it: Item, rest: seq<Item>, text: string, at: nat)
    requires at <= |text|
    ensures MatchesAt([it] + rest, text, at) <==>
            exists mid :: at <= mid <= |text| && Accepts(it, text, at, mid) && MatchesAt(rest, text, mid)
  {
    var items := [it] + rest;
    if MatchesAt(items, text, at) {
      var cuts :| Placed(items, text, at, cuts);
      assert PieceFits(items, text, cuts, 0);
      var cuts' := cuts[1..];
      forall i | 0 <= i < |rest| ensures PieceFits(rest, text, cuts', i) {
        assert PieceFits(items, text, cuts, i + 1) && items[i + 1] == rest[i];
      }
      assert Placed(rest, text, cuts[1], cuts');
    }
    if mid: nat :| at <= mid <= |text| && Accepts(it, text, at, mid) && MatchesAt(rest, text, mid) {
      var cuts' :| Placed(rest, text, mid, cuts');
      var cuts := [at] + cuts';
      forall i | 0 <= i < |items| ensures PieceFits(items, text, cuts, i) {
        if i > 0 {
          assert PieceFits(rest, text, cuts', i - 1) && items[i] == rest[i - 1];
        }
      }
      assert Placed(items, text, at, cuts);
    }
  }

  /** matchhere: does re match at position `at`? */
  method MatchHere(re: string, text: string, at: nat) returns (b: bool)
    requires at <= |text|
    ensures b <==> MatchesAt(Items(re), text, at)
    decreases |re|, 1
  {
    if re == [] {
      MatchesNothing(text, at);
      return true;
    }
    MatchesCons(Items(re)[0], Items(re)[1..], text, at);
    assert Items(re) == [Items(re)[0]] + Items(re)[1..];
    if |re| > 1 && re[1] == '*' {
      b := MatchStar(re[0], re[2..], text, at);
      return;
    }
    if re == "$" {
      if at == |text| {
        MatchesNothing(text, at);
        assert Accepts(End, text, at, at);
      }
      return at == |text|;
    }
    if at < |text| && (re[0] == '.' || re[0] == text[at]) {
      b := MatchHere(re[1..], text, at + 1);
      return;
    }
    return false;
  }

  /** matchstar: does c* followed by re match at position `at`? */
  method MatchStar(c: char, re: string, text: string, at: nat) returns (b: bool)
    requires at <= |text|
    ensures b <==> exists mid :: at <= mid <= |text| && Accepts(Star(c), text, at, mid) && MatchesAt(Items(re), text, mid)
    decreases |re|, 2
  {
    var t := at;
    while true
      invariant at <= t <= |text| && Accepts(Star(c), text, at, t)
      invariant forall mid :: at <= mid < t ==> !MatchesAt(Items(re), text, mid)
      decreases |text| - t
    {
      b := MatchHere(re, text, t);
      if b {
        return;
      }
      if t == |text| || !(text[t] == c || c == '.') {
        forall mid | at <= mid <= |text| && Accepts(Star(c), text, at, mid)
          ensures !MatchesAt(Items(re), text, mid)
        {
          assert mid > t ==> Fits(c, text[t]);
        }
        return false;
      }
      t := t + 1;
    }
  }

  /** match: the loop tries every start, the empty suffix included. */
  method Match(re: string, text: string) returns (b: bool)
    ensures b <==> Matches(re, text)
  {
    if re != [] && re[0] == '^' {
      b := MatchHere(re[1..], text, 0);
      return;
    }
    var t := 0;
    while true
      invariant 0 <= t <= |text|
      invariant forall at :: 0 <= at < t ==> !MatchesAt(Items(re), text, at)
      decreases |text| - t
    {
      b := MatchHere(re, text, t);
      if b {
        return;
      }
      if t == |text| {
        return false;
      }
      t := t + 1;
    }
  }
}

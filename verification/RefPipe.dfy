/** Pipes, and what fork and exit do with descriptors and working directories (kernel/pipe.c,
    kernel/sysfile.c, kernel/proc.c). */
module RefPipe {
  import opened Refs
  import opened RefCalls
  import opened RefOpen

  /** File f becomes end e of a pipe. */
  lemma EndNamed(open: seq<int>, fend: seq<int>, hand: seq<int>, f: int, e: int)
    requires Exact(open, fend, [], hand) && 0 <= f < |fend| && fend[f] == -1 && 0 <= e < |open|
    ensures Exact(More(open, e), fend[f := e], [], hand)
  {
    ExactSetA(open, fend, [], hand, f, e, More(open, e), hand);
  }

  /** A pipe without its page has no open end. */
  lemma Closed(open: seq<int>, fend: seq<int>, hand: seq<int>, page: seq<bool>, q: int)
    requires Exact(open, fend, [], hand) && Pipes(open, page) && 0 <= q < |page| && !page[q]
    ensures 2 * q + 1 < |open| && open[2 * q] == 0 == open[2 * q + 1] && Pipes(open[2 * q := 1][2 * q + 1 := 1], page[q := true])
  {
  }

  /** pipealloc's last part: files f and g become the ends of pipe q. */
  method Ends(k: Kernel, f: int, g: int, q: int)
    requires k.Valid() && 0 <= f < k.nfile && 0 <= g < k.nfile && f != g && k.fref[f] >= 1 && k.fref[g] >= 1
    requires k.fip[f] == -1 == k.fend[f] && k.fip[g] == -1 == k.fend[g] && 0 <= q < k.npipe && !k.page[q]
    modifies k`fend, k`open, k`page
    ensures k.Valid() && k.fend == old(k.fend)[f := 2 * q][g := 2 * q + 1] && k.page == old(k.page)[q := true]
    ensures old(k.open)[2 * q] == 0 == old(k.open)[2 * q + 1] && k.open == old(k.open)[2 * q := 1][2 * q + 1 := 1]
  {
    hide Exact, Slots, Pipes, Harmless;
    Closed(k.open, k.fend, k.handE, k.page, q);
    EndNamed(k.open, k.fend, k.handE, f, 2 * q);
    EndNamed(k.open[2 * q := 1], k.fend[f := 2 * q], k.handE, g, 2 * q + 1);
    k.fend := k.fend[f := 2 * q][g := 2 * q + 1];
    k.open := k.open[2 * q := 1][2 * q + 1 := 1];
    k.page := k.page[q := true];
  }

  /** A file that names nothing is given back at once. */
  method GiveBack(k: Kernel, f: int, ghost fref: seq<int>, ghost hand: seq<int>)
    requires k.Valid() && 0 <= f < k.nfile == |fref| == |hand| && fref[f] == 0 && k.fref == fref[f := 1] && k.fip[f] == -1 == k.fend[f]
    requires k.handF == More(hand, f) && hand[f] >= 0
    modifies k`fref, k`handF, k`fip, k`fend, k`iref, k`ivalid, k`alive, k`frees, k`open, k`page, k`handI, k`handE
    ensures k.Valid() && k.fref == fref && k.handF == hand && k.handI == old(k.handI) && k.handE == old(k.handE)
    ensures k.fip == old(k.fip) && k.fend == old(k.fend) && k.iref == old(k.iref) && k.open == old(k.open) && k.page == old(k.page)
  {
    hide Exact, Slots, Pipes, Tables, Harmless, Spare;
    MoreLess(hand, f, f);
    k.Fileclose(f);
  }

  /** pipealloc: two files that are the ends of pipe q, the page kalloc finds; -1 and nothing
      changed when a file or the page (q == -1) is missing. */
  method Pipealloc(k: Kernel, q: int) returns (f: int, g: int)
    requires k.Valid() && (q != -1 ==> 0 <= q < k.npipe && !k.page[q])
    modifies k`fref, k`handF, k`fip, k`fend, k`iref, k`ivalid, k`alive, k`frees, k`open, k`page, k`handI, k`handE
    ensures k.Valid() && k.handI == old(k.handI) && k.handE == old(k.handE) && k.iref == old(k.iref) && k.fip == old(k.fip)
    ensures f == -1 <==> Spare(old(k.fref)) < 2 || q == -1
    ensures f == -1 ==> k.fref == old(k.fref) && k.handF == old(k.handF) && k.fend == old(k.fend) && k.open == old(k.open) && k.page == old(k.page)
    ensures f != -1 ==> Piped(old(k.fref), old(k.fend), k.fref, k.fend, f, g, q) && k.handF == More(More(old(k.handF), f), g)
    ensures f != -1 ==> 2 * q + 1 < |old(k.open)| && old(k.open)[2 * q] == 0 == old(k.open)[2 * q + 1]
                        && k.open == old(k.open)[2 * q := 1][2 * q + 1 := 1] && k.page == old(k.page)[q := true]
  {
    hide Exact, Slots, Pipes, Tables, Harmless, Spare;
    ghost var fref, hand := k.fref, k.handF;
    HandsOk(k);
    FrefOk(k);
    g := -1;
    f := k.Filealloc();
    if f == -1 {
      NoneSpare(fref);
      return;
    }
    OneSpare(fref, f);
    g := k.Filealloc();
    if g == -1 {
      GiveBack(k, f, fref, hand);
      f := -1;
      return;
    }
    if q == -1 {
      MoreSwap(hand, f, g);
      GiveBack(k, f, fref[g := 1], More(hand, g));
      GiveBack(k, g, fref, hand);
      f := -1;
      return;
    }
    Ends(k, f, g, q);
  }

  lemma FrefOk(k: Kernel)
    requires k.Valid()
    ensures forall f :: 0 <= f < k.nfile ==> k.fref[f] >= 0
  {
    NotNegative(k.fref, k.fds, [], k.handF);
  }

  lemma NoneSpare(ref: seq<int>)
    requires forall f :: 0 <= f < |ref| ==> ref[f] > 0
    ensures Spare(ref) == 0
  {
  }

  /** Of the free entries f is one; there is another exactly if there are two. */
  lemma OneSpare(ref: seq<int>, f: int)
    requires 0 <= f < |ref| && ref[f] == 0 && forall g :: 0 <= g < |ref| ==> ref[g] >= 0
    ensures NoFile(ref[f := 1]) <==> Spare(ref) < 2
  {
    CountSet(ref, f, 1, 0);
    if Spare(ref[f := 1]) > 0 {
      assert 0 in ref[f := 1];
    }
  }

  /** Files f and g, free before, are the read end and the write end of pipe q. */
  ghost predicate Piped(fref: seq<int>, fend: seq<int>, fref1: seq<int>, fend1: seq<int>, f: int, g: int, q: int) {
    && 0 <= f < |fref| == |fend| && 0 <= g < |fref| && f != g && fref[f] == 0 == fref[g]
    && fref1 == fref[f := 1][g := 1] && fend1 == fend[f := 2 * q][g := 2 * q + 1]
  }

  /** What the pages are follows from which ends are open. */
  lemma PagesFollow(open: seq<int>, page: seq<bool>, page1: seq<bool>)
    requires Pipes(open, page) && Pipes(open, page1)
    ensures page == page1
  {
    assert forall q :: 0 <= q < |page| ==> page[q] == page1[q];
  }

  lemma PipesOk(k: Kernel)
    requires k.Valid()
    ensures Pipes(k.open, k.page)
  {
  }

  /** Both ends are closed again: the tables are as before pipealloc. */
  method ClosePipe(k: Kernel, f: int, g: int, q: int, ghost fref: seq<int>, ghost fend: seq<int>, ghost open: seq<int>, ghost page: seq<bool>, ghost hand: seq<int>)
    requires k.Valid() && Piped(fref, fend, k.fref, k.fend, f, g, q) && |fref| == k.nfile == |hand| && fend[f] == -1 == fend[g] && k.fip[f] == -1 == k.fip[g]
    requires 0 <= q && 2 * q + 1 < |open| && open[2 * q] == 0 == open[2 * q + 1] && k.open == open[2 * q := 1][2 * q + 1 := 1] && Pipes(open, page)
    requires k.handF == More(More(hand, f), g) && hand[f] >= 0 && hand[g] >= 0
    modifies k`fref, k`handF, k`fip, k`fend, k`iref, k`ivalid, k`alive, k`frees, k`open, k`page, k`handI, k`handE
    ensures k.Valid() && k.handF == hand && k.handI == old(k.handI) && k.handE == old(k.handE)
    ensures k.fref == fref && k.fend == fend && k.open == open && k.page == page && k.fip == old(k.fip) && k.iref == old(k.iref)
  {
    hide Exact, Slots, Pipes, Tables, Harmless, Spare;
    MoreLess(hand, f, g);
    MoreLess(hand, g, g);
    k.Fileclose(f);
    k.Fileclose(g);
    assert k.open == open;
    PipesOk(k);
    PagesFollow(k.open, k.page, page);
  }

  /** How many descriptors of process p are free. */
  function Free(fds: seq<int>, p: int): nat
    requires 0 <= p && NOFILE * p + NOFILE <= |fds|
  {
    Count(fds[NOFILE * p..NOFILE * p + NOFILE], -1)
  }

  lemma FreeNone(fds: seq<int>, p: int)
    requires 0 <= p && NOFILE * p + NOFILE <= |fds|
    ensures NoFd(fds, p) <==> Free(fds, p) == 0
  {
    var own := fds[NOFILE * p..NOFILE * p + NOFILE];
    assert forall i :: NOFILE * p <= i < NOFILE * p + NOFILE ==> fds[i] == own[i - NOFILE * p];
    assert Free(fds, p) > 0 ==> -1 in own;
  }

  lemma FreeTaken(fds: seq<int>, p: int, fd: int, f: int)
    requires 0 <= p && NOFILE * p + NOFILE <= |fds| && 0 <= fd < NOFILE && fds[NOFILE * p + fd] == -1 != f
    ensures Free(fds[NOFILE * p + fd := f], p) == Free(fds, p) - 1
  {
    var own := fds[NOFILE * p..NOFILE * p + NOFILE];
    assert fds[NOFILE * p + fd := f][NOFILE * p..NOFILE * p + NOFILE] == own[fd := f];
    CountSet(own, fd, f, -1);
  }

  /** Descriptor i is cleared, and its reference is in hand. */
  method TakeFd(k: Kernel, i: int)
    requires k.Valid() && 0 <= i < |k.fds| && k.fds[i] != -1
    modifies k`fds, k`handF
    ensures k.Valid() && 0 <= old(k.fds)[i] < k.nfile && k.fds == old(k.fds)[i := -1] && k.handF == More(old(k.handF), old(k.fds)[i])
  {
    hide Exact, Slots, Pipes, Tables, Harmless, Spare;
    FdTaken(k.fref, k.fds, k.handF, i);
    k.handF := More(k.handF, k.fds[i]);
    k.fds := k.fds[i := -1];
  }

  /** Descriptors for both files, which are in hand; -1 and none when there are not two. */
  method TwoFds(k: Kernel, p: int, f: int, g: int, ghost hand: seq<int>) returns (a: int, b: int)
    requires k.Valid() && 0 <= p < k.nproc && 0 <= f < k.nfile && 0 <= g < k.nfile && f != g && |hand| == k.nfile
    requires k.handF == More(More(hand, f), g) && hand[f] >= 0 && hand[g] >= 0
    modifies k`fds, k`handF
    ensures k.Valid() && NOFILE * p + NOFILE <= |old(k.fds)| && -1 <= a < NOFILE && -1 <= b < NOFILE && (a == -1 <==> b == -1)
    ensures a == -1 <==> Free(old(k.fds), p) < 2
    ensures a == -1 ==> k.fds == old(k.fds) && k.handF == old(k.handF)
    ensures a != -1 ==> a < b && TwoFree(old(k.fds), p, a, b) && k.fds == old(k.fds)[NOFILE * p + a := f][NOFILE * p + b := g] && k.handF == hand
  {
    hide Exact, Slots, Pipes, Tables, Harmless, Spare, Free;
    MoreLess(hand, f, g);
    MoreLess(hand, g, g);
    b := -1;
    FreeNone(k.fds, p);
    a := k.Fdalloc(p, f);
    if a == -1 {
      return;
    }
    ghost var mid := k.fds;
    FreeTaken(old(k.fds), p, a, f);
    FreeNone(k.fds, p);
    b := k.Fdalloc(p, g);
    if b == -1 {
      TakeFd(k, NOFILE * p + a);
      MoreSwap(hand, f, g);
      a := -1;
    } else {
      assert forall i :: 0 <= i < |mid| && i != NOFILE * p + a ==> old(k.fds)[i] == mid[i];
    }
  }

  /** a and b are the first two free descriptors of p. */
  ghost predicate TwoFree(fds: seq<int>, p: int, a: int, b: int) {
    && 0 <= p && NOFILE * p + NOFILE <= |fds| && 0 <= a < b < NOFILE && fds[NOFILE * p + a] == -1 == fds[NOFILE * p + b]
    && forall i :: NOFILE * p <= i < NOFILE * p + b && i != NOFILE * p + a ==> fds[i] != -1
  }

  /** pipe: two descriptors, the lower for reading; on failure every table is as before. copies:
      the numbers can be copied out to the caller. */
  method SysPipe(k: Kernel, p: int, q: int, copies: bool) returns (r: int, a: int, b: int)
    requires k.Valid() && 0 <= p < k.nproc && (q != -1 ==> 0 <= q < k.npipe && !k.page[q])
    modifies k`fds, k`fref, k`handF, k`fip, k`fend, k`iref, k`ivalid, k`alive, k`frees, k`open, k`page, k`handI, k`handE
    ensures k.Valid() && k.handF == old(k.handF) && k.handI == old(k.handI) && k.handE == old(k.handE)
    ensures NOFILE * p + NOFILE <= |old(k.fds)| && k.iref == old(k.iref) && k.fip == old(k.fip)
    ensures r == if Spare(old(k.fref)) >= 2 && q != -1 && Free(old(k.fds), p) >= 2 && copies then 0 else -1
    ensures r == -1 ==> k.fds == old(k.fds) && k.fref == old(k.fref) && k.fend == old(k.fend) && k.open == old(k.open) && k.page == old(k.page)
    ensures r == 0 ==> TwoFree(old(k.fds), p, a, b) && k.page == old(k.page)[q := true]
    ensures r == 0 ==> |k.fds| == |old(k.fds)|
                       && var f, g := k.fds[NOFILE * p + a], k.fds[NOFILE * p + b];
                       Piped(old(k.fref), old(k.fend), k.fref, k.fend, f, g, q) && k.fds == old(k.fds)[NOFILE * p + a := f][NOFILE * p + b := g]
  {
    hide Exact, Slots, Pipes, Tables, Harmless, Spare, Free, TwoFree, Kernel.Valid;
    ghost var fref, fend, open, page, hand := k.fref, k.fend, k.open, k.page, k.handF;
    Sizes(k);
    HandsOk(k);
    PipesOk(k);
    FreeEnds(k);
    r, a, b := -1, -1, -1;
    var f, g := Pipealloc(k, q);
    if f == -1 {
      return;
    }
    a, b := TwoFds(k, p, f, g, hand);
    if a == -1 {
      ClosePipe(k, f, g, q, fref, fend, open, page, hand);
      return;
    }
    TwoIn(old(k.fds), p, a, b);
    if !copies {
      TakeFd(k, NOFILE * p + a);
      TakeFd(k, NOFILE * p + b);
      ClosePipe(k, f, g, q, fref, fend, open, page, hand);
      return;
    }
    r := 0;
  }

  lemma TwoIn(fds: seq<int>, p: int, a: int, b: int)
    requires TwoFree(fds, p, a, b)
    ensures 0 <= a < b < NOFILE && 0 <= p && NOFILE * p + NOFILE <= |fds| && fds[NOFILE * p + a] == -1 == fds[NOFILE * p + b]
  {
  }

  lemma FreeEnds(k: Kernel)
    requires k.Valid()
    ensures forall f :: 0 <= f < k.nfile && k.fref[f] == 0 ==> k.fip[f] == -1 == k.fend[f]
  {
  }

  /** fork: the child, which has nothing yet, gets the descriptors and the working directory of
      its parent. */
  method ForkFiles(k: Kernel, p: int, np: int)
    requires k.Valid() && 0 <= p < k.nproc && 0 <= np < k.nproc && k.cwd[p] != -1 == k.cwd[np] && NoneOpen(k.fds, np)
    modifies k`fds, k`fref, k`cwd, k`iref
    ensures k.Valid() && k.cwd == old(k.cwd)[np := old(k.cwd)[p]] && |k.fds| == |old(k.fds)|
    ensures SameFds(k.fds, p, np, NOFILE) && SameBut(k.fds, old(k.fds), np)
  {
    hide Exact, Slots, Pipes, Tables, Harmless, Spare, Kernel.Valid, SameFds;
    Sizes(k);
    NoneSame(k.fds, p, np);
    var i := 0;
    while i < NOFILE
      invariant k.Valid() && 0 <= i <= NOFILE && |k.fds| == |old(k.fds)| && k.cwd == old(k.cwd)
      invariant SameFds(k.fds, p, np, i) && SameBut(k.fds, old(k.fds), np)
      invariant forall j :: NOFILE * np + i <= j < NOFILE * np + NOFILE ==> k.fds[j] == -1
    {
      SameStep(k.fds, p, np, i);
      if k.fds[NOFILE * p + i] != -1 {
        CopyFd(k, NOFILE * p + i, NOFILE * np + i);
      }
      i := i + 1;
    }
    CopyCwd(k, p, np);
  }

  /** Process p has no open descriptor. */
  predicate NoneOpen(fds: seq<int>, p: int) {
    forall i :: 0 <= i < |fds| && NOFILE * p <= i < NOFILE * p + NOFILE ==> fds[i] == -1
  }

  /** The first n descriptors of p and np name the same files. */
  predicate SameFds(fds: seq<int>, p: int, np: int, n: int) {
    && 0 <= p && NOFILE * p + n <= |fds| && 0 <= np && NOFILE * np + n <= |fds|
    && 0 <= n && fds[NOFILE * np..NOFILE * np + n] == fds[NOFILE * p..NOFILE * p + n]
  }

  lemma NoneSame(fds: seq<int>, p: int, np: int)
    requires 0 <= p && 0 <= np && NOFILE * p <= |fds| && NOFILE * np <= |fds|
    ensures SameFds(fds, p, np, 0)
  {
  }

  lemma SameStep(fds: seq<int>, p: int, np: int, n: int)
    requires SameFds(fds, p, np, n) && 0 <= n < NOFILE && NOFILE * p + n < |fds| && NOFILE * np + n < |fds| && p != np
    ensures SameFds(fds[NOFILE * np + n := fds[NOFILE * p + n]], p, np, n + 1)
    ensures fds[NOFILE * np + n] == fds[NOFILE * p + n] ==> SameFds(fds, p, np, n + 1)
  {
    var s := fds[NOFILE * np + n := fds[NOFILE * p + n]];
    assert s[NOFILE * np..NOFILE * np + n + 1] == fds[NOFILE * np..NOFILE * np + n] + [fds[NOFILE * p + n]];
    assert s[NOFILE * p..NOFILE * p + n + 1] == fds[NOFILE * p..NOFILE * p + n] + [fds[NOFILE * p + n]];
    assert fds[NOFILE * np + n] == fds[NOFILE * p + n] ==> s == fds;
  }

  /** Only descriptors of p differ. */
  predicate SameBut(fds: seq<int>, fds0: seq<int>, p: int) {
    |fds| == |fds0| && forall i :: 0 <= i < |fds| && !(NOFILE * p <= i < NOFILE * p + NOFILE) ==> fds[i] == fds0[i]
  }

  /** The child gets the parent's working directory, with one more reference. */
  method CopyCwd(k: Kernel, p: int, np: int)
    requires k.Valid() && 0 <= p < k.nproc && 0 <= np < k.nproc && k.cwd[p] != -1 == k.cwd[np]
    modifies k`cwd, k`iref
    ensures k.Valid() && k.cwd == old(k.cwd)[np := old(k.cwd)[p]]
  {
    hide Exact, Slots, Pipes, Tables, Harmless, Spare;
    var x := k.cwd[p];
    CwdHeld(k.iref, k.fip, k.cwd, k.handI, p);
    CwdCopied(k.iref, k.fip, k.cwd, k.handI, np, x);
    SlotsDup(k.iref, k.inum, |k.nlink|, x);
    k.cwd := k.cwd[np := x];
    k.iref := More(k.iref, x);
  }

  lemma CwdCopied(iref: seq<int>, fip: seq<int>, cwd: seq<int>, hand: seq<int>, np: int, x: int)
    requires Exact(iref, fip, cwd, hand) && 0 <= np < |cwd| && cwd[np] == -1 && 0 <= x < |iref|
    ensures Exact(More(iref, x), fip, cwd[np := x], hand)
  {
    ExactSetB(iref, fip, cwd, hand, np, x, More(iref, x), hand);
  }

  lemma SlotsDup(iref: seq<int>, inum: seq<int>, n: int, x: int)
    requires Slots(iref, inum, n) && 0 <= x < |iref| && iref[x] >= 1
    ensures Slots(More(iref, x), inum, n)
  {
    SlotsMore(iref, inum, n, x, inum[x]);
    assert inum[x := inum[x]] == inum;
  }

  /** exit: every descriptor of p is closed, and its working directory let go. */
  method ExitFiles(k: Kernel, p: int)
    requires k.Valid() && 0 <= p < k.nproc && k.cwd[p] != -1
    modifies k`fds, k`fref, k`handF, k`fip, k`fend, k`iref, k`ivalid, k`alive, k`frees, k`open, k`page, k`handI, k`handE, k`cwd
    ensures k.Valid() && k.handF == old(k.handF) && k.handI == old(k.handI) && k.handE == old(k.handE)
    ensures NoneOpen(k.fds, p) && SameBut(k.fds, old(k.fds), p) && k.cwd == old(k.cwd)[p := -1]
  {
    hide Exact, Slots, Pipes, Tables, Harmless, Spare, Kernel.Valid;
    Sizes(k);
    var i := 0;
    while i < NOFILE
      invariant k.Valid() && 0 <= i <= NOFILE && SameBut(k.fds, old(k.fds), p) && k.cwd == old(k.cwd)
      invariant k.handF == old(k.handF) && k.handI == old(k.handI) && k.handE == old(k.handE)
      invariant forall j :: NOFILE * p <= j < NOFILE * p + i ==> k.fds[j] == -1
    {
      if k.fds[NOFILE * p + i] != -1 {
        CloseFd(k, NOFILE * p + i);
      }
      i := i + 1;
    }
    DropCwd(k, p);
  }

  /** The process gives its working directory up. */
  method DropCwd(k: Kernel, p: int)
    requires k.Valid() && 0 <= p < k.nproc && k.cwd[p] != -1
    modifies k`iref, k`ivalid, k`alive, k`frees, k`handI, k`cwd
    ensures k.Valid() && k.handI == old(k.handI) && k.cwd == old(k.cwd)[p := -1]
  {
    hide Exact, Slots, Pipes, Tables, Harmless, Spare;
    var x := k.cwd[p];
    HandsOk(k);
    CwdHeld(k.iref, k.fip, k.cwd, k.handI, p);
    CwdTaken(k.iref, k.fip, k.cwd, k.handI, p);
    MoreLess(k.handI, x, x);
    k.handI := More(k.handI, x);
    k.cwd := k.cwd[p := -1];
    k.Iput(x);
  }

  lemma CwdTaken(iref: seq<int>, fip: seq<int>, cwd: seq<int>, hand: seq<int>, p: int)
    requires Exact(iref, fip, cwd, hand) && 0 <= p < |cwd| && 0 <= cwd[p] < |iref|
    ensures Exact(iref, fip, cwd[p := -1], More(hand, cwd[p]))
  {
    ExactSetB(iref, fip, cwd, hand, p, -1, iref, More(hand, cwd[p]));
  }

  /** Between system calls nothing is in hand: the counts are exactly what the tables name, and a
      pipe has its page exactly while some file names an end of it. */
  lemma CountsExact(k: Kernel)
    requires k.Valid()
    requires (forall f :: 0 <= f < k.nfile ==> k.handF[f] == 0) && (forall x :: 0 <= x < k.ninode ==> k.handI[x] == 0)
    requires forall e :: 0 <= e < 2 * k.npipe ==> k.handE[e] == 0
    ensures forall f :: 0 <= f < k.nfile ==> k.fref[f] == Count(k.fds, f)
    ensures forall x :: 0 <= x < k.ninode ==> k.iref[x] == Count(k.fip, x) + Count(k.cwd, x)
    ensures forall e :: 0 <= e < 2 * k.npipe ==> Count(k.fend, e) <= 1
    ensures forall q :: 0 <= q < k.npipe ==> (k.page[q] <==> 2 * q in k.fend || 2 * q + 1 in k.fend)
    ensures forall f :: 0 <= f < k.nfile && (k.fip[f] != -1 || k.fend[f] != -1) ==> f in k.fds
  {
    forall f | 0 <= f < k.nfile && (k.fip[f] != -1 || k.fend[f] != -1) ensures f in k.fds {
      assert k.fref[f] != 0;
    }
    forall q | 0 <= q < k.npipe ensures k.page[q] <==> 2 * q in k.fend || 2 * q + 1 in k.fend {
      assert k.open[2 * q] == Count(k.fend, 2 * q) && k.open[2 * q + 1] == Count(k.fend, 2 * q + 1);
    }
  }
}

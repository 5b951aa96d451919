/** The system calls that move references (kernel/sysfile.c, kernel/fs.c, kernel/proc.c): on
    every path, success or failure, what a call took it has put where it belongs or given
    back. What directories contain, and whether a directory write succeeds, are parameters. */
module RefCalls {
  import opened Refs

  /** One element of a path: whether the inode reached is a directory, and the inode number
      found there, 0 for none. */
  datatype Elem = Elem(isDir: bool, found: int)

  datatype Path = Path(absolute: bool, elems: seq<Elem>)

  const ROOTINO: int := 1

  predicate ElemsOk(elems: seq<Elem>, n: int) {
    forall i :: 0 <= i < |elems| ==> 0 <= elems[i].found < n
  }

  // ---- What a path needs of the inode table ----

  /** From inode c on, the walk along the elements finds room in the table: it holds c while it
      gets the next. */
  predicate WalkFits(t: Table, c: int, elems: seq<Elem>, parent: bool)
    decreases |elems|
  {
    if elems == [] then true
    else
      var e := elems[0];
      if !e.isDir || (parent && |elems| == 1) || e.found == 0 then true
      else Fits(Got(t, c), e.found) && WalkFits(t, e.found, elems[1..], parent)
  }

  /** The inode a path starts at: the root, or the working directory. */
  function Start(inum: seq<int>, cwd: seq<int>, p: int, absolute: bool): int {
    if absolute then ROOTINO else if 0 <= p < |cwd| && 0 <= cwd[p] < |inum| then inum[cwd[p]] else 0
  }

  predicate PathFits(t: Table, start: int, path: Path, parent: bool) {
    (path.absolute ==> Fits(t, ROOTINO)) && WalkFits(t, start, path.elems, parent)
  }

  /** The inode a path leads to, if it leads anywhere. */
  function Target(start: int, elems: seq<Elem>, parent: bool): int {
    if |elems| <= Is(parent) then start else elems[|elems| - Is(parent) - 1].found
  }

  /** Process p can look the path up: its numbers are in range, and the table has room. */
  ghost predicate PathOk(k: Kernel, p: int, path: Path, parent: bool, t: Table)
    reads k
  {
    && k.Valid() && 0 <= p < k.nproc && k.cwd[p] != -1 && k.ninum > ROOTINO && ElemsOk(path.elems, k.ninum)
    && PathFits(t, Start(k.inum, k.cwd, p, path.absolute), path, parent)
  }

  ghost function TabOf(k: Kernel): Table
    reads k
  {
    Tab(k.iref, k.inum)
  }

  // ---- References in hand ----

  /** Counts and inode numbers at some moment. */
  datatype Basis = Basis(hand: seq<int>, iref: seq<int>, inum: seq<int>)

  /** Counts are as in b, and slots in use then keep their inodes. */
  ghost predicate AtRest(k: Kernel, b: Basis)
    reads k
  {
    && k.Valid() && |b.hand| == |b.iref| == |b.inum| == k.ninode && Exact(b.iref, k.fip, k.cwd, b.hand)
    && Steady(b.iref, b.inum, k.inum) && k.handI == b.hand && k.iref == b.iref
  }

  /** The same with one more reference, to x, in hand. */
  ghost predicate Holding(k: Kernel, b: Basis, x: int)
    reads k
  {
    && k.Valid() && |b.hand| == |b.iref| == |b.inum| == k.ninode && Exact(b.iref, k.fip, k.cwd, b.hand)
    && Steady(b.iref, b.inum, k.inum) && 0 <= x < k.ninode && k.handI == More(b.hand, x) && k.iref == More(b.iref, x)
  }

  ghost function Now(k: Kernel): Basis
    reads k
  {
    Basis(k.handI, k.iref, k.inum)
  }

  function Held(b: Basis, x: int, inum: seq<int>): Basis
    requires 0 <= x < |b.hand| == |b.iref|
  {
    Basis(More(b.hand, x), More(b.iref, x), inum)
  }

  lemma RestFacts(k: Kernel, b: Basis)
    requires AtRest(k, b)
    ensures k.Valid() && k.handI == b.hand && k.iref == b.iref && |k.inum| == |k.iref| == k.ninode && TabOf(k) == Tab(b.iref, b.inum)
    ensures Steady(b.iref, b.inum, k.inum)
  {
    TabSame(b.iref, b.inum, k.inum);
  }

  lemma HoldingFacts(k: Kernel, b: Basis, x: int)
    requires Holding(k, b, x)
    ensures k.Valid() && |b.hand| == |b.iref| == |b.inum| == k.ninode == |k.inum| == |k.iref| == |k.handI| && 0 <= x < k.ninode && 0 <= k.inum[x] < k.ninum
    ensures k.handI == More(b.hand, x) && k.iref == More(b.iref, x) && k.iref[x] >= k.handI[x] >= 1 && b.hand[x] >= 0
    ensures TabOf(k) == Got(Tab(b.iref, b.inum), k.inum[x]) && Steady(b.iref, b.inum, k.inum)
  {
    hide Tables, Pipes, Harmless, Tab;
    TabMore(b.iref, b.inum, k.inum, x, k.ninum);
  }

  /** ilock reads the inode in. */
  method Ilock(k: Kernel, x: int)
    requires k.Valid() && 0 <= x < k.ninode && k.iref[x] >= 1
    modifies k`ivalid
    ensures k.Valid() && k.ivalid == old(k.ivalid)[x := true]
  {
    k.ivalid := k.ivalid[x := true];
  }

  /** ilock of an inode in hand. */
  method Lock(k: Kernel, x: int, ghost b: Basis)
    requires Holding(k, b, x)
    modifies k`ivalid
    ensures Holding(k, b, x)
  {
    hide Exact, Slots, Pipes, Tables, Harmless, Steady;
    HoldingFacts(k, b, x);
    Ilock(k, x);
  }

  /** The counts follow from what names the inodes and what is in hand. */
  lemma CountsFollow(ref: seq<int>, a: seq<int>, b: seq<int>, hand: seq<int>, ref1: seq<int>, hand1: seq<int>)
    requires Exact(ref, a, b, hand) && Exact(ref1, a, b, hand1) && |ref1| == |ref|
    ensures hand1 == hand ==> ref1 == ref
    ensures forall x :: 0 <= x < |ref| && hand1 == More(hand, x) ==> ref1 == More(ref, x)
  {
    forall x | 0 <= x < |ref| && hand1 == More(hand, x) ensures ref1 == More(ref, x) {
    }
  }

  lemma HandHeld(iref: seq<int>, fip: seq<int>, cwd: seq<int>, hand: seq<int>, x: int)
    requires Exact(iref, fip, cwd, hand) && 0 <= x < |iref|
    ensures iref[x] >= hand[x] >= 0
  {
  }

  lemma MoreLess(s: seq<int>, x: int, y: int)
    requires 0 <= x < |s| && 0 <= y < |s|
    ensures Less(More(s, x), x) == s
    ensures Less(More(More(s, x), y), x) == More(s, y)
    ensures Less(More(More(s, x), y), y) == More(s, x)
  {
  }

  /** iunlockput: the reference to x goes, and all counts are as before it was taken. */
  method Put(k: Kernel, x: int, ghost b: Basis)
    requires Holding(k, b, x)
    modifies k`iref, k`ivalid, k`alive, k`frees, k`handI
    ensures AtRest(k, b) && k.inum == old(k.inum)
  {
    hide Exact, Slots, Pipes, Tables, Harmless, Steady;
    HoldingFacts(k, b, x);
    MoreLess(b.hand, x, x);
    k.Iput(x);
    CountsFollow(b.iref, k.fip, k.cwd, b.hand, k.iref, k.handI);
  }

  /** iget, with a reference to x in hand: one to y besides. */
  method GetToo(k: Kernel, x: int, n: int, ghost b: Basis) returns (y: int)
    requires Holding(k, b, x) && 0 <= n < k.ninum && Fits(TabOf(k), n)
    modifies k`iref, k`inum, k`ivalid, k`handI
    ensures 0 <= x < |b.hand| == |b.iref| && 0 <= y < |b.hand| == |k.inum| == |old(k.inum)| && k.inum[y] == n && k.inum[x] == old(k.inum)[x]
    ensures Holding(k, Held(b, x, old(k.inum)), y) && Holding(k, Held(b, y, k.inum), x)
    ensures Steady(b.iref, b.inum, old(k.inum)) && Steady(b.iref, b.inum, k.inum)
  {
    hide Exact, Slots, Pipes, Tables, Harmless, Tab, Fits;
    HoldingFacts(k, b, x);
    ghost var inum := k.inum;
    y := k.Iget(n);
    SteadyTrans(b.iref, b.inum, x, inum, k.inum);
    MoreSwap(b.hand, x, y);
    MoreSwap(b.iref, x, y);
    ExactMore(b.iref, k.fip, k.cwd, b.hand, x);
    ExactMore(b.iref, k.fip, k.cwd, b.hand, y);
    SteadySelf(More(b.iref, y), k.inum);
  }

  lemma MoreSwap(s: seq<int>, x: int, y: int)
    requires 0 <= x < |s| && 0 <= y < |s|
    ensures More(More(s, x), y) == More(More(s, y), x)
  {
  }

  /** Back to one reference in hand. */
  lemma Unnest(k: Kernel, b: Basis, x: int, inum: seq<int>)
    requires 0 <= x < |b.hand| == |b.iref| && AtRest(k, Held(b, x, inum)) && Steady(b.iref, b.inum, inum) && Exact(b.iref, k.fip, k.cwd, b.hand)
    ensures Holding(k, b, x)
  {
    hide Exact, Slots, Pipes, Tables, Harmless;
    SteadyTrans(b.iref, b.inum, x, inum, k.inum);
  }

  /** Of two references in hand one goes: x stays, with inode numbers as after GetToo. */
  method PutOther(k: Kernel, x: int, y: int, ghost inum: seq<int>, ghost b: Basis)
    requires 0 <= x < |b.hand| == |b.iref| && Holding(k, Held(b, x, inum), y)
    requires Steady(b.iref, b.inum, inum) && Exact(b.iref, k.fip, k.cwd, b.hand)
    modifies k`iref, k`ivalid, k`alive, k`frees, k`handI
    ensures Holding(k, b, x) && k.inum == old(k.inum)
  {
    hide Exact, Slots, Pipes, Tables, Harmless, Steady, Holding, AtRest, Kernel.Valid;
    Put(k, y, Held(b, x, inum));
    Unnest(k, b, x, inum);
  }

  lemma BasisExact(k: Kernel, b: Basis, x: int)
    requires Holding(k, b, x)
    ensures |b.hand| == |b.iref| && Exact(b.iref, k.fip, k.cwd, b.hand)
  {
  }

  // ---- Names ----

  /** One element of a path, at inode x: no way on (-1), or the inode reached, x itself when the
      walk stops at it. The reference held moves along. */
  method NameStep(k: Kernel, x: int, e: Elem, stop: bool, ghost b: Basis) returns (y: int)
    requires Holding(k, b, x) && 0 <= e.found < k.ninum
    requires e.isDir && !stop && e.found != 0 ==> Fits(TabOf(k), e.found)
    modifies k`iref, k`inum, k`ivalid, k`alive, k`frees, k`handI
    ensures if y == -1 then AtRest(k, b) else Holding(k, b, y)
    ensures y == -1 <==> !e.isDir || (!stop && e.found == 0)
    ensures y != -1 && stop ==> y == x && k.inum == old(k.inum)
    ensures y != -1 && !stop ==> 0 <= y < |k.inum| && k.inum[y] == e.found
  {
    hide Exact, Slots, Pipes, Tables, Harmless, Steady, Holding, AtRest, Kernel.Valid, Fits;
    HoldingFacts(k, b, x);
    Lock(k, x, b);
    if !e.isDir {
      Put(k, x, b);
      return -1;
    }
    if stop {
      return x;
    }
    if e.found == 0 {
      Put(k, x, b);
      return -1;
    }
    BasisExact(k, b, x);
    y := GetToo(k, x, e.found, b);
    PutOther(k, y, x, k.inum, b);
    HoldingFacts(k, b, y);
  }

  /** namex: the inode of a path, or of its parent directory, with a reference; -1 if there is
      none, and then every reference taken on the way has gone. */
  method Namex(k: Kernel, p: int, path: Path, parent: bool) returns (x: int)
    requires PathOk(k, p, path, parent, TabOf(k))
    modifies k`iref, k`inum, k`ivalid, k`alive, k`frees, k`handI
    ensures if x == -1 then AtRest(k, old(Now(k))) else Holding(k, old(Now(k)), x)
    ensures x == -1 <==> !Leads(path.elems, parent)
    ensures x != -1 ==> 0 <= x < |k.inum| && k.inum[x] == Target(Start(old(k.inum), k.cwd, p, path.absolute), path.elems, parent)
  {
    hide Exact, Slots, Pipes, Tables, Harmless, Kernel.Valid, Leads, Passed, Holding, AtRest, WalkFits, Fits, Tab, Steady;
    ghost var b := Now(k);
    ghost var t, start := TabOf(k), Start(k.inum, k.cwd, p, path.absolute);
    x := NameStart(k, p, path.absolute);
    var i := 0;
    NothingPassed(path.elems);
    assert path.elems[0..] == path.elems;
    while i < |path.elems|
      invariant 0 <= i <= |path.elems| && Holding(k, b, x) && Passed(path.elems, i) && (parent ==> i < |path.elems| || path.elems == [])
      invariant 0 <= x < |k.inum| && k.inum[x] == (if i == 0 then start else path.elems[i - 1].found)
      invariant WalkFits(t, k.inum[x], path.elems[i..], parent)
    {
      HoldingFacts(k, b, x);
      LeadsStep(path.elems, parent, i);
      WalkStep(t, k.inum[x], path.elems, parent, i);
      var stop := parent && i + 1 == |path.elems|;
      x := NameStep(k, x, path.elems[i], stop, b);
      if x == -1 || stop {
        return;
      }
      i := i + 1;
    }
    LeadsEnd(path.elems, parent);
    if parent {
      Put(k, x, b);
      x := -1;
    }
  }

  lemma WalkStep(t: Table, c: int, elems: seq<Elem>, parent: bool, i: nat)
    requires i < |elems| && WalkFits(t, c, elems[i..], parent)
    ensures var e := elems[i];
            e.isDir && !(parent && i + 1 == |elems|) && e.found != 0 ==> Fits(Got(t, c), e.found) && WalkFits(t, e.found, elems[i + 1..], parent)
  {
    assert elems[i..][0] == elems[i] && elems[i..][1..] == elems[i + 1..];
  }

  /** The first i elements lead on. */
  predicate Passed(elems: seq<Elem>, i: int) {
    i <= |elems| && forall j :: 0 <= j < i ==> elems[j].isDir && elems[j].found != 0
  }

  lemma NothingPassed(elems: seq<Elem>)
    ensures Passed(elems, 0)
  {
  }

  lemma LeadsStep(elems: seq<Elem>, parent: bool, i: int)
    requires 0 <= i < |elems| && Passed(elems, i)
    ensures var stop := parent && i + 1 == |elems|;
            if !elems[i].isDir || (!stop && elems[i].found == 0) then !Leads(elems, parent)
            else if stop then Leads(elems, parent)
            else Passed(elems, i + 1)
  {
  }

  lemma LeadsEnd(elems: seq<Elem>, parent: bool)
    requires Passed(elems, |elems|) && (parent ==> elems == [])
    ensures Leads(elems, parent) == !parent
  {
  }

  /** A path leads somewhere: every element but the last is a directory with an entry for the
      next, and so is the last unless only its parent is wanted. */
  predicate Leads(elems: seq<Elem>, parent: bool) {
    if elems == [] then !parent
    else
      && (forall j :: 0 <= j < |elems| ==> elems[j].isDir)
      && (forall j :: 0 <= j < |elems| - Is(parent) ==> elems[j].found != 0)
  }

  /** A path starts at the root or at the working directory. */
  method NameStart(k: Kernel, p: int, absolute: bool) returns (x: int)
    requires k.Valid() && 0 <= p < k.nproc && k.cwd[p] != -1 && k.ninum > ROOTINO && (absolute ==> Fits(TabOf(k), ROOTINO))
    modifies k`iref, k`inum, k`ivalid, k`handI
    ensures Holding(k, old(Now(k)), x) && 0 <= x < |k.inum| && k.inum[x] == Start(old(k.inum), k.cwd, p, absolute)
  {
    hide Exact, Slots, Pipes, Tables, Harmless, Fits, Tab;
    Sizes(k);
    SteadySelf(k.iref, k.inum);
    if absolute {
      x := k.Iget(ROOTINO);
    } else {
      CwdHeld(k.iref, k.fip, k.cwd, k.handI, p);
      x := k.cwd[p];
      k.Idup(x);
    }
  }

  lemma CwdHeld(iref: seq<int>, fip: seq<int>, cwd: seq<int>, hand: seq<int>, p: int)
    requires Exact(iref, fip, cwd, hand) && 0 <= p < |cwd| && cwd[p] != -1
    ensures 0 <= cwd[p] < |iref| && iref[cwd[p]] >= 1
  {
    assert cwd[p] in cwd;
  }

  // ---- Descriptors ----

  /** argfd: the file that descriptor fd of process p names, or -1. */
  method Argfd(k: Kernel, p: int, fd: int) returns (f: int)
    requires k.Valid() && 0 <= p < k.nproc
    ensures f == -1 <==> fd < 0 || fd >= NOFILE || k.fds[NOFILE * p + fd] == -1
    ensures f != -1 ==> f == k.fds[NOFILE * p + fd] && 0 <= f < k.nfile && k.fref[f] >= 1
  {
    hide Slots, Pipes, Tables, Harmless;
    f := if fd < 0 || fd >= NOFILE then -1 else k.fds[NOFILE * p + fd];
    if f != -1 {
      FdHeld(k.fref, k.fds, k.handF, NOFILE * p + fd);
    }
  }

  lemma FdHeld(fref: seq<int>, fds: seq<int>, hand: seq<int>, i: int)
    requires Exact(fref, fds, [], hand) && 0 <= i < |fds| && fds[i] != -1
    ensures 0 <= fds[i] < |fref| && fref[fds[i]] >= 1
  {
    assert fds[i] in fds;
  }

  /** dup: the first free descriptor names the file too. */
  method SysDup(k: Kernel, p: int, fd: int) returns (r: int)
    requires k.Valid() && 0 <= p < k.nproc
    modifies k`fds, k`fref
    ensures k.Valid()
    ensures r == -1 ==> k.fds == old(k.fds) && k.fref == old(k.fref)
    ensures r == -1 ==> fd < 0 || fd >= NOFILE || k.fds[NOFILE * p + fd] == -1 || forall i :: NOFILE * p <= i < NOFILE * p + NOFILE ==> k.fds[i] != -1
    ensures r != -1 ==> 0 <= fd < NOFILE && 0 <= r < NOFILE && old(k.fds)[NOFILE * p + r] == -1 != old(k.fds)[NOFILE * p + fd]
    ensures r != -1 ==> k.fds == old(k.fds)[NOFILE * p + r := old(k.fds)[NOFILE * p + fd]]
    ensures r != -1 ==> 0 <= old(k.fds)[NOFILE * p + fd] < k.nfile && k.fref == More(old(k.fref), old(k.fds)[NOFILE * p + fd])
  {
    hide Exact, Slots, Pipes, Tables, Harmless;
    var f := Argfd(k, p, fd);
    if f == -1 {
      return -1;
    }
    r := k.FindFd(p);
    if r != -1 {
      CopyFd(k, NOFILE * p + fd, NOFILE * p + r);
    }
  }

  /** filedup into an empty descriptor: j names the file of i too. */
  method CopyFd(k: Kernel, i: int, j: int)
    requires k.Valid() && 0 <= i < |k.fds| && 0 <= j < |k.fds| && k.fds[i] != -1 && k.fds[j] == -1
    modifies k`fds, k`fref
    ensures k.Valid() && k.fds == old(k.fds)[j := old(k.fds)[i]]
    ensures 0 <= old(k.fds)[i] < k.nfile && k.fref == More(old(k.fref), old(k.fds)[i])
  {
    hide Exact, Slots, Pipes, Tables, Harmless;
    var f := k.fds[i];
    FdHeld(k.fref, k.fds, k.handF, i);
    ExactSetA(k.fref, k.fds, [], k.handF, j, f, More(k.fref, f), k.handF) by { FdDup(k.fref, k.fds, k.handF, f); }
    TablesMore(k.fref, k.fip, k.fend, f);
    k.fds := k.fds[j := f];
    k.fref := More(k.fref, f);
  }

  lemma FdDup(fref: seq<int>, fds: seq<int>, hand: seq<int>, f: int)
    requires Exact(fref, fds, [], hand) && 0 <= f < |fref|
    ensures forall x :: 0 <= x < |fref| ==> 0 <= hand[x] && More(fref, f)[x] - hand[x] == fref[x] - hand[x] - Is(-1 == x) + Is(f == x)
  {
  }

  lemma TablesMore(fref: seq<int>, fip: seq<int>, fend: seq<int>, f: int)
    requires Tables(fref, fip, fend) && 0 <= f < |fref| && fref[f] >= 0
    ensures Tables(More(fref, f), fip, fend)
  {
  }

  /** Descriptor i gives its reference to the caller. */
  lemma FdTaken(fref: seq<int>, fds: seq<int>, hand: seq<int>, i: nat)
    requires Exact(fref, fds, [], hand) && i < |fds| && fds[i] != -1
    ensures 0 <= fds[i] < |fref| && Exact(fref, fds[i := -1], [], More(hand, fds[i]))
    ensures Less(More(hand, fds[i]), fds[i]) == hand
  {
    ExactTake(fref, fds, [], hand, i);
  }

  method SysClose(k: Kernel, p: int, fd: int) returns (r: int)
    requires k.Valid() && 0 <= p < k.nproc
    modifies k`fds, k`fref, k`handF, k`fip, k`fend, k`iref, k`ivalid, k`alive, k`frees, k`open, k`page, k`handI, k`handE
    ensures k.Valid() && k.handF == old(k.handF) && k.handI == old(k.handI) && k.handE == old(k.handE)
    ensures r == -1 <==> fd < 0 || fd >= NOFILE || old(k.fds)[NOFILE * p + fd] == -1
    ensures r == -1 ==> k.fds == old(k.fds) && k.fref == old(k.fref)
    ensures r != -1 ==> k.fds == old(k.fds)[NOFILE * p + fd := -1] && 0 <= old(k.fds)[NOFILE * p + fd] < k.nfile
                        && k.fref == Less(old(k.fref), old(k.fds)[NOFILE * p + fd])
  {
    hide Exact, Slots, Pipes, Tables, Harmless;
    var f := Argfd(k, p, fd);
    if f == -1 {
      return -1;
    }
    r := 0;
    CloseFd(k, NOFILE * p + fd);
  }

  /** Descriptor i is closed. */
  method CloseFd(k: Kernel, i: int)
    requires k.Valid() && 0 <= i < |k.fds| && k.fds[i] != -1
    modifies k`fds, k`fref, k`handF, k`fip, k`fend, k`iref, k`ivalid, k`alive, k`frees, k`open, k`page, k`handI, k`handE
    ensures k.Valid() && k.handF == old(k.handF) && k.handI == old(k.handI) && k.handE == old(k.handE)
    ensures k.fds == old(k.fds)[i := -1] && 0 <= old(k.fds)[i] < k.nfile && k.fref == Less(old(k.fref), old(k.fds)[i])
  {
    hide Exact, Slots, Pipes, Tables, Harmless;
    var f := k.fds[i];
    FdTaken(k.fref, k.fds, k.handF, i);
    HandHeld(k.fref, k.fds, [], k.handF, f);
    k.fds := k.fds[i := -1];
    k.handF := More(k.handF, f);
    k.Fileclose(f);
  }

  // ---- Calls on paths ----

  /** The references in hand are not negative. */
  lemma HandsOk(k: Kernel)
    requires k.Valid()
    ensures forall x :: 0 <= x < k.ninode ==> k.handI[x] >= 0
    ensures forall f :: 0 <= f < k.nfile ==> k.handF[f] >= 0
  {
  }

  lemma Sizes(k: Kernel)
    requires k.Valid()
    ensures |k.fref| == |k.fip| == |k.fend| == |k.handF| == k.nfile && |k.iref| == |k.inum| == |k.handI| == |k.ivalid| == k.ninode
    ensures |k.cwd| == k.nproc && |k.fds| == NOFILE * k.nproc && |k.nlink| == k.ninum && Exact(k.iref, k.fip, k.cwd, k.handI)
  {
  }

  /** The start of a path does not change while a call has references in hand. */
  lemma StartSame(k: Kernel, b: Basis, x: int, p: int, absolute: bool)
    requires Holding(k, b, x) && 0 <= p < k.nproc && k.cwd[p] != -1
    ensures Start(k.inum, k.cwd, p, absolute) == Start(b.inum, k.cwd, p, absolute)
  {
    hide Slots, Pipes, Tables, Harmless;
    CwdHeld(b.iref, k.fip, k.cwd, b.hand, p);
  }

  /** dirlink: an entry for a name that the directory does not have yet. present: the inode it
      has under the name, 0 for none; writes: the entry can be written. dp is in hand. */
  method Dirlink(k: Kernel, dp: int, present: int, writes: bool, ghost b: Basis) returns (ok: bool)
    requires Holding(k, b, dp) && 0 <= present < k.ninum && (present != 0 ==> Fits(TabOf(k), present))
    modifies k`iref, k`inum, k`ivalid, k`alive, k`frees, k`handI
    ensures Holding(k, b, dp) && (ok <==> present == 0 && writes)
  {
    hide Exact, Slots, Pipes, Tables, Harmless, Steady, Holding, AtRest, Kernel.Valid, Fits;
    ok := present == 0 && writes;
    if present != 0 {
      BasisExact(k, b, dp);
      ghost var inum := k.inum;
      var ip := GetToo(k, dp, present, b);
      PutOther(k, dp, ip, inum, b);
    }
  }

  /** The entry of link in the directory of the new path. */
  method LinkEntry(k: Kernel, p: int, newpath: Path, present: int, writes: bool) returns (ok: bool)
    requires PathOk(k, p, newpath, true, TabOf(k)) && 0 <= present < k.ninum && EntryFits(TabOf(k), Start(k.inum, k.cwd, p, newpath.absolute), newpath, present)
    modifies k`iref, k`inum, k`ivalid, k`alive, k`frees, k`handI
    ensures AtRest(k, old(Now(k))) && (ok <==> Leads(newpath.elems, true) && present == 0 && writes)
  {
    hide Exact, Slots, Pipes, Tables, Harmless, ElemsOk, Leads, Holding, AtRest, Kernel.Valid, PathFits, Steady, Target, Start, Tab, Fits;
    ghost var b := Now(k);
    var dp := Namex(k, p, newpath, true);
    ok := false;
    if dp != -1 {
      HoldingFacts(k, b, dp);
      ok := Dirlink(k, dp, present, writes, b);
      Put(k, dp, b);
    }
  }

  /** With the directory of the path in hand, the table has room for the inode n it has an entry
      for. */
  predicate EntryFits(t: Table, start: int, path: Path, n: int) {
    Leads(path.elems, true) && n != 0 ==> Fits(Got(t, Target(start, path.elems, true)), n)
  }

  /** link: ip gets a link, and a directory an entry for it; if that fails the link goes again.
      isDir: ip is a directory. */
  method SysLink(k: Kernel, p: int, oldpath: Path, isDir: bool, newpath: Path, present: int, writes: bool) returns (r: int)
    requires PathOk(k, p, oldpath, false, TabOf(k)) && 0 <= present < k.ninum && ElemsOk(newpath.elems, k.ninum)
    requires LinkFits(TabOf(k), Start(k.inum, k.cwd, p, oldpath.absolute), Start(k.inum, k.cwd, p, newpath.absolute), oldpath, isDir, newpath, present)
    modifies k`iref, k`inum, k`ivalid, k`alive, k`frees, k`handI, k`nlink
    ensures k.Valid() && k.handI == old(k.handI) && k.iref == old(k.iref)
    ensures r == 0 <==> Leads(oldpath.elems, false) && !isDir && Leads(newpath.elems, true) && present == 0 && writes
    ensures r == 0 || r == -1
    ensures r == -1 ==> k.nlink == old(k.nlink)
    ensures r == 0 ==> (var n := Target(Start(old(k.inum), k.cwd, p, oldpath.absolute), oldpath.elems, false); 0 <= n < k.ninum && k.nlink == More(old(k.nlink), n))
  {
    hide Exact, Slots, Pipes, Tables, Harmless, ElemsOk, Leads, Holding, AtRest, Kernel.Valid, PathFits, Steady, Target, Start, Tab, LinkFits;
    ghost var b := Now(k);
    r := -1;
    var ip := Namex(k, p, oldpath, false);
    if ip == -1 {
      RestFacts(k, b);
      return;
    }
    Lock(k, ip, b);
    HoldingFacts(k, b, ip);
    if isDir {
      Put(k, ip, b);
      RestFacts(k, b);
      return;
    }
    StartSame(k, b, ip, p, newpath.absolute);
    LinkRoom(TabOf(k), Tab(b.iref, b.inum), Start(b.inum, k.cwd, p, oldpath.absolute), Start(b.inum, k.cwd, p, newpath.absolute), oldpath, isDir, newpath, present);
    var ok := AddLink(k, p, ip, newpath, present, writes, b);
    RestFacts(k, b);
    if ok {
      r := 0;
    }
  }

  /** Both lookups of link find room, the second with the first one's inode in hand. */
  predicate LinkFits(t: Table, start: int, start1: int, oldpath: Path, isDir: bool, newpath: Path, present: int) {
    Leads(oldpath.elems, false) && !isDir ==>
      var t1 := Got(t, Target(start, oldpath.elems, false)); PathFits(t1, start1, newpath, true) && EntryFits(t1, start1, newpath, present)
  }

  lemma LinkRoom(t1: Table, t: Table, start: int, start1: int, oldpath: Path, isDir: bool, newpath: Path, present: int)
    requires LinkFits(t, start, start1, oldpath, isDir, newpath, present) && Leads(oldpath.elems, false) && !isDir
    requires t1 == Got(t, Target(start, oldpath.elems, false))
    ensures PathFits(t1, start1, newpath, true) && EntryFits(t1, start1, newpath, present)
  {
  }

  /** link, with ip in hand: its link count goes up, and down again if the entry fails. */
  method AddLink(k: Kernel, p: int, ip: int, newpath: Path, present: int, writes: bool, ghost b: Basis) returns (ok: bool)
    requires Holding(k, b, ip) && PathOk(k, p, newpath, true, TabOf(k)) && 0 <= present < k.ninum
    requires EntryFits(TabOf(k), Start(k.inum, k.cwd, p, newpath.absolute), newpath, present)
    modifies k`iref, k`inum, k`ivalid, k`alive, k`frees, k`handI, k`nlink
    ensures AtRest(k, b) && (ok <==> Leads(newpath.elems, true) && present == 0 && writes)
    ensures 0 <= ip < |old(k.inum)| && 0 <= old(k.inum)[ip] < k.ninum == |old(k.nlink)|
    ensures k.nlink == if ok then More(old(k.nlink), old(k.inum)[ip]) else old(k.nlink)
  {
    hide Exact, Slots, Pipes, Tables, Harmless, ElemsOk, Leads, AtRest, Holding, Kernel.Valid, PathFits, EntryFits, Steady, Start, Tab;
    HoldingFacts(k, b, ip);
    Sizes(k);
    BasisExact(k, b, ip);
    var n := k.inum[ip];
    MoreLess(k.nlink, n, n);
    ghost var inum := k.inum;
    k.SetLinks(n, k.nlink[n] + 1);
    ok := LinkEntry(k, p, newpath, present, writes);
    assert Held(b, ip, inum) == old(Now(k));
    Unnest(k, b, ip, inum);
    HoldingFacts(k, b, ip);
    if !ok {
      k.SetLinks(n, k.nlink[n] - 1);
    }
    LinksApart(k, b, ip);
    Put(k, ip, b);
  }

  /** chdir: the working directory becomes the inode of the path, if that is a directory. The
      old one's reference goes. */
  method SysChdir(k: Kernel, p: int, path: Path, isDir: bool) returns (r: int)
    requires PathOk(k, p, path, false, TabOf(k))
    modifies k`iref, k`inum, k`ivalid, k`alive, k`frees, k`handI, k`cwd
    ensures k.Valid() && k.handI == old(k.handI)
    ensures r == (if Leads(path.elems, false) && isDir then 0 else -1)
    ensures r == -1 ==> k.cwd == old(k.cwd) && k.iref == old(k.iref)
    ensures r == 0 ==> 0 <= k.cwd[p] < k.ninode && k.cwd == old(k.cwd)[p := k.cwd[p]]
    ensures r == 0 ==> k.inum[k.cwd[p]] == Target(Start(old(k.inum), old(k.cwd), p, path.absolute), path.elems, false)
  {
    hide Exact, Slots, Pipes, Tables, Harmless, ElemsOk, Leads, AtRest, Holding, Kernel.Valid, PathFits, Steady, Start, Target, Tab;
    ghost var b := Now(k);
    HandsOk(k);
    Sizes(k);
    var ip := Namex(k, p, path, false);
    if ip == -1 {
      RestFacts(k, b);
      return -1;
    }
    Lock(k, ip, b);
    if !isDir {
      Put(k, ip, b);
      RestFacts(k, b);
      return -1;
    }
    HoldingFacts(k, b, ip);
    var was := SwapCwd(k, p, ip, b.hand);
    Sizes(k);
    k.Iput(was);
    r := 0;
  }

  /** The working directory of p becomes x, and its old reference is in hand instead. */
  method SwapCwd(k: Kernel, p: int, x: int, ghost hand: seq<int>) returns (was: int)
    requires k.Valid() && 0 <= p < k.nproc && k.cwd[p] != -1 && 0 <= x < k.ninode == |hand| && k.handI == More(hand, x)
    requires forall y :: 0 <= y < |hand| ==> hand[y] >= 0
    modifies k`cwd, k`handI
    ensures k.Valid() && was == old(k.cwd[p]) && k.cwd == old(k.cwd)[p := x] && 0 <= was < k.ninode
    ensures k.handI == More(hand, was) && k.handI[was] >= 1 && Less(k.handI, was) == hand
  {
    hide Exact, Slots, Pipes, Tables, Harmless;
    was := k.cwd[p];
    CwdMoved(k.iref, k.fip, k.cwd, hand, p, x);
    MoreLess(hand, was, was);
    k.cwd := k.cwd[p := x];
    k.handI := More(hand, was);
  }

  /** The working directory changes hands with the reference held. */
  lemma CwdMoved(iref: seq<int>, fip: seq<int>, cwd: seq<int>, hand: seq<int>, p: int, x: int)
    requires |hand| == |iref| && 0 <= x < |iref| && hand[x] >= 0 && Exact(iref, fip, cwd, More(hand, x)) && 0 <= p < |cwd| && cwd[p] != -1
    requires forall y :: 0 <= y < |hand| ==> hand[y] >= 0
    ensures 0 <= cwd[p] < |iref| && Exact(iref, fip, cwd[p := x], More(hand, cwd[p]))
  {
    assert cwd[p] in cwd;
    ExactSetB(iref, fip, cwd, More(hand, x), p, x, iref, More(hand, cwd[p]));
  }

  /** exec looks the program up and lets go of it again, however it ends. */
  method ExecPath(k: Kernel, p: int, path: Path) returns (ok: bool)
    requires PathOk(k, p, path, false, TabOf(k))
    modifies k`iref, k`inum, k`ivalid, k`alive, k`frees, k`handI
    ensures k.Valid() && k.handI == old(k.handI) && k.iref == old(k.iref) && ok == Leads(path.elems, false)
  {
    hide Exact, Slots, Pipes, Tables, Harmless, ElemsOk, Leads, AtRest, Holding, Kernel.Valid, PathFits, Steady, Start, Target, Tab;
    ghost var b := Now(k);
    var ip := Namex(k, p, path, false);
    ok := ip != -1;
    if ok {
      Lock(k, ip, b);
      Put(k, ip, b);
    }
    RestFacts(k, b);
  }

  /** unlink: the entry goes, and a link of the inode it named; a directory's parent loses the
      link of its `..`. It panics when the inode has no link. */
  method SysUnlink(k: Kernel, p: int, path: Path, dots: bool, found: int, isDir: bool, empty: bool) returns (r: int)
    requires PathOk(k, p, path, true, TabOf(k)) && 0 <= found < k.ninum && (found != 0 ==> k.nlink[found] >= 1)
    requires !dots ==> EntryFits(TabOf(k), Start(k.inum, k.cwd, p, path.absolute), path, found)
    modifies k`iref, k`inum, k`ivalid, k`alive, k`frees, k`handI, k`nlink
    ensures k.Valid() && k.handI == old(k.handI) && k.iref == old(k.iref)
    ensures r == (if Leads(path.elems, true) && !dots && found != 0 && (isDir ==> empty) then 0 else -1)
    ensures r == -1 ==> k.nlink == old(k.nlink)
    ensures r == 0 ==>
              var d := Target(Start(old(k.inum), k.cwd, p, path.absolute), path.elems, true);
              0 <= d < k.ninum && k.nlink == Less(if isDir then Less(old(k.nlink), d) else old(k.nlink), found)
  {
    hide Exact, Slots, Pipes, Tables, Harmless, ElemsOk, Leads, AtRest, Holding, Kernel.Valid, PathFits, Steady, Start, Target, Tab, Fits;
    ghost var b := Now(k);
    Sizes(k);
    r := -1;
    var dp := Namex(k, p, path, true);
    if dp == -1 {
      RestFacts(k, b);
      return;
    }
    Lock(k, dp, b);
    if dots || found == 0 {
      Put(k, dp, b);
      RestFacts(k, b);
      return;
    }
    HoldingFacts(k, b, dp);
    var ok := DropEntry(k, dp, found, isDir, empty, b);
    RestFacts(k, b);
    if ok {
      r := 0;
    }
  }

  /** unlink finds the entry: dp and the inode n are let go, after the links changed unless n is
      a directory with entries. */
  method DropEntry(k: Kernel, dp: int, n: int, isDir: bool, empty: bool, ghost b: Basis) returns (ok: bool)
    requires Holding(k, b, dp) && 0 <= n < k.ninum && Fits(TabOf(k), n)
    modifies k`iref, k`inum, k`ivalid, k`alive, k`frees, k`handI, k`nlink
    ensures AtRest(k, b) && (ok <==> isDir ==> empty)
    ensures 0 <= dp < |old(k.inum)| && 0 <= old(k.inum)[dp] < k.ninum == |old(k.nlink)|
    ensures k.nlink == if !ok then old(k.nlink) else Less(if isDir then Less(old(k.nlink), old(k.inum)[dp]) else old(k.nlink), n)
  {
    hide Exact, Slots, Pipes, Tables, Harmless, AtRest, Holding, Kernel.Valid, Steady, Tab, Fits;
    HoldingFacts(k, b, dp);
    Sizes(k);
    BasisExact(k, b, dp);
    ghost var inum := k.inum;
    var ip := GetToo(k, dp, n, b);
    Lock(k, ip, Held(b, dp, inum));
    LockedToo(k, b, dp, ip, inum);
    ok := !isDir || empty;
    if !ok {
      PutOther(k, dp, ip, inum, b);
      Put(k, dp, b);
      return;
    }
    HoldingFacts(k, Held(b, ip, k.inum), dp);
    if isDir {
      k.SetLinks(k.inum[dp], k.nlink[k.inum[dp]] - 1);
      LinksApart(k, Held(b, ip, k.inum), dp);
    }
    PutOther(k, ip, dp, k.inum, b);
    HoldingFacts(k, b, ip);
    k.SetLinks(n, k.nlink[n] - 1);
    LinksApart(k, b, ip);
    Put(k, ip, b);
  }

  /** Two references in hand, in either order. */
  lemma LockedToo(k: Kernel, b: Basis, x: int, y: int, inum: seq<int>)
    requires 0 <= x < |b.hand| == |b.iref| && Holding(k, Held(b, x, inum), y) && Exact(b.iref, k.fip, k.cwd, b.hand)
    ensures 0 <= y < |b.hand| && Holding(k, Held(b, y, k.inum), x)
  {
    hide Slots, Pipes, Tables, Harmless, Exact;
    MoreSwap(b.hand, x, y);
    MoreSwap(b.iref, x, y);
    ExactMore(b.iref, k.fip, k.cwd, b.hand, y);
    SteadySelf(More(b.iref, y), k.inum);
  }

  /** Link counts are no part of it. */
  lemma LinksApart(k: Kernel, b: Basis, x: int)
    requires k.Valid() && |b.hand| == |b.iref| == |b.inum| == k.ninode && Exact(b.iref, k.fip, k.cwd, b.hand)
    requires Steady(b.iref, b.inum, k.inum) && 0 <= x < k.ninode && k.handI == More(b.hand, x) && k.iref == More(b.iref, x)
    ensures Holding(k, b, x)
  {
  }

  /** What create meets: the inode the directory has under the name (0 for none), whether its
      type fits, the inode ialloc finds (0 for none), and whether the entries can be written. */
  datatype Creation = Creation(found: int, fits: bool, unused: int, linked: bool)

  predicate CreationOk(c: Creation, n: int) {
    0 <= c.found < n && 0 <= c.unused < n
  }

  predicate Creates(c: Creation) {
    if c.found != 0 then c.fits else c.unused != 0 && c.linked
  }

  /** The inode create returns. */
  function Created(c: Creation): int {
    if c.found != 0 then c.found else c.unused
  }

  /** create: the inode the path names, if its type fits; otherwise a new inode with one link and
      an entry for it. */
  method Create(k: Kernel, p: int, path: Path, c: Creation, isDir: bool) returns (x: int)
    requires PathOk(k, p, path, true, TabOf(k)) && CreationOk(c, k.ninum)
    requires EntryFits(TabOf(k), Start(k.inum, k.cwd, p, path.absolute), path, Created(c))
    modifies k`iref, k`inum, k`ivalid, k`alive, k`frees, k`handI, k`nlink
    ensures if x == -1 then AtRest(k, old(Now(k))) else Holding(k, old(Now(k)), x)
    ensures x != -1 <==> Leads(path.elems, true) && Creates(c)
    ensures x != -1 ==> 0 <= x < |k.inum| && k.inum[x] == Created(c)
    ensures c.found != 0 || !Leads(path.elems, true) || c.unused == 0 ==> k.nlink == old(k.nlink)
    ensures c.found == 0 && Leads(path.elems, true) && c.unused != 0 ==>
              var d := Target(Start(old(k.inum), k.cwd, p, path.absolute), path.elems, true);
              0 <= d < k.ninum == |old(k.nlink)| && k.nlink == NewLinks(old(k.nlink), c.unused, x != -1, isDir, d)
  {
    hide Exact, Slots, Pipes, Tables, Harmless, ElemsOk, Leads, AtRest, Holding, Kernel.Valid, PathFits, Steady, Start, Target, Tab, NewLinks, Fits;
    ghost var b := Now(k);
    Sizes(k);
    x := -1;
    var dp := Namex(k, p, path, true);
    if dp == -1 {
      return;
    }
    Lock(k, dp, b);
    HoldingFacts(k, b, dp);
    if c.found != 0 {
      x := Existing(k, dp, c.found, c.fits, b);
    } else if c.unused == 0 {
      Put(k, dp, b);
    } else {
      x := Fresh(k, dp, c.unused, c.linked, isDir, b);
    }
  }

  /** Link counts after inode n was made, for a directory with its parent d's. */
  function NewLinks(nlink: seq<int>, n: int, made: bool, isDir: bool, d: int): seq<int>
    requires 0 <= n < |nlink| && 0 <= d < |nlink|
  {
    if !made then nlink[n := 0] else if isDir then More(nlink[n := 1], d) else nlink[n := 1]
  }

  /** create finds the name: dp is let go, and the inode too if its type does not fit. */
  method Existing(k: Kernel, dp: int, found: int, fits: bool, ghost b: Basis) returns (x: int)
    requires Holding(k, b, dp) && 0 <= found < k.ninum && Fits(TabOf(k), found)
    modifies k`iref, k`inum, k`ivalid, k`alive, k`frees, k`handI
    ensures if x == -1 then AtRest(k, b) else Holding(k, b, x)
    ensures x != -1 <==> fits
    ensures x != -1 ==> 0 <= x < |k.inum| && k.inum[x] == found
  {
    hide Exact, Slots, Pipes, Tables, Harmless, AtRest, Holding, Kernel.Valid, Steady, Tab, Fits;
    BasisExact(k, b, dp);
    x := GetToo(k, dp, found, b);
    PutOther(k, x, dp, k.inum, b);
    Lock(k, x, b);
    HoldingFacts(k, b, x);
    if !fits {
      Put(k, x, b);
      x := -1;
    }
  }

  /** create makes inode n. If an entry cannot be written its link goes again, and with the
      last reference the inode. */
  method Fresh(k: Kernel, dp: int, n: int, linked: bool, isDir: bool, ghost b: Basis) returns (x: int)
    requires Holding(k, b, dp) && 0 <= n < k.ninum && Fits(TabOf(k), n)
    modifies k`iref, k`inum, k`ivalid, k`alive, k`frees, k`handI, k`nlink
    ensures if x == -1 then AtRest(k, b) else Holding(k, b, x)
    ensures x != -1 <==> linked
    ensures x != -1 ==> 0 <= x < |k.inum| && k.inum[x] == n
    ensures 0 <= dp < |old(k.inum)| && 0 <= old(k.inum)[dp] < k.ninum == |old(k.nlink)|
    ensures k.nlink == NewLinks(old(k.nlink), n, x != -1, isDir, old(k.inum)[dp])
  {
    hide Exact, Slots, Pipes, Tables, Harmless, AtRest, Holding, Kernel.Valid, Steady, Tab, Fits;
    HoldingFacts(k, b, dp);
    Sizes(k);
    BasisExact(k, b, dp);
    ghost var inum := k.inum;
    x := GetToo(k, dp, n, b);
    Lock(k, x, Held(b, dp, inum));
    HoldingFacts(k, Held(b, dp, inum), x);
    k.Claim(n);
    LinksApart(k, Held(b, dp, inum), x);
    LockedToo(k, b, dp, x, inum);
    if !linked {
      k.SetLinks(n, 0);
      LinksApart(k, Held(b, dp, inum), x);
      PutOther(k, dp, x, inum, b);
      Put(k, dp, b);
      x := -1;
      return;
    }
    HoldingFacts(k, Held(b, x, k.inum), dp);
    if isDir {
      k.SetLinks(k.inum[dp], k.nlink[k.inum[dp]] + 1);
      LinksApart(k, Held(b, x, k.inum), dp);
    }
    PutOther(k, x, dp, k.inum, b);
    HoldingFacts(k, b, x);
  }
}

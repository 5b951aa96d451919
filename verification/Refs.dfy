/** Reference counts of open files, in-memory inodes and pipes (kernel/file.c, kernel/sysfile.c,
    kernel/fs.c, kernel/pipe.c). References that a running system call has in its local
    variables are counted apart, so that the counts are exact at every moment. */
module Refs {
  /** How often x occurs in s. */
  function Count(s: seq<int>, x: int): (n: nat)
    ensures n > 0 <==> x in s
  {
    if s == [] then 0 else (if s[0] == x then 1 else 0) + Count(s[1..], x)
  }

  function Is(b: bool): int {
    if b then 1 else 0
  }

  lemma {:induction false} CountSet(s: seq<int>, i: nat, v: int, x: int)
    requires i < |s|
    ensures Count(s[i := v], x) == Count(s, x) - Is(s[i] == x) + Is(v == x)
  {
    if i == 0 {
      assert s[i := v][1..] == s[1..];
    } else {
      assert s[i := v][1..] == s[1..][i - 1 := v];
      CountSet(s[1..], i - 1, v, x);
    }
  }

  /** One entry changes from a to v: the count of every x follows. */
  lemma CountSetAll(s: seq<int>, i: nat, v: int)
    requires i < |s|
    ensures forall x :: Count(s[i := v], x) == Count(s, x) - Is(s[i] == x) + Is(v == x)
  {
    forall x ensures Count(s[i := v], x) == Count(s, x) - Is(s[i] == x) + Is(v == x) {
      CountSet(s, i, v, x);
    }
  }

  /** Entries that name nothing (-1) or one of n objects. */
  predicate Names(s: seq<int>, n: int) {
    forall i :: 0 <= i < |s| ==> -1 <= s[i] < n
  }

  /** ref[x] is the number of entries of a and b that name x, and of the references in hand. */
  ghost predicate Exact(ref: seq<int>, a: seq<int>, b: seq<int>, hand: seq<int>) {
    && |hand| == |ref| && Names(a, |ref|) && Names(b, |ref|)
    && forall x :: 0 <= x < |ref| ==> 0 <= hand[x] && ref[x] == Count(a, x) + Count(b, x) + hand[x]
  }

  lemma ExactSetA(ref: seq<int>, a: seq<int>, b: seq<int>, hand: seq<int>, i: nat, v: int, ref1: seq<int>, hand1: seq<int>)
    requires Exact(ref, a, b, hand) && i < |a| && -1 <= v < |ref| && |ref1| == |ref| == |hand1|
    requires forall x :: 0 <= x < |ref| ==> 0 <= hand1[x] && ref1[x] - hand1[x] == ref[x] - hand[x] - Is(a[i] == x) + Is(v == x)
    ensures Exact(ref1, a[i := v], b, hand1)
  {
    CountSetAll(a, i, v);
  }

  lemma ExactSetB(ref: seq<int>, a: seq<int>, b: seq<int>, hand: seq<int>, i: nat, v: int, ref1: seq<int>, hand1: seq<int>)
    requires Exact(ref, a, b, hand) && i < |b| && -1 <= v < |ref| && |ref1| == |ref| == |hand1|
    requires forall x :: 0 <= x < |ref| ==> 0 <= hand1[x] && ref1[x] - hand1[x] == ref[x] - hand[x] - Is(b[i] == x) + Is(v == x)
    ensures Exact(ref1, a, b[i := v], hand1)
  {
    CountSetAll(b, i, v);
  }

  const NOFILE: int := 16

  class Kernel {
    const nfile: nat
    const ninode: nat
    const nproc: nat
    const npipe: nat
    const ninum: nat
    /** ftable: reference counts; the inode slot of each file, or -1; the pipe end of each file,
        or -1. End 2 * k is the read end of pipe k, and 2 * k + 1 its write end. */
    var fref: seq<int>
    var fip: seq<int>
    var fend: seq<int>
    /** itable: reference counts, inode numbers, and whether the inode has been read. */
    var iref: seq<int>
    var inum: seq<int>
    var ivalid: seq<bool>
    /** Descriptors of all processes, NOFILE each; working directories; -1 for none. */
    var fds: seq<int>
    var cwd: seq<int>
    /** Which pipe ends are open, and which pipes have their page. */
    var open: seq<int>
    var page: seq<bool>
    /** Link counts on disk, and which inodes are allocated. */
    var nlink: seq<int>
    var alive: seq<bool>
    /** References in local variables: to files, to inodes, to pipe ends. */
    ghost var handF: seq<int>
    ghost var handI: seq<int>
    ghost var handE: seq<int>
    /** The inodes freed on disk so far, with their link counts and the table right after. */
    ghost var frees: seq<Freeing>

    ghost predicate Valid()
      reads this
    {
      && Exact(fref, fds, [], handF) && Exact(iref, fip, cwd, handI) && Exact(open, fend, [], handE)
      && Tables(fref, fip, fend) && Slots(iref, inum, |nlink|) && |ivalid| == |iref| && |alive| == |nlink|
      && Pipes(open, page) && |fds| == NOFILE * |cwd| && Harmless(frees)
      && |fref| == |fip| == |fend| == |handF| == nfile && |iref| == |inum| == |handI| == ninode && |cwd| == nproc
      && |open| == |handE| == 2 * npipe && |page| == npipe && |nlink| == ninum
    }

    /** All tables empty; nothing open, nothing in hand. */
    constructor Boot(nfile: nat, ninode: nat, nproc: nat, npipe: nat, links: seq<int>, used: seq<bool>)
      requires |links| == |used|
      ensures Valid() && this.nfile == nfile && this.ninode == ninode && this.nproc == nproc && this.npipe == npipe
      ensures nlink == links && alive == used && frees == [] && Spare(iref) == ninode
      ensures handF == Zeros(nfile) && handI == Zeros(ninode) && handE == Zeros(2 * npipe)
    {
      this.nfile, this.ninode, this.nproc, this.npipe, ninum := nfile, ninode, nproc, npipe, |links|;
      fref, fip, fend := Zeros(nfile), Nones(nfile), Nones(nfile);
      iref, inum, ivalid := Zeros(ninode), Zeros(ninode), seq(ninode, _ => false);
      fds, cwd := Nones(NOFILE * nproc), Nones(nproc);
      open, page := Zeros(2 * npipe), seq(npipe, _ => false);
      nlink, alive, frees := links, used, [];
      handF, handI, handE := Zeros(nfile), Zeros(ninode), Zeros(2 * npipe);
      NothingNamed(nfile, NOFILE * nproc, 0);
      NothingNamed(ninode, nfile, nproc);
      NothingNamed(2 * npipe, nfile, 0);
      AllSpare(ninode);
    }

    /** The first file without references, with one for the caller; -1 when there is none. */
    method Filealloc() returns (f: int)
      requires Valid()
      modifies `fref, `handF
      ensures Valid()
      ensures f == -1 ==> fref == old(fref) && handF == old(handF) && forall g :: 0 <= g < |fref| ==> fref[g] > 0
      ensures f != -1 ==> 0 <= f < |fref| && old(fref)[f] == 0 && (forall g :: 0 <= g < f ==> old(fref)[g] > 0)
      ensures f != -1 ==> fref == old(fref)[f := 1] && handF == More(old(handF), f) && fip[f] == -1 && fend[f] == -1
    {
      hide Exact, Slots, Pipes;
      ExactSizes(fref, fds, [], handF);
      f := 0;
      while f < |fref|
        invariant 0 <= f <= |fref| && fref == old(fref) && handF == old(handF) && forall g :: 0 <= g < f ==> fref[g] > 0
      {
        if fref[f] == 0 {
          ExactMore(fref, fds, [], handF, f);
          fref := fref[f := 1];
          handF := More(handF, f);
          return;
        }
        f := f + 1;
      }
      f := -1;
    }

    /** filedup panics on a file without references. */
    method Filedup(f: int)
      requires Valid() && 0 <= f < |fref| && fref[f] >= 1
      modifies `fref, `handF
      ensures Valid() && fref == More(old(fref), f) && handF == More(old(handF), f)
    {
      hide Exact, Slots, Pipes;
      ExactSizes(fref, fds, [], handF);
      ExactMore(fref, fds, [], handF, f);
      fref := More(fref, f);
      handF := More(handF, f);
    }

    /** fdalloc's loop: the first free descriptor of process p, or -1. */
    method FindFd(p: int) returns (fd: int)
      requires 0 <= p < |cwd| && |fds| == NOFILE * |cwd|
      ensures -1 <= fd < NOFILE
      ensures fd == -1 ==> forall i :: NOFILE * p <= i < NOFILE * p + NOFILE ==> fds[i] != -1
      ensures fd != -1 ==> fds[NOFILE * p + fd] == -1 && forall i :: NOFILE * p <= i < NOFILE * p + fd ==> fds[i] != -1
    {
      fd := 0;
      while fd < NOFILE
        invariant 0 <= fd <= NOFILE && forall i :: NOFILE * p <= i < NOFILE * p + fd ==> fds[i] != -1
      {
        if fds[NOFILE * p + fd] == -1 {
          return;
        }
        fd := fd + 1;
      }
      fd := -1;
    }

    /** The first free descriptor of process p now names f and takes over the caller's
        reference; -1 when there is none. */
    method Fdalloc(p: int, f: int) returns (fd: int)
      requires Valid() && 0 <= p < |cwd| && 0 <= f < |fref| && handF[f] >= 1
      modifies `fds, `handF
      ensures Valid() && -1 <= fd < NOFILE
      ensures fd == -1 ==> fds == old(fds) && handF == old(handF) && forall i :: NOFILE * p <= i < NOFILE * p + NOFILE ==> fds[i] != -1
      ensures fd != -1 ==> old(fds)[NOFILE * p + fd] == -1 && (forall i :: NOFILE * p <= i < NOFILE * p + fd ==> old(fds)[i] != -1)
      ensures fd != -1 ==> fds == old(fds)[NOFILE * p + fd := f] && handF == Less(old(handF), f)
    {
      hide Exact, Slots, Pipes, Tables, Harmless;
      fd := FindFd(p);
      if fd != -1 {
        ExactGive(fref, fds, [], handF, NOFILE * p + fd, f);
        fds := fds[NOFILE * p + fd := f];
        handF := Less(handF, f);
      }
    }

    /** iget: the slot of inode n, with one more reference. It panics when the table is full of
        others. */
    method Iget(n: int) returns (x: int)
      requires Valid() && 0 <= n < |nlink| && Fits(Tab(iref, inum), n)
      modifies `iref, `inum, `ivalid, `handI
      ensures Valid() && 0 <= x < |old(iref)| == |iref| && inum[x] == n && iref == More(old(iref), x) && handI == More(old(handI), x)
      ensures old(iref)[x] > 0 ==> inum == old(inum) && ivalid == old(ivalid)
      ensures Steady(old(iref), old(inum), inum)
      ensures old(iref)[x] == 0 ==> inum == old(inum)[x := n] && ivalid == old(ivalid)[x := false] && forall y :: 0 <= y < |iref| && old(iref)[y] > 0 ==> old(inum)[y] != n
    {
      hide Exact, Pipes, Tables, Slots, Harmless, Tab;
      ExactSizes(iref, fip, cwd, handI);
      NotNegative(iref, fip, cwd, handI);
      SlotSizes(iref, inum, |nlink|);
      var found, empty := FindSlot(n);
      x := if found != -1 then found else empty;
      ExactMore(iref, fip, cwd, handI, x);
      SlotsMore(iref, inum, |nlink|, x, n);
      assert found != -1 ==> inum[x := n] == inum;
      if found == -1 {
        inum := inum[x := n];
        ivalid := ivalid[x := false];
      }
      iref := More(iref, x);
      handI := More(handI, x);
    }

    /** iget's loop: the slot of inode n, or else the first free slot. */
    method FindSlot(n: int) returns (found: int, empty: int)
      requires |inum| == |iref| && Fits(Tab(iref, inum), n) && forall x :: 0 <= x < |iref| ==> iref[x] >= 0
      ensures found != -1 ==> 0 <= found < |iref| && iref[found] > 0 && inum[found] == n
      ensures found == -1 ==> 0 <= empty < |iref| && iref[empty] == 0 && forall y :: 0 <= y < |iref| && iref[y] > 0 ==> inum[y] != n
    {
      FitsSlot(iref, inum, n);
      found, empty := -1, -1;
      var x := 0;
      while x < |iref|
        invariant 0 <= x <= |iref| && -1 <= empty < x && (empty != -1 ==> iref[empty] == 0)
        invariant forall y :: 0 <= y < x ==> !(iref[y] > 0 && inum[y] == n) && (iref[y] == 0 ==> empty != -1)
      {
        if iref[x] > 0 && inum[x] == n {
          found := x;
          return;
        }
        if empty == -1 && iref[x] == 0 {
          empty := x;
        }
        x := x + 1;
      }
    }

    method Idup(x: int)
      requires Valid() && 0 <= x < |iref| && iref[x] >= 1
      modifies `iref, `handI
      ensures Valid() && iref == More(old(iref), x) && handI == More(old(handI), x)
    {
      hide Exact, Pipes, Tables, Slots, Harmless;
      ExactSizes(iref, fip, cwd, handI);
      SlotSizes(iref, inum, |nlink|);
      ExactMore(iref, fip, cwd, handI, x);
      SlotsMore(iref, inum, |nlink|, x, inum[x]);
      assert inum[x := inum[x]] == inum;
      iref := More(iref, x);
      handI := More(handI, x);
    }

    /** iput: the caller's reference goes. The last one to an inode that has been read and has
        no links frees it on disk. */
    method Iput(x: int)
      requires Valid() && 0 <= x < |iref| && handI[x] >= 1
      modifies `iref, `handI, `ivalid, `alive, `frees
      ensures Valid() && iref == Less(old(iref), x) && handI == Less(old(handI), x)
      ensures var frees := old(iref)[x] == 1 && old(ivalid)[x] && nlink[inum[x]] == 0;
              alive == (if frees then old(alive)[inum[x] := false] else old(alive)) && ivalid == (if frees then old(ivalid)[x := false] else old(ivalid))
    {
      hide Exact, Pipes, Tables, Slots, Harmless;
      ExactSizes(iref, fip, cwd, handI);
      SlotSizes(iref, inum, |nlink|);
      ExactLess(iref, fip, cwd, handI, x);
      SlotsLess(iref, inum, |nlink|, x);
      if iref[x] == 1 && ivalid[x] && nlink[inum[x]] == 0 {
        HarmlessMore(frees, iref, inum, |nlink|, x);
        frees := frees + [Freeing(inum[x], nlink[inum[x]], Less(iref, x), inum)];
        alive := alive[inum[x] := false];
        ivalid := ivalid[x := false];
      }
      iref := Less(iref, x);
      handI := Less(handI, x);
    }

    /** iupdate after the link count of inode n changed. */
    method SetLinks(n: int, links: int)
      requires Valid() && 0 <= n < |nlink|
      modifies `nlink
      ensures Valid() && nlink == old(nlink)[n := links]
    {
      hide Exact, Slots, Pipes, Tables, Harmless;
      nlink := nlink[n := links];
    }

    /** ialloc and create: inode n is in use, with one link. */
    method Claim(n: int)
      requires Valid() && 0 <= n < |nlink|
      modifies `nlink, `alive
      ensures Valid() && nlink == old(nlink)[n := 1] && alive == old(alive)[n := true]
    {
      hide Exact, Slots, Pipes, Tables, Harmless;
      nlink := nlink[n := 1];
      alive := alive[n := true];
    }

    /** pipeclose: end e is closed; when both ends are, the page goes back. */
    method Pipeclose(e: int)
      requires Valid() && 0 <= e < |open| && handE[e] >= 1
      modifies `open, `page, `handE
      ensures Valid() && open == old(open)[e := 0] && handE == Less(old(handE), e) && old(page)[e / 2]
      ensures page == old(page)[e / 2 := open[e / 2 * 2 + (1 - e % 2)] > 0]
    {
      hide Exact, Slots, Tables;
      ExactSizes(open, fend, [], handE);
      OpenEnd(open, fend, handE, e);
      ExactLess(open, fend, [], handE, e);
      assert Less(open, e) == open[e := 0];
      open := open[e := 0];
      handE := Less(handE, e);
      if open[e / 2 * 2 + (1 - e % 2)] == 0 {
        page := page[e / 2 := false];
      }
    }

    /** fileclose: the caller's reference goes; with the last one, the pipe end or the inode
        reference of the file goes too. It panics on a file without references. */
    method Fileclose(f: int)
      requires Valid() && 0 <= f < |fref| && handF[f] >= 1
      modifies `fref, `handF, `fip, `fend, `iref, `ivalid, `alive, `frees, `open, `page, `handI, `handE
      ensures Valid() && fref == Less(old(fref), f) && handF == Less(old(handF), f) && handI == old(handI) && handE == old(handE)
      ensures old(fref)[f] > 1 ==> fip == old(fip) && fend == old(fend) && iref == old(iref) && open == old(open) && page == old(page)
      ensures old(fref)[f] == 1 ==> fip == old(fip)[f := -1] && fend == old(fend)[f := -1]
      ensures old(fref)[f] == 1 && old(fip)[f] != -1 ==> iref == Less(old(iref), old(fip)[f]) && open == old(open)
      ensures old(fref)[f] == 1 && old(fend)[f] != -1 ==> open == old(open)[old(fend)[f] := 0] && iref == old(iref)
      ensures old(fref)[f] == 1 && old(fip)[f] == -1 && old(fend)[f] == -1 ==> iref == old(iref) && open == old(open) && page == old(page)
    {
      hide Exact, Slots, Pipes, Tables, Harmless;
      ExactSizes(fref, fds, [], handF);
      ExactLess(fref, fds, [], handF, f);
      TablesDrop(fref, fip, fend, f);
      var last := fref[f] == 1;
      fref := Less(fref, f);
      handF := Less(handF, f);
      if last {
        FileDrop(f);
      }
    }

    /** The file without references left lets go of its pipe end or inode. */
    method FileDrop(f: int)
      requires Exact(fref, fds, [], handF) && Exact(iref, fip, cwd, handI) && Exact(open, fend, [], handE)
      requires 0 <= f < |fref| && fref[f] == 0 && |fip| == |fref| == |fend| && (fip[f] == -1 || fend[f] == -1)
      requires Tables(fref, fip[f := -1], fend[f := -1]) && Slots(iref, inum, |nlink|) && |ivalid| == |iref| && |alive| == |nlink|
      requires Pipes(open, page) && |fds| == NOFILE * |cwd| && Harmless(frees)
      requires |fref| == |fip| == |fend| == |handF| == nfile && |iref| == |inum| == |handI| == ninode && |cwd| == nproc
      requires |open| == |handE| == 2 * npipe && |page| == npipe && |nlink| == ninum
      modifies `fip, `fend, `iref, `ivalid, `alive, `frees, `open, `page, `handI, `handE
      ensures Valid() && handI == old(handI) && handE == old(handE) && fip == old(fip)[f := -1] && fend == old(fend)[f := -1]
      ensures old(fip)[f] != -1 ==> iref == Less(old(iref), old(fip)[f]) && open == old(open)
      ensures old(fend)[f] != -1 ==> open == old(open)[old(fend)[f] := 0] && iref == old(iref)
      ensures old(fip)[f] == -1 && old(fend)[f] == -1 ==> iref == old(iref) && open == old(open) && page == old(page)
    {
      hide Exact, Slots, Pipes, Tables, Harmless;
      ExactSizes(iref, fip, cwd, handI);
      ExactSizes(open, fend, [], handE);
      var x, e := fip[f], fend[f];
      assert x == -1 ==> fip[f := -1] == fip;
      assert e == -1 ==> fend[f := -1] == fend;
      if e != -1 {
        ExactTake(open, fend, [], handE, f);
        handE := More(handE, e);
        fip := fip[f := -1];
        fend := fend[f := -1];
        Pipeclose(e);
        assert handE == old(handE);
      } else if x != -1 {
        ExactTake(iref, fip, cwd, handI, f);
        handI := More(handI, x);
        fip := fip[f := -1];
        fend := fend[f := -1];
        Iput(x);
        assert handI == old(handI);
      }
    }
  }

  function Zeros(n: nat): (s: seq<int>)
    ensures |s| == n && forall i :: 0 <= i < n ==> s[i] == 0
  {
    seq(n, _ => 0)
  }

  function Nones(n: nat): (s: seq<int>)
    ensures |s| == n && forall i :: 0 <= i < n ==> s[i] == -1
  {
    seq(n, _ => -1)
  }

  lemma {:induction false} NothingCounted(n: nat, x: int)
    requires x >= 0
    ensures Count(Nones(n), x) == 0
  {
    if n > 0 {
      assert Nones(n)[1..] == Nones(n - 1);
      NothingCounted(n - 1, x);
    }
  }

  /** Nothing is named and nothing is in hand. */
  lemma NothingNamed(n: nat, a: nat, b: nat)
    ensures Exact(Zeros(n), Nones(a), Nones(b), Zeros(n)) && Exact(Zeros(n), Nones(a), [], Zeros(n))
  {
    forall x | 0 <= x < n ensures Count(Nones(a), x) + Count(Nones(b), x) == 0 {
      NothingCounted(a, x);
      NothingCounted(b, x);
    }
  }

  lemma {:induction false} AllSpare(n: nat)
    ensures Spare(Zeros(n)) == n
  {
    if n > 0 {
      assert Zeros(n)[1..] == Zeros(n - 1);
      AllSpare(n - 1);
    }
  }

  datatype Freeing = Freeing(n: int, links: int, iref: seq<int>, inum: seq<int>)

  /** Inode n has no slot in use. */
  ghost predicate Unnamed(iref: seq<int>, inum: seq<int>, n: int) {
    |inum| == |iref| && forall y :: 0 <= y < |iref| && iref[y] > 0 ==> inum[y] != n
  }

  /** An inode is freed on disk only without links, and when no slot in use stands for it. */
  ghost predicate Harmless(frees: seq<Freeing>) {
    forall i :: 0 <= i < |frees| ==> frees[i].links == 0 && Unnamed(frees[i].iref, frees[i].inum, frees[i].n)
  }

  /** A file without references names nothing; no file names both an inode and a pipe. */
  ghost predicate Tables(fref: seq<int>, fip: seq<int>, fend: seq<int>) {
    && |fip| == |fref| == |fend|
    && forall f :: 0 <= f < |fref| ==> (fref[f] == 0 ==> fip[f] == -1 && fend[f] == -1) && (fip[f] == -1 || fend[f] == -1)
  }

  /** Slots in use stand for different inodes. */
  ghost predicate Slots(iref: seq<int>, inum: seq<int>, n: int) {
    && |inum| == |iref| && (forall x :: 0 <= x < |iref| && iref[x] > 0 ==> 0 <= inum[x] < n)
    && forall x, y :: 0 <= x < y < |iref| && iref[x] > 0 && iref[y] > 0 ==> inum[x] != inum[y]
  }

  /** Each end is open once at most, and a pipe has its page while an end is open. */
  ghost predicate Pipes(open: seq<int>, page: seq<bool>) {
    && |open| == 2 * |page| && (forall e :: 0 <= e < |open| ==> open[e] <= 1)
    && forall k :: 0 <= k < |page| ==> (page[k] <==> open[2 * k] > 0 || open[2 * k + 1] > 0)
  }

  function More(s: seq<int>, x: int): seq<int>
    requires 0 <= x < |s|
  {
    s[x := s[x] + 1]
  }

  function Less(s: seq<int>, x: int): seq<int>
    requires 0 <= x < |s|
  {
    s[x := s[x] - 1]
  }

  lemma ExactSizes(ref: seq<int>, a: seq<int>, b: seq<int>, hand: seq<int>)
    requires Exact(ref, a, b, hand)
    ensures |hand| == |ref| && Names(a, |ref|) && Names(b, |ref|)
    ensures forall x :: 0 <= x < |ref| ==> 0 <= hand[x] <= ref[x]
  {
  }

  lemma NotNegative(ref: seq<int>, a: seq<int>, b: seq<int>, hand: seq<int>)
    requires Exact(ref, a, b, hand)
    ensures forall x :: 0 <= x < |ref| ==> ref[x] >= 0
  {
  }

  lemma ExactMore(ref: seq<int>, a: seq<int>, b: seq<int>, hand: seq<int>, x: int)
    requires Exact(ref, a, b, hand) && 0 <= x < |ref|
    ensures Exact(More(ref, x), a, b, More(hand, x))
  {
  }

  lemma ExactLess(ref: seq<int>, a: seq<int>, b: seq<int>, hand: seq<int>, x: int)
    requires Exact(ref, a, b, hand) && 0 <= x < |ref| && hand[x] >= 1
    ensures Exact(Less(ref, x), a, b, Less(hand, x)) && ref[x] >= 1
  {
  }

  /** Empty entry i of a takes over a reference in hand. */
  lemma ExactGive(ref: seq<int>, a: seq<int>, b: seq<int>, hand: seq<int>, i: nat, x: int)
    requires Exact(ref, a, b, hand) && i < |a| && a[i] == -1 && 0 <= x < |ref| && hand[x] >= 1
    ensures Exact(ref, a[i := x], b, Less(hand, x))
  {
    ExactSetA(ref, a, b, hand, i, x, ref, Less(hand, x));
  }

  /** Entry i of a gives its reference to the caller. */
  lemma ExactTake(ref: seq<int>, a: seq<int>, b: seq<int>, hand: seq<int>, i: nat)
    requires Exact(ref, a, b, hand) && i < |a| && a[i] != -1
    ensures 0 <= a[i] < |ref| && ref[a[i]] >= 1 && Exact(ref, a[i := -1], b, More(hand, a[i]))
  {
    assert a[i] in a;
    ExactSetA(ref, a, b, hand, i, -1, ref, More(hand, a[i]));
  }

  lemma OpenEnd(open: seq<int>, fend: seq<int>, hand: seq<int>, e: int)
    requires Exact(open, fend, [], hand) && 0 <= e < |open| && hand[e] >= 1 && open[e] <= 1
    ensures open[e] == 1
  {
  }

  /** How many slots of the inode table are free. */
  function Spare(iref: seq<int>): nat {
    Count(iref, 0)
  }

  /** The inode table from outside: how many slots are free, and which inodes have one. */
  datatype Table = Table(spare: int, used: set<int>)

  ghost function Tab(iref: seq<int>, inum: seq<int>): Table {
    Table(Spare(iref), set x | 0 <= x < |iref| && x < |inum| && iref[x] > 0 :: inum[x])
  }

  /** iget finds or makes a slot for inode n. */
  predicate Fits(t: Table, n: int) {
    n in t.used || t.spare >= 1
  }

  /** The table once iget has returned inode n. */
  function Got(t: Table, n: int): Table {
    if n in t.used then t else Table(t.spare - 1, t.used + {n})
  }

  lemma FitsSlot(iref: seq<int>, inum: seq<int>, n: int)
    requires |inum| == |iref| && Fits(Tab(iref, inum), n)
    ensures exists y :: 0 <= y < |iref| && (iref[y] == 0 || (iref[y] > 0 && inum[y] == n))
  {
    if Spare(iref) >= 1 {
      assert 0 in iref;
    }
  }

  /** Slots in use keep their inodes. */
  ghost predicate Steady(iref: seq<int>, inum: seq<int>, inum1: seq<int>) {
    |inum1| == |inum| == |iref| && forall y :: 0 <= y < |iref| && iref[y] > 0 ==> inum1[y] == inum[y]
  }

  lemma SteadySelf(iref: seq<int>, inum: seq<int>)
    requires |inum| == |iref|
    ensures Steady(iref, inum, inum)
  {
  }

  lemma SteadyTrans(iref: seq<int>, inum: seq<int>, x: int, inum1: seq<int>, inum2: seq<int>)
    requires 0 <= x < |iref| && Steady(iref, inum, inum1) && Steady(More(iref, x), inum1, inum2)
    ensures Steady(iref, inum, inum2)
  {
  }

  lemma TabSame(iref: seq<int>, inum: seq<int>, inum1: seq<int>)
    requires Steady(iref, inum, inum1)
    ensures Tab(iref, inum1) == Tab(iref, inum)
  {
    assert Tab(iref, inum1).used == Tab(iref, inum).used;
  }

  /** One more reference, to slot x: the table has its inode. */
  lemma TabMore(iref: seq<int>, inum: seq<int>, inum1: seq<int>, x: int, n: int)
    requires Steady(iref, inum, inum1) && 0 <= x < |iref| && iref[x] >= 0 && Slots(More(iref, x), inum1, n)
    ensures Tab(More(iref, x), inum1) == Got(Tab(iref, inum), inum1[x])
  {
    var iref1, t := More(iref, x), Tab(iref, inum);
    CountSet(iref, x, iref[x] + 1, 0);
    assert Tab(iref1, inum1).used == t.used + {inum1[x]};
    assert iref[x] == 0 ==> inum1[x] !in t.used by {
      assert forall y :: 0 <= y < |iref| && y != x && iref[y] > 0 ==> iref1[y] > 0 && inum1[y] != inum1[x];
    }
    assert iref[x] > 0 ==> inum1[x] in t.used;
  }

  lemma SlotSizes(iref: seq<int>, inum: seq<int>, n: int)
    requires Slots(iref, inum, n)
    ensures |inum| == |iref| && forall x :: 0 <= x < |iref| && iref[x] > 0 ==> 0 <= inum[x] < n
  {
  }

  /** Slot x, in use for inode i or free while no slot is in use for i, gets a reference. */
  lemma SlotsMore(iref: seq<int>, inum: seq<int>, n: int, x: int, i: int)
    requires Slots(iref, inum, n) && 0 <= x < |iref| && 0 <= i < n && iref[x] >= 0
    requires if iref[x] > 0 then inum[x] == i else forall y :: 0 <= y < |iref| && iref[y] > 0 ==> inum[y] != i
    ensures Slots(More(iref, x), inum[x := i], n)
  {
  }

  lemma SlotsLess(iref: seq<int>, inum: seq<int>, n: int, x: int)
    requires Slots(iref, inum, n) && 0 <= x < |iref|
    ensures Slots(Less(iref, x), inum, n)
  {
  }

  lemma HarmlessMore(frees: seq<Freeing>, iref: seq<int>, inum: seq<int>, n: int, x: int)
    requires Harmless(frees) && Slots(iref, inum, n) && 0 <= x < |iref| && iref[x] == 1
    ensures Harmless(frees + [Freeing(inum[x], 0, Less(iref, x), inum)])
  {
    assert Unnamed(Less(iref, x), inum, inum[x]);
  }

  lemma TablesDrop(fref: seq<int>, fip: seq<int>, fend: seq<int>, f: int)
    requires Tables(fref, fip, fend) && 0 <= f < |fref|
    ensures |fip| == |fref| == |fend| && (fip[f] == -1 || fend[f] == -1)
    ensures fref[f] != 1 ==> Tables(Less(fref, f), fip, fend)
    ensures Tables(Less(fref, f), fip[f := -1], fend[f := -1])
  {
  }
}

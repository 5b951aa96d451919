/** The calls that open and close files: open, pipe, and what fork and exit do with descriptors
    (kernel/sysfile.c, kernel/pipe.c, kernel/proc.c). A failed call leaves the tables as they were. */
module RefOpen {
  import opened Refs
  import opened RefCalls

  /** Every file is in use. */
  predicate NoFile(fref: seq<int>) {
    forall g :: 0 <= g < |fref| ==> fref[g] > 0
  }

  /** Process p has no free descriptor. */
  predicate NoFd(fds: seq<int>, p: int) {
    forall i :: 0 <= i < |fds| && NOFILE * p <= i < NOFILE * p + NOFILE ==> fds[i] != -1
  }

  /** Allocate a file and a descriptor for it, and let the file have inode x, which is in hand. */
  method OpenFile(k: Kernel, p: int, x: int, ghost hand: seq<int>) returns (fd: int)
    requires k.Valid() && 0 <= p < k.nproc && 0 <= x < k.ninode == |hand| && k.handI == More(hand, x) && hand[x] >= 0
    modifies k`fref, k`handF, k`fds, k`fip, k`fend, k`iref, k`ivalid, k`alive, k`frees, k`open, k`page, k`handI, k`handE
    ensures k.Valid() && -1 <= fd < NOFILE && k.handF == old(k.handF) && k.handE == old(k.handE)
    ensures k.iref == old(k.iref) && k.fend == old(k.fend) && k.open == old(k.open) && k.page == old(k.page)
    ensures fd == -1 <==> NoFile(old(k.fref)) || NoFd(old(k.fds), p)
    ensures fd == -1 ==> k.handI == old(k.handI) && k.fref == old(k.fref) && k.fds == old(k.fds) && k.fip == old(k.fip)
    ensures fd != -1 ==> k.handI == hand && Opened(old(k.fref), old(k.fds), old(k.fip), k.fref, k.fds, k.fip, NOFILE * p + fd, x)
  {
    hide Exact, Slots, Pipes, Tables, Harmless;
    HandsOk(k);
    var f := k.Filealloc();
    if f == -1 {
      return -1;
    }
    MoreLess(old(k.handF), f, f);
    fd := k.Fdalloc(p, f);
    if fd == -1 {
      k.Fileclose(f);
      return;
    }
    Fill(k, f, x, hand);
  }

  /** The file takes over the reference to the inode. */
  method Fill(k: Kernel, f: int, x: int, ghost hand: seq<int>)
    requires k.Valid() && 0 <= f < k.nfile && k.fref[f] >= 1 && k.fip[f] == -1 == k.fend[f]
    requires 0 <= x < k.ninode == |hand| && k.handI == More(hand, x) && hand[x] >= 0
    modifies k`fip, k`handI
    ensures k.Valid() && k.handI == hand && k.fip == old(k.fip)[f := x]
  {
    hide Exact, Slots, Pipes, Harmless;
    ExactGive(k.iref, k.fip, k.cwd, k.handI, f, x);
    MoreLess(hand, x, x);
    k.fip := k.fip[f := x];
    k.handI := hand;
  }

  /** Empty descriptor i names a file that was not in use, and the file inode x. */
  ghost predicate Opened(fref: seq<int>, fds: seq<int>, fip: seq<int>, fref1: seq<int>, fds1: seq<int>, fip1: seq<int>, i: int, x: int) {
    && 0 <= i < |fds| == |fds1| && fds[i] == -1
    && var f := fds1[i]; 0 <= f < |fref| == |fip| && fref[f] == 0 && fref1 == fref[f := 1] && fip1 == fip[f := x] && fds1 == fds[i := f]
  }

  /** open finds the inode: by create, or by the path, and then only for reading if it is a
      directory. */
  method OpenPath(k: Kernel, p: int, path: Path, creates: bool, c: Creation, isDir: bool, readOnly: bool) returns (x: int)
    requires OpenOk(k, p, path, creates, c)
    modifies k`iref, k`inum, k`ivalid, k`alive, k`frees, k`handI, k`nlink
    ensures if x == -1 then AtRest(k, old(Now(k))) else Holding(k, old(Now(k)), x)
    ensures x != -1 <==> Finds(path.elems, creates, c, isDir, readOnly)
    ensures x != -1 ==> 0 <= x < |k.inum| && k.inum[x] == Found(Start(old(k.inum), k.cwd, p, path.absolute), path, creates, c)
    ensures !creates ==> k.nlink == old(k.nlink)
  {
    hide Exact, Slots, Pipes, Tables, Harmless, Leads, AtRest, Holding, Kernel.Valid, Steady, Start, Target, PathOk, EntryFits, Creates;
    ghost var b := Now(k);
    if creates {
      x := Create(k, p, path, c, false);
      return;
    }
    x := Namex(k, p, path, false);
    if x == -1 {
      return;
    }
    Lock(k, x, b);
    if isDir && !readOnly {
      Put(k, x, b);
      x := -1;
    }
  }

  /** The lookup that open makes finds room in the inode table. */
  ghost predicate OpenOk(k: Kernel, p: int, path: Path, creates: bool, c: Creation)
    reads k
  {
    PathOk(k, p, path, creates, TabOf(k)) && CreationOk(c, k.ninum)
    && (creates ==> EntryFits(TabOf(k), Start(k.inum, k.cwd, p, path.absolute), path, Created(c)))
  }

  /** The inode that open opens. */
  function Found(start: int, path: Path, creates: bool, c: Creation): int {
    if creates then Created(c) else Target(start, path.elems, false)
  }

  predicate Finds(elems: seq<Elem>, creates: bool, c: Creation, isDir: bool, readOnly: bool) {
    if creates then Leads(elems, true) && Creates(c) else Leads(elems, false) && (isDir ==> readOnly)
  }

  /** open: all or nothing, but for the inode that create may have made. badDevice: the inode is a
      device without a driver. */
  method SysOpen(k: Kernel, p: int, path: Path, creates: bool, c: Creation, isDir: bool, readOnly: bool, badDevice: bool)
    returns (r: int, ghost x: int)
    requires OpenOk(k, p, path, creates, c)
    modifies k`fref, k`handF, k`fds, k`fip, k`fend, k`iref, k`inum, k`ivalid, k`alive, k`frees, k`open, k`page, k`handI, k`handE, k`nlink
    ensures k.Valid() && -1 <= r < NOFILE && k.handF == old(k.handF) && k.handI == old(k.handI) && k.handE == old(k.handE)
    ensures k.fend == old(k.fend) && k.open == old(k.open) && k.page == old(k.page)
    ensures r != -1 <==> Finds(path.elems, creates, c, isDir, readOnly) && !badDevice && !NoFile(old(k.fref)) && !NoFd(old(k.fds), p)
    ensures r == -1 ==> k.fref == old(k.fref) && k.fds == old(k.fds) && k.fip == old(k.fip) && k.iref == old(k.iref)
    ensures r != -1 ==> 0 <= x < k.ninode == |k.inum| == |old(k.iref)| && Opened(old(k.fref), old(k.fds), old(k.fip), k.fref, k.fds, k.fip, NOFILE * p + r, x)
    ensures r != -1 ==> k.iref == More(old(k.iref), x) && k.inum[x] == Found(Start(old(k.inum), k.cwd, p, path.absolute), path, creates, c)
  {
    hide Exact, Slots, Pipes, Tables, Harmless, Finds, NoFile, NoFd, Opened, Kernel.Valid, AtRest, Holding, Steady, Start, Found, OpenOk;
    ghost var b := Now(k);
    OpenRange(k, p, path, creates, c);
    var ip := OpenPath(k, p, path, creates, c, isDir, readOnly);
    r, x := -1, ip;
    if ip == -1 {
      RestFacts(k, b);
      return;
    }
    if badDevice {
      Put(k, ip, b);
      RestFacts(k, b);
      return;
    }
    HoldingFacts(k, b, ip);
    r := OpenFile(k, p, ip, b.hand);
    if r == -1 {
      StillHolding(k, b, ip);
      Put(k, ip, b);
      RestFacts(k, b);
    }
  }

  lemma OpenRange(k: Kernel, p: int, path: Path, creates: bool, c: Creation)
    requires OpenOk(k, p, path, creates, c)
    ensures k.Valid() && 0 <= p < k.nproc
  {
  }

  lemma StillHolding(k: Kernel, b: Basis, x: int)
    requires k.Valid() && |b.hand| == |b.iref| == |b.inum| == k.ninode && 0 <= x < k.ninode && b.hand[x] >= 0
    requires Steady(b.iref, b.inum, k.inum) && k.handI == More(b.hand, x) && k.iref == More(b.iref, x)
    ensures Holding(k, b, x)
  {
    hide Exact, Slots, Pipes, Tables, Harmless, Steady;
    MoreLess(b.hand, x, x);
    MoreLess(b.iref, x, x);
    ExactLess(k.iref, k.fip, k.cwd, k.handI, x);
  }

  /** mkdir and mknod: create, and let go of the inode. */
  method SysMake(k: Kernel, p: int, path: Path, c: Creation, isDir: bool) returns (r: int)
    requires OpenOk(k, p, path, true, c)
    modifies k`iref, k`inum, k`ivalid, k`alive, k`frees, k`handI, k`nlink
    ensures k.Valid() && k.handI == old(k.handI) && k.iref == old(k.iref)
    ensures r == if Leads(path.elems, true) && Creates(c) then 0 else -1
  {
    hide Exact, Slots, Pipes, Tables, Harmless, Leads, AtRest, Holding, Kernel.Valid, Steady, Start, Target, PathOk, EntryFits, Creates;
    ghost var b := Now(k);
    var x := Create(k, p, path, c, isDir);
    r := -1;
    if x != -1 {
      Put(k, x, b);
      r := 0;
    }
    RestFacts(k, b);
  }
}

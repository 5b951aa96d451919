/** The on-disk redo log (kernel/log.c): its format, what a disk image recovers
    to, and the commit and recovery code as imperative methods over a disk whose
    every write leaves an image that a crash could expose. */
module LogFormat {
  /** Words (ints) in one disk block: BSIZE / sizeof(int). */
  const WORDS: nat := 256

  type Block = b: seq<int> | |b| == WORDS witness seq(WORDS, i => 0)

  type Disk = seq<Block>

  /** Where the log lives: `size` blocks from `start`, the first of them the header.
      `logSize` is LOGSIZE, the capacity of the header's block list. */
  datatype Layout = Layout(start: nat, size: nat, logSize: nat, nblocks: nat) {
    ghost predicate Valid() {
      1 <= size && start + size <= nblocks && logSize + 1 <= WORDS
    }

    predicate InLog(b: int) {
      start <= b < start + size
    }

    /** A block the log protects: on the disk and outside the log. */
    predicate Home(b: int) {
      0 <= b < nblocks && !InLog(b)
    }
  }

  ghost predicate Distinct(h: seq<int>) {
    forall i, j :: 0 <= i < j < |h| ==> h[i] != h[j]
  }

  /** A list of logged block numbers that fits the header and the log region. */
  ghost predicate GoodList(g: Layout, h: seq<int>) {
    && |h| <= g.logSize && |h| < g.size
    && (forall i :: 0 <= i < |h| ==> g.Home(h[i]))
    && Distinct(h)
  }

  /** The header block begins with n and the n block numbers; later words are stale. */
  predicate GoodHeader(g: Layout, b: Block) {
    0 <= b[0] <= g.logSize && g.logSize + 1 <= WORDS
  }

  function ListOf(g: Layout, b: Block): (h: seq<int>)
    requires GoodHeader(g, b)
    ensures |h| == b[0]
  {
    b[1..1 + b[0]]
  }

  /** What write_head leaves in the header block: only the first |h| + 1 words change. */
  function PutList(b: Block, h: seq<int>): (r: Block)
    requires |h| + 1 <= WORDS
    ensures forall g: Layout :: |h| <= g.logSize && g.logSize + 1 <= WORDS ==>
                                  GoodHeader(g, r) && ListOf(g, r) == h
  {
    var r := [|h|] + h + b[|h| + 1..];
    assert r[1..1 + |h|] == h;
    r
  }

  ghost predicate DiskOk(g: Layout, d: Disk) {
    && g.Valid() && |d| == g.nblocks
    && GoodHeader(g, d[g.start]) && GoodList(g, ListOf(g, d[g.start]))
  }

  function DiskList(g: Layout, d: Disk): seq<int>
    requires DiskOk(g, d)
  {
    ListOf(g, d[g.start])
  }

  /** Image `d` recovers to `st`: the logged blocks hold their `st` contents in the log,
      and every other home block already holds its `st` contents. */
  ghost predicate RecoversTo(g: Layout, d: Disk, st: Disk) {
    && DiskOk(g, d) && |st| == |d|
    && var h := DiskList(g, d);
    && (forall i :: 0 <= i < |h| ==> d[g.start + 1 + i] == st[h[i]])
    && (forall b :: g.Home(b) && b !in h ==> d[b] == st[b])
  }

  ghost predicate SameHome(g: Layout, d: Disk, e: Disk) {
    |d| == |e| == g.nblocks && forall b :: g.Home(b) ==> d[b] == e[b]
  }

  ghost predicate Cleared(g: Layout, d: Disk) {
    DiskOk(g, d) && DiskList(g, d) == []
  }

  /** One write of install_trans: log copy `i` of `h` goes to its home block. */
  function Install(g: Layout, d: Disk, h: seq<int>, i: nat): Disk
    requires g.Valid() && |d| == g.nblocks && GoodList(g, h) && i < |h|
  {
    d[h[i] := d[g.start + 1 + i]]
  }

  /** The write of write_head. */
  function Head(g: Layout, d: Disk, h: seq<int>): Disk
    requires g.Valid() && |d| == g.nblocks && |h| <= g.logSize
  {
    d[g.start := PutList(d[g.start], h)]
  }

  /** The disk after the first k writes of write_log, when the cache shows `view`. */
  ghost function Logged(g: Layout, d: Disk, h: seq<int>, view: Disk, k: nat): (r: Disk)
    requires g.Valid() && |d| == |view| == g.nblocks && GoodList(g, h) && k <= |h|
    ensures |r| == |d|
  {
    if k == 0 then d else Logged(g, d, h, view, k - 1)[g.start + k := view[h[k - 1]]]
  }

  /** The images that the first k writes of write_log leave, one per write. */
  ghost function LogImages(g: Layout, d: Disk, h: seq<int>, view: Disk, k: nat): (r: seq<Disk>)
    requires g.Valid() && |d| == |view| == g.nblocks && GoodList(g, h) && k <= |h|
    ensures |r| == k
    ensures forall i :: 0 <= i < k ==> r[i] == Logged(g, d, h, view, i + 1)
  {
    if k == 0 then [] else LogImages(g, d, h, view, k - 1) + [Logged(g, d, h, view, k)]
  }

  /** The disk after install_trans has installed the first k blocks of h, in order. */
  ghost function InstallAll(g: Layout, d: Disk, h: seq<int>, k: nat): (r: Disk)
    requires g.Valid() && |d| == g.nblocks && GoodList(g, h) && k <= |h|
    ensures |r| == |d|
  {
    if k == 0 then d else Install(g, InstallAll(g, d, h, k - 1), h, k - 1)
  }

  ghost function InstallImages(g: Layout, d: Disk, h: seq<int>, k: nat): (r: seq<Disk>)
    requires g.Valid() && |d| == g.nblocks && GoodList(g, h) && k <= |h|
    ensures |r| == k
    ensures forall i :: 0 <= i < k ==> r[i] == InstallAll(g, d, h, i + 1)
  {
    if k == 0 then [] else InstallImages(g, d, h, k - 1) + [InstallAll(g, d, h, k)]
  }

  /** The disk when recover_from_log is done: the list installed, then the header cleared. */
  ghost function Recovered(g: Layout, d: Disk): Disk
    requires DiskOk(g, d)
  {
    var h := DiskList(g, d);
    Head(g, InstallAll(g, d, h, |h|), [])
  }

  /** An image recovers to one state only, as far as home blocks go. */
  lemma RecoversToUnique(g: Layout, d: Disk, st: Disk, st': Disk)
    requires RecoversTo(g, d, st) && RecoversTo(g, d, st')
    ensures SameHome(g, st, st')
  {
    forall b | g.Home(b) ensures st[b] == st'[b] {
      var h := DiskList(g, d);
      if b in h {
        var i :| 0 <= i < |h| && h[i] == b;
        assert d[g.start + 1 + i] == st[h[i]];
      }
    }
  }

  /** Installing one logged block does not change what the image recovers to,
      whatever was installed before it. */
  lemma InstallKeeps(g: Layout, d: Disk, st: Disk, i: nat)
    requires RecoversTo(g, d, st) && i < |DiskList(g, d)|
    ensures RecoversTo(g, Install(g, d, DiskList(g, d), i), st)
    ensures DiskList(g, Install(g, d, DiskList(g, d), i)) == DiskList(g, d)
  {
  }

  /** Installing the first `k` blocks of the list puts their state in place. */
  lemma {:induction false} InstallAllKeeps(g: Layout, d: Disk, st: Disk, k: nat)
    requires RecoversTo(g, d, st) && k <= |DiskList(g, d)|
    ensures var e := InstallAll(g, d, DiskList(g, d), k);
            && RecoversTo(g, e, st) && DiskList(g, e) == DiskList(g, d)
            && forall i :: 0 <= i < k ==> e[DiskList(g, d)[i]] == st[DiskList(g, d)[i]]
  {
    if k > 0 {
      InstallAllKeeps(g, d, st, k - 1);
      InstallKeeps(g, InstallAll(g, d, DiskList(g, d), k - 1), st, k - 1);
    }
  }

  /** Clearing the header of a fully installed image makes its home blocks final. */
  lemma ClearKeeps(g: Layout, d: Disk, st: Disk)
    requires RecoversTo(g, d, st)
    requires forall i :: 0 <= i < |DiskList(g, d)| ==> d[DiskList(g, d)[i]] == st[DiskList(g, d)[i]]
    ensures Cleared(g, Head(g, d, [])) && SameHome(g, Head(g, d, []), st)
    ensures RecoversTo(g, Head(g, d, []), st)
  {
    var e := Head(g, d, []);
    assert GoodHeader(g, e[g.start]) && ListOf(g, e[g.start]) == [];
    forall b | g.Home(b) ensures e[b] == st[b] {
      if b in DiskList(g, d) {
        var i :| 0 <= i < |DiskList(g, d)| && DiskList(g, d)[i] == b;
      }
    }
  }

  /** RecoversTo is what recovery computes: an image recovers to `st` exactly when the
      recovery procedure leaves `st` in the home blocks. */
  lemma RecoversToIffRecovered(g: Layout, d: Disk, st: Disk)
    requires DiskOk(g, d) && |st| == |d|
    ensures RecoversTo(g, d, st) <==> SameHome(g, Recovered(g, d), st)
  {
    var h := DiskList(g, d);
    // The state this image does recover to, written down from the image.
    var own := seq(|d|, b requires 0 <= b < |d| =>
      if exists i :: 0 <= i < |h| && h[i] == b
      then (var i :| 0 <= i < |h| && h[i] == b; d[g.start + 1 + i]) else d[b]);
    forall i | 0 <= i < |h| ensures d[g.start + 1 + i] == own[h[i]] {
      assert own[h[i]] == (var j :| 0 <= j < |h| && h[j] == h[i]; d[g.start + 1 + j]);
    }
    assert RecoversTo(g, d, own);
    InstallAllKeeps(g, d, own, |h|);
    ClearKeeps(g, InstallAll(g, d, h, |h|), own);
    if RecoversTo(g, d, st) {
      RecoversToUnique(g, d, st, own);
    }
    if SameHome(g, Recovered(g, d), st) {
      assert SameHome(g, own, st);
    }
  }

  /** While the header is clear, writes into the log region are invisible to recovery. */
  lemma LogAreaInvisible(g: Layout, d: Disk, st: Disk, i: nat, data: Block)
    requires Cleared(g, d) && RecoversTo(g, d, st) && i + 1 < g.size
    ensures Cleared(g, d[g.start + 1 + i := data]) && RecoversTo(g, d[g.start + 1 + i := data], st)
  {
  }

  /** The commit point: writing the header switches the image, in one write, from the
      old state to the new one. */
  lemma CommitPoint(g: Layout, d: Disk, h: seq<int>, pre: Disk, post: Disk)
    requires Cleared(g, d) && RecoversTo(g, d, pre) && GoodList(g, h)
    requires |post| == |pre|
    requires forall i :: 0 <= i < |h| ==> d[g.start + 1 + i] == post[h[i]]
    requires forall b :: g.Home(b) && b !in h ==> post[b] == pre[b]
    ensures RecoversTo(g, Head(g, d, h), post) && DiskList(g, Head(g, d, h)) == h
  {
    var e := Head(g, d, h);
    assert GoodHeader(g, e[g.start]) && ListOf(g, e[g.start]) == h;
  }

  lemma CommitPointOk(g: Layout, d: Disk, h: seq<int>)
    requires g.Valid() && |d| == g.nblocks && GoodList(g, h)
    ensures DiskOk(g, Head(g, d, h)) && DiskList(g, Head(g, d, h)) == h
  {
    assert GoodHeader(g, PutList(d[g.start], h));
  }

  /** The images that commit leaves on the disk, one per block write: the log area, the
      header, then the home blocks and the cleared header, as in recovery. */
  ghost function CommitImages(g: Layout, d: Disk, h: seq<int>, view: Disk): seq<Disk>
    requires g.Valid() && |d| == |view| == g.nblocks && GoodList(g, h)
  {
    if h == [] then [] else
      var logged := Logged(g, d, h, view, |h|);
      var committed := Head(g, logged, h);
      CommitPointOk(g, logged, h);
      LogImages(g, d, h, view, |h|) + [committed] + RecoveryImages(g, committed)
  }

  /** The images that recover_from_log leaves on the disk. */
  ghost function RecoveryImages(g: Layout, d: Disk): seq<Disk>
    requires DiskOk(g, d)
  {
    var h := DiskList(g, d);
    InstallImages(g, d, h, |h|) + [Recovered(g, d)]
  }

  /** Before the header is written, the old state is what recovers, and the log area
      fills up with the new contents. */
  lemma {:induction false} LoggedKeeps(g: Layout, d: Disk, h: seq<int>, view: Disk, pre: Disk, k: nat)
    requires Cleared(g, d) && RecoversTo(g, d, pre) && GoodList(g, h) && |view| == |d| && k <= |h|
    ensures var e := Logged(g, d, h, view, k);
            && Cleared(g, e) && RecoversTo(g, e, pre)
            && forall i :: 0 <= i < k ==> e[g.start + 1 + i] == view[h[i]]
  {
    if k > 0 {
      LoggedKeeps(g, d, h, view, pre, k - 1);
      LogAreaInvisible(g, Logged(g, d, h, view, k - 1), pre, k - 1, view[h[k - 1]]);
    }
  }

  /** `view` is `pre` with the blocks of h changed at will. */
  ghost predicate DiffersOnlyIn(g: Layout, h: seq<int>, pre: Disk, view: Disk) {
    |pre| == |view| == g.nblocks && forall b :: g.Home(b) && b !in h ==> view[b] == pre[b]
  }

  /** Crash atomicity of commit: whatever block write the crash comes after, the image
      recovers to the whole old state when the header write had not happened, and to the
      whole new state when it had. */
  lemma CommitIsAtomic(g: Layout, d: Disk, h: seq<int>, pre: Disk, view: Disk)
    requires Cleared(g, d) && RecoversTo(g, d, pre) && GoodList(g, h) && DiffersOnlyIn(g, h, pre, view)
    ensures var images := CommitImages(g, d, h, view);
            && |images| == (if h == [] then 0 else 2 * |h| + 2)
            && (forall k :: 0 <= k < |images| ==> RecoversTo(g, images[k], if k < |h| then pre else view))
            && (h != [] ==> Cleared(g, images[|images| - 1]) && SameHome(g, images[|images| - 1], view))
  {
    hide RecoversTo, Cleared, DiskOk, SameHome, InstallImages, InstallAll, Recovered, Logged, Head;
    ClearedSizes(g, d);
    if h != [] {
      var logged := Logged(g, d, h, view, |h|);
      LoggedKeeps(g, d, h, view, pre, |h|);
      CommitPoint(g, logged, h, pre, view);
      var committed := Head(g, logged, h);
      RecoveryIsIdempotent(g, committed, view);
      var before, after := LogImages(g, d, h, view, |h|), RecoveryImages(g, committed);
      forall k | 0 <= k < |h| ensures RecoversTo(g, before[k], pre) {
        LoggedKeeps(g, d, h, view, pre, k + 1);
      }
      assert CommitImages(g, d, h, view) == before + [committed] + after;
    }
  }

  lemma ClearedSizes(g: Layout, d: Disk)
    requires Cleared(g, d)
    ensures g.Valid() && |d| == g.nblocks
  {
  }

  /** Crashes during recovery lose nothing: every image recovery leaves recovers to the
      same state, and the last one has that state in place. */
  lemma RecoveryIsIdempotent(g: Layout, d: Disk, st: Disk)
    requires RecoversTo(g, d, st)
    ensures var images := RecoveryImages(g, d);
            && |images| == |DiskList(g, d)| + 1
            && (forall k :: 0 <= k < |images| ==> RecoversTo(g, images[k], st))
            && Cleared(g, images[|images| - 1]) && SameHome(g, images[|images| - 1], st)
  {
    hide SameHome, InstallImages, InstallAll, GoodList, GoodHeader, ListOf;
    var h := DiskList(g, d);
    InstallAllKeeps(g, d, st, |h|);
    ClearKeeps(g, InstallAll(g, d, h, |h|), st);
    forall k | 0 <= k < |h| ensures RecoversTo(g, RecoveryImages(g, d)[k], st) {
      InstallAllKeeps(g, d, st, k + 1);
    }
  }

  /** A machine that keeps crashing during recovery: each image is one that recovery of
      the one before it left on the disk. */
  ghost predicate CrashChain(g: Layout, chain: seq<Disk>) {
    && chain != []
    && (forall i :: 0 <= i < |chain| ==> DiskOk(g, chain[i]))
    && (forall i :: 0 < i < |chain| ==> chain[i] in RecoveryImages(g, chain[i - 1]))
  }

  lemma {:induction false} ChainRecoversTo(g: Layout, chain: seq<Disk>, st: Disk)
    requires CrashChain(g, chain) && RecoversTo(g, chain[0], st)
    ensures RecoversTo(g, chain[|chain| - 1], st)
  {
    if |chain| > 1 {
      var init := chain[..|chain| - 1];
      assert forall i :: 0 <= i < |init| ==> init[i] == chain[i];
      ChainRecoversTo(g, init, st);
      RecoveryIsIdempotent(g, init[|init| - 1], st);
    }
  }

  /** Crash atomicity end to end: a crash after any write of commit, then any number of
      crashes inside recovery, then a recovery that completes, leaves the home blocks in
      the old state or in the new state, and the new one exactly when the crash came
      after the header write. */
  lemma CrashAtomicity(g: Layout, d: Disk, h: seq<int>, pre: Disk, view: Disk, k: nat, chain: seq<Disk>)
    requires Cleared(g, d) && RecoversTo(g, d, pre) && GoodList(g, h) && DiffersOnlyIn(g, h, pre, view)
    requires CrashChain(g, chain) && k < |CommitImages(g, d, h, view)| && chain[0] == CommitImages(g, d, h, view)[k]
    ensures SameHome(g, Recovered(g, chain[|chain| - 1]), if k < |h| then pre else view)
  {
    CommitIsAtomic(g, d, h, pre, view);
    var st := if k < |h| then pre else view;
    ChainRecoversTo(g, chain, st);
    RecoversToIffRecovered(g, chain[|chain| - 1], st);
  }
}

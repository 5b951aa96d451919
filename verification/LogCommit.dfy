/** The code of kernel/log.c that touches the disk, over the block cache of
    kernel/bio.c. `trace` records the disk image after every single block write,
    so "a crash after any write" is "any image of the trace". */
module LogCommit {
  import opened LogFormat

  /** The contents of the valid buffers, by block number. */
  type Cache = map<int, Block>

  /** Buffers other than the pending ones equal their disk blocks. */
  ghost predicate Coherent(disk: Disk, cache: Cache, pending: seq<int>) {
    forall b :: b in cache ==> 0 <= b < |disk| && (b !in pending ==> cache[b] == disk[b])
  }

  /** The state that readers of the cache see in the home blocks. */
  ghost predicate Shows(g: Layout, disk: Disk, cache: Cache, view: Disk) {
    && |view| == |disk| == g.nblocks
    && (forall b :: g.Home(b) ==> view[b] == if b in cache then cache[b] else disk[b])
  }

  /** A buffer with a nonzero refcnt stays cached. */
  ghost predicate Held(refcnt: seq<nat>, cache: Cache) {
    forall b :: 0 <= b < |refcnt| && refcnt[b] > 0 ==> b in cache
  }

  /** The only references are one pin for each pending block. */
  ghost predicate PinsOnly(refcnt: seq<nat>, pending: seq<int>) {
    forall b :: 0 <= b < |refcnt| ==> refcnt[b] == if b in pending then 1 else 0
  }

  /** What reads and the recycling they cause may do to the cache: referenced buffers
      stay, others may go, and what is loaded comes from the disk. */
  ghost predicate CacheMoved(disk: Disk, c: Cache, c': Cache, refcnt: seq<nat>) {
    && (forall x :: 0 <= x < |refcnt| && refcnt[x] > 0 && x in c ==> x in c' && c'[x] == c[x])
    && (forall x :: x in c' ==> 0 <= x < |disk| && (c'[x] == disk[x] || (x in c && c'[x] == c[x])))
  }

  lemma MovedTrans(disk: Disk, c: Cache, c': Cache, c'': Cache, refcnt: seq<nat>, refcnt': seq<nat>)
    requires CacheMoved(disk, c, c', refcnt) && CacheMoved(disk, c', c'', refcnt')
    requires |refcnt| <= |refcnt'| && forall b :: 0 <= b < |refcnt| ==> refcnt[b] <= refcnt'[b]
    ensures CacheMoved(disk, c, c'', refcnt)
  {
  }

  lemma MovedKeeps(g: Layout, disk: Disk, c: Cache, c': Cache, refcnt: seq<nat>, pending: seq<int>, view: Disk)
    requires CacheMoved(disk, c, c', refcnt) && Coherent(disk, c, pending)
    requires |refcnt| == |disk| && PinsOnly(refcnt, pending) && Held(refcnt, c)
    ensures Coherent(disk, c', pending)
    ensures Shows(g, disk, c, view) ==> Shows(g, disk, c', view)
  {
  }

  /** Writing through the cache into the log area disturbs neither coherence nor the view. */
  lemma WriteLogArea(g: Layout, d: Disk, c: Cache, h: seq<int>, view: Disk, at: int, data: Block)
    requires g.Valid() && Coherent(d, c, h) && Shows(g, d, c, view) && g.InLog(at)
    ensures Coherent(d[at := data], c[at := data], h)
    ensures Shows(g, d[at := data], c[at := data], view)
  {
  }

  lemma InstallKeepsList(g: Layout, d: Disk, i: nat)
    requires DiskOk(g, d) && i < |DiskList(g, d)|
    ensures var e := Install(g, d, DiskList(g, d), i); DiskOk(g, e) && DiskList(g, e) == DiskList(g, d)
  {
    assert g.Home(DiskList(g, d)[i]);
  }

  /** log.c's memory between calls: pending blocks are pinned once each, there is no
      other reference, and every other buffer equals its disk block. */
  ghost predicate Settled(g: Layout, disk: Disk, cache: Cache, refcnt: seq<nat>, pending: seq<int>) {
    && DiskOk(g, disk) && GoodList(g, pending) && |refcnt| == |disk|
    && PinsOnly(refcnt, pending) && Held(refcnt, cache) && Coherent(disk, cache, pending)
  }

  lemma SettledSizes(g: Layout, disk: Disk, cache: Cache, refcnt: seq<nat>, pending: seq<int>)
    requires Settled(g, disk, cache, refcnt, pending)
    ensures DiskOk(g, disk) && g.Valid() && |disk| == g.nblocks && GoodList(g, DiskList(g, disk))
    ensures |refcnt| == |disk| && Held(refcnt, cache) && forall x :: x in cache ==> 0 <= x < |disk|
    ensures pending != [] ==> 0 <= pending[0] < |refcnt| && refcnt[pending[0]] == 1
  {
    assert pending != [] ==> g.Home(pending[0]) && pending[0] in pending;
  }

  lemma CopyToLogSettled(g: Layout, d: Disk, c: Cache, mid: Cache, refcnt: seq<nat>, h: seq<int>, view: Disk, k: nat)
    requires Settled(g, d, c, refcnt, h) && Cleared(g, d) && Shows(g, d, c, view) && k < |h|
    requires CacheMoved(d, c, mid, refcnt) && h[k] in mid
    ensures mid[h[k]] == view[h[k]]
    ensures var at := g.start + 1 + k;
            var d', c' := d[at := mid[h[k]]], mid[at := mid[h[k]]];
            Settled(g, d', c', refcnt, h) && Cleared(g, d') && Shows(g, d', c', view)
  {
    assert g.Home(h[k]);
    MovedKeeps(g, d, c, mid, refcnt, h, view);
    WriteLogArea(g, d, mid, h, view, g.start + 1 + k, mid[h[k]]);
  }

  function Rest(pending: seq<int>): seq<int> {
    if pending == [] then [] else pending[1..]
  }

  lemma UnpinFirst(refcnt: seq<nat>, pending: seq<int>)
    requires PinsOnly(refcnt, pending) && pending != [] && 0 <= pending[0] < |refcnt| && Distinct(pending)
    ensures refcnt[pending[0]] == 1 && PinsOnly(refcnt[pending[0] := 0], pending[1..])
    ensures forall b :: b in pending <==> b == pending[0] || b in pending[1..]
  {
    assert pending == [pending[0]] + pending[1..] && pending[0] !in pending[1..];
  }

  /** Installing a block: `pending` is [] when recovering, else it starts with the block. */
  lemma InstallSettled(g: Layout, d: Disk, c: Cache, mid: Cache, refcnt: seq<nat>, pending: seq<int>, src: int, dst: int)
    requires Settled(g, d, c, refcnt, pending) && CacheMoved(d, c, mid, refcnt)
    requires g.InLog(src) && g.Home(dst) && src in mid
    requires pending == [] || pending[0] == dst
    requires DiskOk(g, d[dst := d[src]])
    ensures mid[src] == d[src]
    ensures var refcnt' := if pending == [] then refcnt else refcnt[dst := refcnt[dst] - 1];
            Settled(g, d[dst := d[src]], mid[dst := d[src]], refcnt', Rest(pending))
  {
    hide DiskOk, PinsOnly, Held, Coherent, CacheMoved;
    SettledSizes(g, d, c, refcnt, pending);
    var refcnt' := if pending == [] then refcnt else refcnt[dst := refcnt[dst] - 1];
    assert src !in pending by {
      forall i | 0 <= i < |pending| ensures pending[i] != src { assert g.Home(pending[i]); }
    }
    if pending != [] {
      UnpinFirst(refcnt, pending);
      assert GoodList(g, pending[1..]);
    }
    InstallCoherent(g, d, c, mid, refcnt, pending, src, dst);
    HeldWritten(d, c, mid, refcnt, refcnt', dst, d[src]);
  }

  lemma InstallCoherent(g: Layout, d: Disk, c: Cache, mid: Cache, refcnt: seq<nat>, pending: seq<int>, src: int, dst: int)
    requires CacheMoved(d, c, mid, refcnt) && Coherent(d, c, pending) && |refcnt| == |d| && PinsOnly(refcnt, pending) && Held(refcnt, c)
    requires src in mid && src !in pending && 0 <= dst < |d|
    requires pending == [] || forall b :: b in pending <==> b == dst || b in pending[1..]
    ensures 0 <= src < |d| && mid[src] == d[src] && Coherent(d[dst := d[src]], mid[dst := d[src]], Rest(pending))
  {
    MovedKeeps(g, d, c, mid, refcnt, pending, d);
    hide PinsOnly, Held, CacheMoved;
  }

  lemma HeldWritten(d: Disk, c: Cache, mid: Cache, refcnt: seq<nat>, refcnt': seq<nat>, dst: int, x: Block)
    requires CacheMoved(d, c, mid, refcnt) && Held(refcnt, c)
    requires |refcnt'| == |refcnt| && forall b :: 0 <= b < |refcnt| && b != dst ==> refcnt'[b] <= refcnt[b]
    ensures Held(refcnt', mid[dst := x])
  {
  }

  lemma HeadSettled(g: Layout, d: Disk, c: Cache, mid: Cache, refcnt: seq<nat>, pending: seq<int>, h: seq<int>)
    requires Settled(g, d, c, refcnt, pending) && CacheMoved(d, c, mid, refcnt) && g.start in mid
    requires |h| <= g.logSize && DiskOk(g, Head(g, d, h))
    ensures mid[g.start] == d[g.start]
    ensures Settled(g, Head(g, d, h), mid[g.start := PutList(d[g.start], h)], refcnt, pending)
  {
    MovedKeeps(g, d, c, mid, refcnt, pending, d);
    assert g.start !in pending by {
      forall i | 0 <= i < |pending| ensures pending[i] != g.start { assert g.Home(pending[i]); }
    }
  }

  function Absorb(h: seq<int>, b: int): seq<int> {
    if b in h then h else h + [b]
  }

  lemma TakeAndDrop(r: seq<nat>, b: int)
    requires 0 <= b < |r|
    ensures r[b := r[b] + 1][b := r[b]] == r
    ensures r[b := r[b] + 1][b := r[b] + 2][b := r[b] + 1] == r[b := r[b] + 1]
  {
  }

  /** log_write of block b on a settled state, absorbed or appended. */
  lemma LogWriteSettled(g: Layout, d: Disk, c: Cache, mid: Cache, refcnt: seq<nat>, h: seq<int>, b: int, data: Block, view: Disk)
    requires Settled(g, d, c, refcnt, h) && CacheMoved(d, c, mid, refcnt) && Shows(g, d, c, view)
    requires g.Home(b) && |h| < g.logSize && |h| < g.size - 1
    ensures && Settled(g, d, mid[b := data], if b in h then refcnt else refcnt[b := refcnt[b] + 1], Absorb(h, b))
            && Shows(g, d, mid[b := data], view[b := data])
  {
    hide DiskOk, GoodList, PinsOnly, CacheMoved, Held, Coherent, Shows;
    SettledSizes(g, d, c, refcnt, h);
    MovedKeeps(g, d, c, mid, refcnt, h, view);
    if b !in h {
      PinOneMore(g, refcnt, h, b);
    }
    HeldWritten(d, c, mid, refcnt, if b in h then refcnt else refcnt[b := refcnt[b] + 1], b, data);
    BufferWritten(g, d, mid, h, view, b, data);
  }

  lemma BufferWritten(g: Layout, d: Disk, c: Cache, h: seq<int>, view: Disk, b: int, data: Block)
    requires Coherent(d, c, h) && Shows(g, d, c, view) && g.Home(b)
    ensures Coherent(d, c[b := data], Absorb(h, b)) && Shows(g, d, c[b := data], view[b := data])
  {
  }

  lemma PinOneMore(g: Layout, refcnt: seq<nat>, h: seq<int>, b: int)
    requires PinsOnly(refcnt, h) && GoodList(g, h) && g.Home(b) && b !in h && b < |refcnt|
    requires |h| < g.logSize && |h| < g.size - 1
    ensures PinsOnly(refcnt[b := refcnt[b] + 1], h + [b]) && GoodList(g, h + [b])
  {
  }

  lemma SettledDiffers(g: Layout, d: Disk, c: Cache, refcnt: seq<nat>, h: seq<int>, view: Disk)
    requires Settled(g, d, c, refcnt, h) && Cleared(g, d) && Shows(g, d, c, view)
    ensures DiffersOnlyIn(g, h, d, view) && RecoversTo(g, d, d)
  {
  }

  /** What commit leaves on the disk. */
  lemma CommitPhases(g: Layout, d: Disk, h: seq<int>, view: Disk)
    requires Cleared(g, d) && RecoversTo(g, d, d) && GoodList(g, h) && DiffersOnlyIn(g, h, d, view)
    ensures h == [] ==> SameHome(g, d, view)
    ensures var committed := Head(g, Logged(g, d, h, view, |h|), h);
            DiskOk(g, committed) && DiskList(g, committed) == h && SameHome(g, Recovered(g, committed), view)
  {
    LoggedKeeps(g, d, h, view, d, |h|);
    var logged := Logged(g, d, h, view, |h|);
    CommitPoint(g, logged, h, d, view);
    RecoversToIffRecovered(g, Head(g, logged, h), view);
  }

  lemma AppendAssoc<T>(a: seq<T>, b: seq<T>, c: seq<T>, d: seq<T>)
    ensures a + b + c + d == a + (b + c + d)
  {
  }

  class Log {
    const g: Layout
    var disk: Disk
    var cache: Cache
    var refcnt: seq<nat>         // references to each block's buffer
    var n: nat                   // log.lh.n
    const block: array<int>      // log.lh.block
    ghost var trace: seq<Disk>

    ghost predicate Valid()
      reads this, block
    {
      && block.Length == g.logSize && n <= g.logSize
      && Settled(g, disk, cache, refcnt, block[..n])
    }

    /** initlog up to its call of recover_from_log: nothing is cached yet. */
    constructor Boot(g: Layout, image: Disk)
      requires DiskOk(g, image)
      ensures this.g == g && disk == image && n == 0 && trace == []
      ensures Valid() && cache == map[] && fresh(block)
    {
      this.g := g;
      disk := image;
      cache := map[];
      refcnt := seq(|image|, i => 0);
      n := 0;
      trace := [];
      block := new int[g.logSize];
    }

    /** bread: the cached copy if there is one, else the disk's. A miss may recycle any
        buffer whose refcnt is zero. */
    method Bread(b: int) returns (data: Block)
      requires 0 <= b < |disk| == |refcnt| && Held(refcnt, cache)
      requires forall x :: x in cache ==> 0 <= x < |disk|
      modifies this`cache, this`refcnt
      ensures b in cache && cache[b] == data && refcnt == old(refcnt)[b := old(refcnt)[b] + 1]
      ensures CacheMoved(disk, old(cache), cache, old(refcnt)) && Held(refcnt, cache)
      ensures forall x :: x in cache ==> 0 <= x < |disk|
    {
      if b in cache {
        data := cache[b];
      } else {
        var victim: int := *;
        if 0 <= victim < |refcnt| && refcnt[victim] == 0 {
          cache := cache - {victim};
        }
        data := disk[b];
        cache := cache[b := data];
      }
      refcnt := refcnt[b := refcnt[b] + 1];
    }

    /** The effect on refcnt of brelse, and of bunpin. */
    method Drop(b: int)
      requires 0 <= b < |refcnt| && refcnt[b] > 0
      modifies this`refcnt
      ensures refcnt == old(refcnt)[b := old(refcnt)[b] - 1]
    {
      refcnt := refcnt[b := refcnt[b] - 1];
    }

    /** Fill a held buffer with `data` and bwrite it: one atomic block write. */
    method Bwrite(b: int, data: Block)
      requires 0 <= b < |disk| == |refcnt| && refcnt[b] > 0 && Held(refcnt, cache)
      modifies this`cache, this`disk, this`trace
      ensures disk == old(disk)[b := data] && cache == old(cache)[b := data]
      ensures trace == old(trace) + [disk]
    {
      cache := cache[b := data];
      disk := disk[b := data];
      trace := trace + [disk];
    }

    /** bread both blocks, memmove, bwrite, optionally bunpin, brelse both: the body that
        write_log and install_trans share. `mid` is the cache just before the write. */
    method CopyBlock(src: int, dst: int, unpin: bool) returns (data: Block, ghost mid: Cache)
      requires 0 <= src < |disk| == |refcnt| && 0 <= dst < |disk| && Held(refcnt, cache)
      requires unpin ==> refcnt[dst] > 0
      requires forall x :: x in cache ==> 0 <= x < |disk|
      modifies this`cache, this`refcnt, this`disk, this`trace
      ensures disk == old(disk)[dst := data]
      ensures trace == old(trace) + [disk]
      ensures CacheMoved(old(disk), old(cache), mid, old(refcnt))
      ensures src in mid && data == mid[src] && cache == mid[dst := data]
      ensures refcnt == if unpin then old(refcnt)[dst := old(refcnt)[dst] - 1] else old(refcnt)
    {
      hide CacheMoved;
      var to := Bread(dst);
      label Second:
      data := Bread(src);
      mid := cache;
      MovedTrans(disk, old(cache), old@Second(cache), mid, old(refcnt), old@Second(refcnt));
      Bwrite(dst, data);
      if unpin {
        Drop(dst);
      }
      Drop(src);
      Drop(dst);
    }

    /** One turn of write_log's loop. */
    method CopyToLog(tail: nat, ghost view: Disk)
      requires Valid() && Cleared(g, disk) && Shows(g, disk, cache, view) && tail < n
      modifies this`cache, this`refcnt, this`disk, this`trace
      ensures Valid() && Cleared(g, disk) && Shows(g, disk, cache, view)
      ensures disk == old(disk)[g.start + tail + 1 := view[block[tail]]]
      ensures trace == old(trace) + [disk]
    {
      ghost var h := block[..n];
      assert g.Home(h[tail]) && |view| == |disk|;
      var from, mid := CopyBlock(block[tail], g.start + tail + 1, false);
      CopyToLogSettled(g, old(disk), old(cache), mid, refcnt, h, view, tail);
    }

    method WriteLog(ghost view: Disk)
      requires Valid() && Cleared(g, disk) && Shows(g, disk, cache, view)
      modifies this`cache, this`refcnt, this`disk, this`trace
      ensures Valid() && Cleared(g, disk) && Shows(g, disk, cache, view)
      ensures disk == Logged(g, old(disk), block[..n], view, n)
      ensures trace == old(trace) + LogImages(g, old(disk), block[..n], view, n)
    {
      ghost var h := block[..n];
      assert GoodList(g, h) && g.Valid() && |disk| == |view| == g.nblocks && n <= block.Length;
      hide GoodList, DiskOk, Settled, Cleared, Shows;
      var tail := 0;
      while tail < n
        invariant 0 <= tail <= n
        invariant Valid() && Cleared(g, disk) && Shows(g, disk, cache, view)
        invariant disk == Logged(g, old(disk), h, view, tail)
        invariant trace == old(trace) + LogImages(g, old(disk), h, view, tail)
      {
        CopyToLog(tail, view);
        tail := tail + 1;
      }
    }

    /** The assignments of write_head to the header buffer. */
    method FillHead(hb0: Block) returns (hb: Block)
      requires n <= block.Length && n + 1 <= WORDS
      ensures hb == PutList(hb0, block[..n])
    {
      hb := hb0[0 := n];
      var i := 0;
      while i < n
        invariant 0 <= i <= n && |hb| == WORDS
        invariant hb == [n] + block[..i] + hb0[i + 1..]
      {
        hb := hb[1 + i := block[i]];
        i := i + 1;
      }
    }

    /** write_head, with the header buffer read, filled and written. */
    method WriteHead(ghost pending: seq<int>)
      requires n <= block.Length && n <= g.logSize && Settled(g, disk, cache, refcnt, pending)
      requires DiskOk(g, Head(g, disk, block[..n]))
      modifies this`cache, this`refcnt, this`disk, this`trace
      ensures disk == Head(g, old(disk), block[..n])
      ensures trace == old(trace) + [disk]
      ensures Settled(g, disk, cache, refcnt, pending)
    {
      var hb := Bread(g.start);
      HeadSettled(g, disk, old(cache), cache, old(refcnt), pending, block[..n]);
      hb := FillHead(hb);
      Bwrite(g.start, hb);
      Drop(g.start);
    }

    /** One turn of install_trans's loop: copy a log block home and, when not
        recovering, drop the pin that log_write took on its buffer. `pending` lists the
        blocks still pinned: none when recovering. */
    method InstallOne(tail: nat, recovering: bool, ghost pending: seq<int>)
      requires tail < n <= block.Length && Settled(g, disk, cache, refcnt, pending)
      requires DiskList(g, disk) == block[..n]
      requires if recovering then pending == [] else pending != [] && pending[0] == block[tail]
      modifies this`cache, this`refcnt, this`disk, this`trace
      ensures Settled(g, disk, cache, refcnt, Rest(pending))
      ensures disk == Install(g, old(disk), block[..n], tail)
      ensures trace == old(trace) + [disk]
    {
      hide Settled, DiskOk;
      ghost var d := disk;
      SettledSizes(g, disk, cache, refcnt, pending);
      assert block[..n][tail] == block[tail] && g.Home(block[tail]) && g.InLog(g.start + tail + 1);
      InstallKeepsList(g, disk, tail);
      var data, mid := CopyBlock(g.start + tail + 1, block[tail], !recovering);
      InstallSettled(g, d, old(cache), mid, old(refcnt), pending, g.start + tail + 1, block[tail]);
    }

    method InstallTrans(recovering: bool)
      requires n <= block.Length && Settled(g, disk, cache, refcnt, if recovering then [] else block[..n])
      requires DiskList(g, disk) == block[..n]
      modifies this`cache, this`refcnt, this`disk, this`trace
      ensures Settled(g, disk, cache, refcnt, [])
      ensures disk == InstallAll(g, old(disk), block[..n], n)
      ensures trace == old(trace) + InstallImages(g, old(disk), block[..n], n)
    {
      hide Settled, DiskOk;
      ghost var h := block[..n];
      SettledSizes(g, disk, cache, refcnt, if recovering then [] else h);
      ghost var pending := if recovering then [] else h;
      var tail := 0;
      while tail < n
        invariant 0 <= tail <= n && pending == (if recovering then [] else h[tail..])
        invariant Settled(g, disk, cache, refcnt, pending) && DiskOk(g, disk) && DiskList(g, disk) == h
        invariant disk == InstallAll(g, old(disk), h, tail)
        invariant trace == old(trace) + InstallImages(g, old(disk), h, tail)
      {
        InstallKeepsList(g, disk, tail);
        InstallOne(tail, recovering, pending);
        pending := Rest(pending);
        tail := tail + 1;
      }
    }

    /** The search of log_write: the index of b in the list, or n. */
    method Find(b: int) returns (i: nat)
      requires n <= block.Length
      ensures i <= n && (i < n ==> block[i] == b)
      ensures i < n <==> b in block[..n]
    {
      i := 0;
      while i < n && block[i] != b
        invariant 0 <= i <= n
        invariant forall j :: 0 <= j < i ==> block[j] != b
      {
        i := i + 1;
      }
    }

    /** log_write of a buffer the caller holds: pinned once when it is new to the list,
        absorbed when it is not. The two size panics are the requires. */
    method LogWrite(b: int)
      requires n < block.Length == g.logSize && n < g.size - 1
      requires 0 <= b < |refcnt|
      modifies this`refcnt, this`n, block
      ensures n <= block.Length && block[..n] == Absorb(old(block[..n]), b)
      ensures refcnt == if b in old(block[..n]) then old(refcnt) else old(refcnt)[b := old(refcnt)[b] + 1]
    {
      ghost var h := block[..n];
      var i := Find(b);
      block[i] := b;
      if i == n {
        refcnt := refcnt[b := refcnt[b] + 1];
        n := n + 1;
        assert block[..n] == h + [b];
      } else {
        assert block[..n] == h;
      }
    }

    /** bread and modify a buffer; the contract says what log_write will then settle. */
    method ModifyHeld(b: int, data: Block, ghost view: Disk)
      requires Valid() && Shows(g, disk, cache, view) && g.Home(b)
      requires n < g.logSize && n < g.size - 1
      modifies this`cache, this`refcnt
      ensures b < |old(refcnt)| && refcnt == old(refcnt)[b := old(refcnt)[b] + 1]
      ensures b in block[..n] ==> Settled(g, disk, cache, old(refcnt), block[..n])
      ensures b !in block[..n] ==> Settled(g, disk, cache, refcnt, block[..n] + [b])
      ensures Shows(g, disk, cache, view[b := data])
    {
      ghost var h := block[..n];
      assert |refcnt| == |disk| && |view| == |disk|;
      assert Held(refcnt, cache) && forall x :: x in cache ==> 0 <= x < |disk|;
      hide Settled, Shows, CacheMoved, Held;
      var d := Bread(b);
      LogWriteSettled(g, disk, old(cache), cache, old(refcnt), h, b, data, view);
      cache := cache[b := data];
    }

    /** The use that log.c prescribes: bread, modify, log_write, brelse. */
    method Update(b: int, data: Block, ghost view: Disk)
      requires Valid() && Shows(g, disk, cache, view) && g.Home(b)
      requires n < g.logSize && n < g.size - 1
      modifies this`cache, this`refcnt, this`n, block
      ensures Valid() && Shows(g, disk, cache, view[b := data])
      ensures block[..n] == Absorb(old(block[..n]), b)
    {
      ghost var h := block[..n];
      assert |view| == |disk|;
      ModifyHeld(b, data, view);
      hide Settled, Shows;
      LogWrite(b);
      TakeAndDrop(old(refcnt), b);
      Drop(b);
    }

    method ReadHead()
      requires Valid() && n == 0 && block.Length == g.logSize
      modifies this`cache, this`refcnt, this`n, block
      ensures n <= block.Length && block[..n] == DiskList(g, disk)
      ensures Settled(g, disk, cache, refcnt, [])
    {
      assert block[..0] == [];
      var lh := Bread(g.start);
      MovedKeeps(g, disk, old(cache), cache, old(refcnt), [], disk);
      n := lh[0];
      var i := 0;
      while i < n
        modifies block
        invariant 0 <= i <= n <= block.Length && block[..i] == lh[1..1 + i]
      {
        block[i] := lh[1 + i];
        i := i + 1;
      }
      Drop(g.start);
    }

    /** install_trans, then the header cleared: the end of commit and of recovery. */
    method InstallAndClear(recovering: bool)
      requires n <= block.Length == g.logSize && DiskOk(g, disk) && DiskList(g, disk) == block[..n]
      requires Settled(g, disk, cache, refcnt, if recovering then [] else block[..n])
      modifies this`cache, this`refcnt, this`disk, this`trace, this`n
      ensures Valid() && n == 0 && Cleared(g, disk)
      ensures disk == Recovered(g, old(disk))
      ensures trace == old(trace) + RecoveryImages(g, old(disk))
    {
      ghost var h := block[..n];
      InstallTrans(recovering);
      n := 0;
      assert block[..n] == [];
      CommitPointOk(g, disk, []);
      WriteHead([]);
    }

    /** recover_from_log, run by initlog on a machine that has just booted. */
    method RecoverFromLog()
      requires Valid() && n == 0
      modifies this`cache, this`refcnt, this`disk, this`trace, this`n, block
      ensures Valid() && n == 0 && Cleared(g, disk)
      ensures disk == Recovered(g, old(disk))
      ensures trace == old(trace) + RecoveryImages(g, old(disk))
    {
      ReadHead();
      InstallAndClear(true);
    }

    /** The first half of commit: write_log, then the header. */
    method LogAndCommit(ghost view: Disk)
      requires Valid() && Cleared(g, disk) && Shows(g, disk, cache, view)
      modifies this`cache, this`refcnt, this`disk, this`trace
      ensures disk == Head(g, Logged(g, old(disk), block[..n], view, n), block[..n])
      ensures trace == old(trace) + LogImages(g, old(disk), block[..n], view, n) + [disk]
      ensures Settled(g, disk, cache, refcnt, block[..n])
    {
      ghost var h := block[..n];
      CommitPointOk(g, Logged(g, disk, h, view, n), h);
      WriteLog(view);
      WriteHead(h);
    }

    /** commit: afterwards the pending blocks are in place on the disk and unpinned, and
        the writes were those of CommitImages. */
    method Commit(ghost view: Disk)
      requires Valid() && Cleared(g, disk) && Shows(g, disk, cache, view)
      modifies this`cache, this`refcnt, this`disk, this`trace, this`n
      ensures Valid() && n == 0 && Cleared(g, disk) && SameHome(g, disk, view)
      ensures trace == old(trace) + CommitImages(g, old(disk), old(block[..n]), view)
    {
      ghost var h := block[..n];
      SettledDiffers(g, disk, cache, refcnt, h, view);
      CommitPhases(g, disk, h, view);
      hide GoodList, DiskOk, Cleared, Settled, SameHome, Shows, DiffersOnlyIn, RecoversTo, RecoveryImages, Recovered;
      if n > 0 {
        LogAndCommit(view);
        ghost var committed := disk;
        InstallAndClear(false);
        AppendAssoc(old(trace), LogImages(g, old(disk), h, view, |h|), [committed], RecoveryImages(g, committed));
      }
    }
  }
}

/** The virtqueue protocol of kernel/virtio_disk.c: requesters and the interrupt handler,
    serialised by vdisk_lock, against a device that takes requests when it likes and
    completes them in any order (VirtIO 1.1, sections 2.6 and 5.2). */
module VirtQueue {
  datatype Option<T> = None | Some(value: T)

  /** What a descriptor points at: a command header, a buffer's data, a status byte. */
  datatype Addr = Nothing | Header(i: int) | Data(b: int) | Status(i: int)

  datatype Desc = Desc(addr: Addr, chained: bool, deviceWrites: bool, next: int)

  datatype Cmd = Cmd(write: bool, sector: int)

  /** Prepared: formatted and in the ring slot, avail.idx not yet advanced. Queued: visible
      to the device. Working: taken by it. Done: in the used ring. Seen: b->disk cleared. */
  datatype Phase = Prepared | Queued | Working | Done | Seen

  /** A request by the head of its chain: the other two descriptors, and what was asked. */
  datatype Req = Req(i1: int, i2: int, buf: int, cmd: Cmd, phase: Phase)

  /** The queue. The indices are 16-bit counters; `subs` and `comps` list all heads ever
      published and completed, `taken` and `seen` how many of them the device has taken
      and the driver has looked at, `owner` the request each descriptor in use belongs to. */
  datatype Q = Q(
    free: seq<bool>, desc: seq<Desc>, ops: seq<Cmd>, infoB: seq<Option<int>>, status: seq<int>,
    avail: seq<int>, availIdx: int, used: seq<int>, usedIdx: int, seenIdx: int, devIdx: int,
    owned: set<int>,
    reqs: map<int, Req>, owner: map<int, int>, subs: seq<int>, comps: seq<int>, taken: nat, seen: nat)

  const WRAP: int := 0x10000

  /** The ring holds entry j of the history at j % n, for the entries in the window. */
  ghost predicate RingOk(n: int, ring: seq<int>, hist: seq<int>, lo: nat) {
    && n > 0 && |ring| == n && lo <= |hist| < lo + n
    && (forall j :: lo <= j < |hist| ==> ring[j % n] == hist[j])
  }

  ghost predicate NoDup(s: seq<int>) {
    forall i, j :: 0 <= i < j < |s| ==> s[i] != s[j]
  }

  ghost predicate CountersOk(n: int, availIdx: int, usedIdx: int, seenIdx: int, devIdx: int,
                             subs: seq<int>, comps: seq<int>, taken: nat, seen: nat)
  {
    && 0 < n <= WRAP && WRAP % n == 0
    && taken <= |subs| && seen <= |comps|
    && availIdx == |subs| % WRAP && devIdx == taken % WRAP
    && usedIdx == |comps| % WRAP && seenIdx == seen % WRAP
  }

  /** Which part of the histories a request's head is in, by its phase. */
  ghost predicate PhasesOk(reqs: map<int, Req>, subs: seq<int>, comps: seq<int>, taken: nat, seen: nat)
    requires taken <= |subs| && seen <= |comps|
  {
    && NoDup(subs[taken..]) && NoDup(comps[seen..])
    && (forall h :: h in subs[taken..] <==> h in reqs && reqs[h].phase == Queued)
    && (forall h :: h in comps[seen..] <==> h in reqs && reqs[h].phase == Done)
    && (forall h, k :: h in reqs && k in reqs && reqs[h].phase == Prepared == reqs[k].phase ==> h == k)
  }

  /** The chain of a request, as the device will read it. */
  ghost predicate ChainOk(desc: seq<Desc>, ops: seq<Cmd>, h: int, r: Req)
    requires 0 <= h < |desc| == |ops| && 0 <= r.i1 < |desc| && 0 <= r.i2 < |desc|
  {
    && desc[h] == Desc(Header(h), true, false, r.i1) && ops[h] == r.cmd
    && desc[r.i1] == Desc(Data(r.buf), true, !r.cmd.write, r.i2)
    && desc[r.i2] == Desc(Status(h), false, true, 0)
  }

  /** Descriptors: the free ones, and three for each request, no two requests sharing. */
  ghost predicate Owners(n: int, free: seq<bool>, reqs: map<int, Req>, owner: map<int, int>) {
    && |free| == n
    && (forall i :: 0 <= i < n ==> (free[i] <==> i !in owner))
    && (forall i :: i in owner ==> In(n, i) && owner[i] in reqs && InChain(i, owner[i], reqs[owner[i]]))
    && (forall h :: h in reqs ==>
          && h != reqs[h].i1 && h != reqs[h].i2 && reqs[h].i1 != reqs[h].i2 && OwnsAll(owner, h, reqs[h]))
  }

  ghost predicate Chains(n: int, desc: seq<Desc>, ops: seq<Cmd>, reqs: map<int, Req>) {
    && |desc| == |ops| == n
    && (forall h :: h in reqs ==> In(n, h) && In(n, reqs[h].i1) && In(n, reqs[h].i2) && ChainOk(desc, ops, h, reqs[h]))
  }

  ghost predicate DescsOk(n: int, free: seq<bool>, desc: seq<Desc>, ops: seq<Cmd>, reqs: map<int, Req>, owner: map<int, int>) {
    Owners(n, free, reqs, owner) && Chains(n, desc, ops, reqs)
  }

  function Chain(h: int, r: Req): set<int> {
    {h, r.i1, r.i2}
  }

  predicate OwnsAll(owner: map<int, int>, h: int, r: Req) {
    && h in owner && owner[h] == h && r.i1 in owner && owner[r.i1] == h
    && r.i2 in owner && owner[r.i2] == h
  }

  /** b->disk is set exactly while the device or the used ring has the buffer, and the
      driver can find the buffer by the head. */
  ghost predicate BufsOk(n: int, infoB: seq<Option<int>>, status: seq<int>, owned: set<int>, reqs: map<int, Req>) {
    && |infoB| == |status| == n
    && (forall h :: h in reqs ==>
          && 0 <= h < n && infoB[h] == Some(reqs[h].buf)
          && (reqs[h].buf in owned <==> reqs[h].phase != Seen))
    && (forall h, k :: h in reqs && k in reqs && reqs[h].buf == reqs[k].buf ==> h == k)
  }

  ghost predicate Ok(n: int, q: Q) {
    && CountersOk(n, q.availIdx, q.usedIdx, q.seenIdx, q.devIdx, q.subs, q.comps, q.taken, q.seen)
    && PhasesOk(q.reqs, q.subs, q.comps, q.taken, q.seen)
    && RingOk(n, q.avail, q.subs, q.taken) && RingOk(n, q.used, q.comps, q.seen)
    && (forall h :: h in q.reqs && q.reqs[h].phase == Prepared ==> q.avail[|q.subs| % n] == h)
    && DescsOk(n, q.free, q.desc, q.ops, q.reqs, q.owner)
    && BufsOk(n, q.infoB, q.status, q.owned, q.reqs)
  }

  // ---- Arithmetic ----

  /** A 16-bit counter names the same slot as the full count, because n divides 2^16. */
  lemma SlotOfCounter(n: int, x: int)
    requires n > 0 && WRAP % n == 0 && x >= 0
    ensures (x % WRAP) % n == x % n
  {
    var m, q := WRAP / n, x / WRAP;
    assert x == WRAP * q + x % WRAP && WRAP == n * m;
    assert x == n * (m * q) + x % WRAP;
    ModPlusMultiple(n, m * q, x % WRAP);
  }

  lemma ModPlusMultiple(n: int, q: int, r: int)
    requires n > 0
    ensures (n * q + r) % n == r % n
  {
    var d := r / n;
    assert r == n * d + r % n;
    assert n * q + r == n * (q + d) + r % n;
    ModUnique(n, q + d, r % n, n * q + r);
  }

  lemma SmallMultiple(n: int, e: int)
    requires n > 0 && -n < n * e < n
    ensures e == 0
  {
  }

  lemma ModUnique(n: int, q: int, r: int, x: int)
    requires n > 0 && 0 <= r < n && x == n * q + r
    ensures x % n == r
  {
    var d, m := x / n, x % n;
    assert x == n * d + m;
    assert n * (q - d) == m - r;
    SmallMultiple(n, q - d);
  }

  /** Two positions less than n apart with the same slot are the same. */
  lemma SameSlot(n: int, j: int, k: int)
    requires n > 0 && -n < k - j < n && j % n == k % n
    ensures j == k
  {
    var e := k / n - j / n;
    assert k - j == n * e;
    SmallMultiple(n, e);
  }

  /** Counters less than 2^16 apart agree modulo 2^16 only when they are equal. */
  lemma CounterEqual(lo: int, hi: int)
    requires 0 <= lo <= hi < lo + WRAP
    ensures lo % WRAP == hi % WRAP <==> lo == hi
  {
  }

  lemma CounterNext(x: int)
    requires x >= 0
    ensures (x % WRAP + 1) % WRAP == (x + 1) % WRAP
  {
  }

  ghost function Elems(s: seq<int>): set<int> {
    set x | x in s
  }

  ghost function Below(n: nat): (s: set<int>)
    ensures forall x :: x in s <==> 0 <= x < n
  {
    if n == 0 then {} else Below(n - 1) + {n - 1}
  }

  lemma {:induction false} ElemsCount(s: seq<int>)
    requires NoDup(s)
    ensures |Elems(s)| == |s|
  {
    if s != [] {
      var init, last := s[..|s| - 1], s[|s| - 1];
      ElemsCount(init);
      assert s == init + [last];
      assert Elems(s) == Elems(init) + {last};
    }
  }

  lemma {:induction false} BelowCount(n: nat)
    ensures |Below(n)| == n
  {
    if n > 0 {
      BelowCount(n - 1);
      assert n - 1 !in Below(n - 1);
    }
  }

  /** Distinct numbers below n are at most n many. */
  lemma Pigeonhole(s: seq<int>, n: nat)
    requires NoDup(s) && forall i :: 0 <= i < |s| ==> 0 <= s[i] < n
    ensures |s| <= n
  {
    ElemsCount(s);
    BelowCount(n);
    assert Below(n) == Elems(s) + (Below(n) - Elems(s));
  }

  // ---- The device's steps ----

  function SetPhase(reqs: map<int, Req>, h: int, p: Phase): map<int, Req>
    requires h in reqs
  {
    reqs[h := reqs[h].(phase := p)]
  }

  /** Changing only the phases of requests leaves descriptors alone. */
  lemma PhaseKeepsDescs(n: int, free: seq<bool>, desc: seq<Desc>, ops: seq<Cmd>, reqs: map<int, Req>, owner: map<int, int>, h: int, p: Phase)
    requires DescsOk(n, free, desc, ops, reqs, owner) && h in reqs
    ensures DescsOk(n, free, desc, ops, SetPhase(reqs, h, p), owner)
  {
  }

  /** What the device reads when it sees avail.idx ahead of its own counter: the oldest
      request it has not taken, wherever the counters have wrapped. */
  lemma TakeFacts(n: int, q: Q)
    requires Ok(n, q)
    ensures q.devIdx != q.availIdx <==> q.taken < |q.subs|
    ensures q.taken < |q.subs| ==> 0 <= q.devIdx % n < |q.avail| && q.avail[q.devIdx % n] == q.subs[q.taken]
    ensures q.taken < |q.subs| ==> q.subs[q.taken] in q.reqs && q.reqs[q.subs[q.taken]].phase == Queued
  {
    hide DescsOk, BufsOk;
    CounterEqual(q.taken, |q.subs|);
    SlotOfCounter(n, q.taken);
    assert q.taken < |q.subs| ==> q.subs[q.taken] in q.subs[q.taken..];
  }

  /** The device takes the request at its counter. */
  ghost function TakeStep(q: Q, h: int): Q
    requires h in q.reqs
  {
    q.(devIdx := (q.devIdx + 1) % WRAP, taken := q.taken + 1, reqs := SetPhase(q.reqs, h, Working))
  }

  lemma TakePhases(reqs: map<int, Req>, subs: seq<int>, comps: seq<int>, taken: nat, seen: nat, h: int)
    requires taken < |subs| && seen <= |comps| && PhasesOk(reqs, subs, comps, taken, seen) && h == subs[taken]
    ensures h in reqs && PhasesOk(SetPhase(reqs, h, Working), subs, comps, taken + 1, seen)
  {
    assert subs[taken..] == [h] + subs[taken + 1..];
    assert h in subs[taken..] && h !in subs[taken + 1..];
  }

  lemma TakeOk(n: int, q: Q, h: int)
    requires Ok(n, q) && q.taken < |q.subs| && h == q.subs[q.taken]
    ensures h in q.reqs && Ok(n, TakeStep(q, h))
  {
    hide DescsOk, PhasesOk;
    TakeFacts(n, q);
    TakePhases(q.reqs, q.subs, q.comps, q.taken, q.seen, h);
    PhaseKeepsDescs(n, q.free, q.desc, q.ops, q.reqs, q.owner, h, Working);
    CounterNext(q.taken);
  }

  /** The device finishes any request it is working on: status byte v, 0 for success, used
      entry, used.idx. */
  ghost function CompleteStep(n: int, q: Q, h: int, v: int): Q
    requires h in q.reqs && 0 <= h < |q.status| && n > 0 && |q.used| == n
  {
    q.(status := q.status[h := v], used := q.used[q.usedIdx % n := h], usedIdx := (q.usedIdx + 1) % WRAP,
       comps := q.comps + [h], reqs := SetPhase(q.reqs, h, Done))
  }

  lemma CompletePhases(reqs: map<int, Req>, subs: seq<int>, comps: seq<int>, taken: nat, seen: nat, h: int)
    requires taken <= |subs| && seen <= |comps| && PhasesOk(reqs, subs, comps, taken, seen)
    requires h in reqs && reqs[h].phase == Working
    ensures PhasesOk(SetPhase(reqs, h, Done), subs, comps + [h], taken, seen)
  {
    assert (comps + [h])[seen..] == comps[seen..] + [h];
  }

  /** A history entry goes into its slot; the window stays below n because each of its
      requests holds three descriptors. */
  lemma RingPush(n: int, ring: seq<int>, hist: seq<int>, lo: nat, h: int)
    requires RingOk(n, ring, hist, lo) && |hist| + 1 < lo + n
    ensures RingOk(n, ring[|hist| % n := h], hist + [h], lo)
  {
    var ring', hist' := ring[|hist| % n := h], hist + [h];
    forall j | lo <= j < |hist'| ensures ring'[j % n] == hist'[j] {
      if j < |hist| && j % n == |hist| % n {
        SameSlot(n, j, |hist|);
      }
    }
  }

  /** Heads in the window, one more head, and a descriptor of its chain are all distinct. */
  lemma WindowSmall(n: int, free: seq<bool>, desc: seq<Desc>, ops: seq<Cmd>, reqs: map<int, Req>, owner: map<int, int>,
                    window: seq<int>, h: int)
    requires DescsOk(n, free, desc, ops, reqs, owner) && NoDup(window)
    requires (forall k :: k in window ==> k in reqs) && h in reqs && h !in window
    ensures |window| + 2 <= n
  {
    var s := window + [h, reqs[h].i1];
    assert OwnsAll(owner, h, reqs[h]);
    forall i | 0 <= i < |window| ensures window[i] != reqs[h].i1 && 0 <= window[i] < n {
      assert window[i] in window && OwnsAll(owner, window[i], reqs[window[i]]);
    }
    Pigeonhole(s, n);
  }

  lemma CompleteOk(n: int, q: Q, h: int, v: int)
    requires Ok(n, q) && h in q.reqs && q.reqs[h].phase == Working
    ensures 0 <= h < |q.status| && n > 0 && |q.used| == n && Ok(n, CompleteStep(n, q, h, v))
  {
    hide DescsOk;
    assert h !in q.comps[q.seen..];
    WindowSmall(n, q.free, q.desc, q.ops, q.reqs, q.owner, q.comps[q.seen..], h);
    CompletePhases(q.reqs, q.subs, q.comps, q.taken, q.seen, h);
    PhaseKeepsDescs(n, q.free, q.desc, q.ops, q.reqs, q.owner, h, Done);
    SlotOfCounter(n, |q.comps|);
    RingPush(n, q.used, q.comps, q.seen, h);
    CounterNext(|q.comps|);
  }

  // ---- The driver's steps ----

  function Put(s: seq<bool>, x: bool, i: int, j: int, k: int): seq<bool>
    requires 0 <= i < |s| && 0 <= j < |s| && 0 <= k < |s|
  {
    s[i := x][j := x][k := x]
  }

  /** virtio_disk_rw from the allocation of three descriptors up to, not including, the
      increment of avail->idx. */
  ghost function PrepareStep(n: int, q: Q, h: int, r: Req): Q
    requires Shape(n, q) && In(n, h) && In(n, r.i1) && In(n, r.i2)
  {
    q.(free := Put(q.free, false, h, r.i1, r.i2),
       ops := q.ops[h := r.cmd],
       desc := q.desc[h := Desc(Header(h), true, false, r.i1)]
                     [r.i1 := Desc(Data(r.buf), true, !r.cmd.write, r.i2)]
                     [r.i2 := Desc(Status(h), false, true, 0)],
       status := q.status[h := 0xff],
       owned := q.owned + {r.buf},
       infoB := q.infoB[h := Some(r.buf)],
       avail := q.avail[q.availIdx % n := h],
       reqs := q.reqs[h := r],
       owner := q.owner[h := h][r.i1 := h][r.i2 := h])
  }

  predicate In(n: int, i: int) {
    0 <= i < n
  }

  predicate Shape(n: int, q: Q) {
    n > 0 && |q.free| == |q.desc| == |q.ops| == |q.infoB| == |q.status| == |q.avail| == |q.used| == n
  }

  /** What virtio_disk_rw relies on: three free descriptors, no other requester between
      its own preparation and publication, and a buffer that no request is using. */
  ghost predicate CanPrepare(n: int, q: Q, h: int, r: Req)
    requires Shape(n, q)
  {
    && In(n, h) && In(n, r.i1) && In(n, r.i2) && h != r.i1 && h != r.i2 && r.i1 != r.i2
    && q.free[h] && q.free[r.i1] && q.free[r.i2] && r.phase == Prepared
    && (forall k :: k in q.reqs ==> q.reqs[k].phase != Prepared && q.reqs[k].buf != r.buf)
  }

  lemma OkShape(n: int, q: Q)
    requires Ok(n, q)
    ensures Shape(n, q)
  {
  }

  lemma PrepareOwners(n: int, free: seq<bool>, reqs: map<int, Req>, owner: map<int, int>, h: int, r: Req)
    requires Owners(n, free, reqs, owner) && In(n, h) && In(n, r.i1) && In(n, r.i2)
    requires h != r.i1 && h != r.i2 && r.i1 != r.i2 && free[h] && free[r.i1] && free[r.i2]
    ensures Owners(n, Put(free, false, h, r.i1, r.i2), reqs[h := r], owner[h := h][r.i1 := h][r.i2 := h])
  {
    var owner' := owner[h := h][r.i1 := h][r.i2 := h];
    forall k | k in reqs ensures k != h && OwnsAll(owner', k, reqs[k]) {
      assert OwnsAll(owner, k, reqs[k]);
    }
  }

  lemma PrepareChains(n: int, free: seq<bool>, desc: seq<Desc>, ops: seq<Cmd>, reqs: map<int, Req>, owner: map<int, int>,
                      h: int, r: Req, desc': seq<Desc>)
    requires Owners(n, free, reqs, owner) && Chains(n, desc, ops, reqs) && In(n, h) && In(n, r.i1) && In(n, r.i2)
    requires h != r.i1 && h != r.i2 && r.i1 != r.i2 && free[h] && free[r.i1] && free[r.i2]
    requires desc' == desc[h := Desc(Header(h), true, false, r.i1)]
                          [r.i1 := Desc(Data(r.buf), true, !r.cmd.write, r.i2)]
                          [r.i2 := Desc(Status(h), false, true, 0)]
    ensures Chains(n, desc', ops[h := r.cmd], reqs[h := r])
  {
    forall k | k in reqs ensures k != h && ChainOk(desc', ops[h := r.cmd], k, reqs[k]) {
      assert OwnsAll(owner, k, reqs[k]) && ChainOk(desc, ops, k, reqs[k]);
    }
  }

  lemma PrepareDescs(n: int, q: Q, h: int, r: Req)
    requires Shape(n, q) && DescsOk(n, q.free, q.desc, q.ops, q.reqs, q.owner) && CanPrepare(n, q, h, r)
    ensures var p := PrepareStep(n, q, h, r); DescsOk(n, p.free, p.desc, p.ops, p.reqs, p.owner)
  {
    hide Owners, Chains;
    PrepareOwners(n, q.free, q.reqs, q.owner, h, r);
    PrepareChains(n, q.free, q.desc, q.ops, q.reqs, q.owner, h, r, PrepareStep(n, q, h, r).desc);
  }

  lemma PreparePhases(reqs: map<int, Req>, subs: seq<int>, comps: seq<int>, taken: nat, seen: nat, h: int, r: Req)
    requires taken <= |subs| && seen <= |comps| && PhasesOk(reqs, subs, comps, taken, seen)
    requires h !in reqs && r.phase == Prepared && forall k :: k in reqs ==> reqs[k].phase != Prepared
    ensures PhasesOk(reqs[h := r], subs, comps, taken, seen)
  {
  }

  /** The slot being written is not one the device has still to read. */
  lemma SlotNotPending(n: int, q: Q, j: nat)
    requires Ok(n, q) && q.taken <= j < |q.subs|
    ensures q.availIdx % n != j % n
  {
    hide DescsOk, BufsOk, PhasesOk;
    SlotOfCounter(n, |q.subs|);
    if j % n == |q.subs| % n {
      SameSlot(n, j, |q.subs|);
    }
  }

  lemma PrepareOk(n: int, q: Q, h: int, r: Req)
    requires Ok(n, q) && Shape(n, q) && CanPrepare(n, q, h, r)
    ensures Ok(n, PrepareStep(n, q, h, r))
  {
    hide DescsOk, PhasesOk;
    PrepareFresh(n, q, h, r);
    PrepareDescs(n, q, h, r);
    PreparePhases(q.reqs, q.subs, q.comps, q.taken, q.seen, h, r);
    SlotOfCounter(n, |q.subs|);
    forall j | q.taken <= j < |q.subs| ensures q.availIdx % n != j % n {
      SlotNotPending(n, q, j);
    }
  }

  lemma PrepareFresh(n: int, q: Q, h: int, r: Req)
    requires Ok(n, q) && Shape(n, q) && CanPrepare(n, q, h, r)
    ensures h !in q.reqs
  {
    assert h in q.reqs ==> OwnsAll(q.owner, h, q.reqs[h]);
  }

  /** The increment of avail->idx. */
  ghost function PublishStep(q: Q, h: int): Q
    requires h in q.reqs
  {
    q.(availIdx := (q.availIdx + 1) % WRAP, subs := q.subs + [h], reqs := SetPhase(q.reqs, h, Queued))
  }

  lemma PublishPhases(reqs: map<int, Req>, subs: seq<int>, comps: seq<int>, taken: nat, seen: nat, h: int)
    requires taken <= |subs| && seen <= |comps| && PhasesOk(reqs, subs, comps, taken, seen)
    requires h in reqs && reqs[h].phase == Prepared
    ensures PhasesOk(SetPhase(reqs, h, Queued), subs + [h], comps, taken, seen)
  {
    assert (subs + [h])[taken..] == subs[taken..] + [h];
  }

  lemma PublishOk(n: int, q: Q, h: int)
    requires Ok(n, q) && h in q.reqs && q.reqs[h].phase == Prepared
    ensures Ok(n, PublishStep(q, h))
  {
    hide DescsOk;
    assert h !in q.subs[q.taken..];
    WindowSmall(n, q.free, q.desc, q.ops, q.reqs, q.owner, q.subs[q.taken..], h);
    PublishPhases(q.reqs, q.subs, q.comps, q.taken, q.seen, h);
    PhaseKeepsDescs(n, q.free, q.desc, q.ops, q.reqs, q.owner, h, Queued);
    RingPush(n, q.avail, q.subs, q.taken, h);
    assert q.avail[|q.subs| % n := h] == q.avail;
    CounterNext(|q.subs|);
  }

  /** One turn of virtio_disk_intr's loop. */
  ghost function SeeStep(q: Q, h: int): Q
    requires h in q.reqs
  {
    q.(owned := q.owned - {q.reqs[h].buf}, seenIdx := (q.seenIdx + 1) % WRAP, seen := q.seen + 1,
       reqs := SetPhase(q.reqs, h, Seen))
  }

  /** What the handler reads when used->idx is ahead of used_idx: a request the device has
      completed and that was not looked at before, with its own buffer. */
  lemma SeeFacts(n: int, q: Q)
    requires Ok(n, q)
    ensures q.seen <= |q.comps| && (q.seenIdx != q.usedIdx <==> q.seen < |q.comps|)
    ensures q.seen < |q.comps| ==>
              var h := q.comps[q.seen];
              && 0 <= q.seenIdx % n < |q.used| && q.used[q.seenIdx % n] == h
              && h in q.reqs && q.reqs[h].phase == Done && q.reqs[h].buf in q.owned
              && 0 <= h < |q.infoB| == |q.status| && q.infoB[h] == Some(q.reqs[h].buf)
  {
    hide DescsOk;
    CounterEqual(q.seen, |q.comps|);
    SlotOfCounter(n, q.seen);
    assert q.seen < |q.comps| ==> q.comps[q.seen] in q.comps[q.seen..];
  }

  lemma SeePhases(reqs: map<int, Req>, subs: seq<int>, comps: seq<int>, taken: nat, seen: nat, h: int)
    requires taken <= |subs| && seen < |comps| && PhasesOk(reqs, subs, comps, taken, seen) && h == comps[seen]
    ensures h in reqs && PhasesOk(SetPhase(reqs, h, Seen), subs, comps, taken, seen + 1)
  {
    assert comps[seen..] == [h] + comps[seen + 1..];
    assert h in comps[seen..] && h !in comps[seen + 1..];
  }

  lemma SeeOk(n: int, q: Q, h: int)
    requires Ok(n, q) && q.seen < |q.comps| && h == q.comps[q.seen]
    ensures h in q.reqs && Ok(n, SeeStep(q, h))
  {
    hide DescsOk, PhasesOk;
    SeeFacts(n, q);
    SeePhases(q.reqs, q.subs, q.comps, q.taken, q.seen, h);
    PhaseKeepsDescs(n, q.free, q.desc, q.ops, q.reqs, q.owner, h, Seen);
    CounterNext(q.seen);
  }

  const ZERO: Desc := Desc(Nothing, false, false, 0)

  /** virtio_disk_rw after the wait: forget the buffer and free the chain. */
  ghost function FinishStep(n: int, q: Q, h: int): Q
    requires Shape(n, q) && h in q.reqs && In(n, h) && In(n, q.reqs[h].i1) && In(n, q.reqs[h].i2)
  {
    var r := q.reqs[h];
    q.(infoB := q.infoB[h := None],
       desc := q.desc[h := ZERO][r.i1 := ZERO][r.i2 := ZERO],
       free := Put(q.free, true, h, r.i1, r.i2),
       reqs := q.reqs - {h}, owner := q.owner - Chain(h, r))
  }

  lemma FinishDescs(n: int, q: Q, h: int)
    requires Shape(n, q) && DescsOk(n, q.free, q.desc, q.ops, q.reqs, q.owner) && h in q.reqs
    ensures var r := q.reqs[h]; In(n, h) && In(n, r.i1) && In(n, r.i2)
    ensures var p := FinishStep(n, q, h); DescsOk(n, p.free, p.desc, p.ops, p.reqs, p.owner)
  {
    var p := FinishStep(n, q, h);
    assert OwnsAll(q.owner, h, q.reqs[h]);
    forall k | k in p.reqs ensures k in q.reqs && p.reqs[k] == q.reqs[k] && OwnsAll(p.owner, k, p.reqs[k]) {
      assert OwnsAll(q.owner, k, q.reqs[k]);
    }
    forall k | k in p.reqs ensures ChainOk(p.desc, p.ops, k, p.reqs[k]) {
      assert OwnsAll(q.owner, k, q.reqs[k]) && ChainOk(q.desc, q.ops, k, q.reqs[k]);
    }
    forall i | i in p.owner ensures In(n, i) && p.owner[i] in p.reqs && InChain(i, p.owner[i], p.reqs[p.owner[i]]) {
      assert i in q.owner && q.owner[i] in q.reqs && InChain(i, q.owner[i], q.reqs[q.owner[i]]);
    }
  }

  lemma FinishOk(n: int, q: Q, h: int)
    requires Ok(n, q) && Shape(n, q) && h in q.reqs && q.reqs[h].phase == Seen
    ensures var r := q.reqs[h]; In(n, h) && In(n, r.i1) && In(n, r.i2)
    ensures Ok(n, FinishStep(n, q, h))
  {
    hide DescsOk;
    FinishDescs(n, q, h);
  }

  // ---- Runs ----

  datatype Step = Take | Complete(h: int, v: int) | Prepare(h: int, r: Req) | Publish(h: int) | See | Finish(h: int)

  ghost predicate Init(n: int, q: Q) {
    && Shape(n, q) && n <= WRAP && WRAP % n == 0
    && (forall i :: 0 <= i < n ==> q.free[i])
    && q.availIdx == q.usedIdx == q.seenIdx == q.devIdx == 0 && q.owned == {}
    && q.reqs == map[] && q.owner == map[] && q.subs == [] && q.comps == [] && q.taken == q.seen == 0
  }

  /** The guards are the tests that driver and device make on what is in memory. */
  ghost predicate Next(n: int, q: Q, step: Step, q': Q) {
    && Shape(n, q)
    && match step
       case Take =>
         q.devIdx != q.availIdx && var h := q.avail[q.devIdx % n]; h in q.reqs && q' == TakeStep(q, h)
       case Complete(h, v) =>
         h in q.reqs && q.reqs[h].phase == Working && In(n, h) && q' == CompleteStep(n, q, h, v)
       case Prepare(h, r) =>
         CanPrepare(n, q, h, r) && q' == PrepareStep(n, q, h, r)
       case Publish(h) =>
         h in q.reqs && q.reqs[h].phase == Prepared && q' == PublishStep(q, h)
       case See =>
         q.seenIdx != q.usedIdx && !Panics(n, q) && var h := q.used[q.seenIdx % n]; h in q.reqs && q' == SeeStep(q, h)
       case Finish(h) =>
         && h in q.reqs && q.reqs[h].phase == Seen && In(n, h) && In(n, q.reqs[h].i1) && In(n, q.reqs[h].i2)
         && q' == FinishStep(n, q, h)
  }

  /** The handler is at a completion that reports an error: it panics. */
  ghost predicate Panics(n: int, q: Q)
    requires Shape(n, q)
  {
    q.seenIdx != q.usedIdx && var h := q.used[q.seenIdx % n]; 0 <= h < |q.status| && q.status[h] != 0
  }

  ghost predicate Run(n: int, qs: seq<Q>, steps: seq<Step>) {
    && |qs| == |steps| + 1 && Init(n, qs[0])
    && forall i :: 0 <= i < |steps| ==> Next(n, qs[i], steps[i], qs[i + 1])
  }

  lemma NextOk(n: int, q: Q, step: Step, q': Q)
    requires Ok(n, q) && Next(n, q, step, q')
    ensures Ok(n, q')
  {
    hide Ok;
    match step
    case Take =>
      TakeFacts(n, q);
      TakeOk(n, q, q.avail[q.devIdx % n]);
    case Complete(h, v) => CompleteOk(n, q, h, v);
    case Prepare(h, r) => PrepareOk(n, q, h, r);
    case Publish(h) => PublishOk(n, q, h);
    case See =>
      SeeFacts(n, q);
      SeeOk(n, q, q.used[q.seenIdx % n]);
    case Finish(h) => FinishOk(n, q, h);
  }

  lemma {:induction false} RunOk(n: int, qs: seq<Q>, steps: seq<Step>, i: nat)
    requires Run(n, qs, steps) && i < |qs|
    ensures Ok(n, qs[i])
  {
    if i > 0 {
      RunOk(n, qs, steps, i - 1);
      NextOk(n, qs[i - 1], steps[i - 1], qs[i]);
    }
  }

  /** Each descriptor is free or in the chain of exactly one request, and chains are three
      distinct descriptors. */
  ghost predicate Partitioned(n: int, free: seq<bool>, reqs: map<int, Req>) {
    && |free| == n
    && (forall d :: 0 <= d < n ==> (free[d] <==> !exists h :: h in reqs && InChain(d, h, reqs[h])))
    && (forall d, h, k :: h in reqs && k in reqs && InChain(d, h, reqs[h]) && InChain(d, k, reqs[k]) ==> h == k)
    && (forall h :: h in reqs ==> h != reqs[h].i1 && h != reqs[h].i2 && reqs[h].i1 != reqs[h].i2)
  }

  predicate InChain(d: int, h: int, r: Req) {
    d == h || d == r.i1 || d == r.i2
  }

  lemma OwnerIsChain(n: int, free: seq<bool>, reqs: map<int, Req>, owner: map<int, int>)
    requires Owners(n, free, reqs, owner)
    ensures |free| == n && forall d :: 0 <= d < n ==> (free[d] <==> d !in owner)
    ensures forall d, h :: h in reqs && InChain(d, h, reqs[h]) ==> d in owner && owner[d] == h
    ensures forall d :: d in owner ==> owner[d] in reqs && InChain(d, owner[d], reqs[owner[d]])
    ensures forall h :: h in reqs ==> h != reqs[h].i1 && h != reqs[h].i2 && reqs[h].i1 != reqs[h].i2
  {
    forall d, h | h in reqs && InChain(d, h, reqs[h]) ensures d in owner && owner[d] == h {
      assert OwnsAll(owner, h, reqs[h]);
    }
  }

  lemma OwnersPartition(n: int, free: seq<bool>, reqs: map<int, Req>, owner: map<int, int>)
    requires Owners(n, free, reqs, owner)
    ensures Partitioned(n, free, reqs)
  {
    hide Owners;
    OwnerIsChain(n, free, reqs, owner);
    forall d | 0 <= d < n ensures free[d] <==> !exists h :: h in reqs && InChain(d, h, reqs[h]) {
      if !free[d] {
        assert owner[d] in reqs && InChain(d, owner[d], reqs[owner[d]]);
      }
    }
    forall d, h, k | h in reqs && k in reqs && InChain(d, h, reqs[h]) && InChain(d, k, reqs[k]) ensures h == k {
      assert owner[d] == h && owner[d] == k;
    }
  }

  /** In every state of every run the descriptors are partitioned, the descriptor table
      spells out each request as it was made until it is freed, and b->disk is set exactly
      for the buffers of requests not yet seen completed. */
  lemma DescriptorsPartitioned(n: int, qs: seq<Q>, steps: seq<Step>, i: nat)
    requires Run(n, qs, steps) && i < |qs|
    ensures Partitioned(n, qs[i].free, qs[i].reqs)
    ensures Chains(n, qs[i].desc, qs[i].ops, qs[i].reqs)
    ensures forall h :: h in qs[i].reqs ==> (qs[i].reqs[h].buf in qs[i].owned <==> qs[i].reqs[h].phase != Seen)
  {
    hide RingOk, PhasesOk, CountersOk, Owners, Chains, Partitioned;
    RunOk(n, qs, steps, i);
    OwnersPartition(n, qs[i].free, qs[i].reqs, qs[i].owner);
  }

  /** Publishing never overwrites a ring entry the device has still to read, however often
      the 16-bit index has wrapped. */
  lemma AvailSlotNotReused(n: int, qs: seq<Q>, steps: seq<Step>, i: nat, j: nat)
    requires Run(n, qs, steps) && i < |steps| && steps[i].Prepare? && qs[i].taken <= j < |qs[i].subs|
    ensures n > 0 && |qs[i].avail| == |qs[i + 1].avail| == n && j < |qs[i + 1].subs|
    ensures qs[i].availIdx % n != j % n && qs[i + 1].avail[j % n] == qs[i].avail[j % n] == qs[i].subs[j]
  {
    RunOk(n, qs, steps, i);
    hide DescsOk, BufsOk, PhasesOk;
    assert Next(n, qs[i], steps[i], qs[i + 1]);
    SlotNotPending(n, qs[i], j);
  }

  ghost predicate Clears(qs: seq<Q>, i: nat, b: int)
    requires i + 1 < |qs|
  {
    b in qs[i].owned && b !in qs[i + 1].owned
  }

  /** b->disk is cleared only by the interrupt handler, for a request that the device has
      completed with status 0 and whose buffer is b. */
  lemma ClearedByHandler(n: int, qs: seq<Q>, steps: seq<Step>, i: nat, b: int)
    requires Run(n, qs, steps) && i < |steps| && Clears(qs, i, b)
    ensures steps[i] == See && qs[i].seen < |qs[i].comps|
    ensures var h := qs[i].comps[qs[i].seen];
            && h in qs[i].reqs && qs[i].reqs[h].buf == b && qs[i].reqs[h].phase == Done
            && 0 <= h < |qs[i].status| && qs[i].status[h] == 0
            && h in qs[i + 1].reqs && qs[i + 1].reqs[h].phase == Seen
  {
    RunOk(n, qs, steps, i);
    hide Ok;
    assert Next(n, qs[i], steps[i], qs[i + 1]);
    if steps[i] == See {
      SeeFacts(n, qs[i]);
    }
  }

  /** A request that is Done was completed by the device since it was prepared, and its status
      byte is what the device reported. */
  lemma {:induction false} DoneWasCompleted(n: int, qs: seq<Q>, steps: seq<Step>, i: nat, h: int) returns (k: nat)
    requires Run(n, qs, steps) && i < |qs| && h in qs[i].reqs && qs[i].reqs[h].phase == Done
    ensures k < i && steps[k].Complete? && steps[k].h == h && h in qs[k].reqs && qs[k].reqs[h].buf == qs[i].reqs[h].buf
    ensures 0 <= h < |qs[i].status| && qs[i].status[h] == steps[k].v
    ensures forall j :: k < j < i ==> !(steps[j].Prepare? && steps[j].h == h)
  {
    hide Next;
    assert i > 0;
    assert Next(n, qs[i - 1], steps[i - 1], qs[i - 1 + 1]);
    DoneBefore(n, qs[i - 1], steps[i - 1], qs[i], h);
    if steps[i - 1].Complete? && steps[i - 1].h == h {
      k := i - 1;
    } else {
      k := DoneWasCompleted(n, qs, steps, i - 1, h);
    }
  }

  lemma DoneBefore(n: int, q: Q, step: Step, q': Q, h: int)
    requires Next(n, q, step, q') && h in q'.reqs && q'.reqs[h].phase == Done
    ensures h in q.reqs && q.reqs[h].buf == q'.reqs[h].buf && !(step.Prepare? && step.h == h)
    ensures if step.Complete? && step.h == h then 0 <= h < |q'.status| && q'.status[h] == step.v
            else q.reqs[h].phase == Done && |q'.status| == |q.status| && (0 <= h < |q.status| ==> q'.status[h] == q.status[h])
  {
  }

  /** The handler's panic is reached exactly when the device reported an error for the request it
      comes to: the status it reads is the one of that completion. */
  lemma PanicsIffErrorReported(n: int, qs: seq<Q>, steps: seq<Step>, i: nat) returns (k: nat)
    requires Run(n, qs, steps) && i < |qs| && qs[i].seenIdx != qs[i].usedIdx
    ensures Shape(n, qs[i]) && qs[i].seen < |qs[i].comps|
    ensures k < i && steps[k].Complete? && steps[k].h == qs[i].comps[qs[i].seen]
    ensures forall j :: k < j < i ==> !(steps[j].Prepare? && steps[j].h == steps[k].h)
    ensures Panics(n, qs[i]) <==> steps[k].v != 0
  {
    hide Ok, Next, Init;
    RunOk(n, qs, steps, i);
    OkShape(n, qs[i]);
    SeeFacts(n, qs[i]);
    k := DoneWasCompleted(n, qs, steps, i, qs[i].comps[qs[i].seen]);
  }

  /** Between two clearings of the same buffer's b->disk there is a new request for it: no
      completion is delivered twice. */
  lemma ClearedOncePerRequest(n: int, qs: seq<Q>, steps: seq<Step>, i: nat, j: nat, b: int) returns (k: nat)
    requires Run(n, qs, steps) && i < j < |steps| && Clears(qs, i, b) && Clears(qs, j, b)
    ensures i < k < j && steps[k].Prepare? && steps[k].r.buf == b
  {
    k := j;
    while b in qs[k].owned
      invariant i < k <= j && (k < j || b in qs[k].owned)
      invariant b in qs[k].owned || (k < j && steps[k].Prepare? && steps[k].r.buf == b)
      decreases k
    {
      k := k - 1;
      assert Next(n, qs[k], steps[k], qs[k + 1]);
    }
  }
}

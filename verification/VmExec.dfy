/** Building a program's image and switching to it (kernel/exec.c), as far as memory goes. */
module VmExec {
  import opened VmSpace
  import opened VmMachine
  import opened VmUser
  import opened VmCopy
  import opened VmProcess
  import opened VmImage

  predicate IsUser(pte: int) {
    pte / 16 % 2 == 1
  }

  /** User code may access pages 0 to n - 1. */
  ghost predicate AllUser(sp: Space, n: int) {
    forall v :: 0 <= v < n ==> v in sp.flat && IsUser(sp.flat[v])
  }

  lemma FlaggedUser(sp: Space, v: int, xperm: int)
    requires v in sp.flat && XPermOk(xperm) && sp.flat[v] % 1024 == WithValid(PTE_R + PTE_U + xperm) && 0 <= sp.flat[v]
    ensures IsUser(sp.flat[v])
  {
    var e := sp.flat[v];
    LowUser(e / 1024, e % 1024);
    UserFlags(xperm);
  }

  lemma LowUser(q: int, r: int)
    ensures (q * 1024 + r) / 16 % 2 == r / 16 % 2
  {
    DivSixteen(r / 16, r % 16);
    DivSixteen(q * 64 + r / 16, r % 16);
    EvenPart(q * 32, r / 16);
  }

  lemma DivSixteen(h: int, b: int)
    requires 0 <= b < 16
    ensures (16 * h + b) / 16 == h
  {
  }

  lemma EvenPart(q: int, h: int)
    ensures (2 * q + h) % 2 == h % 2
  {
  }

  lemma UserFlags(xperm: int)
    requires XPermOk(xperm)
    ensures IsUser(WithValid(PTE_R + PTE_U + xperm))
  {
  }

  lemma GrownUser(z: Frames, mem: seq<Page>, avail: set<int>, sp: Space, sp1: Space, n: int, n1: int, xperm: int)
    requires SpaceOk(z, mem, sp1, avail) && AllUser(sp, n) && Extends(sp, sp1, n, n1) && Flagged(sp1, n, n1, PTE_R + PTE_U + xperm)
    requires XPermOk(xperm)
    ensures AllUser(sp1, n1)
  {
    hide IsUser, WithValid, Tree;
    forall v | 0 <= v < n1 ensures v in sp1.flat && IsUser(sp1.flat[v]) {
      if v >= n {
        LeafFacts(z, mem, sp1, v);
        FlaggedUser(sp1, v, xperm);
      }
    }
  }

  /** The frame that user page v is mapped to, or 0. */
  method Walkaddr(m: Machine, ghost sp: Space, root: int, v: int) returns (f: int)
    requires m.Valid() && SpaceOk(m.z, m.mem, sp, m.Avail()) && root == sp.root && 0 <= v
    modifies m
    ensures m.Valid() && m.mem == old(m.mem) && m.free == old(m.free)
    ensures f == if v in sp.flat && IsUser(sp.flat[v]) then PteFrame(sp.flat[v]) else 0
  {
    hide Tree, FreeOk, PteFrame, IsValid, IsUser, Own, PageOk;
    f := 0;
    FlatBounds(m.z, m.mem, sp, v);
    if v >= MAXPAGE {
      return;
    }
    var t, _ := m.Walk(sp, root, v, false);
    if t == 0 {
      return;
    }
    LowEntry(m.z, m.mem, sp, v);
    var pte := m.mem[t][v % 512];
    NotZero();
    if !IsValid(pte) {
      return;
    }
    if !IsUser(pte) {
      return;
    }
    f := PteFrame(pte);
  }

  lemma NotZero()
    ensures !IsValid(0) && !IsUser(0)
  {
  }

  lemma FlatBounds(z: Frames, mem: seq<Page>, sp: Space, v: int)
    requires Tree(z, mem, sp)
    ensures v in sp.flat ==> v < MAXPAGE && IsValid(sp.flat[v])
  {
    if v in sp.flat {
      assert LeafOk(sp, v);
    }
  }

  const UWIDTH: int := 0x1_0000_0000

  /** Less memory than 4 GB; the source's machine has 128 MB. */
  predicate Below4G(z: Frames) {
    0 < z.first <= z.last && z.last - z.first < 0x10_0000
  }

  /** loadseg: readi fills size bytes from page v on, of the length the file has for them; it fails
      where the file ends. The walk never misses, so loadseg does not panic, and the 32-bit counter
      does not wrap. */
  method Loadseg(m: Machine, ghost sp: Space, ghost n: int, ghost top: set<int>, root: int, v: int, size: int, image: seq<Page>, length: int)
    returns (ok: bool)
    requires m.Valid() && SpaceOk(m.z, m.mem, sp, m.Avail()) && root == sp.root && UserSpace(sp, n, top) && AllUser(sp, n) && Below4G(m.z)
    requires 0 <= v && 0 <= size < UWIDTH && (size > 0 ==> v + PgUp(size) <= n)
    requires 0 <= length <= 4096 * |image| && forall i :: 0 <= i < |image| ==> |image[i]| == ENTRIES
    modifies m
    ensures m.Valid() && SpaceOk(m.z, m.mem, sp, m.Avail()) && m.free == old(m.free) && Kept(old(m.mem), m.mem, sp.page.Keys)
    ensures ok <==> size <= length
    ensures ok ==> LoadedTo(old(m.mem), m.mem, sp, n, v, image, size, PgUp(size))
  {
    hide Tree, FreeOk, PteFrame, IsUser, SpaceOk, Kept, UserSpace, AllUser, LoadedTo, Own, Overlay, IsValid, IsLeaf;
    ghost var mem0 := m.mem;
    KeptSelf(mem0, sp.page.Keys);
    NoneLoaded(m.z, m.mem, sp, m.Avail(), n, top, v, image, size);
    UserFits(m.z, m.mem, sp, m.Avail(), n, top);
    var i := 0;
    ghost var j := 0;
    while i < size
      invariant i == 4096 * j && 0 <= j <= PgUp(size) && i <= length + 4095
      invariant i >= size || i <= length
      invariant m.Valid() && SpaceOk(m.z, m.mem, sp, m.Avail()) && m.free == old(m.free)
      invariant Kept(mem0, m.mem, sp.page.Keys) && LoadedTo(mem0, m.mem, sp, n, v, image, size, j)
      invariant i >= size ==> j == PgUp(size) && size <= length
      decreases PgUp(size) - j
    {
      assert i / 4096 == j && v + j < n;
      UserPage(m.z, m.mem, sp, m.Avail(), n, top, v + j);
      var f := Walkaddr(m, sp, root, v + i / 4096);
      var want := if size - i < 4096 then size - i else 4096;
      var got := if want <= length - i then want else length - i;
      if got == 0 {
        return false;
      }
      ghost var mem1 := m.mem;
      MemShape(m.z, m.mem, m.head, m.free);
      m.Fill(f, Overlay(m.mem[f], image[i / 4096], got));
      KeptPage(mem1, sp.page.Keys, f, m.mem[f]);
      KeptTrans(mem0, mem1, m.mem, sp.page.Keys, sp.page.Keys);
      PageFilled(m.z, mem1, m.mem, sp, m.Avail(), f);
      if got != want {
        return false;
      }
      LoadOne(m.z, mem0, mem1, m.mem, sp, m.Avail(), n, top, v, image, size, j, f, want);
      i := (i + 4096) % UWIDTH;
      j := j + 1;
    }
    ok := true;
  }

  lemma UserPage(z: Frames, mem: seq<Page>, sp: Space, avail: set<int>, n: int, top: set<int>, x: int)
    requires SpaceOk(z, mem, sp, avail) && UserSpace(sp, n, top) && AllUser(sp, n) && 0 <= x < n
    ensures x in sp.flat && IsUser(sp.flat[x])
    ensures var f := PteFrame(sp.flat[x]); 0 < f < |mem| && f in sp.page && f !in avail && f !in sp.role && sp.page[f] == x
  {
    hide SpaceOk, UserSpace, PteFrame, IsUser;
    UserFrame(z, mem, sp, avail, n, top, x);
  }

  /** A page the space owns is written. */
  lemma PageFilled(z: Frames, mem: seq<Page>, mem1: seq<Page>, sp: Space, avail: set<int>, f: int)
    requires SpaceOk(z, mem, sp, avail) && f !in sp.role && 0 <= f < |mem| == |mem1| && mem1 == mem[f := mem1[f]]
    ensures SpaceOk(z, mem1, sp, avail)
  {
    hide Tree, PageOk, Own;
    TreeFrame(z, mem, mem1, sp);
  }

  // ---- exec ----

  const WIDTH: int := UWIDTH * UWIDTH
  const USERSTACK: int := 1

  /** A program header, and what the file holds for it. readable: the header could be read;
      image: what the file holds from its offset on, as pages, length bytes in all. */
  datatype Segment = Segment(readable: bool, load: bool, vaddr: int, memsz: int, filesz: int, xperm: int, image: seq<Page>, length: int)

  predicate SegmentOk(g: Segment) {
    && 0 <= g.vaddr < WIDTH && 0 <= g.memsz < WIDTH && 0 <= g.filesz < WIDTH && XPermOk(g.xperm)
    && 0 <= g.length <= 4096 * |g.image| && forall i :: 0 <= i < |g.image| ==> |g.image[i]| == ENTRIES
  }

  /** The image under construction: sz bytes of user memory. */
  ghost predicate Building(z: Frames, mem: seq<Page>, sp: Space, avail: set<int>, sz: int) {
    0 <= sz && SpaceOk(z, mem, sp, avail) && UserSpace(sp, PgUp(sz), BOTH)
  }

  /** A header that exec does not reject by itself. */
  predicate Acceptable(g: Segment) {
    && g.readable
    && (g.load ==> g.memsz >= g.filesz && g.vaddr + g.memsz < WIDTH && g.vaddr % 4096 == 0 && g.filesz <= g.length)
  }

  /** exec also gives up on a segment that ends at address 0 before any other memory is there:
      uvmalloc then returns 0. */
  predicate AtZero(g: Segment) {
    g.load && g.vaddr + g.memsz == 0
  }

  function Larger(a: int, b: int): int {
    if a < b then b else a
  }

  /** Where the memory of the first i segments ends. */
  function MaxEnd(segs: seq<Segment>, i: nat): int
    requires i <= |segs|
  {
    if i == 0 then 0
    else if segs[i - 1].load then Larger(MaxEnd(segs, i - 1), segs[i - 1].vaddr + segs[i - 1].memsz) else MaxEnd(segs, i - 1)
  }

  lemma {:induction false} MaxEndGrows(segs: seq<Segment>, i: nat, j: nat)
    requires i <= j <= |segs|
    ensures MaxEnd(segs, i) <= MaxEnd(segs, j)
    decreases j
  {
    if i < j {
      MaxEndGrows(segs, i, j - 1);
    }
  }

  /** Why building an image may fail. */
  ghost predicate Hopeless(segs: seq<Segment>, argsFit: bool, nfree: int) {
    || !argsFit || (exists i :: 0 <= i < |segs| && (!Acceptable(segs[i]) || AtZero(segs[i])))
    || nfree <= 3 * (PgUp(MaxEnd(segs, |segs|)) + USERSTACK + 1)
  }

  /** The segment's file part covers page x. */
  predicate Touches(g: Segment, x: int) {
    g.load && g.vaddr / 4096 <= x < g.vaddr / 4096 + PgUp(g.filesz)
  }

  /** Page x holds the segment's file part of it. */
  predicate SegmentPage(mem: seq<Page>, sp: Space, g: Segment, x: int) {
    var p := x - g.vaddr / 4096; 0 <= p < |g.image| && PageHas(mem, sp, x, g.image[p], g.filesz - 4096 * p)
  }

  /** The first n pages are as they were, but for those the segment's file part covers. */
  ghost predicate Untouched(mem: seq<Page>, sp: Space, mem1: seq<Page>, sp1: Space, g: Segment, n: int) {
    forall x :: 0 <= x < n && !Touches(g, x) ==> SamePage(mem, sp, mem1, sp1, x)
  }

  /** The segment's whole file part is in memory. */
  ghost predicate InMemory(mem: seq<Page>, sp: Space, g: Segment) {
    forall x :: Touches(g, x) ==> SegmentPage(mem, sp, g, x)
  }

  /** Once there is memory for a segment, its size is far from 32 bits. */
  lemma SegmentFits(z: Frames, mem: seq<Page>, sp: Space, avail: set<int>, sz: int, g: Segment)
    requires Building(z, mem, sp, avail, sz) && Below4G(z) && SegmentOk(g) && g.memsz >= g.filesz && g.vaddr % 4096 == 0 && sz >= g.vaddr + g.memsz
    ensures g.filesz < UWIDTH && g.vaddr / 4096 + PgUp(g.filesz) <= PgUp(sz)
  {
    hide SpaceOk, UserSpace;
    UserFits(z, mem, sp, avail, PgUp(sz), BOTH);
  }

  /** What one program header does to the pages. */
  lemma SegmentPages(mem0: seq<Page>, sp: Space, mem1: seq<Page>, mem: seq<Page>, sp1: Space, n: int, n1: int, g: Segment)
    requires PagesSame(mem0, sp, mem1, sp1, n) && n <= n1 && g.load
    requires LoadedTo(mem1, mem, sp1, n1, g.vaddr / 4096, g.image, g.filesz, PgUp(g.filesz))
    requires 0 <= g.vaddr && g.vaddr / 4096 + PgUp(g.filesz) <= n1
    ensures Untouched(mem0, sp, mem, sp1, g, n) && InMemory(mem, sp1, g)
  {
    hide Overlay, HasPrefix, PteFrame;
    var v, k := g.vaddr / 4096, PgUp(g.filesz);
    forall x | 0 <= x < n && !Touches(g, x) ensures SamePage(mem0, sp, mem, sp1, x) {
      assert PageNow(mem1, mem, sp1, v, g.image, g.filesz, k, x) && SamePage(mem0, sp, mem1, sp1, x);
    }
    forall x | Touches(g, x) ensures SegmentPage(mem, sp1, g, x) {
      assert PageNow(mem1, mem, sp1, v, g.image, g.filesz, k, x);
      OverlayHas(mem1[PteFrame(sp1.flat[x])], g.image[x - v], g.filesz - 4096 * (x - v));
    }
  }

  /** One program header. The size grows only when the segment's memory is there; then the whole
      file part is loaded, and the other pages are as they were. */
  method LoadSegment(m: Machine, ghost sp: Space, root: int, sz: int, g: Segment) returns (ok: bool, sz1: int, ghost sp1: Space)
    requires m.Valid() && Building(m.z, m.mem, sp, m.Avail(), sz) && AllUser(sp, PgUp(sz)) && root == sp.root && Below4G(m.z) && SegmentOk(g)
    modifies m
    ensures m.Valid() && Building(m.z, m.mem, sp1, m.Avail(), sz1) && AllUser(sp1, PgUp(sz1)) && sp1.root == sp.root
    ensures Conserved(sp, old(m.Avail()), sp1, m.Avail()) && Kept(old(m.mem), m.mem, old(m.Avail()) + Own(sp))
    ensures ok ==> Acceptable(g) && sz1 == (if g.load then Larger(sz, g.vaddr + g.memsz) else sz)
    ensures ok ==> Untouched(old(m.mem), sp, m.mem, sp1, g, PgUp(sz)) && InMemory(m.mem, sp1, g)
    ensures !ok ==> !Acceptable(g) || AtZero(g) || (g.load && old(m.NFree()) <= 3 * (PgUp(g.vaddr + g.memsz) - PgUp(sz)))
    ensures ok ==> old(m.NFree()) <= m.NFree() + 3 * (PgUp(sz1) - PgUp(sz))
  {
    hide Tree, FreeOk, Kept, SpaceOk, UserSpace, Own, Conserved, AllUser, Extends, Flagged, LoadedTo, SamePage, SegmentPage, InMemory, Untouched;
    ghost var mem0, avail := m.mem, m.Avail();
    KeptSelf(mem0, avail + Own(sp));
    ConservedSelf(sp, avail);
    ok, sz1, sp1 := false, sz, sp;
    if !g.readable {
      return;
    }
    if !g.load {
      NothingLoaded(m.z, mem0, sp, avail, PgUp(sz), BOTH, g);
      ok := true;
      return;
    }
    if g.memsz < g.filesz || g.vaddr + g.memsz >= WIDTH || g.vaddr % 4096 != 0 {
      return;
    }
    var r, grown;
    r, grown, sp1 := Uvmalloc(m, sp, BOTH, root, sz, g.vaddr + g.memsz, g.xperm);
    ghost var mem1 := m.mem;
    if grown {
      GrownUser(m.z, m.mem, m.Avail(), sp, sp1, PgUp(sz), PgUp(r), g.xperm);
      GrownSame(m.z, mem0, mem1, sp, sp1, avail, PgUp(sz), BOTH, PgUp(r));
    } else {
      SameUser(sp, sp1, PgUp(sz));
    }
    KeptOwn(mem0, m.mem, avail, sp);
    if r == 0 {
      NoPages(sz, r, grown);
      return;
    }
    sz1 := r;
    SegmentFits(m.z, m.mem, sp1, m.Avail(), sz1, g);
    ok := Loadseg(m, sp1, PgUp(sz1), BOTH, root, g.vaddr / 4096, g.filesz % UWIDTH, g.image, g.length);
    KeptPages(mem0, mem1, m.mem, sp, avail, sp1, m.Avail());
    if ok {
      SegmentPages(mem0, sp, mem1, m.mem, sp1, PgUp(sz), PgUp(sz1), g);
    }
  }

  /** A header that is not loaded touches no page. */
  lemma NothingLoaded(z: Frames, mem: seq<Page>, sp: Space, avail: set<int>, n: int, top: set<int>, g: Segment)
    requires SpaceOk(z, mem, sp, avail) && UserSpace(sp, n, top) && !g.load
    ensures Untouched(mem, sp, mem, sp, g, n) && InMemory(mem, sp, g)
  {
    hide SpaceOk, UserSpace, PteFrame;
    forall x | 0 <= x < n ensures SamePage(mem, sp, mem, sp, x) {
      UserFrame(z, mem, sp, avail, n, top, x);
    }
  }

  lemma KeptOwn(mem: seq<Page>, mem1: seq<Page>, avail: set<int>, sp: Space)
    requires Kept(mem, mem1, avail + sp.role.Keys)
    ensures Kept(mem, mem1, avail + Own(sp))
  {
  }

  lemma SameUser(sp: Space, sp1: Space, n: int)
    requires AllUser(sp, n) && sp1.flat == sp.flat
    ensures AllUser(sp1, n)
  {
  }

  lemma NoPages(sz: int, r: int, grown: bool)
    requires 0 <= sz && r == 0 && (grown ==> sz == 0)
    ensures grown ==> PgUp(r) == PgUp(sz)
  {
  }

  lemma KeptPages(mem: seq<Page>, mem1: seq<Page>, mem2: seq<Page>, sp: Space, avail: set<int>, sp1: Space, avail1: set<int>)
    requires Kept(mem, mem1, avail + Own(sp)) && Kept(mem1, mem2, sp1.page.Keys) && Conserved(sp, avail, sp1, avail1)
    ensures Kept(mem, mem2, avail + Own(sp))
  {
    hide Kept;
    forall f | f in sp1.page.Keys ensures f in avail + Own(sp) {
      assert f in avail1 + Own(sp1);
    }
    KeptTrans(mem, mem1, mem2, avail + Own(sp), sp1.page.Keys);
  }

  lemma KeptAll(mem: seq<Page>, mem1: seq<Page>, mem2: seq<Page>, sp: Space, avail: set<int>, sp1: Space, avail1: set<int>)
    requires Kept(mem, mem1, avail + Own(sp)) && Kept(mem1, mem2, avail1 + Own(sp1)) && Conserved(sp, avail, sp1, avail1)
    ensures Kept(mem, mem2, avail + Own(sp))
  {
    hide Kept;
    KeptTrans(mem, mem1, mem2, avail + Own(sp), avail1 + Own(sp1));
  }

  /** uvmclear: user code loses access to page v. */
  method Uvmclear(m: Machine, ghost sp: Space, ghost n: int, ghost top: set<int>, root: int, v: int) returns (ghost sp1: Space)
    requires m.Valid() && SpaceOk(m.z, m.mem, sp, m.Avail()) && root == sp.root && UserSpace(sp, n, top) && 0 <= v < n
    requires IsUser(sp.flat[v])
    modifies m
    ensures m.Valid() && SpaceOk(m.z, m.mem, sp1, m.Avail()) && UserSpace(sp1, n, top) && sp1 == sp.(flat := sp.flat[v := sp.flat[v] - PTE_U])
    ensures !IsUser(sp1.flat[v])
    ensures m.Avail() == old(m.Avail()) && Own(sp1) == Own(sp) && Kept(old(m.mem), m.mem, sp.role.Keys)
  {
    hide Tree, FreeOk, SpaceOk, UserSpace, Own, IsUser, Kept;
    ghost var mem0 := m.mem;
    ClearFacts(m.z, m.mem, sp, m.Avail(), n, top, v);
    var t, _ := m.Walk(sp, root, v, false);
    m.Store(t, v % 512, m.mem[t][v % 512] - PTE_U);
    sp1 := sp.(flat := sp.flat[v := sp.flat[v] - PTE_U]);
  }

  lemma ClearFacts(z: Frames, mem: seq<Page>, sp: Space, avail: set<int>, n: int, top: set<int>, v: int)
    requires SpaceOk(z, mem, sp, avail) && UserSpace(sp, n, top) && 0 <= v < n && IsUser(sp.flat[v])
    ensures v in sp.flat && v < MAXPAGE && v / 512 in sp.low
    ensures var t := sp.low[v / 512]; 0 < t < |mem| && t !in avail && |mem[t]| == ENTRIES && mem[t][v % 512] == sp.flat[v]
    ensures var t := sp.low[v / 512];
            var mem1, sp1 := SetWord(mem, t, v % 512, sp.flat[v] - PTE_U), sp.(flat := sp.flat[v := sp.flat[v] - PTE_U]);
            SpaceOk(z, mem1, sp1, avail) && UserSpace(sp1, n, top) && Own(sp1) == Own(sp) && Kept(mem, mem1, sp.role.Keys) && !IsUser(sp1.flat[v])
  {
    hide Tree, PteFrame, IsUser, IsValid, IsLeaf;
    LeafFacts(z, mem, sp, v);
    MappedHas(z, mem, sp, v);
    LowEntry(z, mem, sp, v);
    ClearBit(sp.flat[v]);
    var sp1 := sp.(flat := sp.flat[v := sp.flat[v] - PTE_U]);
    SetLeafOk(z, mem, sp, v, sp.flat[v] - PTE_U);
    assert sp.low[v / 512] in sp.role;
    forall f | f in sp1.page ensures PageOk(z, sp1, f) {
      assert PageOk(z, sp, f);
    }
    forall x | 0 <= x < n ensures x in sp1.flat && Owned(sp1, x) {
      assert Owned(sp, x);
    }
  }

  /** Clearing the user bit leaves a valid leaf with the same frame, out of reach of user code. */
  lemma ClearBit(e: int)
    requires 0 <= e && IsUser(e) && IsValid(e) && IsLeaf(e)
    ensures var c := e - PTE_U; 0 < c && IsValid(c) && IsLeaf(c) && !IsUser(c) && PteFrame(c) == PteFrame(e)
  {
    hide IsUser, IsValid, IsLeaf;
    var q, r := e / 1024, e % 1024;
    assert e == q * 1024 + r;
    SplitBits(q, r);
    ClearLow(r);
    SplitBits(q, r - PTE_U);
  }

  lemma SplitBits(q: int, r: int)
    requires 0 <= r < 1024
    ensures var e := q * 1024 + r; (IsUser(e) <==> IsUser(r)) && (IsValid(e) <==> IsValid(r)) && (IsLeaf(e) <==> IsLeaf(r)) && PteFrame(e) == q
  {
    LowUser(q, r);
    LowTen(q, r);
    LowBit(q, r);
    LowMiddle(q, r);
  }

  lemma ClearLow(r: int)
    requires 0 <= r < 1024 && IsUser(r) && IsValid(r) && IsLeaf(r)
    ensures PTE_U < r && IsValid(r - PTE_U) && IsLeaf(r - PTE_U) && !IsUser(r - PTE_U)
  {
    UserPart(r);
    var h := r / 2;
    assert (r - 16) / 2 == h - 8;
    LowThree(1, h - 8);
  }

  lemma UserPart(r: int)
    ensures IsUser(r - PTE_U) <==> !IsUser(r)
  {
    assert (r - 16) / 16 == r / 16 - 1;
  }

  // ---- The image ----

  /** Of the first n segments, a is the last whose file part covers page x. */
  ghost predicate Shown(segs: seq<Segment>, n: int, a: int, x: int) {
    && 0 <= a < n <= |segs| && Touches(segs[a], x) && forall b :: a < b < n ==> !Touches(segs[b], x)
  }

  /** Every page that the first n segments load holds what the last of them has for it. */
  ghost predicate ImageOk(mem: seq<Page>, sp: Space, segs: seq<Segment>, n: int) {
    n <= |segs| && forall a, x :: Shown(segs, n, a, x) ==> SegmentPage(mem, sp, segs[a], x)
  }

  lemma {:induction false} TouchesBelow(segs: seq<Segment>, n: nat, a: nat, x: int)
    requires a < n <= |segs| && Touches(segs[a], x) && SegmentOk(segs[a]) && segs[a].memsz >= segs[a].filesz && segs[a].vaddr % 4096 == 0
    ensures 0 <= x < PgUp(MaxEnd(segs, n))
  {
    MaxEndGrows(segs, a + 1, n);
    var g := segs[a];
    assert g.vaddr + g.filesz <= MaxEnd(segs, n);
  }

  /** Segments that exec takes. */
  ghost predicate Taken(segs: seq<Segment>, n: int) {
    n <= |segs| && forall i :: 0 <= i < n ==> SegmentOk(segs[i]) && Acceptable(segs[i])
  }

  lemma ImageMore(mem: seq<Page>, sp: Space, mem1: seq<Page>, sp1: Space, segs: seq<Segment>, i: nat)
    requires i < |segs| && ImageOk(mem, sp, segs, i) && Taken(segs, i)
    requires Untouched(mem, sp, mem1, sp1, segs[i], PgUp(MaxEnd(segs, i))) && InMemory(mem1, sp1, segs[i])
    ensures ImageOk(mem1, sp1, segs, i + 1)
  {
    hide HasPrefix, PteFrame, PgUp, MaxEnd, SegmentOk, Acceptable, Touches, SegmentPage, SamePage;
    var n := i + 1;
    forall a, x | Shown(segs, n, a, x) ensures SegmentPage(mem1, sp1, segs[a], x) {
      if a < i {
        ShownBefore(mem, sp, segs, i, a, x);
        assert SamePage(mem, sp, mem1, sp1, x);
        PageKept(mem, sp, mem1, sp1, segs[a], x);
      }
    }
  }

  lemma ShownBefore(mem: seq<Page>, sp: Space, segs: seq<Segment>, i: nat, a: nat, x: int)
    requires a < i < |segs| && ImageOk(mem, sp, segs, i) && Taken(segs, i) && Shown(segs, i + 1, a, x)
    ensures SegmentPage(mem, sp, segs[a], x) && 0 <= x < PgUp(MaxEnd(segs, i)) && !Touches(segs[i], x)
  {
    hide SegmentPage, PgUp, MaxEnd, Touches;
    assert Shown(segs, i, a, x);
    assert SegmentOk(segs[a]) && Acceptable(segs[a]);
    TouchesLoad(segs[a], x);
    TouchesBelow(segs, i, a, x);
  }

  lemma TouchesLoad(g: Segment, x: int)
    requires Touches(g, x)
    ensures g.load
  {
  }

  lemma PageKept(mem: seq<Page>, sp: Space, mem1: seq<Page>, sp1: Space, g: Segment, x: int)
    requires SamePage(mem, sp, mem1, sp1, x) && SegmentPage(mem, sp, g, x)
    ensures SegmentPage(mem1, sp1, g, x)
  {
    hide HasPrefix;
  }

  lemma ImageSame(mem: seq<Page>, sp: Space, mem1: seq<Page>, sp1: Space, segs: seq<Segment>, n: nat)
    requires n <= |segs| && ImageOk(mem, sp, segs, n) && Taken(segs, n) && PagesSame(mem, sp, mem1, sp1, PgUp(MaxEnd(segs, n)))
    ensures ImageOk(mem1, sp1, segs, n)
  {
    hide HasPrefix, PteFrame, PgUp, MaxEnd, SegmentOk;
    forall a, x | Shown(segs, n, a, x) ensures SegmentPage(mem1, sp1, segs[a], x) {
      assert Acceptable(segs[a]);
      TouchesBelow(segs, n, a, x);
      assert SamePage(mem, sp, mem1, sp1, x);
    }
  }

  /** User code may access all of the n pages but the guard page below the stack. */
  ghost predicate Guarded(sp: Space, n: int) {
    forall v :: 0 <= v < n ==> v in sp.flat && (IsUser(sp.flat[v]) <==> v != n - 1 - USERSTACK)
  }

  lemma GuardSet(sp: Space, sp1: Space, n: int, guard: int)
    requires AllUser(sp, n) && guard == n - 1 - USERSTACK && guard in sp.flat && sp1.flat == sp.flat[guard := sp.flat[guard] - PTE_U]
    requires !IsUser(sp1.flat[guard])
    ensures Guarded(sp1, n)
  {
    hide IsUser;
  }

  /** Clearing the guard page leaves the pages below it alone. */
  lemma GuardSame(z: Frames, mem: seq<Page>, mem1: seq<Page>, sp: Space, sp1: Space, avail: set<int>, n: int, top: set<int>, guard: int)
    requires SpaceOk(z, mem, sp, avail) && UserSpace(sp, n, top) && guard < n && Kept(mem, mem1, sp.role.Keys)
    requires guard in sp1.flat && sp1.flat == sp.flat[guard := sp1.flat[guard]]
    ensures PagesSame(mem, sp, mem1, sp1, guard)
  {
    hide SpaceOk, UserSpace, PteFrame;
    forall x | 0 <= x < guard ensures SamePage(mem, sp, mem1, sp1, x) {
      UserFrame(z, mem, sp, avail, n, top, x);
    }
  }

  /** The new image: the segments, a guard page and the stack. argsFit: whether the arguments
      could be copied to the stack. */
  method BuildImage(m: Machine, ghost sp: Space, root: int, segs: seq<Segment>, argsFit: bool)
    returns (ok: bool, sz: int, ghost sp1: Space)
    requires m.Valid() && Building(m.z, m.mem, sp, m.Avail(), 0) && root == sp.root && Below4G(m.z)
    requires forall i :: 0 <= i < |segs| ==> SegmentOk(segs[i])
    modifies m
    ensures m.Valid() && Building(m.z, m.mem, sp1, m.Avail(), sz) && sp1.root == sp.root
    ensures Conserved(sp, old(m.Avail()), sp1, m.Avail()) && Kept(old(m.mem), m.mem, old(m.Avail()) + Own(sp))
    ensures ok ==> argsFit && sz == (PgUp(MaxEnd(segs, |segs|)) + USERSTACK + 1) * 4096
    ensures ok ==> Taken(segs, |segs|) && ImageOk(m.mem, sp1, segs, |segs|) && Guarded(sp1, PgUp(sz))
    ensures !ok ==> Hopeless(segs, argsFit, old(m.NFree()))
  {
    hide Tree, FreeOk, Kept, SpaceOk, UserSpace, Own, Conserved, AllUser, Extends, Flagged, SegmentOk, Acceptable, AtZero;
    hide ImageOk, Guarded, InMemory, Untouched;
    ghost var mem0, avail, nfree := m.mem, m.Avail(), m.NFree();
    KeptSelf(mem0, avail + Own(sp));
    ConservedSelf(sp, avail);
    NoUser(sp);
    NoImage(m.mem, sp, segs);
    sz, sp1 := 0, sp;
    for i := 0 to |segs|
      invariant m.Valid() && Building(m.z, m.mem, sp1, m.Avail(), sz) && AllUser(sp1, PgUp(sz)) && sp1.root == sp.root
      invariant Conserved(sp, avail, sp1, m.Avail()) && Kept(mem0, m.mem, avail + Own(sp))
      invariant sz == MaxEnd(segs, i) && nfree <= m.NFree() + 3 * PgUp(sz) && Taken(segs, i) && ImageOk(m.mem, sp1, segs, i)
    {
      ghost var sp0, mem1, avail1 := sp1, m.mem, m.Avail();
      MaxEndGrows(segs, i + 1, |segs|);
      ok, sz, sp1 := LoadSegment(m, sp0, root, sz, segs[i]);
      KeptAll(mem0, mem1, m.mem, sp, avail, sp0, avail1);
      ConservedTrans(sp, avail, sp0, avail1, sp1, m.Avail());
      if !ok {
        return;
      }
      ImageMore(mem1, sp0, m.mem, sp1, segs, i);
    }
    ok, sz, sp1 := AddStack(m, sp, sp1, root, sz, segs, mem0, avail, nfree);
    ok := ok && argsFit;
  }

  lemma NoImage(mem: seq<Page>, sp: Space, segs: seq<Segment>)
    ensures ImageOk(mem, sp, segs, 0)
  {
  }

  /** The guard page and the stack, above what the segments need. */
  method AddStack(m: Machine, ghost sp: Space, ghost sp0: Space, root: int, end: int, segs: seq<Segment>,
                  ghost mem0: seq<Page>, ghost avail: set<int>, ghost nfree: int)
    returns (ok: bool, sz: int, ghost sp1: Space)
    requires m.Valid() && Building(m.z, m.mem, sp0, m.Avail(), end) && AllUser(sp0, PgUp(end)) && root == sp0.root == sp.root && Below4G(m.z)
    requires Conserved(sp, avail, sp0, m.Avail()) && Kept(mem0, m.mem, avail + Own(sp))
    requires end == MaxEnd(segs, |segs|) && nfree <= m.NFree() + 3 * PgUp(end) && Taken(segs, |segs|) && ImageOk(m.mem, sp0, segs, |segs|)
    modifies m
    ensures m.Valid() && Building(m.z, m.mem, sp1, m.Avail(), sz) && sp1.root == sp.root
    ensures Conserved(sp, avail, sp1, m.Avail()) && Kept(mem0, m.mem, avail + Own(sp))
    ensures ok ==> sz == (PgUp(end) + USERSTACK + 1) * 4096 && ImageOk(m.mem, sp1, segs, |segs|) && Guarded(sp1, PgUp(sz))
    ensures !ok ==> nfree <= 3 * (PgUp(end) + USERSTACK + 1)
  {
    hide Tree, FreeOk, Kept, SpaceOk, UserSpace, Own, Conserved, AllUser, Extends, Flagged, Taken;
    hide ImageOk, Guarded, PagesSame, IsUser;
    ghost var mem1, avail1 := m.mem, m.Avail();
    sz := PgUp(end) * 4096;
    assert PgUp(sz) == PgUp(end);
    var r, grown;
    r, grown, sp1 := Uvmalloc(m, sp0, BOTH, root, sz, sz + (USERSTACK + 1) * 4096, PTE_W);
    KeptOwn(mem1, m.mem, avail1, sp0);
    KeptAll(mem0, mem1, m.mem, sp, avail, sp0, avail1);
    ConservedTrans(sp, avail, sp0, avail1, sp1, m.Avail());
    ok := r != 0;
    if !ok {
      return;
    }
    ghost var sp2, mem2, avail2 := sp1, m.mem, m.Avail();
    var guard := sz / 4096;
    GrownUser(m.z, m.mem, m.Avail(), sp0, sp2, PgUp(sz), PgUp(r), PTE_W);
    GrownSame(m.z, mem1, m.mem, sp0, sp2, avail1, PgUp(sz), BOTH, PgUp(r));
    ImageSame(mem1, sp0, m.mem, sp2, segs, |segs|);
    GuardUser(sp2, PgUp(r), guard);
    sz := r;
    sp1 := Uvmclear(m, sp2, PgUp(sz), BOTH, root, guard);
    GuardSet(sp2, sp1, PgUp(sz), guard);
    GuardSame(m.z, mem2, m.mem, sp2, sp1, avail2, PgUp(sz), BOTH, guard);
    ImageSame(mem2, sp2, m.mem, sp1, segs, |segs|);
    SameOwn(sp, avail, sp2, avail2, sp1, m.Avail());
    RolesOwn(mem2, m.mem, sp2);
    KeptTrans(mem0, mem2, m.mem, avail + Own(sp), Own(sp2));
  }

  lemma RolesOwn(mem: seq<Page>, mem1: seq<Page>, sp: Space)
    requires Kept(mem, mem1, sp.role.Keys)
    ensures Kept(mem, mem1, Own(sp))
  {
  }

  lemma NoUser(sp: Space)
    ensures AllUser(sp, PgUp(0))
  {
  }

  lemma GuardUser(sp: Space, n: int, v: int)
    requires AllUser(sp, n) && 0 <= v < n
    ensures v in sp.flat && IsUser(sp.flat[v])
  {
  }

  lemma SameOwn(sp: Space, avail: set<int>, sp1: Space, avail1: set<int>, sp2: Space, avail2: set<int>)
    requires Conserved(sp, avail, sp1, avail1) && Own(sp2) == Own(sp1) && avail2 == avail1
    ensures Conserved(sp, avail, sp2, avail2) && Own(sp1) <= avail + Own(sp)
  {
    assert Own(sp1) <= avail1 + Own(sp1);
  }

  /** exec, as far as memory goes. On failure every page is where it was; on success the old
      image's pages have gone back, each once. */
  method Exec(m: Machine, ghost was: Space, oldroot: int, oldsz: int, tf: int, tramp: int, header: bool, segs: seq<Segment>, argsFit: bool)
    returns (ok: bool, root: int, sz: int, ghost sp: Space)
    requires m.Valid() && Building(m.z, m.mem, was, m.Avail(), oldsz) && oldroot == was.root && Below4G(m.z)
    requires 0 < tramp < m.z.first && 0 < tf < |m.mem| && tf !in m.Avail() && tf !in Own(was)
    requires forall i :: 0 <= i < |segs| ==> SegmentOk(segs[i])
    modifies m
    ensures m.Valid()
    ensures !ok ==> m.Avail() == old(m.Avail()) && SpaceOk(m.z, m.mem, was, m.Avail()) && Kept(old(m.mem), m.mem, old(m.Avail()))
    ensures ok ==> Building(m.z, m.mem, sp, m.Avail(), sz) && root == sp.root
    ensures ok ==> m.Avail() + Own(sp) == old(m.Avail()) + Own(was) && Own(sp) <= old(m.Avail())
    ensures ok ==> Kept(old(m.mem), m.mem, old(m.Avail()) + Own(was))
    ensures ok ==> header && argsFit && sz == (PgUp(MaxEnd(segs, |segs|)) + USERSTACK + 1) * 4096
    ensures ok ==> Taken(segs, |segs|) && ImageOk(m.mem, sp, segs, |segs|) && Guarded(sp, PgUp(sz))
    ensures !ok ==> !header || Hopeless(segs, argsFit, old(m.NFree()) - 5)
  {
    hide Tree, FreeOk, Kept, SpaceOk, UserSpace, Own, Conserved, SegmentOk, Acceptable, ImageOk, Guarded, Taken;
    ghost var mem0, avail := m.mem, m.Avail();
    KeptSelf(mem0, avail);
    ok, root, sz, sp := false, 0, 0, was;
    if !header {
      return;
    }
    MaxEndGrows(segs, 0, |segs|);
    root, sp := ProcPagetable(m, tf, tramp);
    if root == 0 {
      OldSpace(m.z, mem0, m.mem, was, avail, m.Avail());
      return;
    }
    ghost var sp0, mem1, avail1 := sp, m.mem, m.Avail();
    ok, sz, sp := BuildImage(m, sp0, root, segs, argsFit);
    ConservedTo(sp0, avail1, sp, m.Avail(), avail);
    KeptTrans(mem0, mem1, m.mem, avail, avail1 + Own(sp0));
    ghost var mem2, avail2 := m.mem, m.Avail();
    if !ok {
      ProcFreepagetable(m, sp, root, sz);
      KeptTrans(mem0, mem2, m.mem, avail, Own(sp));
      OldSpace(m.z, mem0, m.mem, was, avail, m.Avail());
      return;
    }
    OldSpace(m.z, mem0, mem2, was, avail, avail2);
    Apart(m.z, mem2, sp, avail2);
    ProcFreepagetable(m, was, oldroot, oldsz);
    OldFreed(m.z, mem0, mem2, m.mem, was, sp, avail, avail2);
    ImageLeft(m.z, mem2, m.mem, was, sp, avail, avail2, segs, PgUp(sz));
  }

  /** Freeing the old image does not touch the new one. */
  lemma ImageLeft(z: Frames, mem: seq<Page>, mem1: seq<Page>, was: Space, sp: Space, avail: set<int>, avail2: set<int>, segs: seq<Segment>, n: int)
    requires SpaceOk(z, mem, sp, avail2) && UserSpace(sp, n, BOTH) && Own(was) !! avail && avail2 + Own(sp) == avail && Kept(mem, mem1, Own(was))
    requires ImageOk(mem, sp, segs, |segs|) && Taken(segs, |segs|) && PgUp(MaxEnd(segs, |segs|)) <= n
    ensures ImageOk(mem1, sp, segs, |segs|)
  {
    hide SpaceOk, UserSpace, PteFrame, ImageOk, Taken, PgUp, MaxEnd;
    forall x | 0 <= x < n ensures SamePage(mem, sp, mem1, sp, x) {
      UserFrame(z, mem, sp, avail2, n, BOTH, x);
      assert PteFrame(sp.flat[x]) in Own(sp) && PteFrame(sp.flat[x]) in avail;
    }
    ImageSame(mem, sp, mem1, sp, segs, |segs|);
  }

  lemma OldFreed(z: Frames, mem0: seq<Page>, mem: seq<Page>, mem1: seq<Page>, was: Space, sp: Space, avail: set<int>, avail2: set<int>)
    requires SpaceOk(z, mem, sp, avail2) && Own(was) !! avail && avail2 + Own(sp) == avail
    requires Kept(mem0, mem, avail) && Kept(mem, mem1, Own(was))
    ensures SpaceOk(z, mem1, sp, avail2 + Own(was)) && Kept(mem0, mem1, avail + Own(was))
    ensures avail2 + Own(was) + Own(sp) == avail + Own(was)
  {
    hide Tree, PageOk, Own;
    assert Own(sp) <= avail;
    Apart(z, mem, sp, avail2);
    SpaceFrame(z, mem, mem1, sp, avail2, avail2 + Own(was), Own(was));
  }
}

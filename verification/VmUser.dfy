/** Growing, shrinking and copying user memory (kernel/vm.c). */
module VmUser {
  import opened VmSpace
  import opened VmMachine

  /** PGROUNDUP(sz) / PGSIZE. */
  function PgUp(sz: int): int {
    (sz + 4095) / 4096
  }

  /** A user address space: pages 0 to n - 1 are mapped to frames of its own, and of the pages
      above them those in top. */
  ghost predicate UserSpace(sp: Space, n: int, top: set<int>) {
    && 0 <= n <= TRAPFRAME && (forall v :: v in top ==> v == TRAPFRAME || v == TRAMPOLINE)
    && (forall v :: v in sp.flat <==> 0 <= v < n || v in top)
    && (forall v :: 0 <= v < n ==> Owned(sp, v))
    && (forall f :: f in sp.page ==> 0 <= sp.page[f] < n)
  }

  /** The machine has fewer pages than an address space. */
  predicate Small(z: Frames) {
    0 < z.first <= z.last && z.last - z.first <= TRAPFRAME
  }

  ghost function Range(lo: int, hi: int): (r: set<int>)
    ensures forall x :: x in r <==> lo <= x < hi
    ensures lo <= hi ==> |r| == hi - lo
    decreases hi - lo
  {
    if lo >= hi then {} else {lo} + Range(lo + 1, hi)
  }

  lemma Bounded(s: set<int>, lo: int, hi: int)
    requires lo <= hi && forall x :: x in s ==> lo <= x < hi
    ensures |s| <= hi - lo
  {
    assert Range(lo, hi) == s + (Range(lo, hi) - s);
  }

  /** The frames of the first k user pages are k frames. */
  ghost function UserFrames(sp: Space, n: int, top: set<int>, k: int): (r: set<int>)
    requires UserSpace(sp, n, top) && 0 <= k <= n
    ensures |r| == k && forall f :: f in r ==> f in sp.page && sp.page[f] < k
    decreases k
  {
    if k == 0 then {}
    else
      assert Owned(sp, k - 1);
      UserFrames(sp, n, top, k - 1) + {PteFrame(sp.flat[k - 1])}
  }

  /** While a page is free, the next user page is below the trapframe. */
  lemma RoomLeft(z: Frames, mem: seq<Page>, sp: Space, avail: set<int>, n: int, top: set<int>)
    requires SpaceOk(z, mem, sp, avail) && UserSpace(sp, n, top) && Small(z) && avail != {}
    requires forall f :: f in avail ==> z.first <= f < z.last
    ensures 0 <= n < TRAPFRAME
  {
    hide Tree, Owned;
    var mine := UserFrames(sp, n, top, n);
    var all := mine + avail;
    forall f | f in all ensures z.first <= f < z.last {
      if f in sp.page {
        assert PageOk(z, sp, f);
      }
    }
    Bounded(all, z.first, z.last);
    assert |all| == |mine| + |avail|;
    var f :| f in avail;
    assert |avail| == |avail - {f}| + 1;
  }

  predicate XPermOk(xperm: int) {
    xperm == 0 || xperm == PTE_W || xperm == PTE_X || xperm == PTE_W + PTE_X
  }

  /** sp1 has the pages of sp, and its own pages first to a - 1 besides. */
  ghost predicate Extends(sp: Space, sp1: Space, first: int, a: int) {
    && sp1.root == sp.root
    && (forall v :: v in sp1.flat <==> v in sp.flat || first <= v < a)
    && (forall v :: v in sp.flat ==> sp1.flat[v] == sp.flat[v])
    && (forall f :: f in sp.page ==> f in sp1.page && sp1.page[f] == sp.page[f])
    && (forall f :: f in sp1.page ==> f in sp.page || first <= sp1.page[f] < a)
  }

  /** Page a of the space is now frame f. */
  function AddPage(sp: Space, a: int, f: int, perm: int): Space {
    sp.(flat := sp.flat[a := MakePte(f, WithValid(perm))], page := sp.page[f := a])
  }

  /** mappages has entered frame f at page a; f becomes the space's own. */
  lemma OwnPage(z: Frames, mem: seq<Page>, sp: Space, sp1: Space, avail: set<int>, a: int, f: int, perm: int, n: int, top: set<int>)
    requires SpaceOk(z, mem, sp1, avail) && UserSpace(sp, n, top) && a == n < TRAPFRAME && PermOk(perm)
    requires sp1.flat == sp.flat[a := MakePte(f, WithValid(perm))] && sp1.page == sp.page
    requires z.first <= f < z.last && f !in avail && f !in Own(sp1)
    ensures SpaceOk(z, mem, sp1.(page := sp.page[f := a]), avail) && UserSpace(sp1.(page := sp.page[f := a]), n + 1, top)
    ensures Own(sp1.(page := sp.page[f := a])) == Own(sp1) + {f}
  {
    hide Tree, MakePte, PteFrame, IsLeaf, IsValid, UserSpace;
    PteParts(f, perm);
    var sp2 := sp1.(page := sp.page[f := a]);
    TreePage(z, mem, sp1, sp2.page);
    forall g | g in sp2.page ensures PageOk(z, sp2, g) {
      if g != f {
        assert PageOk(z, sp1, g);
      }
    }
    OneMore(sp, sp2, n, f, MakePte(f, WithValid(perm)), top);
  }

  lemma OneMore(sp: Space, sp2: Space, n: int, f: int, pte: int, top: set<int>)
    requires UserSpace(sp, n, top) && n < TRAPFRAME && f !in sp.page && PteFrame(pte) == f
    requires sp2.flat == sp.flat[n := pte] && sp2.page == sp.page[f := n]
    ensures UserSpace(sp2, n + 1, top)
  {
    hide PteFrame;
    forall v | 0 <= v < n + 1 ensures v in sp2.flat && Owned(sp2, v) {
      if v < n {
        assert Owned(sp, v);
      }
    }
  }

  /** One more page of user memory, with the contents of frame src if that is not 0; nothing
      changes if there is no memory for it. */
  method GrowPage(m: Machine, ghost sp: Space, ghost top: set<int>, root: int, a: int, perm: int, src: int)
    returns (ok: bool, f: int, ghost sp1: Space)
    requires m.Valid() && SpaceOk(m.z, m.mem, sp, m.Avail()) && root == sp.root && UserSpace(sp, a, top) && Small(m.z)
    requires PermOk(perm) && 0 <= src < |m.mem| && src !in m.Avail()
    modifies m
    ensures m.Valid() && SpaceOk(m.z, m.mem, sp1, m.Avail()) && sp1.root == sp.root
    ensures Conserved(sp, old(m.Avail()), sp1, m.Avail()) && Kept(old(m.mem), m.mem, old(m.Avail()) + sp.role.Keys)
    ensures sp.role.Keys <= sp1.role.Keys <= old(m.Avail()) + sp.role.Keys && m.Avail() <= old(m.Avail())
    ensures ok ==> UserSpace(sp1, a + 1, top) && sp1.flat == AddPage(sp, a, f, perm).flat && sp1.page == AddPage(sp, a, f, perm).page
    ensures ok ==> f in old(m.Avail()) && 0 <= f < |m.mem| && m.mem[f] == old(m.mem)[if src == 0 then f else src]
    ensures !ok ==> sp1.flat == sp.flat && sp1.page == sp.page
    ensures old(m.NFree()) <= 3 + if ok then m.NFree() else 0
  {
    hide Tree, FreeOk, Kept, SpaceOk, MakePte, UserSpace, PermOk, Grew, Own, Conserved;
    ghost var mem0, avail := m.mem, m.Avail();
    MemShape(m.z, m.mem, m.head, m.free);
    KeptSelf(mem0, avail + sp.role.Keys);
    sp1, ok := sp, false;
    ConservedSelf(sp, avail);
    f := m.Kalloc();
    if f == 0 {
      return;
    }
    RoomLeft(m.z, mem0, sp, avail, a, top);
    UserFree(sp, a, top);
    if src != 0 {
      m.Fill(f, m.mem[src]);
      KeptPage(mem0, avail + sp.role.Keys, f, mem0[src]);
    }
    ghost var mem1, avail1 := m.mem, m.Avail();
    FrameTaken(m.z, mem0, mem1, sp, avail, f);
    ghost var k;
    ok, k, sp1 := m.Mappages(sp, root, a, 1, f, perm);
    MappedOne(sp, avail1, sp1, m.Avail(), a, k, f, perm);
    KeptTrans(mem0, mem1, m.mem, avail + sp.role.Keys, avail1 + sp.role.Keys);
    if ok {
      KeptAt(mem1, m.mem, avail1 + sp.role.Keys, f);
      OwnPage(m.z, m.mem, sp, sp1, m.Avail(), a, f, perm, a, top);
      ConservedTaken(sp, avail, sp1, sp1.(page := sp.page[f := a]), m.Avail(), f);
      sp1 := sp1.(page := sp.page[f := a]);
    } else {
      ghost var mem2, avail2 := m.mem, m.Avail();
      m.Kfree(f);
      KeptTrans(mem0, mem2, m.mem, avail + sp.role.Keys, {f});
      FrameGiven(m.z, mem2, m.mem, sp1, avail2, f);
      ConservedBack(sp, avail, sp1, avail2, f);
    }
  }

  lemma ConservedSelf(sp: Space, avail: set<int>)
    ensures Conserved(sp, avail, sp, avail)
  {
  }

  lemma PutBack(a: set<int>, b: set<int>, c: set<int>, d: set<int>, f: int)
    requires f in a && c + d == a - {f} + b
    ensures c + d + {f} == a + b
  {
    forall x ensures x in c + d + {f} <==> x in a + b {
      assert x in c + d <==> x in a - {f} + b;
    }
  }

  lemma ConservedTaken(sp: Space, avail: set<int>, sp1: Space, sp2: Space, avail1: set<int>, f: int)
    requires f in avail && avail1 + Own(sp1) == avail - {f} + Own(sp) && Own(sp2) == Own(sp1) + {f}
    ensures Conserved(sp, avail, sp2, avail1)
  {
    hide Own;
    PutBack(avail, Own(sp), avail1, Own(sp1), f);
    assert avail1 + (Own(sp1) + {f}) == avail1 + Own(sp1) + {f};
  }

  lemma ConservedBack(sp: Space, avail: set<int>, sp1: Space, avail1: set<int>, f: int)
    requires f in avail && avail1 + Own(sp1) == avail - {f} + Own(sp)
    ensures Conserved(sp, avail, sp1, avail1 + {f})
  {
    hide Own;
    PutBack(avail, Own(sp), avail1, Own(sp1), f);
    assert avail1 + {f} + Own(sp1) == avail1 + Own(sp1) + {f};
  }

  lemma UserFree(sp: Space, n: int, top: set<int>)
    requires UserSpace(sp, n, top) && n < TRAPFRAME
    ensures n !in sp.flat
  {
  }

  lemma KeptPage(mem: seq<Page>, touched: set<int>, f: int, p: Page)
    requires 0 <= f < |mem| && f in touched
    ensures Kept(mem, mem[f := p], touched)
  {
  }

  lemma KeptAt(mem: seq<Page>, mem1: seq<Page>, touched: set<int>, f: int)
    requires Kept(mem, mem1, touched) && 0 <= f < |mem| && f !in touched
    ensures |mem1| == |mem| && mem1[f] == mem[f]
  {
  }

  /** A free frame is taken and perhaps filled. */
  lemma FrameTaken(z: Frames, mem: seq<Page>, mem1: seq<Page>, sp: Space, avail: set<int>, f: int)
    requires SpaceOk(z, mem, sp, avail) && f in avail && |mem1| == |mem|
    requires forall g :: 0 <= g < |mem| && g != f ==> mem1[g] == mem[g]
    ensures SpaceOk(z, mem1, sp, avail - {f}) && f !in Own(sp) && f !in sp.role
  {
    hide Tree, PageOk;
    TreeFrame(z, mem, mem1, sp);
  }

  /** A frame that is nobody's goes to the free list. */
  lemma FrameGiven(z: Frames, mem: seq<Page>, mem1: seq<Page>, sp: Space, avail: set<int>, f: int)
    requires SpaceOk(z, mem, sp, avail) && f !in Own(sp) && Kept(mem, mem1, {f})
    ensures SpaceOk(z, mem1, sp, avail + {f})
  {
    hide Tree, PageOk;
    TreeFrame(z, mem, mem1, sp);
  }

  lemma MappedOne(sp: Space, avail: set<int>, sp1: Space, avail1: set<int>, a: int, k: int, f: int, perm: int)
    requires Grew(sp.(flat := sp1.flat), avail, sp1, avail1) && 0 <= k <= 1 && sp1.flat == MapRange(sp.flat, a, k, f, perm)
    requires f !in avail && f !in Own(sp)
    ensures sp1.flat == if k == 1 then sp.flat[a := MakePte(f, WithValid(perm))] else sp.flat
    ensures sp1.page == sp.page && sp1.root == sp.root && f !in Own(sp1) && f !in avail1
    ensures avail1 + Own(sp1) == avail + Own(sp) && sp.role.Keys <= sp1.role.Keys <= avail + sp.role.Keys && avail1 <= avail
  {
    hide MakePte, WithValid;
    assert MapRange(sp.flat, a, 0, f, perm) == sp.flat;
    assert forall g :: g in sp.role ==> HasRole(sp1, g, sp.role[g]);
  }

  // ---- uvmdealloc ----

  lemma ShrinkOk(z: Frames, mem: seq<Page>, sp: Space, avail: set<int>, n: int, top: set<int>, k: int)
    requires SpaceOk(z, mem, sp, avail) && UserSpace(sp, n, top) && 0 <= k <= n
    ensures UserSpace(UnmapRange(sp, k, n - k, true), k, top)
    ensures forall a :: k <= a < n ==> a in sp.flat && Owned(sp, a)
  {
    hide Tree, PteFrame;
    var r := UnmapRange(sp, k, n - k, true);
    forall v | 0 <= v < k ensures v in r.flat && Owned(r, v) {
      assert Owned(sp, v);
    }
  }

  /** Shrink user memory from oldsz to newsz bytes. */
  method Uvmdealloc(m: Machine, ghost sp: Space, ghost top: set<int>, root: int, oldsz: int, newsz: int)
    returns (r: int, ghost sp1: Space)
    requires m.Valid() && SpaceOk(m.z, m.mem, sp, m.Avail()) && root == sp.root
    requires 0 <= newsz && 0 <= oldsz && UserSpace(sp, PgUp(oldsz), top)
    modifies m
    ensures m.Valid() && SpaceOk(m.z, m.mem, sp1, m.Avail()) && r == (if newsz < oldsz then newsz else oldsz)
    ensures UserSpace(sp1, PgUp(r), top) && sp1 == UnmapRange(sp, PgUp(r), PgUp(oldsz) - PgUp(r), true)
    ensures Conserved(sp, old(m.Avail()), sp1, m.Avail()) && Kept(old(m.mem), m.mem, sp.role.Keys + (sp.page.Keys - sp1.page.Keys))
  {
    hide Tree, FreeOk, Kept, SpaceOk, UserSpace, UnmapRange, Own;
    KeptSelf(m.mem, sp.role.Keys + (sp.page.Keys - sp.page.Keys));
    UnmapNone(sp, PgUp(oldsz), true);
    sp1 := sp;
    if newsz >= oldsz {
      return oldsz, sp1;
    }
    r := newsz;
    if PgUp(newsz) < PgUp(oldsz) {
      var npages := PgUp(oldsz) - PgUp(newsz);
      UserBound(sp, PgUp(oldsz), top);
      ShrinkOk(m.z, m.mem, sp, m.Avail(), PgUp(oldsz), top, PgUp(newsz));
      sp1 := m.Uvmunmap(sp, root, PgUp(newsz), npages, true);
    }
  }

  lemma UserBound(sp: Space, n: int, top: set<int>)
    requires UserSpace(sp, n, top)
    ensures 0 <= n <= TRAPFRAME
  {
  }

  // ---- uvmalloc ----

  lemma ExtendsSelf(sp: Space, a: int)
    ensures Extends(sp, sp, a, a)
  {
  }

  lemma ExtendsMore(sp: Space, sp0: Space, sp1: Space, first: int, a: int, f: int, perm: int)
    requires Extends(sp, sp0, first, a) && first <= a && a !in sp0.flat && f !in sp0.page && sp1.root == sp0.root
    requires sp1.flat == AddPage(sp0, a, f, perm).flat && sp1.page == AddPage(sp0, a, f, perm).page
    ensures Extends(sp, sp1, first, a + 1)
  {
    hide MakePte, WithValid;
  }

  /** Giving the added pages back leaves what there was. */
  lemma ExtendsUndone(sp: Space, sp1: Space, first: int, a: int)
    requires Extends(sp, sp1, first, a) && first <= a
    requires (forall v :: first <= v < a ==> v !in sp.flat) && (forall f :: f in sp.page ==> sp.page[f] < first)
    ensures var r := UnmapRange(sp1, first, a - first, true); r.flat == sp.flat && r.page == sp.page && r.root == sp.root
  {
    var r := UnmapRange(sp1, first, a - first, true);
    assert forall v :: v in r.flat <==> v in sp1.flat && !(first <= v < a);
    assert forall v :: v in sp.flat ==> v in r.flat && r.flat[v] == sp.flat[v];
    assert r.flat.Keys == sp.flat.Keys;
    assert forall f :: f in r.page <==> f in sp1.page && !(first <= sp1.page[f] < a);
    assert forall f :: f in sp.page ==> f in r.page && r.page[f] == sp.page[f];
    forall f | f in r.page ensures f in sp.page {
      assert f in sp1.page;
    }
    assert r.page.Keys == sp.page.Keys;
  }

  /** Every page from first to a - 1 has the flags of perm. */
  ghost predicate Flagged(sp: Space, first: int, a: int, perm: int) {
    forall v :: first <= v < a ==> v in sp.flat && sp.flat[v] % 1024 == WithValid(perm)
  }

  lemma FlaggedMore(sp0: Space, sp1: Space, first: int, a: int, f: int, perm: int)
    requires Flagged(sp0, first, a, perm) && PermOk(perm) && sp1.flat == AddPage(sp0, a, f, perm).flat
    ensures Flagged(sp1, first, a + 1, perm)
  {
    hide MakePte, WithValid, IsLeaf, IsValid;
    PteParts(f, perm);
  }

  lemma FlaggedNone(sp: Space, a: int, perm: int)
    ensures Flagged(sp, a, a, perm)
  {
  }

  lemma NoFrameZero(z: Frames, mem: seq<Page>, head: int, free: seq<int>)
    requires FreeOk(z, mem, head, free)
    ensures 0 < |mem| && 0 !in Elems(free)
  {
  }

  lemma ConservedTrans(sp: Space, avail: set<int>, sp1: Space, avail1: set<int>, sp2: Space, avail2: set<int>)
    requires Conserved(sp, avail, sp1, avail1) && Conserved(sp1, avail1, sp2, avail2)
    ensures Conserved(sp, avail, sp2, avail2)
  {
  }

  /** A space with the same pages is as good. */
  lemma SamePages(sp: Space, sp0: Space, sp1: Space, first: int, a: int, top: set<int>)
    requires UserSpace(sp0, a, top) && Extends(sp, sp0, first, a)
    requires sp1.flat == sp0.flat && sp1.page == sp0.page && sp1.root == sp0.root
    ensures UserSpace(sp1, a, top) && Extends(sp, sp1, first, a)
  {
    forall v | 0 <= v < a ensures Owned(sp1, v) {
      assert Owned(sp0, v);
    }
  }

  lemma FreshPage(z: Frames, mem: seq<Page>, sp: Space, avail: set<int>, sp1: Space, a: int, top: set<int>, f: int)
    requires SpaceOk(z, mem, sp, avail) && UserSpace(sp, a, top) && UserSpace(sp1, a + 1, top) && f in avail
    ensures a !in sp.flat && f !in sp.page
  {
    hide Tree, PageOk, Owned;
    assert f !in Own(sp);
  }

  lemma GivenBack(z: Frames, mem: seq<Page>, sp: Space, avail: set<int>, sp2: Space, avail2: set<int>, sp1: Space,
                  first: int, a: int, oldsz: int, top: set<int>)
    requires UserSpace(sp, first, top) && Extends(sp, sp2, first, a) && first <= a && UserSpace(sp2, a, top)
    requires sp1 == UnmapRange(sp2, first, a - first, true) && Conserved(sp, avail, sp2, avail2)
    requires SpaceOk(z, mem, sp2, avail2) && sp2.role.Keys <= avail + sp.role.Keys
    ensures sp1.flat == sp.flat && sp1.page == sp.page && sp1.root == sp.root && UserSpace(sp1, first, top)
    ensures sp2.role.Keys + (sp2.page.Keys - sp1.page.Keys) <= avail + sp.role.Keys
  {
    hide Tree, PageOk, UnmapRange;
    ExtendsUndone(sp, sp2, first, a);
    forall v | 0 <= v < first ensures Owned(sp1, v) {
      assert Owned(sp, v);
    }
    forall f | f in sp2.page && f !in sp1.page ensures f in avail + sp.role.Keys {
      assert f in avail2 + Own(sp2);
      assert f in avail + Own(sp);
    }
  }

  /** Grow user memory from oldsz to newsz bytes. ok: whether there was memory for it. */
  method Uvmalloc(m: Machine, ghost sp: Space, ghost top: set<int>, root: int, oldsz: int, newsz: int, xperm: int)
    returns (r: int, ok: bool, ghost sp1: Space)
    requires m.Valid() && SpaceOk(m.z, m.mem, sp, m.Avail()) && root == sp.root && Small(m.z) && XPermOk(xperm)
    requires 0 <= oldsz && 0 <= newsz && UserSpace(sp, PgUp(oldsz), top)
    modifies m
    ensures m.Valid() && SpaceOk(m.z, m.mem, sp1, m.Avail()) && sp1.root == sp.root
    ensures Conserved(sp, old(m.Avail()), sp1, m.Avail()) && Kept(old(m.mem), m.mem, old(m.Avail()) + sp.role.Keys)
    ensures r == if !ok then 0 else if newsz < oldsz then oldsz else newsz
    ensures ok ==> UserSpace(sp1, PgUp(r), top) && Extends(sp, sp1, PgUp(oldsz), PgUp(r))
    ensures ok ==> Flagged(sp1, PgUp(oldsz), PgUp(r), PTE_R + PTE_U + xperm)
    ensures !ok ==> sp1.flat == sp.flat && sp1.page == sp.page && UserSpace(sp1, PgUp(oldsz), top) && newsz >= oldsz
    ensures old(m.NFree()) <= if ok then m.NFree() + 3 * (PgUp(r) - PgUp(oldsz)) else 3 * (PgUp(newsz) - PgUp(oldsz))
  {
    hide Tree, FreeOk, Kept, SpaceOk, UserSpace, Own, Conserved, Extends, Flagged, MakePte;
    ghost var mem0, avail, nfree := m.mem, m.Avail(), m.NFree();
    var perm := PTE_R + PTE_U + xperm;
    KeptSelf(mem0, avail + sp.role.Keys);
    ConservedSelf(sp, avail);
    ExtendsSelf(sp, PgUp(oldsz));
    FlaggedNone(sp, PgUp(oldsz), perm);
    sp1, ok := sp, true;
    if newsz < oldsz {
      r := oldsz;
      return;
    }
    var first := PgUp(oldsz);
    var a := first;
    while a * 4096 < newsz
      invariant first <= a <= PgUp(newsz)
      invariant m.Valid() && SpaceOk(m.z, m.mem, sp1, m.Avail()) && UserSpace(sp1, a, top) && sp1.root == sp.root
      invariant Conserved(sp, avail, sp1, m.Avail()) && Kept(mem0, m.mem, avail + sp.role.Keys)
      invariant sp1.role.Keys <= avail + sp.role.Keys && m.Avail() <= avail && nfree <= m.NFree() + 3 * (a - first)
      invariant Extends(sp, sp1, first, a) && Flagged(sp1, first, a, perm)
    {
      ghost var sp0, mem1, avail1 := sp1, m.mem, m.Avail();
      var f;
      NoFrameZero(m.z, m.mem, m.head, m.free);
      ok, f, sp1 := GrowPage(m, sp0, top, root, a, perm, 0);
      KeptTrans(mem0, mem1, m.mem, avail + sp.role.Keys, avail1 + sp0.role.Keys);
      ConservedTrans(sp, avail, sp0, avail1, sp1, m.Avail());
      if !ok {
        SamePages(sp, sp0, sp1, first, a, top);
        ghost var sp2, mem2, avail2 := sp1, m.mem, m.Avail();
        r, sp1 := Uvmdealloc(m, sp2, top, root, a * 4096, first * 4096);
        ConservedTrans(sp, avail, sp2, avail2, sp1, m.Avail());
        GivenBack(m.z, mem2, sp, avail, sp2, avail2, sp1, first, a, oldsz, top);
        KeptTrans(mem0, mem2, m.mem, avail + sp.role.Keys, sp2.role.Keys + (sp2.page.Keys - sp1.page.Keys));
        r := 0;
        return;
      }
      FreshPage(m.z, mem1, sp0, avail1, sp1, a, top, f);
      ExtendsMore(sp, sp0, sp1, first, a, f, perm);
      FlaggedMore(sp0, sp1, first, a, f, perm);
      a := a + 1;
    }
    r := newsz;
  }
}

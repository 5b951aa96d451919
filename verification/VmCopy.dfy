/** Copying an address space for fork (kernel/vm.c uvmcopy). */
module VmCopy {
  import opened VmSpace
  import opened VmMachine
  import opened VmUser

  /** Page v of the child has the flags and, in its own frame, the contents of page v of the
      parent. */
  predicate CopiedPage(mem0: seq<Page>, mem: seq<Page>, parent: Space, child: Space, v: int) {
    && v in parent.flat && v in child.flat && child.flat[v] % 1024 == parent.flat[v] % 1024
    && (var f, g := PteFrame(parent.flat[v]), PteFrame(child.flat[v]);
        0 <= f < |mem0| && 0 <= g < |mem| && g in child.page && f in parent.page && mem[g] == mem0[f])
  }

  ghost predicate Copied(mem0: seq<Page>, mem: seq<Page>, parent: Space, child: Space, n: int) {
    forall v :: 0 <= v < n ==> CopiedPage(mem0, mem, parent, child, v)
  }

  /** Another space, whose frames are not touched, is still there. */
  lemma SpaceFrame(z: Frames, mem: seq<Page>, mem1: seq<Page>, sp: Space, avail: set<int>, avail1: set<int>, touched: set<int>)
    requires SpaceOk(z, mem, sp, avail) && Kept(mem, mem1, touched) && Own(sp) !! touched && Own(sp) !! avail1
    ensures SpaceOk(z, mem1, sp, avail1)
  {
    hide Tree, PageOk;
    TreeInMem(z, mem, sp);
    TreeFrame(z, mem, mem1, sp);
  }

  lemma FlagsOf(pte: int)
    requires 0 <= pte && IsValid(pte) && IsLeaf(pte)
    ensures PermOk(pte % 1024) && WithValid(pte % 1024) == pte % 1024
  {
    var q, r := pte / 1024, pte % 1024;
    assert pte == 1024 * q + r;
    assert pte / 2 == 8 * (64 * q) + r / 2;
    assert pte / 2 % 8 == r / 2 % 8;
    assert pte % 2 == r % 2;
  }

  /** What the walk of the parent finds for user page i. */
  lemma ParentPage(z: Frames, mem: seq<Page>, parent: Space, avail: set<int>, n: int, ptop: set<int>, i: int)
    requires SpaceOk(z, mem, parent, avail) && UserSpace(parent, n, ptop) && 0 <= i < n
    ensures i in parent.flat && i < MAXPAGE && i / 512 in parent.low
    ensures var t := parent.low[i / 512];
            0 < t < |mem| && |mem[t]| == ENTRIES && mem[t][i % 512] == parent.flat[i] && IsValid(parent.flat[i])
    ensures var f := PteFrame(parent.flat[i]); 0 < f < |mem| && f in parent.page && f !in avail
    ensures PermOk(parent.flat[i] % 1024) && WithValid(parent.flat[i] % 1024) == parent.flat[i] % 1024
  {
    hide Tree, PteFrame, IsValid, IsLeaf, PermOk, WithValid;
    assert Owned(parent, i);
    assert PageOk(z, parent, PteFrame(parent.flat[i]));
    UnmapFacts(z, mem, parent, avail, i, true);
    LeafFacts(z, mem, parent, i);
    FlagsOf(parent.flat[i]);
    TreeBounds(z, mem, parent);
  }

  lemma TreeBounds(z: Frames, mem: seq<Page>, sp: Space)
    requires Tree(z, mem, sp)
    ensures 0 < z.first && z.last == |mem|
  {
    EntryAt(z, mem, sp, sp.root, 0);
  }

  lemma LeafFacts(z: Frames, mem: seq<Page>, sp: Space, v: int)
    requires Tree(z, mem, sp) && v in sp.flat
    ensures 0 <= sp.flat[v] && IsValid(sp.flat[v]) && IsLeaf(sp.flat[v]) && 0 <= v < MAXPAGE
  {
    assert LeafOk(sp, v);
  }

  /** The pages copied so far stay as they are while one more is added. */
  lemma CopiedMore(mem0: seq<Page>, mem1: seq<Page>, mem: seq<Page>, parent: Space, c0: Space, c1: Space,
                   i: int, f: int, perm: int, touched: set<int>)
    requires Copied(mem0, mem1, parent, c0, i) && Kept(mem1, mem, touched) && c0.page.Keys !! touched
    requires i !in c0.flat && f !in c0.page && c1.flat == AddPage(c0, i, f, perm).flat && c1.page == AddPage(c0, i, f, perm).page
    requires PermOk(perm) && WithValid(perm) == perm && i in parent.flat && perm == parent.flat[i] % 1024
    requires var g := PteFrame(parent.flat[i]);
             0 <= g < |mem0| && g in parent.page && 0 <= f < |mem| && mem[f] == mem0[g]
    requires |mem1| == |mem| && 0 <= i
    ensures Copied(mem0, mem, parent, c1, i + 1)
  {
    hide MakePte, PteFrame, WithValid, PermOk, IsValid, IsLeaf;
    PermBounds(perm);
    PteParts(f, perm);
    forall v | 0 <= v < i + 1 ensures CopiedPage(mem0, mem, parent, c1, v) {
      if v < i {
        assert CopiedPage(mem0, mem1, parent, c0, v);
      }
    }
  }

  lemma PermBounds(perm: int)
    requires PermOk(perm)
    ensures 0 <= perm < 1024
  {
  }

  /** Copy sz bytes of parent's memory to the child, which has none yet. If memory runs out the
      child is left with none, and no page is lost. */
  method Uvmcopy(m: Machine, ghost parent: Space, ghost ptop: set<int>, ghost child: Space, ghost ctop: set<int>,
                 old_: int, new_: int, sz: int)
    returns (ok: bool, ghost c1: Space)
    requires m.Valid() && SpaceOk(m.z, m.mem, parent, m.Avail()) && SpaceOk(m.z, m.mem, child, m.Avail())
    requires Own(parent) !! Own(child) && old_ == parent.root && new_ == child.root && Small(m.z)
    requires 0 <= sz && UserSpace(parent, PgUp(sz), ptop) && UserSpace(child, 0, ctop)
    modifies m
    ensures m.Valid() && SpaceOk(m.z, m.mem, c1, m.Avail()) && SpaceOk(m.z, m.mem, parent, m.Avail()) && c1.root == child.root
    ensures Conserved(child, old(m.Avail()), c1, m.Avail()) && Kept(old(m.mem), m.mem, old(m.Avail()) + child.role.Keys)
    ensures Own(parent) !! Own(c1)
    ensures ok ==> UserSpace(c1, PgUp(sz), ctop) && Copied(old(m.mem), m.mem, parent, c1, PgUp(sz)) && Extends(child, c1, 0, PgUp(sz))
    ensures !ok ==> c1.flat == child.flat && c1.page == child.page && UserSpace(c1, 0, ctop)
    ensures !ok ==> old(m.NFree()) <= 3 * PgUp(sz)
  {
    hide Tree, FreeOk, Kept, SpaceOk, UserSpace, Conserved, Extends, Copied, MakePte, PteFrame, Own, IsValid, PermOk;
    ghost var mem0, avail, nfree := m.mem, m.Avail(), m.NFree();
    ghost var touched := avail + child.role.Keys;
    KeptSelf(mem0, touched);
    ConservedSelf(child, avail);
    ExtendsSelf(child, 0);
    CopiedNone(mem0, parent, child);
    ParentApart(m.z, mem0, parent, child, avail);
    c1 := child;
    var i := 0;
    while i * 4096 < sz
      invariant 0 <= i <= PgUp(sz)
      invariant m.Valid() && SpaceOk(m.z, m.mem, c1, m.Avail()) && SpaceOk(m.z, m.mem, parent, m.Avail())
      invariant UserSpace(c1, i, ctop) && c1.root == child.root && Own(parent) !! Own(c1)
      invariant Conserved(child, avail, c1, m.Avail()) && Kept(mem0, m.mem, touched)
      invariant c1.role.Keys <= touched && m.Avail() <= avail && |m.mem| == |mem0| && nfree <= m.NFree() + 3 * i
      invariant Extends(child, c1, 0, i) && Copied(mem0, m.mem, parent, c1, i)
    {
      ghost var c0, mem1, avail1 := c1, m.mem, m.Avail();
      ParentPage(m.z, m.mem, parent, m.Avail(), PgUp(sz), ptop, i);
      var t, _ := m.Walk(parent, old_, i, false);
      var pte := m.mem[t][i % 512];
      var f;
      ok, f, c1 := GrowPage(m, c0, ctop, new_, i, pte % 1024, PteFrame(pte));
      KeptSize(mem1, m.mem, avail1 + c0.role.Keys);
      KeptTrans(mem0, mem1, m.mem, touched, avail1 + c0.role.Keys);
      ConservedTrans(child, avail, c0, avail1, c1, m.Avail());
      ParentKept(m.z, mem1, m.mem, parent, c0, avail1, c1, m.Avail());
      if !ok {
        SamePages(child, c0, c1, 0, i, ctop);
        ghost var c2, mem2, avail2 := c1, m.mem, m.Avail();
        UserBound(c2, i, ctop);
        ShrinkOk(m.z, mem2, c2, avail2, i, ctop, 0);
        c1 := m.Uvmunmap(c2, new_, 0, i, true);
        UndoConserves(child, avail, c2, avail2, c1, m.Avail());
        GivenBack(m.z, mem2, child, avail, c2, avail2, c1, 0, i, 0, ctop);
        KeptTrans(mem0, mem2, m.mem, touched, c2.role.Keys + (c2.page.Keys - c1.page.Keys));
        ParentStill(m.z, mem2, m.mem, parent, c2, avail2, c1, m.Avail(), touched);
        return;
      }
      FreshPage(m.z, mem1, c0, avail1, c1, i, ctop, f);
      ExtendsMore(child, c0, c1, 0, i, f, pte % 1024);
      OwnedApart(parent, touched, PteFrame(pte));
      KeptAt(mem0, mem1, touched, PteFrame(pte));
      PagesApart(m.z, mem1, c0, avail1);
      CopiedMore(mem0, mem1, m.mem, parent, c0, c1, i, f, pte % 1024, avail1 + c0.role.Keys);
      i := i + 1;
    }
    ok := true;
  }

  lemma KeptSize(mem: seq<Page>, mem1: seq<Page>, touched: set<int>)
    requires Kept(mem, mem1, touched)
    ensures |mem1| == |mem|
  {
  }

  lemma CopiedNone(mem: seq<Page>, parent: Space, child: Space)
    ensures Copied(mem, mem, parent, child, 0)
  {
  }

  lemma ParentApart(z: Frames, mem: seq<Page>, parent: Space, child: Space, avail: set<int>)
    requires SpaceOk(z, mem, parent, avail) && Own(parent) !! Own(child)
    ensures Own(parent) !! avail + child.role.Keys
  {
  }

  lemma OwnedApart(sp: Space, touched: set<int>, f: int)
    requires Own(sp) !! touched && f in sp.page
    ensures f !in touched
  {
    assert f in Own(sp);
  }

  lemma PagesApart(z: Frames, mem: seq<Page>, sp: Space, avail: set<int>)
    requires SpaceOk(z, mem, sp, avail)
    ensures sp.page.Keys !! avail + sp.role.Keys
  {
    hide Tree;
    forall f | f in sp.page ensures f !in avail && f !in sp.role {
      assert PageOk(z, sp, f) && f in Own(sp);
    }
  }

  lemma ParentKept(z: Frames, mem: seq<Page>, mem1: seq<Page>, parent: Space, c0: Space, avail: set<int>, c1: Space, avail1: set<int>)
    requires SpaceOk(z, mem, parent, avail) && Own(parent) !! Own(c0) && Kept(mem, mem1, avail + c0.role.Keys)
    requires Conserved(c0, avail, c1, avail1) && avail1 <= avail
    ensures SpaceOk(z, mem1, parent, avail1) && Own(parent) !! Own(c1)
  {
    hide Tree, PageOk, Kept;
    SpaceFrame(z, mem, mem1, parent, avail, avail1, avail + c0.role.Keys);
    forall f | f in Own(c1) ensures f !in Own(parent) {
      assert f in avail1 + Own(c1);
      assert f in avail + Own(c0);
    }
  }

  lemma UndoConserves(sp: Space, avail: set<int>, sp1: Space, avail1: set<int>, sp2: Space, avail2: set<int>)
    requires Conserved(sp, avail, sp1, avail1) && avail2 + Own(sp2) == avail1 + Own(sp1)
    ensures Conserved(sp, avail, sp2, avail2)
  {
  }

  lemma ParentStill(z: Frames, mem: seq<Page>, mem1: seq<Page>, parent: Space, c2: Space, avail2: set<int>, c1: Space,
                    avail1: set<int>, touched: set<int>)
    requires SpaceOk(z, mem, parent, avail2) && Own(parent) !! Own(c2) && Kept(mem, mem1, c2.role.Keys + (c2.page.Keys - c1.page.Keys))
    requires avail1 + Own(c1) == avail2 + Own(c2)
    ensures SpaceOk(z, mem1, parent, avail1) && Own(parent) !! Own(c1)
  {
    hide Tree, PageOk, Kept;
    forall f | f in Own(parent) ensures f !in avail1 + Own(c1) {
      assert f !in avail2 + Own(c2);
    }
    SpaceFrame(z, mem, mem1, parent, avail2, avail1, c2.role.Keys + (c2.page.Keys - c1.page.Keys));
  }
}

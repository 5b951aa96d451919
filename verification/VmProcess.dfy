/** Address spaces of processes: proc_pagetable, fork and exec (kernel/proc.c, kernel/exec.c),
    as far as memory goes. */
module VmProcess {
  import opened VmSpace
  import opened VmMachine
  import opened VmUser
  import opened VmCopy
  import opened VmFree

  const BOTH: set<int> := {TRAPFRAME, TRAMPOLINE}

  function EmptySpace(root: int): Space {
    Space(root, map[], map[], map[], map[root := Top], map[])
  }

  lemma EmptyOk(z: Frames, mem: seq<Page>, mem1: seq<Page>, avail: set<int>, root: int)
    requires MemOk(z, mem) && root in avail && z.first <= root < z.last && mem1 == mem[root := ZeroPage()]
    ensures SpaceOk(z, mem1, EmptySpace(root), avail - {root}) && UserSpace(EmptySpace(root), 0, {})
    ensures avail - {root} + Own(EmptySpace(root)) == avail && Kept(mem, mem1, avail)
  {
    assert NodeOk(z, mem1, EmptySpace(root), root);
    assert Own(EmptySpace(root)) == {root};
  }

  lemma TopMapped(sp: Space, avail: set<int>, sp1: Space, avail1: set<int>, v: int, k: int, f: int, perm: int, top: set<int>)
    requires Grew(sp.(flat := sp1.flat), avail, sp1, avail1) && 0 <= k <= 1 && sp1.flat == MapRange(sp.flat, v, k, f, perm)
    requires UserSpace(sp, 0, top) && (v == TRAPFRAME || v == TRAMPOLINE) && f !in avail && f !in Own(sp)
    ensures sp1.root == sp.root && Conserved(sp, avail, sp1, avail1) && f !in Own(sp1) && f !in avail1
    ensures UserSpace(sp1, 0, if k == 1 then top + {v} else top)
    ensures sp1.flat == if k == 1 then sp.flat[v := MakePte(f, WithValid(perm))] else sp.flat
  {
    hide MakePte, WithValid, Grew, MapRange;
    MappedOne(sp, avail, sp1, avail1, v, k, f, perm);
  }

  lemma TopUnmapped(sp: Space, n: int, top: set<int>, v: int)
    requires UserSpace(sp, n, top) && (v == TRAPFRAME || v == TRAMPOLINE)
    ensures v in top <==> v in sp.flat
    ensures NotPaged(sp, v)
  {
  }

  /** Map page v, above user memory, to frame f, which stays its owner's. */
  method MapTop(m: Machine, ghost sp: Space, ghost top: set<int>, root: int, v: int, f: int, perm: int)
    returns (ok: bool, ghost sp1: Space)
    requires m.Valid() && SpaceOk(m.z, m.mem, sp, m.Avail()) && root == sp.root && UserSpace(sp, 0, top) && PermOk(perm)
    requires (v == TRAPFRAME || v == TRAMPOLINE) && v !in top && 0 <= f && f !in m.Avail() && f !in Own(sp)
    modifies m
    ensures m.Valid() && SpaceOk(m.z, m.mem, sp1, m.Avail()) && sp1.root == sp.root && f !in m.Avail() && f !in Own(sp1)
    ensures Conserved(sp, old(m.Avail()), sp1, m.Avail()) && Kept(old(m.mem), m.mem, old(m.Avail()) + Own(sp))
    ensures UserSpace(sp1, 0, if ok then top + {v} else top)
    ensures sp1.flat == if ok then sp.flat[v := MakePte(f, WithValid(perm))] else sp.flat
    ensures old(m.NFree()) <= 2 + if ok then m.NFree() else 0
  {
    hide Tree, FreeOk, Kept, SpaceOk, UserSpace, Grew, MapRange, MakePte, Conserved, PermOk;
    ghost var mem0, avail := m.mem, m.Avail();
    ghost var k;
    TopUnmapped(sp, 0, top, v);
    ok, k, sp1 := m.Mappages(sp, root, v, 1, f, perm);
    TopMapped(sp, avail, sp1, m.Avail(), v, k, f, perm, top);
    KeptMore(mem0, mem0, m.mem, {}, avail + sp.role.Keys, avail + Own(sp)) by { KeptSelf(mem0, {}); }
  }

  lemma TopDropped(z: Frames, mem: seq<Page>, sp: Space, avail: set<int>, sp1: Space, avail1: set<int>, n: int, top: set<int>, v: int)
    requires UserSpace(sp, n, top) && (v == TRAPFRAME || v == TRAMPOLINE) && sp1 == UnmapRange(sp, v, 1, false)
    requires avail1 + Own(sp1) == avail + Own(sp) && Own(sp) !! avail && Own(sp1) !! avail1
    ensures UserSpace(sp1, n, top - {v}) && Own(sp1) == Own(sp) && avail1 == avail && sp1.root == sp.root
    ensures sp.role.Keys + (sp.page.Keys - sp1.page.Keys) <= Own(sp)
  {
    hide PteFrame;
    assert sp1.page == sp.page;
    forall x | 0 <= x < n ensures Owned(sp1, x) {
      assert Owned(sp, x);
    }
    forall f ensures f in avail1 <==> f in avail {
      assert f in avail1 + Own(sp1) <==> f in avail + Own(sp);
    }
  }

  lemma Apart(z: Frames, mem: seq<Page>, sp: Space, avail: set<int>)
    requires SpaceOk(z, mem, sp, avail)
    ensures Own(sp) !! avail
  {
  }

  /** Unmap page v, above user memory; its frame is not freed. */
  method UnmapTop(m: Machine, ghost sp: Space, ghost n: int, ghost top: set<int>, root: int, v: int) returns (ghost sp1: Space)
    requires m.Valid() && SpaceOk(m.z, m.mem, sp, m.Avail()) && root == sp.root && UserSpace(sp, n, top)
    requires (v == TRAPFRAME || v == TRAMPOLINE) && v in top
    modifies m
    ensures m.Valid() && SpaceOk(m.z, m.mem, sp1, m.Avail()) && sp1.root == sp.root
    ensures UserSpace(sp1, n, top - {v}) && Own(sp1) == Own(sp) && m.Avail() == old(m.Avail()) && Kept(old(m.mem), m.mem, Own(sp))
  {
    hide Tree, FreeOk, Kept, SpaceOk, UserSpace, UnmapRange, Own, NotPaged;
    ghost var mem0, avail := m.mem, m.Avail();
    TopUnmapped(sp, n, top, v);
    Apart(m.z, m.mem, sp, avail);
    sp1 := m.Uvmunmap(sp, root, v, 1, false);
    Apart(m.z, m.mem, sp1, m.Avail());
    TopDropped(m.z, m.mem, sp, avail, sp1, m.Avail(), n, top, v);
    KeptMore(mem0, mem0, m.mem, {}, sp.role.Keys + (sp.page.Keys - sp1.page.Keys), Own(sp)) by { KeptSelf(mem0, {}); }
  }

  /** Unmap the trampoline and trapframe pages, then free user memory and the tables. */
  method ProcFreepagetable(m: Machine, ghost sp: Space, root: int, sz: int)
    requires m.Valid() && SpaceOk(m.z, m.mem, sp, m.Avail()) && root == sp.root && 0 <= sz && UserSpace(sp, PgUp(sz), BOTH)
    modifies m
    ensures m.Valid() && m.Avail() == old(m.Avail()) + Own(sp) && Kept(old(m.mem), m.mem, Own(sp))
  {
    hide Tree, FreeOk, Kept, SpaceOk, UserSpace, Own;
    ghost var mem0 := m.mem;
    var sp1 := UnmapTop(m, sp, PgUp(sz), BOTH, root, TRAMPOLINE);
    ghost var mem1 := m.mem;
    var sp2 := UnmapTop(m, sp1, PgUp(sz), BOTH - {TRAMPOLINE}, root, TRAPFRAME);
    ghost var mem2 := m.mem;
    assert BOTH - {TRAMPOLINE} - {TRAPFRAME} == {};
    Uvmfree(m, sp2, root, sz);
    KeptTrans(mem0, mem1, mem2, Own(sp), Own(sp));
    KeptTrans(mem0, mem2, m.mem, Own(sp), Own(sp));
  }

  // ---- proc_pagetable ----

  lemma OutOfReach(z: Frames, mem: seq<Page>, head: int, free: seq<int>, avail: set<int>, root: int, f: int)
    requires FreeOk(z, mem, head, free) && Elems(free) == avail - {root} && z.first <= root < z.last
    requires f !in avail && f != root
    ensures f !in avail - {root} && f !in Own(EmptySpace(root))
  {
  }

  lemma BelowFree(z: Frames, mem: seq<Page>, head: int, free: seq<int>, f: int)
    requires FreeOk(z, mem, head, free) && f < z.first
    ensures f !in Elems(free)
  {
  }

  lemma StillOutside(sp: Space, avail: set<int>, sp1: Space, avail1: set<int>, f: int)
    requires Conserved(sp, avail, sp1, avail1) && f !in avail && f !in Own(sp)
    ensures f !in avail1 && f !in Own(sp1)
  {
    assert f !in avail1 + Own(sp1);
  }

  /** An address space with only the trampoline and trapframe pages; 0 when memory runs out,
      and then no page is lost. */
  method ProcPagetable(m: Machine, tf: int, tramp: int) returns (root: int, ghost sp: Space)
    requires m.Valid() && 0 < tramp < m.z.first && 0 < tf < |m.mem| && tf !in m.Avail()
    modifies m
    ensures m.Valid() && Kept(old(m.mem), m.mem, old(m.Avail()))
    ensures root == 0 ==> m.Avail() == old(m.Avail())
    ensures old(m.NFree()) <= 5 + if root != 0 then m.NFree() else 0
    ensures root != 0 ==>
              && root == sp.root && SpaceOk(m.z, m.mem, sp, m.Avail()) && UserSpace(sp, 0, BOTH)
              && m.Avail() + Own(sp) == old(m.Avail())
              && sp.flat == map[TRAMPOLINE := MakePte(tramp, PTE_V + PTE_R + PTE_X), TRAPFRAME := MakePte(tf, PTE_V + PTE_R + PTE_W)]
  {
    hide Tree, FreeOk, Kept, SpaceOk, UserSpace, Own, MakePte, Conserved;
    ghost var mem0, avail := m.mem, m.Avail();
    MemShape(m.z, m.mem, m.head, m.free);
    BelowFree(m.z, m.mem, m.head, m.free, tramp);
    KeptSelf(mem0, avail);
    root := m.Kalloc();
    ghost var sp0 := EmptySpace(root);
    sp := sp0;
    if root == 0 {
      return;
    }
    OutOfReach(m.z, m.mem, m.head, m.free, avail, root, tf);
    OutOfReach(m.z, m.mem, m.head, m.free, avail, root, tramp);
    m.Fill(root, ZeroPage());
    ghost var mem1, avail1 := m.mem, m.Avail();
    EmptyOk(m.z, mem0, mem1, avail, root);
    var ok;
    ok, sp := MapTop(m, sp0, {}, root, TRAMPOLINE, tramp, PTE_R + PTE_X);
    ConservedTo(sp0, avail1, sp, m.Avail(), avail);
    KeptTrans(mem0, mem1, m.mem, avail, avail1 + Own(sp0));
    ghost var sp1, mem2, avail2 := sp, m.mem, m.Avail();
    if !ok {
      Uvmfree(m, sp1, root, 0);
      KeptTrans(mem0, mem2, m.mem, avail, Own(sp1));
      root := 0;
      return;
    }
    StillOutside(sp0, avail1, sp1, avail2, tf);
    var one: set<int>, none: set<int> := {TRAMPOLINE}, {};
    assert none + one == one && one - one == none;
    ok, sp := MapTop(m, sp1, {TRAMPOLINE}, root, TRAPFRAME, tf, PTE_R + PTE_W);
    ConservedTo(sp1, avail2, sp, m.Avail(), avail);
    KeptTrans(mem0, mem2, m.mem, avail, avail2 + Own(sp1));
    ghost var sp2, mem3 := sp, m.mem;
    if !ok {
      sp := UnmapTop(m, sp2, 0, {TRAMPOLINE}, root, TRAMPOLINE);
      KeptTrans(mem0, mem3, m.mem, avail, Own(sp2));
      ghost var mem4 := m.mem;
      Uvmfree(m, sp, root, 0);
      KeptTrans(mem0, mem4, m.mem, avail, Own(sp));
      root := 0;
      return;
    }
    assert {TRAMPOLINE} + {TRAPFRAME} == BOTH;
  }

  lemma ConservedTo(sp: Space, avail: set<int>, sp1: Space, avail1: set<int>, all: set<int>)
    requires Conserved(sp, avail, sp1, avail1) && avail + Own(sp) == all
    ensures avail1 + Own(sp1) == all && Own(sp1) <= all && avail1 <= all
  {
  }

  // ---- fork ----

  lemma SpaceLess(z: Frames, mem: seq<Page>, sp: Space, avail: set<int>, avail1: set<int>)
    requires SpaceOk(z, mem, sp, avail) && avail1 <= avail
    ensures SpaceOk(z, mem, sp, avail1)
  {
    hide Tree, PageOk;
  }

  /** A space whose frames are not free keeps its tables and pages when only free frames change. */
  lemma OldSpace(z: Frames, mem: seq<Page>, mem1: seq<Page>, sp: Space, avail: set<int>, avail1: set<int>)
    requires SpaceOk(z, mem, sp, avail) && Kept(mem, mem1, avail) && avail1 <= avail
    ensures SpaceOk(z, mem1, sp, avail1) && Own(sp) !! avail
  {
    hide Tree, PageOk, Kept;
    SpaceFrame(z, mem, mem1, sp, avail, avail1, avail);
  }

  lemma KeptInside(mem: seq<Page>, mem1: seq<Page>, mem2: seq<Page>, avail: set<int>, avail1: set<int>, sp: Space)
    requires Kept(mem, mem1, avail) && Kept(mem1, mem2, avail1 + sp.role.Keys) && avail1 + Own(sp) <= avail
    ensures Kept(mem, mem2, avail)
  {
    hide Kept;
    assert avail1 + sp.role.Keys <= avail;
    KeptTrans(mem, mem1, mem2, avail, avail1 + sp.role.Keys);
  }

  lemma CopiedFrom(mem0: seq<Page>, mem1: seq<Page>, mem2: seq<Page>, parent: Space, child: Space, n: int, avail: set<int>)
    requires Kept(mem0, mem1, avail) && Own(parent) !! avail && Copied(mem1, mem2, parent, child, n)
    ensures Copied(mem0, mem2, parent, child, n)
  {
    hide PteFrame;
    forall v | 0 <= v < n ensures CopiedPage(mem0, mem2, parent, child, v) {
      assert CopiedPage(mem1, mem2, parent, child, v);
      assert PteFrame(parent.flat[v]) in Own(parent);
    }
  }

  lemma FrameFilled(z: Frames, mem: seq<Page>, mem1: seq<Page>, parent: Space, child: Space, avail: set<int>, tf: int,
                    mem0: seq<Page>, n: int)
    requires SpaceOk(z, mem, parent, avail) && SpaceOk(z, mem, child, avail) && Kept(mem, mem1, {tf})
    requires tf !in Own(parent) && tf !in Own(child) && Copied(mem0, mem, parent, child, n)
    ensures SpaceOk(z, mem1, parent, avail) && SpaceOk(z, mem1, child, avail) && Copied(mem0, mem1, parent, child, n)
  {
    hide Tree, PageOk, PteFrame;
    SpaceFrame(z, mem, mem1, parent, avail, avail, {tf});
    SpaceFrame(z, mem, mem1, child, avail, avail, {tf});
    forall v | 0 <= v < n ensures CopiedPage(mem0, mem1, parent, child, v) {
      assert CopiedPage(mem0, mem, parent, child, v);
      assert PteFrame(child.flat[v]) in Own(child);
    }
  }

  /** The word of the trapframe that holds a0. */
  const A0: int := 14

  /** fork, as far as memory goes: a trapframe, an address space, and a copy of the parent's
      memory; or nothing at all. */
  method Fork(m: Machine, ghost parent: Space, root: int, sz: int, ptf: int, tramp: int)
    returns (ok: bool, tf: int, newroot: int, ghost child: Space)
    requires m.Valid() && SpaceOk(m.z, m.mem, parent, m.Avail()) && root == parent.root && Small(m.z)
    requires 0 <= sz && UserSpace(parent, PgUp(sz), BOTH) && 0 < tramp < m.z.first
    requires 0 < ptf < |m.mem| && ptf !in m.Avail()
    modifies m
    ensures m.Valid() && SpaceOk(m.z, m.mem, parent, m.Avail()) && Kept(old(m.mem), m.mem, old(m.Avail()))
    ensures !ok ==> m.Avail() == old(m.Avail()) && old(m.NFree()) <= 6 + 3 * PgUp(sz)
    ensures ok ==>
              && SpaceOk(m.z, m.mem, child, m.Avail()) && newroot == child.root && UserSpace(child, PgUp(sz), BOTH)
              && Own(parent) !! Own(child) && tf !in Own(child) && tf !in m.Avail()
              && m.Avail() + Own(child) + {tf} == old(m.Avail())
              && Copied(old(m.mem), m.mem, parent, child, PgUp(sz))
              && 0 <= tf < |m.mem| && |old(m.mem)[ptf]| == ENTRIES && m.mem[tf] == old(m.mem)[ptf][A0 := 0]
  {
    hide Tree, FreeOk, Kept, SpaceOk, UserSpace, Own, MakePte, Conserved, Copied;
    ghost var mem0, avail := m.mem, m.Avail();
    MemShape(m.z, m.mem, m.head, m.free);
    KeptSelf(mem0, avail);
    ok, newroot, child := false, 0, parent;
    tf := m.Kalloc();
    SpaceLess(m.z, m.mem, parent, avail, m.Avail());
    if tf == 0 {
      return;
    }
    ghost var mem1, avail1 := m.mem, m.Avail();
    newroot, child := ProcPagetable(m, tf, tramp);
    KeptMore(mem0, mem1, m.mem, {}, avail1, avail) by { KeptSelf(mem0, {}); }
    if newroot == 0 {
      ghost var mem2 := m.mem;
      m.Kfree(tf);
      KeptTrans(mem0, mem2, m.mem, avail, {tf});
      OldSpace(m.z, mem0, m.mem, parent, avail, m.Avail());
      return;
    }
    ghost var c0, mem2, avail2 := child, m.mem, m.Avail();
    OldSpace(m.z, mem0, mem2, parent, avail, avail2);
    ok, child := Uvmcopy(m, parent, BOTH, c0, BOTH, root, newroot, sz);
    ConservedTo(c0, avail2, child, m.Avail(), avail1);
    KeptInside(mem0, mem2, m.mem, avail, avail2, c0);
    if !ok {
      ghost var mem3, avail3 := m.mem, m.Avail();
      m.Kfree(tf);
      KeptTrans(mem0, mem3, m.mem, avail, {tf});
      FrameGiven(m.z, mem3, m.mem, child, avail3, tf);
      ghost var mem4 := m.mem;
      ProcFreepagetable(m, child, newroot, 0);
      KeptTrans(mem0, mem4, m.mem, avail, Own(child));
      OldSpace(m.z, mem0, m.mem, parent, avail, m.Avail());
      return;
    }
    ghost var mem3 := m.mem;
    CopiedFrom(mem0, mem2, mem3, parent, child, PgUp(sz), avail);
    KeptAt(mem0, mem3, avail, ptf);
    m.Fill(tf, m.mem[ptf][A0 := 0]);
    KeptPage(mem3, {tf}, tf, m.mem[tf]);
    KeptTrans(mem0, mem3, m.mem, avail, {tf});
    FrameFilled(m.z, mem3, m.mem, parent, child, m.Avail(), tf, mem0, PgUp(sz));
  }
}

/** The page allocator (kernel/kalloc.c) and the page-table operations (kernel/vm.c). */
module VmMachine {
  import opened VmSpace

  // ---- The free list ----

  /** The list starts at head; the first word of each page is the address of the next. */
  predicate Chain(mem: seq<Page>, head: int, free: seq<int>)
    decreases |free|
  {
    if free == [] then head == 0
    else
      && head == free[0] && 0 < head < |mem| && |mem[head]| == ENTRIES && mem[head][0] % 4096 == 0
      && Chain(mem, mem[head][0] / 4096, free[1..])
  }

  ghost function Elems(free: seq<int>): set<int> {
    set f | f in free
  }

  predicate NoDup(free: seq<int>) {
    free == [] || (free[0] !in free[1..] && NoDup(free[1..]))
  }

  ghost predicate FreeOk(z: Frames, mem: seq<Page>, head: int, free: seq<int>) {
    && MemOk(z, mem) && Chain(mem, head, free) && NoDup(free)
    && forall f :: f in Elems(free) ==> z.first <= f < z.last
  }

  lemma {:induction false} ChainFrame(mem: seq<Page>, mem1: seq<Page>, head: int, free: seq<int>)
    requires Chain(mem, head, free) && |mem1| == |mem|
    requires forall f :: f in free && 0 <= f < |mem| ==> mem1[f] == mem[f]
    ensures Chain(mem1, head, free)
    decreases |free|
  {
    if free != [] {
      ChainFrame(mem, mem1, mem[head][0] / 4096, free[1..]);
    }
  }

  lemma NoneFree(z: Frames, mem: seq<Page>)
    requires MemOk(z, mem)
    ensures FreeOk(z, mem, 0, []) && Elems([]) == {}
  {
  }

  lemma PopOk(z: Frames, mem: seq<Page>, head: int, free: seq<int>)
    requires FreeOk(z, mem, head, free)
    ensures head == 0 <==> free == []
    ensures head == 0 ==> Elems(free) == {}
    ensures head != 0 ==>
              && head in Elems(free) && z.first <= head < z.last && |mem[head]| == ENTRIES
              && FreeOk(z, mem, mem[head][0] / 4096, free[1..]) && Elems(free[1..]) == Elems(free) - {head}
  {
    hide MemOk;
    if free == [] {
      assert Elems(free) == {};
    } else {
      ElemsTail(free);
      assert head in Elems(free);
    }
  }

  lemma PushOk(z: Frames, mem: seq<Page>, head: int, free: seq<int>, f: int)
    requires FreeOk(z, mem, head, free) && z.first <= f < z.last && f !in Elems(free)
    ensures FreeOk(z, SetWord(mem, f, 0, head * 4096), f, [f] + free) && Elems([f] + free) == Elems(free) + {f}
  {
    var mem1 := SetWord(mem, f, 0, head * 4096);
    ChainFrame(mem, mem1, head, free);
    assert ([f] + free)[1..] == free;
    assert mem1[f][0] == head * 4096;
    ElemsTail([f] + free);
  }

  /** Pages that are not free are written. */
  lemma WriteOk(z: Frames, mem: seq<Page>, head: int, free: seq<int>, f: int, p: Page)
    requires FreeOk(z, mem, head, free) && 0 <= f < |mem| && f !in Elems(free) && |p| == ENTRIES
    ensures FreeOk(z, mem[f := p], head, free)
  {
    ChainFrame(mem, mem[f := p], head, free);
  }

  // ---- Spaces and the free pages ----

  /** The frames a space owns. */
  ghost function Own(sp: Space): set<int> {
    sp.role.Keys + sp.page.Keys
  }

  predicate PageOk(z: Frames, sp: Space, f: int)
    requires f in sp.page
  {
    z.first <= f < z.last && f !in sp.role && sp.page[f] in sp.flat && PteFrame(sp.flat[sp.page[f]]) == f
  }

  /** A tree in memory, and the user pages it owns; none of its frames is free. */
  ghost predicate SpaceOk(z: Frames, mem: seq<Page>, sp: Space, avail: set<int>) {
    Tree(z, mem, sp) && (forall f :: f in sp.page ==> PageOk(z, sp, f)) && Own(sp) !! avail
  }

  /** No frame is lost, none is gained. */
  ghost predicate Conserved(sp: Space, avail: set<int>, sp1: Space, avail1: set<int>) {
    avail1 + Own(sp1) == avail + Own(sp)
  }

  /** Memory outside the given frames is as it was. */
  ghost predicate Kept(mem: seq<Page>, mem1: seq<Page>, touched: set<int>) {
    |mem1| == |mem| && forall f :: 0 <= f < |mem| && f !in touched ==> mem1[f] == mem[f]
  }

  /** The tree gains pages, out of the free ones; what it maps stays. */
  ghost predicate Grew(sp: Space, avail: set<int>, sp1: Space, avail1: set<int>) {
    && sp1.root == sp.root && sp1.flat == sp.flat && sp1.page == sp.page
    && (forall g :: g in sp.role ==> HasRole(sp1, g, sp.role[g])) && avail1 <= avail && avail1 + sp1.role.Keys == avail + sp.role.Keys
  }

  class Machine {
    const z: Frames
    var mem: seq<Page>
    /** kmem.freelist, as a page number; 0 for the null pointer. */
    var head: int
    ghost var free: seq<int>

    ghost predicate Valid()
      reads this
    {
      FreeOk(z, mem, head, free)
    }

    ghost function Avail(): set<int>
      reads this
    {
      Elems(free)
    }

    /** The length of the free list. */
    ghost function NFree(): nat
      reads this
    {
      |free|
    }

    /** kinit: freerange frees every page of the allocator. */
    constructor Kinit(z: Frames, mem: seq<Page>)
      requires MemOk(z, mem)
      ensures this.z == z && Valid() && forall f :: f in Avail() <==> z.first <= f < z.last
    {
      hide FreeOk, Kept;
      this.z, this.mem, head, free := z, mem, 0, [];
      NoneFree(z, mem);
      new;
      var f := z.first;
      while f < z.last
        invariant Valid() && z.first <= f <= z.last && forall g :: g in Avail() <==> z.first <= g < f
      {
        Kfree(f);
        f := f + 1;
      }
    }

    method Kalloc() returns (f: int)
      requires Valid()
      modifies `head, `free
      ensures Valid() && (f == 0 <==> old(Avail()) == {})
      ensures f == 0 ==> free == old(free) == []
      ensures f != 0 ==> f in old(Avail()) && Avail() == old(Avail()) - {f} && z.first <= f < z.last == |mem|
      ensures old(NFree()) <= NFree() + 1
    {
      hide Chain, NoDup;
      PopOk(z, mem, head, free);
      f := head;
      if f != 0 {
        head := mem[f][0] / 4096;
        free := free[1..];
      }
    }

    /** kfree panics outside the allocator's pages; freeing a free page is the caller's error. */
    method Kfree(f: int)
      requires Valid() && z.first <= f < z.last && f !in Avail()
      modifies `mem, `head, `free
      ensures Valid() && Avail() == old(Avail()) + {f} && Kept(old(mem), mem, {f})
    {
      hide Chain, NoDup;
      PushOk(z, mem, head, free, f);
      mem := SetWord(mem, f, 0, head * 4096);
      head := f;
      free := [f] + free;
    }

    /** The size of the free memory, in bytes. */
    method Freemem() returns (n: int)
      requires Valid()
      ensures n == |Avail()| * 4096
    {
      n := 0;
      var r := head;
      ghost var rest := free;
      while r != 0
        invariant Chain(mem, r, rest) && NoDup(rest) && |Elems(rest)| + n == |Avail()|
        decreases |rest|
      {
        ElemsTail(rest);
        r := mem[r][0] / 4096;
        rest := rest[1..];
        n := n + 1;
      }
      assert Elems(rest) == {};
      n := n * 4096;
    }

    method Store(f: int, j: int, w: int)
      requires Valid() && 0 <= f < |mem| && f !in Avail() && 0 <= j < ENTRIES
      modifies `mem
      ensures Valid() && |old(mem)[f]| == ENTRIES && mem == SetWord(old(mem), f, j, w)
    {
      hide Chain, NoDup;
      WriteOk(z, mem, head, free, f, mem[f][j := w]);
      mem := SetWord(mem, f, j, w);
    }

    /** memset or memmove on a whole page. */
    method Fill(f: int, p: Page)
      requires Valid() && 0 <= f < |mem| && f !in Avail() && |p| == ENTRIES
      modifies `mem
      ensures Valid() && mem == old(mem)[f := p]
    {
      hide Chain, NoDup;
      WriteOk(z, mem, head, free, f, p);
      mem := mem[f := p];
    }

    /** One level of walk: from table t of the tree to the table below it, made if need be. */
    method Descend(ghost sp: Space, t: int, level: int, v: int, alloc: bool) returns (t1: int, ghost sp1: Space)
      requires Valid() && SpaceOk(z, mem, sp, Avail()) && 0 <= v < MAXPAGE && 1 <= level <= 2
      requires HasRole(sp, t, ParentRole(level, v))
      modifies `mem, `head, `free
      ensures Valid() && SpaceOk(z, mem, sp1, Avail()) && Grew(sp, old(Avail()), sp1, Avail())
      ensures Kept(old(mem), mem, old(Avail()) + sp.role.Keys)
      ensures t1 != 0 ==> HasRole(sp1, t1, ChildRole(level, v))
      ensures t1 == 0 ==> Absent(sp1, level, v) && (!alloc || NFree() == 0)
      ensures t1 == 0 || !alloc ==> sp1 == sp && mem == old(mem) && free == old(free)
      ensures old(NFree()) <= NFree() + 1
    {
      hide Tree, FreeOk, MakePte, PteFrame, IsValid, Px;
      WalkEntry(z, mem, sp, level, v, t);
      var pte := mem[t][Px(level, v)];
      sp1 := sp;
      if IsValid(pte) {
        t1 := PteFrame(pte);
        return;
      }
      t1 := 0;
      if !alloc {
        return;
      }
      ghost var mem0, avail := mem, Avail();
      t1 := Kalloc();
      if t1 == 0 {
        return;
      }
      MemShape(z, mem, head, free);
      Fill(t1, ZeroPage());
      AddNodeOk(z, mem0, sp, avail, level, v, t, t1);
      Store(t, Px(level, v), MakePte(t1, PTE_V));
      sp1 := AddNode(sp, level, v, t1);
    }

    /** The last-level table for page v, or 0. It panics beyond MAXVA. */
    method Walk(ghost sp: Space, root: int, v: int, alloc: bool) returns (t: int, ghost sp1: Space)
      requires Valid() && SpaceOk(z, mem, sp, Avail()) && root == sp.root && 0 <= v < MAXPAGE
      modifies `mem, `head, `free
      ensures Valid() && SpaceOk(z, mem, sp1, Avail()) && Grew(sp, old(Avail()), sp1, Avail())
      ensures Kept(old(mem), mem, old(Avail()) + sp.role.Keys)
      ensures t != 0 ==> v / 512 in sp1.low && t == sp1.low[v / 512]
      ensures t == 0 ==> v !in sp.flat && (!alloc || NFree() == 0)
      ensures !alloc ==> sp1 == sp && mem == old(mem) && free == old(free)
      ensures old(NFree()) <= NFree() + 2
    {
      hide Tree, FreeOk, Px, Kept, Grew, PageOk;
      t, sp1 := root, sp;
      ghost var mem0, avail, nfree := mem, Avail(), NFree();
      KeptSelf(mem, avail + sp.role.Keys);
      GrewSelf(sp, avail);
      RootHas(z, mem, sp, v);
      var level := 2;
      while level > 0
        invariant 0 <= level <= 2 && Valid() && SpaceOk(z, mem, sp1, Avail()) && Grew(sp, avail, sp1, Avail())
        invariant Kept(mem0, mem, avail + sp.role.Keys)
        invariant HasRole(sp1, t, if level > 0 then ParentRole(level, v) else ChildRole(1, v))
        invariant !alloc ==> sp1 == sp && mem == mem0 && free == old(free)
        invariant nfree <= NFree() + (2 - level)
      {
        ghost var sp0, mem1, avail1 := sp1, mem, Avail();
        t, sp1 := Descend(sp0, t, level, v, alloc);
        GrewTrans(sp, avail, sp0, avail1, sp1, Avail());
        KeptTrans(mem0, mem1, mem, avail + sp.role.Keys, avail1 + sp0.role.Keys);
        if t == 0 {
          AbsentUnmapped(z, mem, sp, sp1, avail, Avail(), level, v);
          return;
        }
        level := level - 1;
      }
      LowHas(z, mem, sp1, v, t);
    }

    /** Map n pages from v on to the frames from p on. It panics on a page already mapped. */
    method Mappages(ghost sp: Space, root: int, v: int, n: int, p: int, perm: int)
      returns (ok: bool, ghost k: int, ghost sp1: Space)
      requires Valid() && SpaceOk(z, mem, sp, Avail()) && root == sp.root && PermOk(perm) && 0 <= p
      requires 0 < n && 0 <= v && v + n <= MAXPAGE && forall x :: v <= x < v + n ==> x !in sp.flat
      modifies `mem, `head, `free
      ensures Valid() && SpaceOk(z, mem, sp1, Avail()) && Grew(sp.(flat := sp1.flat), old(Avail()), sp1, Avail())
      ensures Kept(old(mem), mem, old(Avail()) + sp.role.Keys)
      ensures 0 <= k <= n && sp1.flat == MapRange(sp.flat, v, k, p, perm)
      ensures ok <==> k == n
      ensures !ok ==> NFree() == 0
      ensures old(NFree()) <= NFree() + 2 * n
    {
      hide Tree, FreeOk, Kept, Grew, PageOk, PermOk, MakePte, WithValid;
      ghost var mem0, avail, nfree := mem, Avail(), NFree();
      KeptSelf(mem, avail + sp.role.Keys);
      GrewSelf(sp, avail);
      k, sp1 := 0, sp;
      var a, q, last := v, p, v + n - 1;
      while true
        invariant v <= a <= last && a == v + k && q == p + k
        invariant Valid() && SpaceOk(z, mem, sp1, Avail()) && Grew(sp.(flat := sp1.flat), avail, sp1, Avail())
        invariant Kept(mem0, mem, avail + sp.role.Keys)
        invariant sp1.flat == MapRange(sp.flat, v, k, p, perm) && nfree <= NFree() + 2 * k
        decreases last - a
      {
        ghost var sp0, mem1, avail1 := sp1, mem, Avail();
        var t;
        GrewRoot(sp.(flat := sp1.flat), avail, sp1, Avail());
        t, sp1 := Walk(sp0, root, a, true);
        GrewFlat(sp, avail, sp0, avail1, sp1, Avail());
        KeptTrans(mem0, mem1, mem, avail + sp.role.Keys, avail1 + sp0.role.Keys);
        if t == 0 {
          ok := false;
          return;
        }
        NotInRange(sp.flat, v, k, p, perm, a);
        MapOne(z, mem, sp1, Avail(), a, q, perm);
        GrewKeys(sp, avail, sp1, Avail());
        KeptWord(mem0, mem, avail + sp.role.Keys, t, a % 512, MakePte(q, WithValid(perm)));
        Store(t, a % 512, MakePte(q, WithValid(perm)));
        sp1 := sp1.(flat := sp1.flat[a := MakePte(q, WithValid(perm))]);
        GrewSetFlat(sp, avail, sp0, sp1, Avail());
        k := k + 1;
        if a == last {
          break;
        }
        a, q := a + 1, q + 1;
      }
      ok := true;
    }

    /** One pass of uvmunmap. */
    method UnmapPage(ghost sp: Space, root: int, a: int, doFree: bool) returns (ghost sp1: Space)
      requires Valid() && SpaceOk(z, mem, sp, Avail()) && root == sp.root && 0 <= a < MAXPAGE
      requires a in sp.flat && (if doFree then Owned(sp, a) else NotPaged(sp, a))
      modifies `mem, `head, `free
      ensures Valid() && SpaceOk(z, mem, sp1, Avail()) && sp1 == Unmapped(sp, a, doFree)
      ensures Avail() == old(Avail()) + (if doFree then {PteFrame(sp.flat[a])} else {})
      ensures Kept(old(mem), mem, sp.role.Keys + (if doFree then {PteFrame(sp.flat[a])} else {}))
    {
      hide Tree, FreeOk, PageOk, PteFrame, IsValid;
      var t, _ := Walk(sp, root, a, false);
      UnmapFacts(z, mem, sp, Avail(), a, doFree);
      var pte := mem[t][a % 512];
      ghost var mem0, avail := mem, Avail();
      sp1 := sp;
      if doFree {
        Kfree(PteFrame(pte));
        sp1 := sp.(page := sp.page - {PteFrame(pte)});
        FreedPage(z, mem0, mem, sp, avail, a);
      }
      UnmapOk(z, mem, sp1, Avail(), a);
      Store(t, a % 512, 0);
      sp1 := sp1.(flat := sp1.flat - {a});
    }

    /** Unmap n pages from v on, which must be mapped; with doFree the frames go back. */
    method Uvmunmap(ghost sp: Space, root: int, v: int, n: int, doFree: bool) returns (ghost sp1: Space)
      requires Valid() && SpaceOk(z, mem, sp, Avail()) && root == sp.root && 0 <= v && 0 <= n && v + n <= MAXPAGE
      requires forall a :: v <= a < v + n ==> a in sp.flat && if doFree then Owned(sp, a) else NotPaged(sp, a)
      modifies `mem, `head, `free
      ensures Valid() && SpaceOk(z, mem, sp1, Avail()) && sp1 == UnmapRange(sp, v, n, doFree)
      ensures Avail() + Own(sp1) == old(Avail()) + Own(sp) && Kept(old(mem), mem, sp.role.Keys + (sp.page.Keys - sp1.page.Keys))
    {
      hide Tree, FreeOk, PageOk, PteFrame, Kept, Unmapped, UnmapRange, SpaceOk, Owned, NotPaged, Own;
      sp1 := sp;
      ghost var mem0, avail := mem, Avail();
      UnmapNone(sp, v, doFree);
      KeptSelf(mem, sp.role.Keys + (sp.page.Keys - sp1.page.Keys));
      var i := 0;
      while i < n
        invariant 0 <= i <= n && Valid() && SpaceOk(z, mem, sp1, Avail()) && sp1 == UnmapRange(sp, v, i, doFree)
        invariant Avail() + Own(sp1) == avail + Own(sp) && Kept(mem0, mem, sp.role.Keys + (sp.page.Keys - sp1.page.Keys))
      {
        ghost var sp0, mem1 := sp1, mem;
        UnmapStep(z, mem0, sp, avail, v, i, doFree);
        UnmapAccounts(sp0, v + i, doFree);
        sp1 := UnmapPage(sp0, root, v + i, doFree);
        KeptUnmap(mem0, mem1, mem, sp, sp0, sp1, v + i, doFree);
        i := i + 1;
      }
    }
  }

  function ParentRole(level: int, v: int): Role {
    if level == 2 then Top else Mid(Px(2, v))
  }

  function ChildRole(level: int, v: int): Role {
    if level == 2 then Mid(Px(2, v)) else Low(v / 512)
  }

  /** The table below is missing. */
  predicate Absent(sp: Space, level: int, v: int) {
    if level == 2 then Px(2, v) !in sp.mid else v / 512 !in sp.low
  }

  function AddNode(sp: Space, level: int, v: int, f: int): Space {
    if level == 2 then AddMid(sp, Px(2, v), f) else AddLow(sp, v / 512, f)
  }

  lemma MemShape(z: Frames, mem: seq<Page>, head: int, free: seq<int>)
    requires FreeOk(z, mem, head, free)
    ensures MemOk(z, mem) && forall f :: f in Elems(free) ==> z.first <= f < z.last
  {
  }

  lemma WalkEntry(z: Frames, mem: seq<Page>, sp: Space, level: int, v: int, t: int)
    requires Tree(z, mem, sp) && 0 <= v < MAXPAGE && 1 <= level <= 2 && HasRole(sp, t, ParentRole(level, v))
    ensures 0 < z.first <= t < z.last == |mem| && |mem[t]| == ENTRIES && 0 <= Px(level, v) < ENTRIES
    ensures var e := mem[t][Px(level, v)];
            && (IsValid(e) ==> PteFrame(e) != 0 && HasRole(sp, PteFrame(e), ChildRole(level, v)))
            && (!IsValid(e) ==> Absent(sp, level, v))
  {
    hide Px, MakePte, PteFrame, IsValid, IsLeaf, Placed;
    PxInjective(v, v);
    EntryAt(z, mem, sp, t, Px(level, v));
    TopEntry(if level == 2 then sp.mid else sp.low, if level == 2 then Px(2, v) else v / 512);
    if IsValid(mem[t][Px(level, v)]) {
      assert NodeOk(z, mem, sp, PteFrame(mem[t][Px(level, v)]));
    }
  }

  lemma AddNodeOk(z: Frames, mem: seq<Page>, sp: Space, avail: set<int>, level: int, v: int, t: int, f: int)
    requires SpaceOk(z, mem, sp, avail) && f in avail && z.first <= f < z.last && 0 <= v < MAXPAGE && 1 <= level <= 2
    requires HasRole(sp, t, ParentRole(level, v)) && Absent(sp, level, v)
    ensures 0 <= t < |mem| && t != f && |mem[t]| == ENTRIES && 0 <= Px(level, v) < ENTRIES && f < |mem| && 0 <= f
    ensures var mem1, sp1 := SetWord(mem[f := ZeroPage()], t, Px(level, v), MakePte(f, PTE_V)), AddNode(sp, level, v, f);
            && SpaceOk(z, mem1, sp1, avail - {f}) && Grew(sp, avail, sp1, avail - {f}) && HasRole(sp1, f, ChildRole(level, v))
            && Kept(mem, mem1, avail + sp.role.Keys)
  {
    hide Px, MakePte, Tree;
    WalkEntry(z, mem, sp, level, v, t);
    AddNodeTree(z, mem, sp, level, v, t, f);
    var sp1 := AddNode(sp, level, v, f);
    forall g | g in sp1.page ensures PageOk(z, sp1, g) {
      assert PageOk(z, sp, g);
    }
    assert sp1.role.Keys == sp.role.Keys + {f};
  }

  lemma AddNodeTree(z: Frames, mem: seq<Page>, sp: Space, level: int, v: int, t: int, f: int)
    requires Tree(z, mem, sp) && z.first <= f < z.last && f !in sp.role && 0 <= v < MAXPAGE && 1 <= level <= 2
    requires HasRole(sp, t, ParentRole(level, v)) && Absent(sp, level, v)
    ensures 0 <= t < |mem| && t != f && |mem[t]| == ENTRIES && 0 <= Px(level, v) < ENTRIES && 0 <= f < |mem|
    ensures Tree(z, SetWord(mem[f := ZeroPage()], t, Px(level, v), MakePte(f, PTE_V)), AddNode(sp, level, v, f))
  {
    hide Px, MakePte, Tree;
    WalkEntry(z, mem, sp, level, v, t);
    PxInjective(v, v);
    EntryAt(z, mem, sp, t, 0);
    var mem0 := mem[f := ZeroPage()];
    TreeFrame(z, mem, mem0, sp);
    if level == 2 {
      AddMidOk(z, mem0, sp, Px(2, v), f);
    } else {
      assert (v / 512) % 512 == Px(1, v);
      AddLowOk(z, mem0, sp, v / 512, f);
    }
  }

  lemma ElemsTail(free: seq<int>)
    requires free != [] && NoDup(free)
    ensures Elems(free) == {free[0]} + Elems(free[1..]) && |Elems(free)| == 1 + |Elems(free[1..])|
  {
    assert forall f :: f in free <==> f == free[0] || f in free[1..];
    assert Elems(free) == {free[0]} + Elems(free[1..]);
  }

  lemma KeptSelf(mem: seq<Page>, touched: set<int>)
    ensures Kept(mem, mem, touched)
  {
  }

  lemma KeptTrans(mem: seq<Page>, mem1: seq<Page>, mem2: seq<Page>, touched: set<int>, touched1: set<int>)
    requires Kept(mem, mem1, touched) && Kept(mem1, mem2, touched1)
    ensures touched1 <= touched ==> Kept(mem, mem2, touched)
  {
  }

  lemma GrewSelf(sp: Space, avail: set<int>)
    ensures Grew(sp, avail, sp, avail)
  {
  }

  lemma GrewTrans(sp: Space, avail: set<int>, sp1: Space, avail1: set<int>, sp2: Space, avail2: set<int>)
    requires Grew(sp, avail, sp1, avail1) && Grew(sp1, avail1, sp2, avail2)
    ensures Grew(sp, avail, sp2, avail2) && avail1 + sp1.role.Keys <= avail + sp.role.Keys
  {
    assert forall g :: g in sp.role ==> HasRole(sp1, g, sp.role[g]);
  }

  lemma RootHas(z: Frames, mem: seq<Page>, sp: Space, v: int)
    requires Tree(z, mem, sp)
    ensures HasRole(sp, sp.root, ParentRole(2, v))
  {
  }

  lemma LowHas(z: Frames, mem: seq<Page>, sp: Space, v: int, t: int)
    requires Tree(z, mem, sp) && HasRole(sp, t, ChildRole(1, v))
    ensures v / 512 in sp.low && t == sp.low[v / 512] && t != 0
  {
    EntryAt(z, mem, sp, t, 0);
  }

  lemma AbsentUnmapped(z: Frames, mem: seq<Page>, sp: Space, sp1: Space, avail: set<int>, avail1: set<int>, level: int, v: int)
    requires Tree(z, mem, sp1) && Grew(sp, avail, sp1, avail1) && Absent(sp1, level, v) && 0 <= v < MAXPAGE && 1 <= level <= 2
    ensures v !in sp.flat
  {
    hide Tree, Px;
    PxInjective(v, v);
    MappedHas(z, mem, sp1, v);
  }

  // ---- Mapping ----

  predicate PermOk(perm: int) {
    0 <= perm < 1024 && IsLeaf(perm)
  }

  function MapRange(m: map<int, int>, v: int, k: int, p: int, perm: int): map<int, int>
    decreases k
  {
    if k <= 0 then m else MapRange(m, v, k - 1, p, perm)[v + k - 1 := MakePte(p + k - 1, WithValid(perm))]
  }

  lemma {:induction false} NotInRange(m: map<int, int>, v: int, k: int, p: int, perm: int, a: int)
    requires a !in m && (a < v || v + k <= a)
    ensures a !in MapRange(m, v, k, p, perm)
    decreases k
  {
    if k > 0 {
      NotInRange(m, v, k - 1, p, perm, a);
    }
  }

  lemma MapOne(z: Frames, mem: seq<Page>, sp: Space, avail: set<int>, v: int, p: int, perm: int)
    requires SpaceOk(z, mem, sp, avail) && 0 <= v < MAXPAGE && v / 512 in sp.low && v !in sp.flat && PermOk(perm) && 0 <= p
    ensures var t := sp.low[v / 512]; 0 <= t < |mem| && t in sp.role && t !in avail && |mem[t]| == ENTRIES && mem[t][v % 512] == 0
    ensures var pte := MakePte(p, WithValid(perm));
            SpaceOk(z, SetWord(mem, sp.low[v / 512], v % 512, pte), sp.(flat := sp.flat[v := pte]), avail)
  {
    hide NodeOk, LeafOk, IsValid, IsLeaf;
    PteParts(p, perm);
    PtePositive(p, perm);
    var pte := MakePte(p, WithValid(perm));
    SetLeafOk(z, mem, sp, v, pte);
    LowEntry(z, mem, sp, v);
    var sp1 := sp.(flat := sp.flat[v := pte]);
    forall g | g in sp1.page ensures PageOk(z, sp1, g) {
      assert PageOk(z, sp, g);
    }
  }

  lemma PtePositive(p: int, perm: int)
    requires 0 <= p && 0 <= perm < 1024
    ensures 0 < MakePte(p, WithValid(perm))
  {
  }

  lemma LowEntry(z: Frames, mem: seq<Page>, sp: Space, v: int)
    requires Tree(z, mem, sp) && 0 <= v < MAXPAGE && v / 512 in sp.low
    ensures var t := sp.low[v / 512]; t in sp.role && 0 < t < |mem| && |mem[t]| == ENTRIES && mem[t][v % 512] == Pte(sp.flat, v)
  {
    EntryAt(z, mem, sp, sp.low[v / 512], v % 512);
  }

  lemma GrewRoot(sp: Space, avail: set<int>, sp1: Space, avail1: set<int>)
    requires Grew(sp, avail, sp1, avail1)
    ensures sp1.root == sp.root
  {
  }

  lemma GrewFlat(sp: Space, avail: set<int>, sp0: Space, avail0: set<int>, sp1: Space, avail1: set<int>)
    requires Grew(sp.(flat := sp0.flat), avail, sp0, avail0) && Grew(sp0, avail0, sp1, avail1)
    ensures sp1.flat == sp0.flat && Grew(sp.(flat := sp1.flat), avail, sp1, avail1)
    ensures avail0 + sp0.role.Keys <= avail + sp.role.Keys
  {
    hide Grew;
    GrewSame(sp0, avail0, sp1, avail1);
    GrewTrans(sp.(flat := sp0.flat), avail, sp0, avail0, sp1, avail1);
  }

  lemma GrewSame(sp: Space, avail: set<int>, sp1: Space, avail1: set<int>)
    requires Grew(sp, avail, sp1, avail1)
    ensures sp1.flat == sp.flat && sp1.page == sp.page && sp1.root == sp.root
  {
  }

  lemma GrewKeys(sp: Space, avail: set<int>, sp1: Space, avail1: set<int>)
    requires Grew(sp.(flat := sp1.flat), avail, sp1, avail1)
    ensures sp1.role.Keys <= avail + sp.role.Keys && avail1 <= avail && sp1.page == sp.page
  {
  }

  lemma GrewSetFlat(sp: Space, avail: set<int>, sp0: Space, sp1: Space, avail1: set<int>)
    requires Grew(sp.(flat := sp0.flat), avail, sp1.(flat := sp0.flat), avail1)
    ensures Grew(sp.(flat := sp1.flat), avail, sp1, avail1)
  {
  }

  lemma KeptWord(mem: seq<Page>, mem1: seq<Page>, touched: set<int>, t: int, j: int, w: int)
    requires Kept(mem, mem1, touched) && 0 <= t < |mem1| && 0 <= j < |mem1[t]| && t in touched
    ensures Kept(mem, SetWord(mem1, t, j, w), touched)
  {
  }

  // ---- Unmapping ----

  /** The frame mapped at v is the space's own. */
  predicate Owned(sp: Space, v: int)
    requires v in sp.flat
  {
    var f := PteFrame(sp.flat[v]);
    f in sp.page && sp.page[f] == v
  }

  function Unmapped(sp: Space, v: int, doFree: bool): Space
    requires v in sp.flat
  {
    sp.(flat := sp.flat - {v}, page := if doFree then sp.page - {PteFrame(sp.flat[v])} else sp.page)
  }

  /** The space has no page of its own at v. */
  predicate NotPaged(sp: Space, v: int) {
    forall f :: f in sp.page ==> sp.page[f] != v
  }

  /** Pages v to v + n - 1 unmapped. */
  function UnmapRange(sp: Space, v: int, n: int, doFree: bool): Space {
    sp.(flat := map x | x in sp.flat && !(v <= x < v + n) :: sp.flat[x],
        page := map f | f in sp.page && !(doFree && v <= sp.page[f] < v + n) :: sp.page[f])
  }

  lemma UnmapNone(sp: Space, v: int, doFree: bool)
    ensures UnmapRange(sp, v, 0, doFree) == sp
  {
    assert UnmapRange(sp, v, 0, doFree).flat == sp.flat;
    assert UnmapRange(sp, v, 0, doFree).page == sp.page;
  }

  lemma UnmapStep(z: Frames, mem: seq<Page>, sp: Space, avail: set<int>, v: int, i: int, doFree: bool)
    requires SpaceOk(z, mem, sp, avail) && 0 <= i
    requires v + i in sp.flat && if doFree then Owned(sp, v + i) else NotPaged(sp, v + i)
    ensures var r := UnmapRange(sp, v, i, doFree);
            && v + i in r.flat && r.root == sp.root && (if doFree then Owned(r, v + i) else NotPaged(r, v + i))
            && Unmapped(r, v + i, doFree) == UnmapRange(sp, v, i + 1, doFree)
            && UnmapRange(sp, v, i + 1, doFree).page.Keys <= r.page.Keys <= sp.page.Keys && r.role == sp.role
  {
    hide Tree, PteFrame;
    var a, r, r1 := v + i, UnmapRange(sp, v, i, doFree), UnmapRange(sp, v, i + 1, doFree);
    assert Unmapped(r, a, doFree).flat == r1.flat;
    forall f | f in sp.page && sp.page[f] == a ensures f == PteFrame(sp.flat[a]) {
      assert PageOk(z, sp, f);
    }
    assert Unmapped(r, a, doFree).page == r1.page;
  }

  lemma UnmapFacts(z: Frames, mem: seq<Page>, sp: Space, avail: set<int>, a: int, doFree: bool)
    requires SpaceOk(z, mem, sp, avail) && a in sp.flat && 0 <= a < MAXPAGE && (doFree ==> Owned(sp, a))
    ensures a / 512 in sp.low
    ensures var t := sp.low[a / 512];
            && 0 < t < |mem| && t in sp.role && t !in avail && |mem[t]| == ENTRIES && mem[t][a % 512] == sp.flat[a]
            && IsValid(mem[t][a % 512]) && IsLeaf(mem[t][a % 512])
    ensures doFree ==> var f := PteFrame(sp.flat[a]); z.first <= f < z.last && f !in avail && f !in sp.role
  {
    hide PteFrame, IsValid, IsLeaf, NodeOk;
    MappedHas(z, mem, sp, a);
    LowEntry(z, mem, sp, a);
    assert LeafOk(sp, a);
    if doFree {
      assert PageOk(z, sp, PteFrame(sp.flat[a]));
    }
  }

  /** The frame of page a goes to the free list. */
  lemma FreedPage(z: Frames, mem: seq<Page>, mem1: seq<Page>, sp: Space, avail: set<int>, a: int)
    requires SpaceOk(z, mem, sp, avail) && a in sp.flat && Owned(sp, a)
    requires var f := PteFrame(sp.flat[a]); Kept(mem, mem1, {f})
    ensures var f := PteFrame(sp.flat[a]); SpaceOk(z, mem1, sp.(page := sp.page - {f}), avail + {f})
    ensures var f := PteFrame(sp.flat[a]); NotPaged(sp.(page := sp.page - {f}), a)
  {
    hide PteFrame, Tree;
    var f := PteFrame(sp.flat[a]);
    assert PageOk(z, sp, f);
    TreeInMem(z, mem, sp);
    TreeFrame(z, mem, mem1, sp);
    var sp1 := sp.(page := sp.page - {f});
    forall g | g in sp1.page ensures PageOk(z, sp1, g) {
      assert PageOk(z, sp, g);
    }
    TreePage(z, mem1, sp, sp1.page);
  }

  lemma TreeInMem(z: Frames, mem: seq<Page>, sp: Space)
    requires Tree(z, mem, sp)
    ensures forall f :: f in sp.role ==> z.first <= f < z.last == |mem|
  {
    forall f | f in sp.role ensures z.first <= f < z.last == |mem| {
      assert NodeOk(z, mem, sp, f);
    }
  }

  lemma TreePage(z: Frames, mem: seq<Page>, sp: Space, page: map<int, int>)
    requires Tree(z, mem, sp)
    ensures Tree(z, mem, sp.(page := page))
  {
    var sp1 := sp.(page := page);
    forall f | f in sp1.role ensures NodeOk(z, mem, sp1, f) {
      assert NodeOk(z, mem, sp, f);
      forall j | 0 <= j < ENTRIES ensures Want(sp1, sp1.role[f], j) == Want(sp, sp.role[f], j) {
      }
    }
    forall v | v in sp1.flat ensures LeafOk(sp1, v) {
      assert LeafOk(sp, v);
    }
  }

  lemma UnmapOk(z: Frames, mem: seq<Page>, sp: Space, avail: set<int>, a: int)
    requires SpaceOk(z, mem, sp, avail) && a in sp.flat && 0 <= a < MAXPAGE && NotPaged(sp, a)
    ensures a / 512 in sp.low
    ensures var t := sp.low[a / 512]; 0 <= t < |mem| && |mem[t]| == ENTRIES
    ensures SpaceOk(z, SetWord(mem, sp.low[a / 512], a % 512, 0), sp.(flat := sp.flat - {a}), avail)
  {
    hide PteFrame, Tree;
    MappedHas(z, mem, sp, a);
    SetLeafOk(z, mem, sp, a, 0);
    var sp1 := sp.(flat := sp.flat - {a});
    forall g | g in sp1.page ensures PageOk(z, sp1, g) {
      assert PageOk(z, sp, g);
    }
  }

  lemma UnmapAccounts(sp: Space, a: int, doFree: bool)
    requires a in sp.flat && (doFree ==> Owned(sp, a))
    ensures Own(sp) == Own(Unmapped(sp, a, doFree)) + (if doFree then {PteFrame(sp.flat[a])} else {})
  {
    hide PteFrame;
  }

  lemma KeptUnmap(mem: seq<Page>, mem1: seq<Page>, mem2: seq<Page>, sp: Space, sp0: Space, sp1: Space, a: int, doFree: bool)
    requires a in sp0.flat && (doFree ==> Owned(sp0, a)) && sp1 == Unmapped(sp0, a, doFree)
    requires sp0.page.Keys <= sp.page.Keys && sp0.role == sp.role
    requires Kept(mem, mem1, sp.role.Keys + (sp.page.Keys - sp0.page.Keys))
    requires Kept(mem1, mem2, sp0.role.Keys + (if doFree then {PteFrame(sp0.flat[a])} else {}))
    ensures Kept(mem, mem2, sp.role.Keys + (sp.page.Keys - sp1.page.Keys))
  {
    hide PteFrame, Kept;
    KeptMore(mem, mem1, mem2, sp.role.Keys + (sp.page.Keys - sp0.page.Keys),
             sp0.role.Keys + (if doFree then {PteFrame(sp0.flat[a])} else {}), sp.role.Keys + (sp.page.Keys - sp1.page.Keys));
  }

  lemma KeptMore(mem: seq<Page>, mem1: seq<Page>, mem2: seq<Page>, t1: set<int>, t2: set<int>, t3: set<int>)
    requires Kept(mem, mem1, t1) && Kept(mem1, mem2, t2) && t1 <= t3 && t2 <= t3
    ensures Kept(mem, mem2, t3)
  {
  }

  // ---- What the hardware sees ----

  lemma {:induction false} MapRangeAt(m: map<int, int>, v: int, k: int, p: int, perm: int, x: int)
    requires 0 <= k
    ensures Pte(MapRange(m, v, k, p, perm), x) == if v <= x < v + k then MakePte(p + x - v, WithValid(perm)) else Pte(m, x)
    decreases k
  {
    hide MakePte, WithValid;
    if k > 0 {
      MapRangeAt(m, v, k - 1, p, perm, x);
    }
  }

  /** After mappages the translation of every address is the new one in the range mapped, and
      the old one elsewhere. */
  lemma MapTranslates(z: Frames, mem: seq<Page>, sp: Space, mem1: seq<Page>, sp1: Space, v: int, k: int, p: int, perm: int, x: int)
    requires Tree(z, mem, sp) && Tree(z, mem1, sp1) && sp1.root == sp.root && 0 <= x < MAXPAGE
    requires 0 <= k && sp1.flat == MapRange(sp.flat, v, k, p, perm)
    ensures Translate(mem1, sp.root, x)
            == if v <= x < v + k then MakePte(p + x - v, WithValid(perm)) else Translate(mem, sp.root, x)
  {
    hide Tree, MakePte, WithValid, MapRange, Translate;
    TreeReads(z, mem, sp, x);
    TreeReads(z, mem1, sp1, x);
    MapRangeAt(sp.flat, v, k, p, perm, x);
  }

  /** After uvmunmap the range does not translate, and every other address does as before. */
  lemma UnmapTranslates(z: Frames, mem: seq<Page>, sp: Space, mem1: seq<Page>, sp1: Space, v: int, n: int, doFree: bool, x: int)
    requires Tree(z, mem, sp) && Tree(z, mem1, sp1) && 0 <= x < MAXPAGE && sp1 == UnmapRange(sp, v, n, doFree)
    ensures Translate(mem1, sp.root, x) == if v <= x < v + n then 0 else Translate(mem, sp.root, x)
  {
    hide Tree, Translate;
    TreeReads(z, mem, sp, x);
    TreeReads(z, mem1, sp1, x);
  }
}

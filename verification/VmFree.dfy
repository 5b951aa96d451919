/** Giving an address space back: freewalk, uvmfree (kernel/vm.c). */
module VmFree {
  import opened VmSpace
  import opened VmMachine
  import opened VmUser

  /** Role x is in the part of the tree at and below r. */
  predicate Under(x: Role, r: Role) {
    match r
    case Top => true
    case Mid(i) => x == r || (x.Low? && x.k / 512 == i)
    case Low(_) => x == r
  }

  function Child(r: Role, j: int): Role
    requires !r.Low?
  {
    if r.Top? then Mid(j) else Low(r.i * 512 + j)
  }

  predicate HasChild(sp: Space, r: Role, j: int) {
    match r
    case Top => j in sp.mid
    case Mid(i) => i * 512 + j in sp.low
    case Low(_) => false
  }

  function Depth(r: Role): nat {
    match r
    case Top => 2
    case Mid(_) => 1
    case Low(_) => 0
  }

  ghost function Removed(sp: Space, r: Role): set<int> {
    set f | f in sp.role && Under(sp.role[f], r)
  }

  /** The tree without the part at and below r. */
  function Prune(sp: Space, r: Role): Space {
    sp.(mid := map i | i in sp.mid && !Under(Mid(i), r) :: sp.mid[i],
        low := map k | k in sp.low && !Under(Low(k), r) :: sp.low[k],
        role := map f | f in sp.role && !Under(sp.role[f], r) :: sp.role[f])
  }

  predicate Bare(sp: Space) {
    sp.flat == map[] && sp.page == map[]
  }

  /** What freewalk reads in entry i of table t. */
  lemma WalkChild(z: Frames, mem: seq<Page>, sp: Space, r: Role, t: int, i: int)
    requires Tree(z, mem, sp) && Bare(sp) && HasRole(sp, t, r) && 0 <= i < ENTRIES
    ensures 0 < z.first <= t < z.last == |mem| && |mem[t]| == ENTRIES
    ensures var e := mem[t][i];
            && (IsValid(e) <==> HasChild(sp, r, i))
            && (IsValid(e) ==> !IsLeaf(e) && !r.Low? && HasRole(sp, PteFrame(e), Child(r, i)))
  {
    hide IsValid, IsLeaf, PteFrame, MakePte;
    EntryAt(z, mem, sp, t, i);
    match r
    case Top => TopEntry(sp.mid, i);
    case Mid(m) => TopEntry(sp.low, m * 512 + i);
    case Low(_) => ZeroEntry();
  }

  lemma ZeroEntry()
    ensures !IsValid(0)
  {
  }

  /** The child of t at entry i is gone and the entry cleared. */
  lemma PruneOk(z: Frames, mem: seq<Page>, mem1: seq<Page>, sp: Space, r: Role, t: int, i: int)
    requires Tree(z, mem, sp) && Bare(sp) && HasRole(sp, t, r) && 0 <= i < ENTRIES && HasChild(sp, r, i)
    requires Kept(mem, mem1, Removed(sp, Child(r, i)) + {t}) && 0 <= t < |mem| && |mem[t]| == ENTRIES && mem1[t] == mem[t][i := 0]
    ensures Tree(z, mem1, Prune(sp, Child(r, i))) && HasRole(Prune(sp, Child(r, i)), t, r) && Bare(Prune(sp, Child(r, i)))
    ensures !HasChild(Prune(sp, Child(r, i)), r, i)
  {
    hide MakePte;
    var c := Child(r, i);
    var p := Prune(sp, c);
    assert NodeOk(z, mem, sp, t);
    forall f | f in p.role ensures NodeOk(z, mem1, p, f) {
      assert NodeOk(z, mem, sp, f);
      PruneWant(z, mem, sp, r, t, i, f);
    }
    forall j | j in p.mid ensures HasRole(p, p.mid[j], Mid(j)) {
      assert HasRole(sp, sp.mid[j], Mid(j));
    }
    forall k | k in p.low ensures HasRole(p, p.low[k], Low(k)) {
      assert HasRole(sp, sp.low[k], Low(k));
    }
  }

  lemma PruneWant(z: Frames, mem: seq<Page>, sp: Space, r: Role, t: int, i: int, f: int)
    requires Tree(z, mem, sp) && Bare(sp) && HasRole(sp, t, r) && 0 <= i < ENTRIES && HasChild(sp, r, i)
    requires f in Prune(sp, Child(r, i)).role
    ensures Placed(Prune(sp, Child(r, i)), sp.role[f], f) && f in sp.role
    ensures forall j :: 0 <= j < ENTRIES ==>
              Want(Prune(sp, Child(r, i)), sp.role[f], j) == if f == t && j == i then 0 else Want(sp, sp.role[f], j)
  {
    hide MakePte;
    assert NodeOk(z, mem, sp, f) && NodeOk(z, mem, sp, t);
  }

  /** Free table t, which is role r of the tree, and every table below it. All leaf entries
      must be gone: freewalk panics on one. */
  method Freewalk(m: Machine, ghost sp: Space, ghost r: Role, t: int)
    requires m.Valid() && SpaceOk(m.z, m.mem, sp, m.Avail()) && Bare(sp) && HasRole(sp, t, r)
    modifies m
    ensures m.Valid() && m.Avail() == old(m.Avail()) + Removed(sp, r) && Kept(old(m.mem), m.mem, Removed(sp, r))
    decreases Depth(r)
  {
    hide Tree, FreeOk, Kept, SpaceOk, Removed, Prune, IsValid, IsLeaf, PteFrame, Bare, HasChild, Own;
    ghost var mem0, avail, cur := m.mem, m.Avail(), sp;
    KeptSelf(mem0, Removed(sp, r));
    RemovedHas(sp, r, t);
    for i := 0 to ENTRIES
      invariant m.Valid() && SpaceOk(m.z, m.mem, cur, m.Avail()) && Bare(cur) && HasRole(cur, t, r)
      invariant m.Avail() + Removed(cur, r) == avail + Removed(sp, r) && Removed(cur, r) <= Removed(sp, r)
      invariant Kept(mem0, m.mem, Removed(sp, r)) && forall j :: 0 <= j < i ==> !HasChild(cur, r, j)
    {
      ghost var mem1, avail1 := m.mem, m.Avail();
      SpaceTree(m.z, m.mem, cur, m.Avail());
      WalkChild(m.z, m.mem, cur, r, t, i);
      var pte := m.mem[t][i];
      if IsValid(pte) && !IsLeaf(pte) {
        Freewalk(m, cur, Child(r, i), PteFrame(pte));
        NodeApart(m.z, mem1, cur, avail1, r, i, t);
        KeptAt(mem1, m.mem, Removed(cur, Child(r, i)), t);
        ghost var mem2 := m.mem;
        m.Store(t, i, 0);
        KeptBoth(mem0, mem1, mem2, m.mem, Removed(sp, r), Removed(cur, Child(r, i)), t, i);
        PruneSpace(m.z, mem1, m.mem, cur, avail1, m.Avail(), r, t, i);
        PruneCounts(cur, r, i, avail1, avail + Removed(sp, r));
        OtherChildren(cur, r, i);
        cur := Prune(cur, Child(r, i));
      }
    }
    ghost var mem3 := m.mem;
    SpaceTree(m.z, m.mem, cur, m.Avail());
    OnlyRoot(m.z, m.mem, cur, r, t);
    RootFree(m.z, m.mem, cur, m.Avail(), t);
    m.Kfree(t);
    KeptTrans(mem0, mem3, m.mem, Removed(sp, r), {t});
  }

  lemma RemovedHas(sp: Space, r: Role, t: int)
    requires HasRole(sp, t, r)
    ensures t in Removed(sp, r)
  {
  }

  lemma SpaceTree(z: Frames, mem: seq<Page>, sp: Space, avail: set<int>)
    requires SpaceOk(z, mem, sp, avail)
    ensures Tree(z, mem, sp)
  {
  }

  lemma NodeApart(z: Frames, mem: seq<Page>, sp: Space, avail: set<int>, r: Role, i: int, t: int)
    requires SpaceOk(z, mem, sp, avail) && HasRole(sp, t, r) && !r.Low? && 0 <= i < 512
    ensures t !in avail && t !in Removed(sp, Child(r, i)) && Removed(sp, Child(r, i)) <= Removed(sp, r)
  {
    hide Tree;
    assert t in Own(sp);
    if r.Mid? {
      ChildIndex(r.i, i);
    }
    forall f | f in Removed(sp, Child(r, i)) ensures f in Removed(sp, r) {
      UnderChild(sp.role[f], r, i);
    }
  }

  lemma ChildIndex(m: int, j: int)
    ensures 0 <= j < 512 ==> (m * 512 + j) / 512 == m
  {
  }

  lemma KeptBoth(mem: seq<Page>, mem1: seq<Page>, mem2: seq<Page>, mem3: seq<Page>, touched: set<int>, gone: set<int>, t: int, i: int)
    requires Kept(mem, mem1, touched) && Kept(mem1, mem2, gone) && gone <= touched && t in touched && t !in gone
    requires 0 <= t < |mem1| && |mem1| == |mem2| && 0 <= i < |mem2[t]| && mem2[t] == mem1[t] && mem3 == SetWord(mem2, t, i, 0)
    ensures Kept(mem, mem3, touched) && Kept(mem1, mem3, gone + {t}) && mem3[t] == mem1[t][i := 0]
  {
  }

  lemma PruneSpace(z: Frames, mem: seq<Page>, mem1: seq<Page>, sp: Space, avail: set<int>, avail1: set<int>, r: Role, t: int, i: int)
    requires SpaceOk(z, mem, sp, avail) && Bare(sp) && HasRole(sp, t, r) && 0 <= i < ENTRIES && HasChild(sp, r, i)
    requires Kept(mem, mem1, Removed(sp, Child(r, i)) + {t}) && 0 <= t < |mem| && |mem[t]| == ENTRIES && mem1[t] == mem[t][i := 0]
    requires avail1 == avail + Removed(sp, Child(r, i))
    ensures var p := Prune(sp, Child(r, i)); SpaceOk(z, mem1, p, avail1) && Bare(p) && HasRole(p, t, r) && !HasChild(p, r, i)
  {
    hide Tree, Under;
    PruneOk(z, mem, mem1, sp, r, t, i);
  }

  lemma PruneCounts(sp: Space, r: Role, i: int, avail: set<int>, all: set<int>)
    requires !r.Low? && avail + Removed(sp, r) == all && 0 <= i < 512
    ensures var p := Prune(sp, Child(r, i));
            avail + Removed(sp, Child(r, i)) + Removed(p, r) == all && Removed(p, r) <= Removed(sp, r)
  {
    hide Under;
    var c := Child(r, i);
    var p := Prune(sp, c);
    forall f ensures f in Removed(sp, c) + Removed(p, r) <==> f in Removed(sp, r) {
      if f in sp.role {
        UnderChild(sp.role[f], r, i);
      }
    }
  }

  lemma UnderChild(x: Role, r: Role, i: int)
    requires !r.Low? && 0 <= i < 512
    ensures Under(x, Child(r, i)) ==> Under(x, r)
  {
  }

  lemma OtherChildren(sp: Space, r: Role, i: int)
    requires !r.Low? && 0 <= i < 512
    ensures forall j :: 0 <= j < 512 && !HasChild(sp, r, j) ==> !HasChild(Prune(sp, Child(r, i)), r, j)
  {
  }

  /** Without children, table t is all there is at and below r. */
  lemma OnlyRoot(z: Frames, mem: seq<Page>, sp: Space, r: Role, t: int)
    requires Tree(z, mem, sp) && HasRole(sp, t, r) && forall j :: 0 <= j < ENTRIES ==> !HasChild(sp, r, j)
    ensures Removed(sp, r) == {t}
  {
    assert NodeOk(z, mem, sp, t);
    forall f | f in Removed(sp, r) ensures f == t {
      assert NodeOk(z, mem, sp, f);
      if sp.role[f] != r {
        var j := SomeChild(z, mem, sp, r, f);
        assert false;
      }
    }
  }

  lemma SomeChild(z: Frames, mem: seq<Page>, sp: Space, r: Role, f: int) returns (j: int)
    requires Tree(z, mem, sp) && f in Removed(sp, r) && sp.role[f] != r
    ensures 0 <= j < ENTRIES && HasChild(sp, r, j)
  {
    assert NodeOk(z, mem, sp, f);
    match sp.role[f]
    case Top => j := 0;
    case Mid(i) => j := i;
    case Low(k) => j := if r.Top? then k / 512 else k % 512;
  }

  lemma RootFree(z: Frames, mem: seq<Page>, sp: Space, avail: set<int>, t: int)
    requires SpaceOk(z, mem, sp, avail) && t in sp.role
    ensures z.first <= t < z.last && t !in avail
  {
    EntryAt(z, mem, sp, t, 0);
    assert t in Own(sp);
  }

  /** Free sz bytes of user memory, then the tables. */
  method Uvmfree(m: Machine, ghost sp: Space, root: int, sz: int)
    requires m.Valid() && SpaceOk(m.z, m.mem, sp, m.Avail()) && root == sp.root && 0 <= sz && UserSpace(sp, PgUp(sz), {})
    modifies m
    ensures m.Valid() && m.Avail() == old(m.Avail()) + Own(sp) && Kept(old(m.mem), m.mem, Own(sp))
  {
    hide Tree, FreeOk, Kept, SpaceOk, UserSpace, Removed, UnmapRange, Own;
    ghost var sp1, mem0, avail := sp, m.mem, m.Avail();
    KeptSelf(mem0, Own(sp));
    UserBound(sp, PgUp(sz), {});
    ShrinkOk(m.z, m.mem, sp, m.Avail(), PgUp(sz), {}, 0);
    if sz > 0 {
      sp1 := m.Uvmunmap(sp, root, 0, PgUp(sz), true);
      KeptUnder(mem0, m.mem, sp, sp1);
    } else {
      UnmapNone(sp, 0, true);
    }
    ghost var mem1 := m.mem;
    NothingLeft(m.z, m.mem, sp, sp1, m.Avail(), PgUp(sz));
    Freewalk(m, sp1, Top, root);
    AllFreed(sp, avail, sp1);
    KeptTrans(mem0, mem1, m.mem, Own(sp), Removed(sp1, Top));
  }

  lemma KeptUnder(mem: seq<Page>, mem1: seq<Page>, sp: Space, sp1: Space)
    requires Kept(mem, mem1, sp.role.Keys + (sp.page.Keys - sp1.page.Keys))
    ensures Kept(mem, mem1, Own(sp))
  {
  }

  lemma NothingLeft(z: Frames, mem: seq<Page>, sp: Space, sp1: Space, avail: set<int>, n: int)
    requires SpaceOk(z, mem, sp1, avail) && sp1 == UnmapRange(sp, 0, n, true) && UserSpace(sp, n, {})
    ensures Bare(sp1) && HasRole(sp1, sp.root, Top) && sp1.role == sp.role && Own(sp1) == Removed(sp1, Top) == sp.role.Keys
  {
    assert sp1.flat.Keys == {};
    forall f | f in sp.page ensures f !in sp1.page {
    }
    assert sp1.page.Keys <= sp.page.Keys;
    assert sp1.page == map[];
    forall f | f in sp1.role ensures f in Removed(sp1, Top) {
    }
    assert Removed(sp1, Top) == sp1.role.Keys;
  }

  lemma AllFreed(sp: Space, avail: set<int>, sp1: Space)
    requires Own(sp1) == Removed(sp1, Top) == sp.role.Keys
    ensures Removed(sp1, Top) <= Own(sp)
  {
  }
}

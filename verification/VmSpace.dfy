/** Address spaces (kernel/vm.c): the three-level page table in memory, and the flat map from
    page numbers to page-table entries it stands for. Addresses are given as page numbers. */
module VmSpace {
  const ENTRIES: int := 512
  /** Pages below MAXVA. */
  const MAXPAGE: int := 0x400_0000
  const TRAMPOLINE: int := MAXPAGE - 1
  const TRAPFRAME: int := MAXPAGE - 2

  const PTE_V: int := 1
  const PTE_R: int := 2
  const PTE_W: int := 4
  const PTE_X: int := 8
  const PTE_U: int := 16

  type Page = seq<int>

  /** Physical memory, page by page; pages first to last - 1 are the allocator's. */
  datatype Frames = Frames(first: int, last: int)

  predicate MemOk(z: Frames, mem: seq<Page>) {
    0 < z.first <= z.last == |mem| && forall f :: 0 <= f < |mem| ==> |mem[f]| == ENTRIES
  }

  function ZeroPage(): (p: Page)
    ensures |p| == ENTRIES && forall j :: 0 <= j < ENTRIES ==> p[j] == 0
  {
    seq(ENTRIES, _ => 0)
  }

  // ---- Page-table entries ----

  /** PA2PTE(pa) | flags | PTE_V, for page number p. */
  function MakePte(p: int, flags: int): int {
    p * 1024 + flags
  }

  function PteFrame(pte: int): int {
    pte / 1024
  }

  predicate IsValid(pte: int) {
    pte % 2 == 1
  }

  /** Some of R, W and X is set. */
  predicate IsLeaf(pte: int) {
    pte / 2 % 8 != 0
  }

  /** flags | PTE_V. */
  function WithValid(flags: int): int {
    if flags % 2 == 1 then flags else flags + 1
  }

  lemma PteParts(p: int, flags: int)
    requires 0 <= flags < 1024
    ensures var e := MakePte(p, WithValid(flags)); PteFrame(e) == p && IsValid(e) && (IsLeaf(e) <==> IsLeaf(flags)) && e % 1024 == WithValid(flags)
  {
    WithValidBits(flags);
    LowTen(p, WithValid(flags));
    LowBit(p, WithValid(flags));
    LowMiddle(p, WithValid(flags));
  }

  lemma WithValidBits(flags: int)
    requires 0 <= flags < 1024
    ensures var r := WithValid(flags); 0 <= r < 1024 && r % 2 == 1 && r / 2 == flags / 2
  {
  }

  lemma LowTen(q: int, r: int)
    requires 0 <= r < 1024
    ensures (q * 1024 + r) / 1024 == q && (q * 1024 + r) % 1024 == r
  {
  }

  lemma LowBit(q: int, r: int)
    ensures (q * 1024 + r) % 2 == r % 2
  {
  }

  lemma LowMiddle(q: int, r: int)
    ensures (q * 1024 + r) / 2 % 8 == r / 2 % 8
  {
    var h := r / 2;
    assert (q * 1024 + r) / 2 == q * 512 + h;
    LowThree(q * 64, h);
  }

  lemma LowThree(q: int, h: int)
    ensures (q * 8 + h) % 8 == h % 8
  {
  }

  // ---- The index split of Sv39 ----

  /** PX(level, va), va given as a page number. */
  function Px(level: int, v: int): int {
    if level == 2 then v / 0x4_0000 else if level == 1 then v / 512 % 512 else v % 512
  }

  /** The three indices determine the page number. */
  lemma PxInjective(v: int, w: int)
    requires 0 <= v < MAXPAGE && 0 <= w < MAXPAGE
    ensures 0 <= Px(2, v) < 256 && 0 <= Px(1, v) < 512 && 0 <= Px(0, v) < 512
    ensures v / 512 == Px(2, v) * 512 + Px(1, v) && v == v / 512 * 512 + Px(0, v) && v / 512 / 512 == Px(2, v)
    ensures Px(2, v) == Px(2, w) && Px(1, v) == Px(1, w) && Px(0, v) == Px(0, w) ==> v == w
  {
    SplitPage(v);
    SplitPage(w);
  }

  lemma SplitPage(v: int)
    requires 0 <= v < MAXPAGE
    ensures v / 512 == Px(2, v) * 512 + Px(1, v) && v == v / 512 * 512 + Px(0, v) && v / 512 / 512 == Px(2, v)
  {
    assert v / 512 / 512 == v / 0x4_0000;
  }

  // ---- Trees ----

  datatype Role = Top | Mid(i: int) | Low(k: int)

  /** root, mid[i] and low[k] are the pages of the tree; flat is what it maps; role tells
      which page of the tree a frame is; page tells which user page a frame holds. */
  datatype Space = Space(root: int, mid: map<int, int>, low: map<int, int>, flat: map<int, int>,
                         role: map<int, Role>, page: map<int, int>)

  function Pde(m: map<int, int>, x: int): int {
    if x in m then MakePte(m[x], PTE_V) else 0
  }

  function Pte(m: map<int, int>, x: int): int {
    if x in m then m[x] else 0
  }

  /** Entry j of a page of the tree. */
  function Want(sp: Space, r: Role, j: int): int {
    match r
    case Top => Pde(sp.mid, j)
    case Mid(i) => Pde(sp.low, i * 512 + j)
    case Low(k) => Pte(sp.flat, k * 512 + j)
  }

  /** Frame f is the page of the tree that role r names. */
  predicate Placed(sp: Space, r: Role, f: int) {
    match r
    case Top => f == sp.root
    case Mid(i) => 0 <= i < 512 && i in sp.mid && sp.mid[i] == f
    case Low(k) => 0 <= k < 0x4_0000 && k in sp.low && sp.low[k] == f && k / 512 in sp.mid
  }

  predicate NodeOk(z: Frames, mem: seq<Page>, sp: Space, f: int)
    requires f in sp.role
  {
    && 0 < z.first <= f < z.last == |mem| && Placed(sp, sp.role[f], f) && |mem[f]| == ENTRIES
    && forall j :: 0 <= j < ENTRIES ==> mem[f][j] == Want(sp, sp.role[f], j)
  }

  predicate HasRole(sp: Space, f: int, r: Role) {
    f in sp.role && sp.role[f] == r
  }

  predicate LeafOk(sp: Space, v: int)
    requires v in sp.flat
  {
    0 <= v < MAXPAGE && v / 512 in sp.low && 0 <= sp.flat[v] && IsValid(sp.flat[v]) && IsLeaf(sp.flat[v])
  }

  /** Memory holds the tree of sp: every page of it once, no two sharing a frame. */
  ghost predicate Tree(z: Frames, mem: seq<Page>, sp: Space) {
    && HasRole(sp, sp.root, Top)
    && (forall i :: i in sp.mid ==> 0 <= i < 512 && HasRole(sp, sp.mid[i], Mid(i)))
    && (forall k :: k in sp.low ==> 0 <= k < 0x4_0000 && HasRole(sp, sp.low[k], Low(k)))
    && (forall f :: f in sp.role ==> NodeOk(z, mem, sp, f))
    && (forall v :: v in sp.flat ==> LeafOk(sp, v))
  }

  /** What the hardware finds: three reads of memory. */
  function Translate(mem: seq<Page>, root: int, v: int): int
    requires 0 <= v < MAXPAGE
  {
    var e2 := Entry(mem, root, Px(2, v));
    if !IsValid(e2) then 0
    else
      var e1 := Entry(mem, PteFrame(e2), Px(1, v));
      if !IsValid(e1) then 0 else Entry(mem, PteFrame(e1), Px(0, v))
  }

  function Entry(mem: seq<Page>, f: int, j: int): int {
    if 0 <= f < |mem| && 0 <= j < |mem[f]| then mem[f][j] else 0
  }

  lemma EntryAt(z: Frames, mem: seq<Page>, sp: Space, f: int, j: int)
    requires Tree(z, mem, sp) && f in sp.role && 0 <= j < ENTRIES
    ensures 0 < z.first <= f < z.last == |mem| && |mem[f]| == ENTRIES && mem[f][j] == Want(sp, sp.role[f], j)
    ensures Entry(mem, f, j) == Want(sp, sp.role[f], j) && Placed(sp, sp.role[f], f)
  {
    hide Want, Placed;
    assert NodeOk(z, mem, sp, f);
  }

  /** The tree reads as the flat map, for every address. */
  lemma TreeReads(z: Frames, mem: seq<Page>, sp: Space, v: int)
    requires Tree(z, mem, sp) && 0 <= v < MAXPAGE
    ensures Translate(mem, sp.root, v) == Pte(sp.flat, v)
  {
    hide Px, MakePte, PteFrame, IsValid, NodeOk, Placed;
    PxInjective(v, v);
    MappedHas(z, mem, sp, v);
    EntryAt(z, mem, sp, sp.root, Px(2, v));
    TopEntry(sp.mid, Px(2, v));
    if Px(2, v) in sp.mid {
      EntryAt(z, mem, sp, sp.mid[Px(2, v)], Px(1, v));
      TopEntry(sp.low, v / 512);
      if v / 512 in sp.low {
        EntryAt(z, mem, sp, sp.low[v / 512], Px(0, v));
      }
    }
  }

  lemma TopEntry(m: map<int, int>, x: int)
    ensures IsValid(Pde(m, x)) <==> x in m
    ensures x in m ==> PteFrame(Pde(m, x)) == m[x] && !IsLeaf(Pde(m, x))
  {
  }

  /** A mapped page has its pages of both lower levels. */
  lemma MappedHas(z: Frames, mem: seq<Page>, sp: Space, v: int)
    requires Tree(z, mem, sp)
    ensures v in sp.flat ==> v / 512 in sp.low
    ensures v / 512 in sp.low ==> v / 512 / 512 in sp.mid
  {
    if v in sp.flat {
      assert LeafOk(sp, v);
    }
    if v / 512 in sp.low {
      assert HasRole(sp, sp.low[v / 512], Low(v / 512));
      assert NodeOk(z, mem, sp, sp.low[v / 512]);
    }
  }

  // ---- The tree changes ----

  /** Memory changes outside the tree only. */
  lemma TreeFrame(z: Frames, mem: seq<Page>, mem1: seq<Page>, sp: Space)
    requires Tree(z, mem, sp) && |mem1| == |mem| && forall f :: f in sp.role && 0 <= f < |mem| ==> mem1[f] == mem[f]
    ensures Tree(z, mem1, sp)
  {
    hide Want, Placed;
    forall f | f in sp.role ensures NodeOk(z, mem1, sp, f) {
      assert NodeOk(z, mem, sp, f);
    }
  }

  function AddMid(sp: Space, i: int, f: int): Space {
    sp.(mid := sp.mid[i := f], role := sp.role[f := Mid(i)])
  }

  function AddLow(sp: Space, k: int, f: int): Space {
    sp.(low := sp.low[k := f], role := sp.role[f := Low(k)])
  }

  function SetWord(mem: seq<Page>, f: int, j: int, w: int): (r: seq<Page>)
    requires 0 <= f < |mem| && 0 <= j < |mem[f]|
    ensures |r| == |mem| && r[f] == mem[f][j := w] && forall g :: 0 <= g < |mem| && g != f ==> r[g] == mem[g]
  {
    mem[f := mem[f][j := w]]
  }

  /** walk puts an empty page in the root. */
  lemma AddMidOk(z: Frames, mem: seq<Page>, sp: Space, i: int, f: int)
    requires Tree(z, mem, sp) && 0 <= i < 512 && i !in sp.mid && z.first <= f < z.last && f !in sp.role
    requires mem[f] == ZeroPage()
    ensures Tree(z, SetWord(mem, sp.root, i, MakePte(f, PTE_V)), AddMid(sp, i, f))
  {
    hide MakePte;
    assert NodeOk(z, mem, sp, sp.root);
    var mem1, t := SetWord(mem, sp.root, i, MakePte(f, PTE_V)), AddMid(sp, i, f);
    NoLowYet(z, mem, sp, i);
    forall g | g in t.role ensures NodeOk(z, mem1, t, g) {
      if g != f {
        assert NodeOk(z, mem, sp, g);
      }
    }
    forall v | v in t.flat ensures LeafOk(t, v) {
      assert LeafOk(sp, v);
    }
  }

  lemma NoLowYet(z: Frames, mem: seq<Page>, sp: Space, i: int)
    requires Tree(z, mem, sp) && 0 <= i < 512 && i !in sp.mid
    ensures forall j :: 0 <= j < 512 ==> Want(sp, Mid(i), j) == 0
  {
    hide MakePte;
    forall j | 0 <= j < 512 ensures Want(sp, Mid(i), j) == 0 {
      MappedHas(z, mem, sp, (i * 512 + j) * 512);
      assert (i * 512 + j) * 512 / 512 == i * 512 + j && (i * 512 + j) / 512 == i;
    }
  }

  /** walk puts an empty page in a page of the second level. */
  lemma AddLowOk(z: Frames, mem: seq<Page>, sp: Space, k: int, f: int)
    requires Tree(z, mem, sp) && 0 <= k < 0x4_0000 && k / 512 in sp.mid && k !in sp.low
    requires z.first <= f < z.last && f !in sp.role && mem[f] == ZeroPage()
    ensures var m := sp.mid[k / 512]; 0 <= m < |mem| && |mem[m]| == ENTRIES
    ensures Tree(z, SetWord(mem, sp.mid[k / 512], k % 512, MakePte(f, PTE_V)), AddLow(sp, k, f))
  {
    hide MakePte;
    var m := sp.mid[k / 512];
    assert NodeOk(z, mem, sp, m);
    var mem1, t := SetWord(mem, m, k % 512, MakePte(f, PTE_V)), AddLow(sp, k, f);
    NoLeafYet(z, mem, sp, k);
    forall g | g in t.role ensures NodeOk(z, mem1, t, g) {
      if g != f {
        assert NodeOk(z, mem, sp, g);
      }
    }
    forall v | v in t.flat ensures LeafOk(t, v) {
      assert LeafOk(sp, v);
    }
  }

  lemma NoLeafYet(z: Frames, mem: seq<Page>, sp: Space, k: int)
    requires Tree(z, mem, sp) && k !in sp.low
    ensures forall j :: 0 <= j < 512 ==> Want(sp, Low(k), j) == 0
  {
    forall j | 0 <= j < 512 ensures Want(sp, Low(k), j) == 0 {
      MappedHas(z, mem, sp, k * 512 + j);
      assert (k * 512 + j) / 512 == k;
    }
  }

  function SetFlat(m: map<int, int>, v: int, pte: int): map<int, int> {
    if pte == 0 then m - {v} else m[v := pte]
  }

  /** An entry of the last level is written: one translation changes. */
  lemma SetLeafOk(z: Frames, mem: seq<Page>, sp: Space, v: int, pte: int)
    requires Tree(z, mem, sp) && 0 <= v < MAXPAGE && v / 512 in sp.low
    requires pte == 0 || (0 < pte && IsValid(pte) && IsLeaf(pte))
    ensures var m := sp.low[v / 512]; 0 <= m < |mem| && |mem[m]| == ENTRIES
    ensures Tree(z, SetWord(mem, sp.low[v / 512], v % 512, pte), sp.(flat := SetFlat(sp.flat, v, pte)))
  {
    hide IsValid, IsLeaf, Pde;
    var m := sp.low[v / 512];
    assert NodeOk(z, mem, sp, m);
    var mem1, t := SetWord(mem, m, v % 512, pte), sp.(flat := SetFlat(sp.flat, v, pte));
    forall g | g in t.role ensures NodeOk(z, mem1, t, g) {
      assert NodeOk(z, mem, sp, g);
    }
    forall x | x in t.flat ensures LeafOk(t, x) {
      if x != v {
        assert LeafOk(sp, x);
      }
    }
  }
}

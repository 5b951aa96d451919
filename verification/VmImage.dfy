/** What the pages of a program's image hold (kernel/exec.c). Files are read by the byte, memory
    is given in words of eight bytes, little-endian. */
module VmImage {
  import opened VmSpace
  import opened VmMachine
  import opened VmUser
  import opened VmCopy

  function Pow256(k: nat): nat {
    if k == 0 then 1 else 256 * Pow256(k - 1)
  }

  /** Word `was` with its first k bytes those of word `now`. */
  function Mix(was: int, now: int, k: int): int {
    if k <= 0 then was
    else if k >= 8 then now
    else PowPositive(k); was - was % Pow256(k) + now % Pow256(k)
  }

  lemma PowPositive(k: nat)
    ensures Pow256(k) > 0
  {
  }

  lemma MixAgain(was: int, now: int, k: int)
    ensures Mix(Mix(was, now, k), now, k) == Mix(was, now, k)
  {
    if 0 < k < 8 {
      PowPositive(k);
      MixedRest(was, now, Pow256(k));
    }
  }

  lemma MixedRest(was: int, now: int, d: int)
    requires d > 0
    ensures var w := was - was % d + now % d; w % d == now % d
  {
    var q, r := was / d, now % d;
    assert was - was % d + r == d * q + r;
    Rest(q, r, d);
  }

  lemma Rest(q: int, r: int, d: int)
    requires 0 <= r < d
    ensures (d * q + r) % d == r
  {
    var x := d * q + r;
    Quotient(q, r, x / d, x % d, d);
  }

  lemma Quotient(q: int, r: int, q1: int, r1: int, d: int)
    requires 0 <= r < d && 0 <= r1 < d && d * q + r == d * q1 + r1
    ensures r == r1
  {
    if q < q1 {
      TimesMore(d, q, q1);
    } else if q1 < q {
      TimesMore(d, q1, q);
    }
  }

  lemma TimesMore(d: int, q: int, q1: int)
    requires d > 0 && q < q1
    ensures d * q + d <= d * q1
    decreases q1 - q
  {
    assert d * q1 == d * q + d * (q1 - q);
    if q1 - q > 1 {
      TimesMore(d, q, q1 - 1);
    }
  }

  /** Page `was` with its first n bytes those of page `now`. */
  function Overlay(was: Page, now: Page, n: int): (p: Page)
    requires |was| == |now| == ENTRIES
    ensures |p| == ENTRIES && forall j :: 0 <= j < ENTRIES ==> p[j] == Mix(was[j], now[j], n - 8 * j)
  {
    seq(ENTRIES, j requires 0 <= j < ENTRIES => Mix(was[j], now[j], n - 8 * j))
  }

  lemma OverlayWhole(was: Page, now: Page, n: int)
    requires |was| == |now| == ENTRIES && n >= 4096
    ensures Overlay(was, now, n) == now
  {
  }

  /** The first n bytes of p are those of img. */
  predicate HasPrefix(p: Page, img: Page, n: int) {
    |p| == |img| == ENTRIES && p == Overlay(p, img, n)
  }

  lemma OverlayHas(was: Page, img: Page, n: int)
    requires |was| == |img| == ENTRIES
    ensures HasPrefix(Overlay(was, img, n), img, n)
  {
    hide Mix;
    var p := Overlay(was, img, n);
    var q := Overlay(p, img, n);
    forall j | 0 <= j < ENTRIES ensures q[j] == p[j] {
      MixAgain(was[j], img[j], n - 8 * j);
    }
  }

  /** Page x is mapped as before and holds what it held. */
  predicate SamePage(mem: seq<Page>, sp: Space, mem1: seq<Page>, sp1: Space, x: int) {
    && x in sp.flat && x in sp1.flat && sp1.flat[x] == sp.flat[x]
    && var f := PteFrame(sp.flat[x]); 0 <= f < |mem| == |mem1| && mem1[f] == mem[f]
  }

  ghost predicate PagesSame(mem: seq<Page>, sp: Space, mem1: seq<Page>, sp1: Space, n: int) {
    forall x :: 0 <= x < n ==> SamePage(mem, sp, mem1, sp1, x)
  }

  /** Page x is mapped, and its first n bytes are those of img. */
  predicate PageHas(mem: seq<Page>, sp: Space, x: int, img: Page, n: int) {
    x in sp.flat && 0 <= PteFrame(sp.flat[x]) < |mem| && HasPrefix(mem[PteFrame(sp.flat[x])], img, n)
  }

  // ---- While a segment is loaded ----

  /** With j pages loaded from v on: what page x holds, mem0 being memory before. */
  ghost predicate PageNow(mem0: seq<Page>, mem: seq<Page>, sp: Space, v: int, image: seq<Page>, size: int, j: int, x: int) {
    && x in sp.flat && 0 <= PteFrame(sp.flat[x]) < |mem0| == |mem|
    && var f := PteFrame(sp.flat[x]);
       if v <= x < v + j
       then |mem0[f]| == ENTRIES && x - v < |image| && |image[x - v]| == ENTRIES && mem[f] == Overlay(mem0[f], image[x - v], size - 4096 * (x - v))
       else mem[f] == mem0[f]
  }

  ghost predicate LoadedTo(mem0: seq<Page>, mem: seq<Page>, sp: Space, n: int, v: int, image: seq<Page>, size: int, j: int) {
    forall x :: 0 <= x < n ==> PageNow(mem0, mem, sp, v, image, size, j, x)
  }

  /** The frame of a user page. */
  lemma UserFrame(z: Frames, mem: seq<Page>, sp: Space, avail: set<int>, n: int, top: set<int>, x: int)
    requires SpaceOk(z, mem, sp, avail) && UserSpace(sp, n, top) && 0 <= x < n
    ensures x in sp.flat
    ensures var f := PteFrame(sp.flat[x]); 0 < f < |mem| && f in sp.page && f !in avail && f !in sp.role && sp.page[f] == x
  {
    hide Tree, PteFrame;
    assert Owned(sp, x);
    var f := PteFrame(sp.flat[x]);
    assert PageOk(z, sp, f) && f in Own(sp);
    TreeBounds(z, mem, sp);
  }

  lemma NoneLoaded(z: Frames, mem: seq<Page>, sp: Space, avail: set<int>, n: int, top: set<int>, v: int, image: seq<Page>, size: int)
    requires SpaceOk(z, mem, sp, avail) && UserSpace(sp, n, top)
    ensures LoadedTo(mem, mem, sp, n, v, image, size, 0)
  {
    hide SpaceOk, UserSpace;
    forall x | 0 <= x < n ensures PageNow(mem, mem, sp, v, image, size, 0, x) {
      UserFrame(z, mem, sp, avail, n, top, x);
    }
  }

  /** One more page is loaded. */
  lemma LoadOne(z: Frames, mem0: seq<Page>, mem: seq<Page>, mem1: seq<Page>, sp: Space, avail: set<int>, n: int, top: set<int>,
                v: int, image: seq<Page>, size: int, j: int, f: int, k: int)
    requires SpaceOk(z, mem, sp, avail) && UserSpace(sp, n, top) && LoadedTo(mem0, mem, sp, n, v, image, size, j)
    requires 0 <= v && 0 <= j < |image| && v + j < n && v + j in sp.flat && f == PteFrame(sp.flat[v + j]) && 0 <= f < |mem|
    requires |mem[f]| == ENTRIES == |image[j]| && mem1 == mem[f := Overlay(mem[f], image[j], k)]
    requires k == if size - 4096 * j < 4096 then size - 4096 * j else 4096
    ensures LoadedTo(mem0, mem1, sp, n, v, image, size, j + 1)
  {
    hide SpaceOk, UserSpace, Overlay, PteFrame;
    UserFrame(z, mem, sp, avail, n, top, v + j);
    assert PageNow(mem0, mem, sp, v, image, size, j, v + j);
    if size - 4096 * j >= 4096 {
      OverlayWhole(mem[f], image[j], k);
      OverlayWhole(mem[f], image[j], size - 4096 * j);
    }
    var j1 := j + 1;
    forall x | 0 <= x < n ensures PageNow(mem0, mem1, sp, v, image, size, j1, x) {
      UserFrame(z, mem, sp, avail, n, top, x);
      assert PageNow(mem0, mem, sp, v, image, size, j, x);
    }
  }

  /** The pages of a user space are so many frames. */
  lemma UserFits(z: Frames, mem: seq<Page>, sp: Space, avail: set<int>, n: int, top: set<int>)
    requires SpaceOk(z, mem, sp, avail) && UserSpace(sp, n, top) && z.first <= z.last
    ensures n <= z.last - z.first
  {
    hide Tree, Owned;
    var mine := UserFrames(sp, n, top, n);
    forall f | f in mine ensures z.first <= f < z.last {
      assert PageOk(z, sp, f);
    }
    Bounded(mine, z.first, z.last);
  }

  /** The old pages stay as they are while the space grows out of free frames. */
  lemma GrownSame(z: Frames, mem: seq<Page>, mem1: seq<Page>, sp: Space, sp1: Space, avail: set<int>, n: int, top: set<int>, a: int)
    requires SpaceOk(z, mem, sp, avail) && UserSpace(sp, n, top) && Extends(sp, sp1, n, a) && Kept(mem, mem1, avail + sp.role.Keys)
    ensures PagesSame(mem, sp, mem1, sp1, n)
  {
    hide SpaceOk, UserSpace, PteFrame;
    forall x | 0 <= x < n ensures SamePage(mem, sp, mem1, sp1, x) {
      UserFrame(z, mem, sp, avail, n, top, x);
    }
  }
}

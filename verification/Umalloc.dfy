/** The storage allocator of user/umalloc.c (The C Programming Language, 2nd edition,
    section 8.7): a circular list of free blocks in address order. Addresses and sizes
    are in units of sizeof(Header). */
module Umalloc {
  function Next(ring: seq<int>, k: nat): int
    requires k < |ring|
  {
    if k + 1 < |ring| then ring[k + 1] else ring[0]
  }

  /** The ptr fields close the list into a ring. */
  ghost predicate Linked(ptr: map<int, int>, ring: seq<int>) {
    && (forall i :: 0 <= i < |ring| ==> ring[i] in ptr)
    && (forall i {:trigger ptr[ring[i]]} {:trigger Next(ring, i)} :: 0 <= i < |ring| ==> ptr[ring[i]] == Next(ring, i))
  }

  /** The list starts at `base` and is in address order, with a gap after every block. */
  ghost predicate Ordered(base: int, size: map<int, int>, ring: seq<int>) {
    && ring != [] && ring[0] == base > 0 && base in size && size[base] == 0
    && (forall i :: 0 < i < |ring| ==> ring[i] in size && size[ring[i]] >= 1)
    && (forall i, j :: 0 <= i < j < |ring| ==> Before(size, ring[i], ring[j]))
  }

  predicate Before(size: map<int, int>, a: int, b: int) {
    a in size && a + size[a] < b
  }

  ghost predicate RingOk(base: int, ptr: map<int, int>, size: map<int, int>, ring: seq<int>) {
    Linked(ptr, ring) && Ordered(base, size, ring)
  }

  ghost function FreeBlocks(ring: seq<int>): set<int> {
    set i | 0 < i < |ring| :: ring[i]
  }

  predicate Inside(size: map<int, int>, a: int, u: int) {
    a in size && a <= u < a + size[a]
  }

  /** Every unit obtained from sbrk belongs to exactly one block: `owner` maps it there. */
  ghost predicate Partition(size: map<int, int>, blocks: set<int>, owner: map<int, int>) {
    && (forall u :: u in owner ==> owner[u] in blocks && Inside(size, owner[u], u))
    && (forall a :: a in blocks ==> a in size && size[a] >= 1)
    && (forall a, u :: a in blocks && Inside(size, a, u) ==> u in owner && owner[u] == a)
  }

  /** Two different blocks do not overlap. */
  lemma Disjoint(size: map<int, int>, blocks: set<int>, owner: map<int, int>, a: int, b: int)
    requires Partition(size, blocks, owner) && a in blocks && b in blocks && a < b
    ensures a + size[a] <= b
  {
    assert Inside(size, b, b);
    assert !Inside(size, a, b);
  }

  /** Where a block that is not free belongs: after ring[k]. */
  ghost predicate Slot(ring: seq<int>, bp: int, k: nat) {
    k < |ring| && ring[k] < bp && (k + 1 < |ring| ==> bp < ring[k + 1])
  }

  lemma {:induction false} SlotExists(ring: seq<int>, bp: int, n: nat) returns (k: nat)
    requires 0 < n <= |ring| && ring[0] < bp && bp !in ring
    requires n == |ring| || bp < ring[n]
    ensures Slot(ring, bp, k)
  {
    if ring[n - 1] < bp {
      k := n - 1;
    } else {
      k := SlotExists(ring, bp, n - 1);
    }
  }

  // ---- Edits of the ring ----

  function Without(ring: seq<int>, k: nat): seq<int>
    requires k < |ring|
  {
    ring[..k] + ring[k + 1..]
  }

  function With(ring: seq<int>, k: nat, bp: int): seq<int>
    requires k < |ring|
  {
    ring[..k + 1] + [bp] + ring[k + 1..]
  }

  ghost predicate Ascending(ring: seq<int>) {
    forall i, j :: 0 <= i < j < |ring| ==> ring[i] < ring[j]
  }

  lemma InsertLinked(ptr: map<int, int>, ring: seq<int>, k: nat, bp: int)
    requires Linked(ptr, ring) && Ascending(ring) && k < |ring| && bp !in ring
    ensures Linked(ptr[bp := Next(ring, k)][ring[k] := bp], With(ring, k, bp))
  {
    var ring', ptr' := With(ring, k, bp), ptr[bp := Next(ring, k)][ring[k] := bp];
    forall i | 0 <= i < |ring'| ensures ring'[i] in ptr' && ptr'[ring'[i]] == Next(ring', i) {
      if i > k + 1 {
        assert ring'[i] == ring[i - 1];
      }
    }
  }

  lemma InsertOrdered(base: int, size: map<int, int>, ring: seq<int>, k: nat, bp: int)
    requires Ordered(base, size, ring) && Slot(ring, bp, k) && bp in size && size[bp] >= 1
    requires ring[k] + size[ring[k]] < bp && (k + 1 < |ring| ==> bp + size[bp] < ring[k + 1])
    ensures Ordered(base, size, With(ring, k, bp))
  {
    var ring' := With(ring, k, bp);
    forall i, j | 0 <= i < j < |ring'| ensures Before(size, ring'[i], ring'[j]) {
      if j <= k {
        assert Before(size, ring[i], ring[j]);
      } else if j == k + 1 {
        assert i < k ==> Before(size, ring[i], ring[k]);
      } else if i <= k {
        assert Before(size, ring[i], ring[j - 1]);
      } else if i == k + 1 {
        assert j == k + 2 || Before(size, ring[k + 1], ring[j - 1]);
      } else {
        assert Before(size, ring[i - 1], ring[j - 1]);
      }
    }
    forall i | 0 < i < |ring'| ensures ring'[i] in size && size[ring'[i]] >= 1 {
      assert i > k + 1 ==> ring'[i] == ring[i - 1];
    }
  }

  lemma InsertRing(base: int, ptr: map<int, int>, size: map<int, int>, ring: seq<int>, k: nat, bp: int)
    requires RingOk(base, ptr, size, ring) && Slot(ring, bp, k) && bp in size && size[bp] >= 1
    requires ring[k] + size[ring[k]] < bp && (k + 1 < |ring| ==> bp + size[bp] < ring[k + 1])
    ensures RingOk(base, ptr[bp := Next(ring, k)][ring[k] := bp], size, With(ring, k, bp))
  {
    assert Ascending(ring) && bp !in ring;
    InsertLinked(ptr, ring, k, bp);
    InsertOrdered(base, size, ring, k, bp);
  }

  lemma RemoveLinked(ptr: map<int, int>, ring: seq<int>, k: nat)
    requires Linked(ptr, ring) && Ascending(ring) && 0 < k < |ring|
    ensures Linked(ptr[ring[k - 1] := ptr[ring[k]]], Without(ring, k))
  {
    var ring', ptr' := Without(ring, k), ptr[ring[k - 1] := ptr[ring[k]]];
    forall i | 0 <= i < |ring'| ensures ring'[i] in ptr' && ptr'[ring'[i]] == Next(ring', i) {
      if i >= k {
        assert ring'[i] == ring[i + 1];
      }
    }
  }

  lemma RemoveOrdered(base: int, size: map<int, int>, ring: seq<int>, k: nat)
    requires Ordered(base, size, ring) && 0 < k < |ring|
    ensures Ordered(base, size, Without(ring, k))
  {
    var ring' := Without(ring, k);
    forall i, j | 0 <= i < j < |ring'| ensures Before(size, ring'[i], ring'[j]) {
      assert Before(size, ring[if i < k then i else i + 1], ring[if j < k then j else j + 1]);
    }
    forall i | 0 < i < |ring'| ensures ring'[i] in size && size[ring'[i]] >= 1 {
      assert i >= k ==> ring'[i] == ring[i + 1];
    }
  }

  lemma RemoveRing(base: int, ptr: map<int, int>, size: map<int, int>, ring: seq<int>, k: nat)
    requires RingOk(base, ptr, size, ring) && 0 < k < |ring|
    ensures RingOk(base, ptr[ring[k - 1] := ptr[ring[k]]], size, Without(ring, k))
  {
    assert Ascending(ring);
    RemoveLinked(ptr, ring, k);
    RemoveOrdered(base, size, ring, k);
  }

  /** A free block may change size within its gap. */
  lemma ResizeRing(base: int, ptr: map<int, int>, size: map<int, int>, ring: seq<int>, k: nat, n: int)
    requires RingOk(base, ptr, size, ring) && 0 < k < |ring| && n >= 1
    requires k + 1 < |ring| ==> ring[k] + n < ring[k + 1]
    ensures RingOk(base, ptr, size[ring[k] := n], ring)
  {
    var size' := size[ring[k] := n];
    forall i, j | 0 <= i < j < |ring| ensures Before(size', ring[i], ring[j]) {
      assert Before(size, ring[i], ring[j]);
      if i == k {
        assert k + 1 == j || Before(size, ring[k + 1], ring[j]);
      } else {
        assert ring[i] != ring[k] by {
          if i < k { assert Before(size, ring[i], ring[k]); } else { assert Before(size, ring[k], ring[i]); }
        }
      }
    }
  }

  /** The fields of blocks outside the ring do not matter to it. */
  lemma OutsideRing(base: int, ptr: map<int, int>, size: map<int, int>, ring: seq<int>, a: int, p: int, n: int)
    requires RingOk(base, ptr, size, ring) && a !in ring
    ensures RingOk(base, ptr[a := p], size[a := n], ring)
    ensures RingOk(base, ptr, size[a := n], ring)
  {
  }

  // ---- Edits of the partition ----

  ghost function Merged(owner: map<int, int>, a: int, b: int): (r: map<int, int>)
    ensures r.Keys == owner.Keys
  {
    map u | u in owner :: if owner[u] == b then a else owner[u]
  }

  /** Block a swallows the block b that starts where a ends. */
  lemma MergePartition(size: map<int, int>, blocks: set<int>, owner: map<int, int>, a: int, b: int)
    requires Partition(size, blocks, owner) && a in blocks && b in blocks && a + size[a] == b
    ensures Partition(size[a := size[a] + size[b]], blocks - {b}, Merged(owner, a, b))
  {
    var size', owner' := size[a := size[a] + size[b]], Merged(owner, a, b);
    forall x: int, u: int | x in blocks - {b} && Inside(size', x, u) ensures u in owner' && owner'[u] == x {
      assert Inside(size, x, u) || Inside(size, b, u);
    }
  }

  ghost function Split(owner: map<int, int>, a: int, c: int): (r: map<int, int>)
    ensures r.Keys == owner.Keys
  {
    map u | u in owner :: if owner[u] == a && u >= c then c else owner[u]
  }

  /** The last n units of block a become block c. */
  lemma SplitPartition(size: map<int, int>, blocks: set<int>, owner: map<int, int>, a: int, n: int, c: int)
    requires Partition(size, blocks, owner) && a in blocks && 1 <= n < size[a] && c == a + size[a] - n
    ensures c !in blocks
    ensures Partition(size[a := size[a] - n][c := n], blocks + {c}, Split(owner, a, c))
  {
    assert Inside(size, a, c);
    if c in blocks {
      Disjoint(size, blocks, owner, a, c);
    }
    var size', owner' := size[a := size[a] - n][c := n], Split(owner, a, c);
    forall x: int, u: int | x in blocks + {c} && Inside(size', x, u) ensures u in owner' && owner'[u] == x {
      assert if x == c then Inside(size, a, u) else Inside(size, x, u);
    }
  }

  ghost function Grown(owner: map<int, int>, hp: int, n: nat): (r: map<int, int>)
    requires forall u :: u in owner ==> u < hp
    ensures forall u :: u in r <==> u in owner || hp <= u < hp + n
    ensures forall u :: u in r ==> r[u] == if u in owner then owner[u] else hp
  {
    if n == 0 then owner else Grown(owner, hp, n - 1)[hp + n - 1 := hp]
  }

  /** Fresh units from sbrk become a block. */
  lemma GrowPartition(size: map<int, int>, blocks: set<int>, owner: map<int, int>, hp: int, n: nat)
    requires Partition(size, blocks, owner) && n >= 1 && forall u :: u in owner ==> u < hp
    ensures hp !in blocks
    ensures Partition(size[hp := n], blocks + {hp}, Grown(owner, hp, n))
  {
    assert hp in blocks ==> Inside(size, hp, hp);
    var size', owner' := size[hp := n], Grown(owner, hp, n);
    forall x: int, u: int | x in blocks + {hp} && Inside(size', x, u) ensures u in owner' && owner'[u] == x {
      assert x == hp || Inside(size, x, u);
    }
    forall u | u in owner' ensures owner'[u] in blocks + {hp} && Inside(size', owner'[u], u) {
      assert u in owner ==> Inside(size, owner[u], u);
    }
  }

  // ---- free ----

  /** The memory after free has linked bp in behind p, as its assignments leave it. */
  function FreePtr(ptr: map<int, int>, size: map<int, int>, p: int, bp: int): map<int, int>
    requires p in ptr && ptr[p] in ptr && bp in size && p in size && ptr[p] in size
  {
    var q := ptr[p];
    var end := if bp + size[bp] == q then ptr[q] else q;
    ptr[bp := end][p := if p + size[p] == bp then end else bp]
  }

  function FreeSize(ptr: map<int, int>, size: map<int, int>, p: int, bp: int): map<int, int>
    requires p in ptr && ptr[p] in ptr && bp in size && p in size && ptr[p] in size
  {
    var q := ptr[p];
    var mine := if bp + size[bp] == q then size[bp] + size[q] else size[bp];
    if p + size[p] == bp then size[bp := mine][p := size[p] + mine] else size[bp := mine]
  }

  lemma FreeBlocksWith(ring: seq<int>, k: nat, bp: int)
    requires k < |ring|
    ensures FreeBlocks(With(ring, k, bp)) == FreeBlocks(ring) + {bp}
  {
    var ring' := With(ring, k, bp);
    forall x | x in FreeBlocks(ring) ensures x in FreeBlocks(ring') {
      var i :| 0 < i < |ring| && ring[i] == x;
      assert ring'[if i <= k then i else i + 1] == x;
    }
    assert ring'[k + 1] == bp;
    forall x | x in FreeBlocks(ring') ensures x in FreeBlocks(ring) || x == bp {
      var i :| 0 < i < |ring'| && ring'[i] == x;
      assert i == k + 1 || ring[if i <= k then i else i - 1] == x;
    }
  }

  lemma FreeBlocksWithout(ring: seq<int>, k: nat)
    requires 0 < k < |ring| && Ascending(ring)
    ensures FreeBlocks(Without(ring, k)) == FreeBlocks(ring) - {ring[k]}
  {
    var ring' := Without(ring, k);
    forall x | x in FreeBlocks(ring) && x != ring[k] ensures x in FreeBlocks(ring') {
      var i :| 0 < i < |ring| && ring[i] == x;
      assert ring'[if i < k then i else i - 1] == x;
    }
    forall x | x in FreeBlocks(ring') ensures x in FreeBlocks(ring) && x != ring[k] {
      var i :| 0 < i < |ring'| && ring'[i] == x;
      assert ring[if i < k then i else i + 1] == x;
    }
  }

  /** The allocator's memory: ring, live blocks and units agree. */
  ghost predicate HeapOk(base: int, ptr: map<int, int>, size: map<int, int>, ring: seq<int>, live: set<int>, owner: map<int, int>) {
    && RingOk(base, ptr, size, ring)
    && (forall a :: a in live ==> a !in ring && a > base)
    && Partition(size, FreeBlocks(ring) + live, owner)
  }

  lemma InRing(ring: seq<int>, k: nat)
    requires 0 < k < |ring|
    ensures ring[k] in FreeBlocks(ring)
  {
  }

  lemma FreeNeither(base: int, ptr: map<int, int>, size: map<int, int>, ring: seq<int>, live: set<int>, owner: map<int, int>, k: nat, bp: int)
    requires HeapOk(base, ptr, size, ring, live, owner) && bp in live && Slot(ring, bp, k)
    requires ring[k] + size[ring[k]] < bp && (k + 1 < |ring| ==> bp + size[bp] < ring[k + 1])
    ensures HeapOk(base, ptr[bp := Next(ring, k)][ring[k] := bp], size, With(ring, k, bp), live - {bp}, owner)
  {
    InsertRing(base, ptr, size, ring, k, bp);
    FreeBlocksWith(ring, k, bp);
    assert FreeBlocks(ring) + {bp} + (live - {bp}) == FreeBlocks(ring) + live;
    assert forall x :: x in With(ring, k, bp) <==> x in ring || x == bp;
  }

  lemma RingFacts(base: int, ptr: map<int, int>, size: map<int, int>, ring: seq<int>, k: nat)
    requires RingOk(base, ptr, size, ring) && k < |ring|
    ensures Ascending(ring) && ring[k] in ptr && ring[k] in size && ptr[ring[k]] == Next(ring, k)
  {
    assert forall i, j :: 0 <= i < j < |ring| ==> Before(size, ring[i], ring[j]);
  }

  lemma FreeUpRing(base: int, ptr: map<int, int>, size: map<int, int>, ring: seq<int>, k: nat, bp: int, q: int, n: int)
    requires RingOk(base, ptr, size, ring) && k + 1 < |ring| && q == ring[k + 1] && bp !in ring
    ensures RingOk(base, ptr[ring[k] := ptr[q]], size[bp := n], Without(ring, k + 1))
  {
    RemoveRing(base, ptr, size, ring, k + 1);
    assert forall x :: x in Without(ring, k + 1) ==> x in ring;
    OutsideRing(base, ptr[ring[k] := ptr[q]], size, Without(ring, k + 1), bp, 0, n);
  }

  lemma FreeUpUnits(size: map<int, int>, ring: seq<int>, live: set<int>, owner: map<int, int>, k: nat, bp: int, q: int)
    requires Partition(size, FreeBlocks(ring) + live, owner) && Ascending(ring) && bp in live
    requires k + 1 < |ring| && q == ring[k + 1] && q !in live && bp + size[bp] == q
    ensures Partition(size[bp := size[bp] + size[q]], FreeBlocks(Without(ring, k + 1)) + live, Merged(owner, bp, q))
  {
    InRing(ring, k + 1);
    FreeBlocksWithout(ring, k + 1);
    MergePartition(size, FreeBlocks(ring) + live, owner, bp, q);
    assert FreeBlocks(ring) + live - {q} == FreeBlocks(Without(ring, k + 1)) + live;
  }

  /** The freed block reaches up to its successor: remove the successor, then link the
      enlarged block in. */
  lemma FreeUp(base: int, ptr: map<int, int>, size: map<int, int>, ring: seq<int>, live: set<int>, owner: map<int, int>, k: nat, bp: int, q: int)
    requires HeapOk(base, ptr, size, ring, live, owner) && bp in live && k + 1 < |ring| && q == ring[k + 1]
    requires bp in size && bp + size[bp] == q
    ensures HeapOk(base, ptr[ring[k] := ptr[q]], size[bp := size[bp] + size[q]], Without(ring, k + 1), live, Merged(owner, bp, q))
  {
    hide RingOk, Partition, FreeBlocks, Ascending, Without, Merged;
    RingFacts(base, ptr, size, ring, k + 1);
    FreeUpUnits(size, ring, live, owner, k, bp, q);
    FreeUpRing(base, ptr, size, ring, k, bp, q, size[bp] + size[q]);
    WithoutInside(ring, k + 1);
  }

  lemma WithoutInside(ring: seq<int>, k: nat)
    requires k < |ring|
    ensures forall x :: x in Without(ring, k) ==> x in ring
  {
  }

  lemma FreeUpSlot(base: int, ptr: map<int, int>, size: map<int, int>, ring: seq<int>, live: set<int>, owner: map<int, int>, k: nat, bp: int, q: int)
    requires HeapOk(base, ptr, size, ring, live, owner) && Slot(ring, bp, k) && bp in size && k + 1 < |ring| && q == ring[k + 1]
    requires bp + size[bp] == q
    ensures var ring' := Without(ring, k + 1);
            && Slot(ring', bp, k) && ring'[k] == ring[k] && ptr[q] == Next(ring', k)
            && (k + 1 < |ring'| ==> bp + size[bp] + size[q] < ring'[k + 1])
  {
    assert k + 2 < |ring| ==> Before(size, ring[k + 1], ring[k + 2]);
  }

  lemma FreeDownRing(base: int, ptr: map<int, int>, size: map<int, int>, ring: seq<int>, k: nat, bp: int, p: int, n: int, x: int)
    requires RingOk(base, ptr, size, ring) && 0 < k < |ring| && p == ring[k] && bp !in ring && n >= 1
    requires k + 1 < |ring| ==> p + n < ring[k + 1]
    ensures RingOk(base, ptr[bp := x], size[p := n], ring)
  {
    ResizeRing(base, ptr, size, ring, k, n);
  }

  lemma FreeDownUnits(size: map<int, int>, ring: seq<int>, live: set<int>, owner: map<int, int>, k: nat, bp: int, p: int)
    requires Partition(size, FreeBlocks(ring) + live, owner) && bp in live && bp !in FreeBlocks(ring)
    requires 0 < k < |ring| && p == ring[k] && p + size[p] == bp
    ensures Partition(size[p := size[p] + size[bp]], FreeBlocks(ring) + (live - {bp}), Merged(owner, p, bp))
  {
    InRing(ring, k);
    MergePartition(size, FreeBlocks(ring) + live, owner, p, bp);
    assert FreeBlocks(ring) + live - {bp} == FreeBlocks(ring) + (live - {bp});
  }

  /** The freed block starts where its predecessor ends. */
  lemma FreeDown(base: int, ptr: map<int, int>, size: map<int, int>, ring: seq<int>, live: set<int>, owner: map<int, int>,
                 k: nat, bp: int, p: int, x: int)
    requires HeapOk(base, ptr, size, ring, live, owner) && bp in live && Slot(ring, bp, k) && p == ring[k]
    requires p + size[p] == bp && (k + 1 < |ring| ==> bp + size[bp] < ring[k + 1])
    ensures HeapOk(base, ptr[bp := x], size[p := size[p] + size[bp]], ring, live - {bp}, Merged(owner, p, bp))
  {
    FreeDownRing(base, ptr, size, ring, k, bp, p, size[p] + size[bp], x);
    FreeDownUnits(size, ring, live, owner, k, bp, p);
  }

  /** What free leaves, given the slot: the ring stays in order with gaps and the units
      stay partitioned. */
  lemma FreeOk(base: int, ptr: map<int, int>, size: map<int, int>, ring: seq<int>, live: set<int>, owner: map<int, int>,
               k: nat, bp: int) returns (ring': seq<int>, owner': map<int, int>)
    requires HeapOk(base, ptr, size, ring, live, owner) && bp in live && Slot(ring, bp, k)
    requires bp in size && ring[k] in ptr && ring[k] in size && ptr[ring[k]] in ptr && ptr[ring[k]] in size
    ensures HeapOk(base, FreePtr(ptr, size, ring[k], bp), FreeSize(ptr, size, ring[k], bp), ring', live - {bp}, owner')
    ensures owner'.Keys == owner.Keys
    ensures k < |ring'| && ring'[k] == ring[k]
  {
    hide RingOk, HeapOk, Partition, FreeBlocks, Without, With, Merged, FreePtr, FreeSize;
    var p, q := ring[k], Next(ring, k);
    FreeGaps(base, ptr, size, ring, live, owner, k, bp);
    var up, down := bp + size[bp] == q, p + size[p] == bp;
    if up {
      FreeUp(base, ptr, size, ring, live, owner, k, bp, q);
      FreeUpSlot(base, ptr, size, ring, live, owner, k, bp, q);
      var size1 := size[bp := size[bp] + size[q]];
      ring', owner' := FreeLow(base, ptr[p := ptr[q]], size1, Without(ring, k + 1), live, Merged(owner, bp, q), k, bp, p);
    } else {
      ring', owner' := FreeLow(base, ptr, size, ring, live, owner, k, bp, p);
    }
    FreeMemory(ptr, size, p, bp, q, up, down, if up then ptr[q] else q);
  }

  /** free's second half: nothing to merge with above. */
  lemma FreeLow(base: int, ptr: map<int, int>, size: map<int, int>, ring: seq<int>, live: set<int>, owner: map<int, int>,
                k: nat, bp: int, p: int) returns (ring': seq<int>, owner': map<int, int>)
    requires HeapOk(base, ptr, size, ring, live, owner) && bp in live && Slot(ring, bp, k) && p == ring[k]
    requires p in size && bp in size && p + size[p] <= bp && (k + 1 < |ring| ==> bp + size[bp] < ring[k + 1])
    ensures var ptr1 := ptr[bp := Next(ring, k)];
            if p + size[p] == bp
            then HeapOk(base, ptr1, size[p := size[p] + size[bp]], ring', live - {bp}, owner')
            else HeapOk(base, ptr1[p := bp], size, ring', live - {bp}, owner')
    ensures owner'.Keys == owner.Keys && k < |ring'| && ring'[k] == p
  {
    if p + size[p] == bp {
      FreeDown(base, ptr, size, ring, live, owner, k, bp, p, Next(ring, k));
      ring', owner' := ring, Merged(owner, p, bp);
    } else {
      FreeNeither(base, ptr, size, ring, live, owner, k, bp);
      ring', owner' := With(ring, k, bp), owner;
    }
  }

  /** The two phases of the proof and free's assignments write the same memory. */
  lemma FreeMemory(ptr: map<int, int>, size: map<int, int>, p: int, bp: int, q: int, up: bool, down: bool, end: int)
    requires p in ptr && ptr[p] == q && q in ptr && bp in size && p in size && q in size && p != bp && (p == q ==> bp + size[bp] != q)
    requires up == (bp + size[bp] == q) && down == (p + size[p] == bp) && end == (if up then ptr[q] else q)
    ensures var ptr1: map<int, int>, size1: map<int, int> :=
              if up then ptr[p := ptr[q]] else ptr, if up then size[bp := size[bp] + size[q]] else size;
            && (down ==> FreePtr(ptr, size, p, bp) == ptr1[bp := end] && FreeSize(ptr, size, p, bp) == size1[p := size1[p] + size1[bp]])
            && (!down ==> FreePtr(ptr, size, p, bp) == ptr1[bp := end][p := bp] && FreeSize(ptr, size, p, bp) == size1)
  {
  }

  lemma FreeGaps(base: int, ptr: map<int, int>, size: map<int, int>, ring: seq<int>, live: set<int>, owner: map<int, int>, k: nat, bp: int)
    requires HeapOk(base, ptr, size, ring, live, owner) && bp in live && Slot(ring, bp, k)
    ensures bp in size && size[bp] >= 1 && ring[k] in size && ring[k] + size[ring[k]] <= bp
    ensures k + 1 < |ring| ==> bp + size[bp] <= ring[k + 1]
    ensures k + 1 == |ring| ==> bp + size[bp] != ring[0]
    ensures var q := Next(ring, k); ring[k] in ptr && ptr[ring[k]] == q && q in ptr && q in size && bp != ring[k] && ring[k] > 0
  {
    assert ring[0] in ptr;
    assert k > 0 ==> Before(size, ring[0], ring[k]);
    if k > 0 {
      InRing(ring, k);
      Disjoint(size, FreeBlocks(ring) + live, owner, ring[k], bp);
    }
    if k + 1 < |ring| {
      InRing(ring, k + 1);
      Disjoint(size, FreeBlocks(ring) + live, owner, bp, ring[k + 1]);
    }
  }

  /** After free, the block behind freep or freep itself holds the freed units. */
  lemma FreeEnough(base: int, ptr: map<int, int>, size: map<int, int>, ring: seq<int>, live: set<int>, owner: map<int, int>, k: nat, bp: int)
    requires HeapOk(base, ptr, size, ring, live, owner) && bp in live && Slot(ring, bp, k)
    requires bp in size && ring[k] in ptr && ring[k] in size && ptr[ring[k]] in ptr && ptr[ring[k]] in size
    ensures var p := ring[k];
            var ptr', size' := FreePtr(ptr, size, p, bp), FreeSize(ptr, size, p, bp);
            && p in size' && p in ptr'
            && (size'[p] >= size[bp] || (ptr'[p] in size' && size'[ptr'[p]] >= size[bp]))
    ensures forall a :: a in live && a != bp ==> a in size && a in FreeSize(ptr, size, ring[k], bp) && FreeSize(ptr, size, ring[k], bp)[a] == size[a]
  {
    FreeGaps(base, ptr, size, ring, live, owner, k, bp);
    assert Next(ring, k) in ring;
    assert forall i :: 0 < i < |ring| ==> size[ring[i]] >= 1;
  }

  /** malloc takes a whole free block out of the ring. */
  lemma TakeWhole(base: int, ptr: map<int, int>, size: map<int, int>, ring: seq<int>, live: set<int>, owner: map<int, int>, k: nat)
    requires HeapOk(base, ptr, size, ring, live, owner) && 0 < k < |ring|
    ensures ring[k] in ptr
    ensures HeapOk(base, ptr[ring[k - 1] := ptr[ring[k]]], size, Without(ring, k), live + {ring[k]}, owner)
  {
    hide Partition, Linked, FreeBlocks, Without;
    RingFacts(base, ptr, size, ring, k);
    RemoveRing(base, ptr, size, ring, k);
    FreeBlocksWithout(ring, k);
    InRing(ring, k);
    assert FreeBlocks(ring) - {ring[k]} + (live + {ring[k]}) == FreeBlocks(ring) + live;
    WithoutInside(ring, k);
    WithoutNot(ring, k);
    assert ring[k] > base by { assert Before(size, ring[0], ring[k]); }
  }

  lemma WithoutNot(ring: seq<int>, k: nat)
    requires k < |ring| && Ascending(ring)
    ensures ring[k] !in Without(ring, k)
  {
  }

  /** malloc takes the last n units of a larger free block. */
  lemma TakeTail(base: int, ptr: map<int, int>, size: map<int, int>, ring: seq<int>, live: set<int>, owner: map<int, int>, k: nat, n: int, c: int)
    requires HeapOk(base, ptr, size, ring, live, owner) && 0 < k < |ring| && ring[k] in size
    requires 1 <= n < size[ring[k]] && c == ring[k] + size[ring[k]] - n
    ensures c !in live
    ensures HeapOk(base, ptr, size[ring[k] := size[ring[k]] - n][c := n], ring, live + {c}, Split(owner, ring[k], c))
  {
    hide Partition, Linked, FreeBlocks, Split;
    var a := ring[k];
    InRing(ring, k);
    SplitPartition(size, FreeBlocks(ring) + live, owner, a, n, c);
    assert FreeBlocks(ring) + live + {c} == FreeBlocks(ring) + (live + {c});
    assert k + 1 < |ring| ==> Before(size, ring[k], ring[k + 1]);
    ResizeRing(base, ptr, size, ring, k, size[a] - n);
    assert Before(size, ring[0], ring[k]);
    NotFree(ring, c);
    OutsideRing(base, ptr, size[a := size[a] - n], ring, c, 0, n);
  }

  lemma WithoutKeeps(ring: seq<int>, k: nat)
    requires 0 < k < |ring|
    ensures k - 1 < |Without(ring, k)| && Without(ring, k)[k - 1] == ring[k - 1]
  {
  }

  lemma RingPositive(base: int, ptr: map<int, int>, size: map<int, int>, ring: seq<int>, k: nat)
    requires RingOk(base, ptr, size, ring) && k < |ring|
    ensures ring[k] >= base > 0
  {
    assert k > 0 ==> Before(size, ring[0], ring[k]);
  }

  lemma NotFree(ring: seq<int>, c: int)
    requires ring != [] && c != ring[0] && c !in FreeBlocks(ring)
    ensures c !in ring
  {
  }

  lemma GrowHeap(base: int, ptr: map<int, int>, size: map<int, int>, ring: seq<int>, live: set<int>, owner: map<int, int>, hp: int, n: nat)
    requires HeapOk(base, ptr, size, ring, live, owner) && n >= 1 && hp > base && forall u :: u in owner ==> u < hp
    ensures hp !in live
    ensures HeapOk(base, ptr, size[hp := n], ring, live + {hp}, Grown(owner, hp, n))
  {
    hide Partition, Linked, FreeBlocks, Grown;
    GrowPartition(size, FreeBlocks(ring) + live, owner, hp, n);
    assert FreeBlocks(ring) + live + {hp} == FreeBlocks(ring) + (live + {hp});
    NotFree(ring, hp);
    OutsideRing(base, ptr, size, ring, hp, 0, n);
  }

  /** A live block keeps its header: it is not in the ring and it has a size. */
  lemma LiveSized(base: int, ptr: map<int, int>, size: map<int, int>, ring: seq<int>, live: set<int>, owner: map<int, int>, a: int)
    requires HeapOk(base, ptr, size, ring, live, owner) && a in live
    ensures a in size && size[a] >= 1 && a !in ring
  {
  }

  /** Header units for a request of nbytes: the payload rounded up, and the header. */
  function Units(nbytes: int): int {
    (nbytes + 16 - 1) / 16 + 1
  }

  // ---- The searches ----

  /** free's loop stops at p: either bp lies between p and its successor, or p is the
      highest block, the ring wraps there, and bp is outside it. */
  predicate Stops(bp: int, p: int, q: int) {
    (p < bp < q) || (p >= q && (bp > p || bp < q))
  }

  lemma StopsOnlyAtSlot(base: int, ptr: map<int, int>, size: map<int, int>, ring: seq<int>, bp: int, k: nat, j: nat)
    requires RingOk(base, ptr, size, ring) && Slot(ring, bp, k) && j < |ring|
    ensures Stops(bp, ring[j], Next(ring, j)) <==> j == k
  {
    RingFacts(base, ptr, size, ring, j);
    hide RingOk, Ordered, Linked;
    if j < k {
      assert j + 1 == k || ring[j + 1] < ring[k];
    } else if j > k {
      assert j == k + 1 || ring[k + 1] < ring[j];
    }
  }

  /** The block s places after position f on the ring. */
  function At(ring: seq<int>, f: nat, s: nat): int
    requires f < |ring| && s <= |ring|
  {
    if f + s < |ring| then ring[f + s] else ring[f + s - |ring|]
  }

  function Index(n: nat, f: nat, s: nat): nat
    requires f < n && s <= n
  {
    if f + s < n then f + s else f + s - n
  }

  lemma Around(base: int, ptr: map<int, int>, size: map<int, int>, ring: seq<int>, f: nat, s: nat)
    requires RingOk(base, ptr, size, ring) && f < |ring| && s <= |ring|
    ensures var i := Index(|ring|, f, s);
            && i < |ring| && At(ring, f, s) == ring[i] && ring[i] in ptr && ring[i] in size
            && (s < |ring| ==> ptr[ring[i]] == At(ring, f, s + 1))
            && (i == 0 ==> size[ring[i]] == 0)
            && (i > 0 && s > 0 ==> At(ring, f, s - 1) == ring[i - 1])
            && (s > 0 ==> (ring[i] == ring[f] <==> s == |ring|))
  {
    hide Linked;
    var i := Index(|ring|, f, s);
    RingFacts(base, ptr, size, ring, i);
    assert ring[i] == ring[f] ==> i == f;
  }

  /** No block from the one after position f up to s - 1 places on has n units. */
  ghost predicate TooSmall(ring: seq<int>, size: map<int, int>, f: nat, s: nat, n: int)
    requires f < |ring| && s <= |ring|
  {
    forall t :: 1 <= t < s ==> At(ring, f, t) in size && size[At(ring, f, t)] < n
  }

  lemma Start(ring: seq<int>, f: nat)
    requires f < |ring|
    ensures At(ring, f, 0) == ring[f] && Index(|ring|, f, 0) == f
  {
  }

  lemma AllTooSmall(ring: seq<int>, size: map<int, int>, f: nat, n: int)
    requires f < |ring| && TooSmall(ring, size, f, |ring|, n) && ring[f] in size && size[ring[f]] < n
    ensures forall i :: 0 <= i < |ring| ==> ring[i] in size && size[ring[i]] < n
  {
    forall i | 0 <= i < |ring| ensures ring[i] in size && size[ring[i]] < n {
      if i != f {
        assert ring[i] == At(ring, f, if i > f then i - f else i - f + |ring|);
      }
    }
  }

  class Allocator {
    const base: int              // the address of the static header `base`
    var freep: int               // 0 stands for the null pointer
    var ptr: map<int, int>       // s.ptr of every header in memory
    var size: map<int, int>      // s.size of every header in memory
    var brk: int                 // the end of the data segment
    ghost var ring: seq<int>     // the free list in address order, from base
    ghost var live: set<int>     // headers of the blocks handed out and not freed
    ghost var owner: map<int, int>   // every unit obtained from sbrk, to its block
    ghost var grants: nat        // successful and failed calls of morecore

    ghost predicate Valid()
      reads this
    {
      && 0 < base < brk && (forall u :: u in owner ==> u < brk)
      && (freep == 0 ==> live == {} && owner == map[])
      && (freep != 0 ==> HeapOk(base, ptr, size, ring, live, owner) && freep in ring)
    }

    constructor (base: int, brk: int)
      requires 0 < base < brk
      ensures Valid() && live == {} && owner == map[] && this.base == base && this.brk == brk
    {
      this.base, this.brk, freep := base, brk, 0;
      ptr, size, ring, live, owner := map[], map[], [], {}, map[];
    }

    /** The search of free. It stops, and at the slot. */
    method FindSlot(bp: int) returns (p: int, ghost k: nat)
      requires HeapOk(base, ptr, size, ring, live, owner) && freep in ring && bp in live
      ensures Slot(ring, bp, k) && k < |ring| && p == ring[k]
    {
      hide Partition;
      k := SlotExists(ring, bp, |ring|);
      p := freep;
      ghost var j: nat :| j < |ring| && ring[j] == p;
      RingFacts(base, ptr, size, ring, j);
      StopsOnlyAtSlot(base, ptr, size, ring, bp, k, j);
      while !(p < bp < ptr[p])
        invariant 0 <= j < |ring| && p == ring[j] && p in ptr && ptr[p] == Next(ring, j)
        invariant Stops(bp, p, Next(ring, j)) <==> j == k
        decreases if j <= k then k - j else |ring| - j + k
      {
        if p >= ptr[p] && (bp > p || bp < ptr[p]) {
          break;
        }
        p := ptr[p];
        j := if j + 1 < |ring| then j + 1 else 0;
        RingFacts(base, ptr, size, ring, j);
        StopsOnlyAtSlot(base, ptr, size, ring, bp, k, j);
      }
    }

    /** The assignments of free, once the slot is found. */
    method LinkIn(p: int, bp: int)
      requires p in ptr && ptr[p] in ptr && bp in size && p in size && ptr[p] in size && p != bp
      modifies this`ptr, this`size, this`freep
      ensures ptr == FreePtr(old(ptr), old(size), p, bp) && size == FreeSize(old(ptr), old(size), p, bp)
      ensures freep == p
    {
      if bp + size[bp] == ptr[p] {
        size := size[bp := size[bp] + size[ptr[p]]];
        ptr := ptr[bp := ptr[ptr[p]]];
      } else {
        ptr := ptr[bp := ptr[p]];
      }
      if p + size[p] == bp {
        size := size[p := size[p] + size[bp]];
        ptr := ptr[p := ptr[bp]];
      } else {
        ptr := ptr[p := bp];
      }
      freep := p;
    }

    method Free(bp: int)
      requires Valid() && bp in live
      modifies this`ptr, this`size, this`freep, this`ring, this`live, this`owner
      ensures Valid() && live == old(live) - {bp} && owner.Keys == old(owner.Keys)
      ensures forall a :: a in live ==> a in size && a in old(size) && size[a] == old(size)[a]
      ensures freep != 0 && freep in size && freep in ptr && bp in old(size)
      ensures size[freep] >= old(size)[bp] || (ptr[freep] in size && size[ptr[freep]] >= old(size)[bp])
    {
      hide Partition, RingOk, FreeBlocks, FreePtr, FreeSize, Slot;
      var p, k := FindSlot(bp);
      FreeGaps(base, ptr, size, ring, live, owner, k, bp);
      FreeEnough(base, ptr, size, ring, live, owner, k, bp);
      ghost var ring', owner' := FreeOk(base, ptr, size, ring, live, owner, k, bp);
      hide HeapOk;
      LinkIn(p, bp);
      ring, owner, live := ring', owner', live - {bp};
    }

    /** morecore: at least 4096 units from sbrk, at or above the old break, put on the
        free list; or failure and no change. `got` is the number of units. */
    method Morecore(want: int) returns (p: int, ghost got: nat)
      requires Valid() && freep != 0 && 1 <= want && Askable(want)
      modifies this
      ensures Valid() && freep != 0 && live == old(live) && grants == old(grants) + 1
      ensures forall a :: a in live ==> a in size && a in old(size) && size[a] == old(size)[a]
      ensures p == 0 ==> got == 0 && owner == old(owner)
      ensures p != 0 ==> p == freep && got >= want && p in size && p in ptr
      ensures p != 0 ==> size[p] >= want || (ptr[p] in size && size[ptr[p]] >= want)
      ensures forall u :: u in owner <==> u in old(owner) || brk - got <= u < brk
      ensures old(brk) <= brk - got && old(owner.Keys) <= owner.Keys
    {
      hide HeapOk;
      grants := grants + 1;
      forall a | a in live ensures a in size { LiveSized(base, ptr, size, ring, live, owner, a); }
      var nu := if want < 4096 then 4096 else want;
      var hp: int := *;
      if hp < brk {
        return 0, 0;
      }
      GrowHeap(base, ptr, size, ring, live, owner, hp, nu);
      brk := hp + nu;
      size := size[hp := nu];
      owner := Grown(owner, hp, nu);
      live := live + {hp};
      Free(hp);
      p, got := freep, nu;
    }

    /** malloc has found a block: unlink it whole, or cut the request off its end. */
    method Take(prevp: int, p0: int, nunits: int, ghost i: nat) returns (p: int)
      requires Valid() && freep != 0 && 0 < i < |ring| && ring[i] == p0 && ring[i - 1] == prevp
      requires p0 in size && 1 <= nunits <= size[p0]
      modifies this`ptr, this`size, this`freep, this`ring, this`live, this`owner
      ensures Valid() && freep == prevp && owner.Keys == old(owner.Keys)
      ensures p !in old(live) && live == old(live) + {p} && p in size && size[p] == nunits && p > 0
      ensures forall a :: a in old(live) ==> a in size && a in old(size) && size[a] == old(size)[a]
    {
      hide RingOk, Partition, FreeBlocks, Without, Split;
      RingFacts(base, ptr, size, ring, i);
      RingFacts(base, ptr, size, ring, i - 1);
      RingPositive(base, ptr, size, ring, i - 1);
      RingPositive(base, ptr, size, ring, i);
      forall a | a in live ensures a in size && a !in ring { LiveSized(base, ptr, size, ring, live, owner, a); }
      p := p0;
      if size[p] == nunits {
        TakeWhole(base, ptr, size, ring, live, owner, i);
        ptr := ptr[prevp := ptr[p]];
        WithoutKeeps(ring, i);
        ring := Without(ring, i);
      } else {
        ghost var c := p + size[p] - nunits;
        TakeTail(base, ptr, size, ring, live, owner, i, nunits, c);
        size := size[p := size[p] - nunits];
        p := p + size[p];
        size := size[p := nunits];
        owner := Split(owner, p0, c);
      }
      freep := prevp;
      live := live + {p};
    }

    /** malloc's search from the block after freep round to freep: the first block large
        enough and its predecessor, or the knowledge that there is none. */
    method Scan(nunits: int) returns (found: bool, prevp: int, p: int, ghost i: nat)
      requires Valid() && freep != 0 && nunits >= 1
      ensures found ==> 0 < i < |ring| && ring[i] == p && ring[i - 1] == prevp && p in size && size[p] >= nunits
      ensures !found ==> forall j :: 0 <= j < |ring| ==> ring[j] in size && size[ring[j]] < nunits
    {
      hide Partition, RingOk, FreeBlocks, At, Index;
      ghost var f: nat :| f < |ring| && ring[f] == freep;
      ghost var s := 1;
      prevp := freep;
      Around(base, ptr, size, ring, f, 0);
      Start(ring, f);
      p := ptr[prevp];
      while true
        invariant 1 <= s <= |ring| && p == At(ring, f, s) && prevp == At(ring, f, s - 1)
        invariant TooSmall(ring, size, f, s, nunits)
        decreases |ring| - s
      {
        i := Index(|ring|, f, s);
        Around(base, ptr, size, ring, f, s);
        if size[p] >= nunits {
          return true, prevp, p, i;
        }
        if p == freep {
          AllTooSmall(ring, size, f, nunits);
          return false, prevp, p, i;
        }
        prevp := p;
        p := ptr[p];
        s := s + 1;
      }
    }

    /** The first call of malloc makes `base` a ring of its own. */
    method Init()
      requires Valid() && freep == 0
      modifies this`ptr, this`size, this`freep, this`ring
      ensures Valid() && freep != 0
    {
      ptr, size := ptr[base := base], size[base := 0];
      freep := base;
      ring := [base];
    }

    /** malloc: 0, or the address after the header of a block that was free and has room
        for the request. The search ends, morecore is called at most once, and only a
        refusal of sbrk makes malloc fail. A request that sbrk cannot be asked for is served from
        the free list or not at all. */
    method Malloc(nbytes: int) returns (ap: int)
      requires Valid() && 0 <= nbytes && (Askable(Units(nbytes)) || (freep != 0 && HasRoom(Units(nbytes))))
      modifies this
      ensures Valid() && old(grants) <= grants <= old(grants) + 1
      ensures ap == 0 ==> live == old(live) && owner.Keys == old(owner.Keys) && grants == old(grants) + 1
      ensures ap != 0 ==> live == old(live) + {ap - 1} && ap - 1 !in old(live)
      ensures ap != 0 ==> ap - 1 in size && size[ap - 1] == Units(nbytes)
      ensures forall a :: a in old(live) ==> a in size && a in old(size) && size[a] == old(size)[a]
      ensures old(owner.Keys) <= owner.Keys && (grants == old(grants) ==> owner.Keys == old(owner.Keys))
    {
      hide HeapOk;
      forall a | a in live ensures a in size { LiveSized(base, ptr, size, ring, live, owner, a); }
      var nunits := Units(nbytes);
      if freep == 0 {
        Init();
      }
      while true
        invariant Valid() && freep != 0 && live == old(live)
        invariant forall a :: a in old(live) ==> a in size && a in old(size) && size[a] == old(size)[a]
        invariant old(owner.Keys) <= owner.Keys && old(grants) <= grants <= old(grants) + 1
        invariant grants == old(grants) ==> owner.Keys == old(owner.Keys)
        invariant grants == old(grants) + 1 || !Askable(nunits) ==> HasRoom(nunits)
        decreases old(grants) + 1 - grants
      {
        var found, prevp, p, i := Scan(nunits);
        if found {
          p := Take(prevp, p, nunits, i);
          return p + 1;
        }
        ghost var got;
        p, got := Morecore(nunits);
        if p == 0 {
          return 0;
        }
        RoomAfterMorecore(nunits);
      }
    }

    ghost predicate HasRoom(nunits: int)
      reads this
    {
      exists j :: 0 <= j < |ring| && ring[j] in size && size[ring[j]] >= nunits
    }

    lemma RoomAfterMorecore(nunits: int)
      requires Valid() && freep != 0 && freep in size && freep in ptr
      requires size[freep] >= nunits || (ptr[freep] in size && size[ptr[freep]] >= nunits)
      ensures HasRoom(nunits)
    {
      var f: nat :| f < |ring| && ring[f] == freep;
      RingFacts(base, ptr, size, ring, f);
      if size[freep] < nunits {
        assert ring[if f + 1 < |ring| then f + 1 else 0] == ptr[freep];
      }
    }
  }

  /** The units malloc allocates leave room for the request and waste less than one. */
  lemma UnitsFit(nbytes: int)
    requires nbytes >= 0
    ensures nbytes <= 16 * (Units(nbytes) - 1) < nbytes + 16
  {
  }

  /** The bytes of so many units are within the range of sbrk's argument. */
  predicate Askable(nunits: int) {
    16 * nunits < 0x8000_0000
  }

  /** A number as sbrk's argument, a signed 32-bit integer. */
  function AsInt(n: int): int {
    var r := n % 0x1_0000_0000; if r < 0x8000_0000 then r else r - 0x1_0000_0000
  }

  /** sbrk is asked for the bytes that morecore then takes over exactly if they are in range;
      otherwise it is asked for fewer. */
  lemma AskedIffInRange(nunits: int)
    requires 1 <= nunits
    ensures var nu := if nunits < 4096 then 4096 else nunits;
            (AsInt(16 * nu) == 16 * nu <==> Askable(nunits)) && AsInt(16 * nu) <= 16 * nu
  {
  }
}

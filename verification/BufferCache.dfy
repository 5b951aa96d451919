/** The buffer cache of kernel/bio.c. Buffers are numbered 0 .. n-1 (n is NBUF) and n is
    the list head, so the prev and next fields are sequences of n + 1 numbers. */
module BufferCache {
  /** The node at position i of the circular list; both ends are the head. */
  function Node(n: int, order: seq<int>, i: int): int
    requires -1 <= i <= |order|
  {
    if i == -1 || i == |order| then n else order[i]
  }

  /** Neighbours i - 1 and i point at each other. */
  predicate Edge(n: int, next: seq<int>, prev: seq<int>, order: seq<int>, i: int)
    requires 0 <= i <= |order|
  {
    var a, b := Node(n, order, i - 1), Node(n, order, i);
    0 <= a < |next| && 0 <= b < |prev| && next[a] == b && prev[b] == a
  }

  ghost predicate NoDup(s: seq<int>) {
    forall i, j :: 0 <= i < j < |s| ==> s[i] != s[j]
  }

  /** next and prev form a doubly linked ring through the head and the buffers of `order`,
      most recently released first. */
  ghost predicate Links(n: int, next: seq<int>, prev: seq<int>, order: seq<int>) {
    && |next| == |prev| == n + 1 && n >= 0 && NoDup(order)
    && (forall i :: 0 <= i < |order| ==> 0 <= order[i] < n)
    && (forall i :: 0 <= i <= |order| ==> Edge(n, next, prev, order, i))
  }

  function Without(order: seq<int>, k: int): seq<int>
    requires 0 <= k < |order|
  {
    order[..k] + order[k + 1..]
  }

  /** The first two assignments of brelse's relinking. */
  lemma UnlinkOk(n: int, next: seq<int>, prev: seq<int>, order: seq<int>, k: int, b: int)
    requires Links(n, next, prev, order) && 0 <= k < |order| && b == order[k]
    ensures 0 <= next[b] <= n && 0 <= prev[b] <= n
    ensures Links(n, next[prev[b] := next[b]], prev[next[b] := prev[b]], Without(order, k))
  {
    assert Edge(n, next, prev, order, k) && Edge(n, next, prev, order, k + 1);
    var next', prev', order' := next[prev[b] := next[b]], prev[next[b] := prev[b]], Without(order, k);
    forall i | 0 <= i <= |order'| ensures Edge(n, next', prev', order', i) {
      if i < k {
        assert Edge(n, next, prev, order, i);
      } else if i > k {
        assert Edge(n, next, prev, order, i + 1);
      }
    }
  }

  /** The last four assignments of brelse's relinking, and the body of binit's loop. */
  lemma PushOk(n: int, next: seq<int>, prev: seq<int>, order: seq<int>, b: int)
    requires Links(n, next, prev, order) && 0 <= b < n && b !in order
    ensures 0 <= next[n] <= n
    ensures Links(n, next[b := next[n]][n := b], prev[b := n][next[n] := b], [b] + order)
  {
    assert Edge(n, next, prev, order, 0);
    var next', prev', order' := next[b := next[n]][n := b], prev[b := n][next[n] := b], [b] + order;
    forall i | 0 <= i <= |order'| ensures Edge(n, next', prev', order', i) {
      if i >= 2 {
        assert Edge(n, next, prev, order, i - 1);
      }
    }
  }

  type Block = seq<int>

  /** Every buffer is on the list. */
  ghost predicate Complete(n: int, order: seq<int>) {
    |order| == n && forall b :: 0 <= b < n ==> b in order
  }

  /** The list runs from the last released to the one released longest ago. */
  ghost predicate Sorted(n: int, order: seq<int>, stamp: seq<int>, clock: int) {
    && |stamp| == n && (forall i :: 0 <= i < |order| ==> 0 <= order[i] < n)
    && (forall i, j :: 0 <= i < j < |order| ==> stamp[order[i]] > stamp[order[j]])
    && (forall b :: 0 <= b < n ==> stamp[b] < clock)
  }

  /** No two buffers cache the same block of a real device. */
  ghost predicate Unique(dev: seq<int>, blockno: seq<int>)
    requires |dev| == |blockno|
  {
    forall a, b :: 0 <= a < |dev| && 0 <= b < |dev| && dev[a] == dev[b] != 0 && blockno[a] == blockno[b] ==> a == b
  }

  function DiskAt(disk: map<(int, int), Block>, d: int, bn: int): Block {
    if (d, bn) in disk then disk[(d, bn)] else []
  }

  /** A valid buffer that nobody references holds what is on the disk. */
  ghost predicate Agrees(disk: map<(int, int), Block>, dev: seq<int>, blockno: seq<int>, valid: seq<bool>, refcnt: seq<int>, data: seq<Block>)
    requires |dev| == |blockno| == |valid| == |refcnt| == |data|
  {
    forall b :: 0 <= b < |dev| && refcnt[b] == 0 && valid[b] ==> data[b] == DiskAt(disk, dev[b], blockno[b])
  }

  lemma FrontSorted(n: int, order: seq<int>, stamp: seq<int>, clock: int, k: int, b: int)
    requires Sorted(n, order, stamp, clock) && NoDup(order) && 0 <= k < |order| && b == order[k]
    ensures Sorted(n, [b] + Without(order, k), stamp[b := clock], clock + 1)
  {
    var order', stamp' := [b] + Without(order, k), stamp[b := clock];
    forall i, j | 0 <= i < j < |order'| ensures stamp'[order'[i]] > stamp'[order'[j]] {
      var j' := if j - 1 < k then j - 1 else j;
      assert order'[j] == order[j'] && order[j'] != b;
      if i > 0 {
        var i' := if i - 1 < k then i - 1 else i;
        assert order'[i] == order[i'] && order[i'] != b;
      }
    }
  }

  lemma FrontComplete(n: int, order: seq<int>, k: int, b: int)
    requires Complete(n, order) && 0 <= k < |order| && b == order[k]
    ensures Complete(n, [b] + Without(order, k))
  {
    forall c | 0 <= c < n ensures c in [b] + Without(order, k) {
      assert c in order;
      var i :| 0 <= i < |order| && order[i] == c;
      if i < k {
        assert Without(order, k)[i] == c;
      } else if i > k {
        assert Without(order, k)[i - 1] == c;
      }
    }
  }

  lemma WithoutNot(order: seq<int>, k: int)
    requires NoDup(order) && 0 <= k < |order|
    ensures order[k] !in Without(order, k)
  {
  }

  class Cache {
    const n: int                 // NBUF
    var next: seq<int>
    var prev: seq<int>
    var dev: seq<int>
    var blockno: seq<int>
    var valid: seq<bool>
    var refcnt: seq<int>
    var data: seq<Block>
    var disk: map<(int, int), Block>
    ghost var order: seq<int>    // the list, from head.next to head.prev
    ghost var stamp: seq<int>    // when each buffer's refcnt last fell to 0 in brelse
    ghost var clock: int

    ghost predicate Valid()
      reads this
    {
      && Links(n, next, prev, order) && Complete(n, order) && Sorted(n, order, stamp, clock)
      && |dev| == |blockno| == |valid| == |refcnt| == |data| == n
      && (forall b :: 0 <= b < n ==> refcnt[b] >= 0)
      && Unique(dev, blockno) && Agrees(disk, dev, blockno, valid, refcnt, data)
    }

    /** Link a buffer in right after the head. */
    method PushFront(b: int)
      requires Links(n, next, prev, order) && 0 <= b < n && b !in order
      modifies this`next, this`prev, this`order
      ensures Links(n, next, prev, order) && order == [b] + old(order)
    {
      hide Links;
      PushBounds(n, next, prev, order, b);
      PushOk(n, next, prev, order, b);
      ghost var next0 := next;
      next := next[b := next[n]];
      prev := prev[b := n];
      prev := prev[next[n] := b];
      next := next[n := b];
      order := [b] + order;
    }

    /** binit: the list is built back to front. */
    constructor Binit(nbuf: int, disk: map<(int, int), Block>)
      requires nbuf >= 0
      ensures n == nbuf && Valid() && this.disk == disk && forall b :: 0 <= b < n ==> refcnt[b] == 0 && !valid[b]
    {
      hide Edge;
      n := nbuf;
      this.disk := disk;
      next, prev := seq(nbuf + 1, i => nbuf), seq(nbuf + 1, i => nbuf);
      dev, blockno, refcnt := seq(nbuf, i => 0), seq(nbuf, i => 0), seq(nbuf, i => 0);
      valid, data := seq(nbuf, i => false), seq(nbuf, i => []);
      order, stamp, clock := [], seq(nbuf, i => i), nbuf;
      new;
      EmptyLinks(n, next, prev);
      BuildList();
      BuiltSorted(n, order, stamp);
    }

    method BuildList()
      requires n >= 0 && Links(n, next, prev, order) && order == []
      modifies this`next, this`prev, this`order
      ensures Links(n, next, prev, order) && Downward(order, n)
    {
      var b := 0;
      while b < n
        invariant 0 <= b <= n && Links(n, next, prev, order) && Downward(order, b)
      {
        PushFront(b);
        b := b + 1;
      }
    }

    /** bget's first loop: the buffer that caches the block, or the head. */
    method FindCached(d: int, bn: int) returns (b: int)
      requires Valid()
      ensures 0 <= b <= n
      ensures b < n ==> dev[b] == d && blockno[b] == bn
      ensures b == n ==> forall c :: 0 <= c < n ==> !(dev[c] == d && blockno[c] == bn)
    {
      hide Edge, NoDup, Sorted, Unique, Agrees;
      ghost var i := 0;
      NodeFacts(n, next, prev, order, 0);
      b := next[n];
      while b != n
        invariant 0 <= i <= |order| && b == Node(n, order, i) && 0 <= b <= n
        invariant forall j :: 0 <= j < i ==> !(dev[order[j]] == d && blockno[order[j]] == bn)
        decreases |order| - i
      {
        if dev[b] == d && blockno[b] == bn {
          return;
        }
        NodeFacts(n, next, prev, order, i);
        NodeFacts(n, next, prev, order, i + 1);
        b := next[b];
        i := i + 1;
      }
      assert i == |order|;
      forall c | 0 <= c < n ensures !(dev[c] == d && blockno[c] == bn) {
        assert c in order;
      }
    }

    /** bget's second loop: the first unreferenced buffer from the old end of the list. */
    method FindUnused() returns (b: int)
      requires Valid()
      ensures 0 <= b <= n
      ensures b < n ==> refcnt[b] == 0 && forall c :: 0 <= c < n && refcnt[c] == 0 && c != b ==> stamp[b] < stamp[c]
      ensures b == n ==> forall c :: 0 <= c < n ==> refcnt[c] > 0
    {
      hide Edge, NoDup, Unique, Agrees;
      ghost var i := |order| - 1;
      NodeFacts(n, next, prev, order, |order|);
      b := prev[n];
      while b != n
        invariant -1 <= i < |order| && b == Node(n, order, i) && 0 <= b <= n
        invariant forall j :: i < j < |order| ==> refcnt[order[j]] > 0
        decreases i
      {
        if refcnt[b] == 0 {
          forall c | 0 <= c < n && refcnt[c] == 0 && c != b ensures stamp[b] < stamp[c] {
            assert c in order;
            var j :| 0 <= j < |order| && order[j] == c;
            assert j < i;
          }
          return;
        }
        NodeFacts(n, next, prev, order, i);
        b := prev[b];
        i := i - 1;
      }
      forall c | 0 <= c < n ensures refcnt[c] > 0 {
        assert c in order;
      }
    }

    /** bget. The panic for want of buffers is the second requires. */
    method Bget(d: int, bn: int) returns (b: int)
      requires Valid() && d != 0
      requires exists c :: 0 <= c < n && ((dev[c] == d && blockno[c] == bn) || refcnt[c] == 0)
      modifies this`dev, this`blockno, this`valid, this`refcnt
      ensures Valid() && 0 <= b < n && dev[b] == d && blockno[b] == bn
      ensures refcnt == old(refcnt)[b := old(refcnt)[b] + 1]
      ensures if old(dev)[b] == d && old(blockno)[b] == bn
              then dev == old(dev) && blockno == old(blockno) && valid == old(valid)
              else dev == old(dev)[b := d] && blockno == old(blockno)[b := bn] && valid == old(valid)[b := false]
      ensures (exists c :: 0 <= c < n && old(dev)[c] == d && old(blockno)[c] == bn) <==> (old(dev)[b] == d && old(blockno)[b] == bn)
      ensures !(old(dev)[b] == d && old(blockno)[b] == bn) ==>
                old(refcnt)[b] == 0 && forall c :: 0 <= c < n && old(refcnt)[c] == 0 && c != b ==> stamp[b] < stamp[c]
    {
      hide Links, Complete, Sorted;
      b := FindCached(d, bn);
      if b < n {
        refcnt := refcnt[b := refcnt[b] + 1];
        return;
      }
      b := FindUnused();
      dev := dev[b := d];
      blockno := blockno[b := bn];
      valid := valid[b := false];
      refcnt := refcnt[b := 1];
    }

    /** bread: bget, then a disk read if the buffer is not valid. */
    method Bread(d: int, bn: int) returns (b: int)
      requires Valid() && d != 0
      requires exists c :: 0 <= c < n && ((dev[c] == d && blockno[c] == bn) || refcnt[c] == 0)
      modifies this`dev, this`blockno, this`valid, this`refcnt, this`data
      ensures Valid() && 0 <= b < n && dev[b] == d && blockno[b] == bn && valid[b]
      ensures refcnt == old(refcnt)[b := old(refcnt)[b] + 1]
      ensures data[b] == if old(dev)[b] == d && old(blockno)[b] == bn && old(valid)[b] then old(data)[b] else DiskAt(disk, d, bn)
      ensures old(refcnt)[b] == 0 ==> data[b] == DiskAt(disk, d, bn)
      ensures forall c :: 0 <= c < n && c != b ==> data[c] == old(data)[c] && dev[c] == old(dev)[c] && blockno[c] == old(blockno)[c]
    {
      hide Links, Complete, Sorted;
      b := Bget(d, bn);
      if !valid[b] {
        data := data[b := DiskAt(disk, d, bn)];
        valid := valid[b := true];
      }
    }

    /** A holder changes the contents of its buffer. */
    method Modify(b: int, x: Block)
      requires Valid() && 0 <= b < n && refcnt[b] > 0
      modifies this`data
      ensures Valid() && data == old(data)[b := x]
    {
      hide Links, Complete, Sorted, Unique;
      data := data[b := x];
    }

    /** bwrite, by a holder. */
    method Bwrite(b: int)
      requires Valid() && 0 <= b < n && refcnt[b] > 0 && dev[b] != 0
      modifies this`disk
      ensures Valid() && disk == old(disk)[(dev[b], blockno[b]) := data[b]]
    {
      hide Links, Complete, Sorted;
      disk := disk[(dev[b], blockno[b]) := data[b]];
    }

    /** bpin, by a holder. */
    method Bpin(b: int)
      requires Valid() && 0 <= b < n && refcnt[b] > 0
      modifies this`refcnt
      ensures Valid() && refcnt == old(refcnt)[b := old(refcnt)[b] + 1]
    {
      hide Links, Complete, Sorted, Unique;
      refcnt := refcnt[b := refcnt[b] + 1];
    }

    /** bunpin, by a client that also holds the buffer. */
    method Bunpin(b: int)
      requires Valid() && 0 <= b < n && refcnt[b] > 1
      modifies this`refcnt
      ensures Valid() && refcnt == old(refcnt)[b := old(refcnt)[b] - 1]
    {
      hide Links, Complete, Sorted, Unique;
      refcnt := refcnt[b := refcnt[b] - 1];
    }

    /** brelse. The last holder has written what it changed (or pinned it, and then is not
        the last). A buffer that becomes unreferenced moves to the front of the list. */
    method Brelse(b: int)
      requires Valid() && 0 <= b < n && refcnt[b] > 0
      requires refcnt[b] == 1 && valid[b] ==> data[b] == DiskAt(disk, dev[b], blockno[b])
      modifies this`refcnt, this`next, this`prev, this`order, this`stamp, this`clock
      ensures Valid() && refcnt == old(refcnt)[b := old(refcnt)[b] - 1]
      ensures refcnt[b] > 0 ==> order == old(order) && stamp == old(stamp)
      ensures refcnt[b] == 0 ==> stamp == old(stamp)[b := old(clock)] && order[0] == b
    {
      hide Links, Complete, Sorted, Unique;
      refcnt := refcnt[b := refcnt[b] - 1];
      if refcnt[b] == 0 {
        MoveToFront(b);
      }
    }

    /** brelse's relinking. */
    method MoveToFront(b: int)
      requires Links(n, next, prev, order) && Complete(n, order) && Sorted(n, order, stamp, clock) && 0 <= b < n
      modifies this`next, this`prev, this`order, this`stamp, this`clock
      ensures Links(n, next, prev, order) && Complete(n, order) && Sorted(n, order, stamp, clock)
      ensures stamp == old(stamp)[b := old(clock)] && order != [] && order[0] == b
    {
      hide Links, Complete, Sorted, Without;
      ghost var k := IndexOf(n, order, b);
      LinksNoDup(n, next, prev, order);
      UnlinkOk(n, next, prev, order, k, b);
      FrontSorted(n, order, stamp, clock, k, b);
      FrontComplete(n, order, k, b);
      WithoutNot(order, k);
      PushBounds(n, next, prev, order, b);
      SortedLength(n, order, stamp, clock);
      prev := prev[next[b] := prev[b]];
      next := next[prev[b] := next[b]];
      order := Without(order, k);
      PushFront(b);
      stamp := stamp[b := clock];
      clock := clock + 1;
    }
  }

  lemma IndexOf(n: int, order: seq<int>, b: int) returns (k: int)
    requires Complete(n, order) && 0 <= b < n
    ensures 0 <= k < |order| && order[k] == b
  {
    assert b in order;
    k :| 0 <= k < |order| && order[k] == b;
  }

  lemma LinksNoDup(n: int, next: seq<int>, prev: seq<int>, order: seq<int>)
    requires Links(n, next, prev, order)
    ensures NoDup(order)
  {
  }

  lemma SortedLength(n: int, order: seq<int>, stamp: seq<int>, clock: int)
    requires Sorted(n, order, stamp, clock)
    ensures |stamp| == n
  {
  }

  ghost predicate Downward(order: seq<int>, b: int) {
    |order| == b && forall i :: 0 <= i < b ==> order[i] == b - 1 - i
  }

  lemma EmptyLinks(n: int, next: seq<int>, prev: seq<int>)
    requires |next| == |prev| == n + 1 && n >= 0 && next[n] == n && prev[n] == n
    ensures Links(n, next, prev, [])
  {
  }

  lemma BuiltSorted(n: int, order: seq<int>, stamp: seq<int>)
    requires n >= 0 && Downward(order, n) && |stamp| == n && forall i :: 0 <= i < n ==> stamp[i] == i
    ensures Complete(n, order) && Sorted(n, order, stamp, n)
  {
    forall b | 0 <= b < n ensures b in order {
      assert order[n - 1 - b] == b;
    }
  }

  lemma NodeFacts(n: int, next: seq<int>, prev: seq<int>, order: seq<int>, i: int)
    requires Links(n, next, prev, order) && 0 <= i <= |order|
    ensures |next| == |prev| == n + 1
    ensures 0 <= Node(n, order, i) <= n && 0 <= Node(n, order, i - 1) <= n
    ensures next[Node(n, order, i - 1)] == Node(n, order, i) && prev[Node(n, order, i)] == Node(n, order, i - 1)
    ensures Node(n, order, i) == n <==> i == |order|
  {
    assert Edge(n, next, prev, order, i);
  }

  lemma PushBounds(n: int, next: seq<int>, prev: seq<int>, order: seq<int>, b: int)
    requires Links(n, next, prev, order)
    ensures |next| == |prev| == n + 1 && n >= 0 && 0 <= next[n] <= n
  {
    assert Edge(n, next, prev, order, 0);
  }
}

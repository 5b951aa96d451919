/** The pipe of kernel/pipe.c: a ring of PIPESIZE bytes behind two unsigned 32-bit
    counters, shared by readers and writers that sleep while it is empty or full. */
module Pipe {
  const PIPESIZE: int := 512
  const WRAP: int := 0x1_0000_0000

  /** The ring between the bytes ever written and the bytes ever read. */
  ghost predicate RingOk(data: seq<int>, nread: int, nwrite: int, sent: seq<int>, received: seq<int>) {
    && |data| == PIPESIZE
    && received <= sent && |sent| <= |received| + PIPESIZE
    && nread == |received| % WRAP && nwrite == |sent| % WRAP
    && (forall j :: |received| <= j < |sent| ==> data[j % PIPESIZE] == sent[j])
  }

  predicate Full(nread: int, nwrite: int) {
    nwrite == (nread + PIPESIZE) % WRAP
  }

  predicate Empty(nread: int, nwrite: int) {
    nread == nwrite
  }

  /** How many bytes the ring holds, by its counters. */
  function Occupancy(nread: int, nwrite: int): int {
    (nwrite - nread) % WRAP
  }

  /** The counters' tests decide the occupancy, wherever they have wrapped. */
  lemma TestsExact(data: seq<int>, nread: int, nwrite: int, sent: seq<int>, received: seq<int>)
    requires RingOk(data, nread, nwrite, sent, received)
    ensures Full(nread, nwrite) <==> |sent| == |received| + PIPESIZE
    ensures Empty(nread, nwrite) <==> |sent| == |received|
    ensures Occupancy(nread, nwrite) == |sent| - |received|
  {
    WrapDifference(|sent|, |received|);
  }

  lemma WrapDifference(n: nat, m: nat)
    requires m <= n < m + WRAP
    ensures (n % WRAP - m % WRAP) % WRAP == n - m
  {
    var d := n % WRAP - m % WRAP;
    assert n - m == d + WRAP * (n / WRAP - m / WRAP);
  }

  /** Writing a byte when not full. */
  lemma PutOk(data: seq<int>, nread: int, nwrite: int, sent: seq<int>, received: seq<int>, ch: int)
    requires RingOk(data, nread, nwrite, sent, received) && !Full(nread, nwrite)
    ensures RingOk(data[nwrite % PIPESIZE := ch], nread, (nwrite + 1) % WRAP, sent + [ch], received)
  {
    TestsExact(data, nread, nwrite, sent, received);
    WrapSlot(|sent|);
    WrapNext(|sent|);
    SlotTaken(data, sent, |received|, ch);
  }

  /** The ring's size divides the counters' range: the slot survives the wrap. */
  lemma WrapSlot(n: nat)
    ensures n % WRAP % PIPESIZE == n % PIPESIZE
  {
    var q, r := n / WRAP, n % WRAP;
    SlotRest(0x80_0000 * q + r / PIPESIZE, r % PIPESIZE);
  }

  lemma SlotRest(t: int, b: int)
    requires 0 <= b < PIPESIZE
    ensures (PIPESIZE * t + b) % PIPESIZE == b
  {
  }

  lemma WrapNext(n: nat)
    ensures (n % WRAP + 1) % WRAP == (n + 1) % WRAP
  {
  }

  lemma Apart(j: nat, n: nat)
    requires j < n < j + PIPESIZE
    ensures j % PIPESIZE != n % PIPESIZE
  {
  }

  /** The next slot holds none of the bytes still in the ring. */
  lemma SlotTaken(data: seq<int>, sent: seq<int>, from: nat, ch: int)
    requires |data| == PIPESIZE && from <= |sent| < from + PIPESIZE && forall j :: from <= j < |sent| ==> data[j % PIPESIZE] == sent[j]
    ensures forall j :: from <= j < |sent| + 1 ==> data[|sent| % PIPESIZE := ch][j % PIPESIZE] == (sent + [ch])[j]
  {
    forall j | from <= j < |sent| + 1 ensures data[|sent| % PIPESIZE := ch][j % PIPESIZE] == (sent + [ch])[j] {
      if j < |sent| {
        Apart(j, |sent|);
      }
    }
  }

  /** Reading a byte when not empty takes the oldest one. */
  lemma GetOk(data: seq<int>, nread: int, nwrite: int, sent: seq<int>, received: seq<int>)
    requires RingOk(data, nread, nwrite, sent, received) && !Empty(nread, nwrite)
    ensures |received| < |sent| && data[nread % PIPESIZE] == sent[|received|]
    ensures RingOk(data, (nread + 1) % WRAP, nwrite, sent, received + [data[nread % PIPESIZE]])
  {
    TestsExact(data, nread, nwrite, sent, received);
    WrapSlot(|received|);
    WrapNext(|received|);
  }

  /** The bytes of `src` are in the history, in order, at positions from `from` on. */
  ghost predicate Placed(src: seq<int>, pos: seq<int>, from: int, sent: seq<int>) {
    && |pos| == |src| && 0 <= from
    && (forall k :: 0 <= k < |pos| ==> from <= pos[k] < |sent| && sent[pos[k]] == src[k])
    && (forall k, l :: 0 <= k < l < |pos| ==> pos[k] < pos[l])
  }

  lemma PlacedMore(src: seq<int>, pos: seq<int>, from: int, sent: seq<int>, ch: int)
    requires Placed(src, pos, from, sent) && from <= |sent|
    ensures Placed(src + [ch], pos + [|sent|], from, sent + [ch])
  {
  }

  /** None of the turns a to b - 1 was so. */
  ghost predicate Never(at: seq<bool>, a: int, b: int) {
    0 <= a <= b <= |at| && forall k :: a <= k < b ==> !at[k]
  }

  lemma NeverStart(killed: seq<bool>, a: int)
    requires 0 <= a <= |killed|
    ensures Never(killed, a, a)
  {
  }

  lemma NeverMore(killed: seq<bool>, a: int, b: int)
    requires Never(killed, a, b) && b < |killed| && !killed[b]
    ensures Never(killed, a, b + 1)
  {
  }

  /** pipewrite's turns from i0 on come to k, and there the read end is closed or the writer is
      killed: nothing stopped it before, and there was room for the bytes. */
  ghost predicate Refuses(readopen: bool, killed: seq<bool>, faults: seq<bool>, i0: int, room: int, k: int) {
    && 0 <= i0 <= k < |killed| && (if readopen then killed[k] else k == i0)
    && Never(killed, i0, k) && Never(faults, i0, k) && k - i0 <= room
  }

  /** Where the loop stops is the only place it can be refused. */
  lemma RefusedOnce(readopen: bool, killed: seq<bool>, faults: seq<bool>, i0: int, room: int, why: Stop, i: int)
    requires Stops(readopen, killed, faults, i0, room, why, i)
    ensures forall k :: Refuses(readopen, killed, faults, i0, room, k) <==> why == Refused && k == i
    ensures Cuts(readopen, killed, faults, i0, room) <==> why == Refused && i > i0
    ensures Refuses(readopen, killed, faults, i0, room, i0) <==> why == Refused && i == i0
  {
    assert Refuses(readopen, killed, faults, i0, room, i) <==> why == Refused;
  }

  /** It is killed between bytes: after the first of this turn, before the last. */
  ghost predicate Cuts(readopen: bool, killed: seq<bool>, faults: seq<bool>, i0: int, room: int) {
    exists k :: i0 < k && Refuses(readopen, killed, faults, i0, room, k)
  }

  /** Where and why pipewrite's loop stops. */
  ghost predicate Stops(readopen: bool, killed: seq<bool>, faults: seq<bool>, i0: int, room: int, why: Stop, i: int) {
    && |faults| == |killed| && Never(killed, i0, i) && Never(faults, i0, i) && i - i0 <= room && (i0 < i ==> readopen)
    && match why
       case Refused => i < |killed| && (!readopen || killed[i])
       case Blocked => i < |killed| && readopen && !killed[i] && i - i0 == room
       case Finished => i < |killed| ==> readopen && !killed[i] && faults[i]
  }

  lemma StopFacts(readopen: bool, killed: seq<bool>, faults: seq<bool>, i0: int, room: int, why: Stop, i: int)
    requires Stops(readopen, killed, faults, i0, room, why, i)
    ensures Never(killed, i0, i) && (i0 < i ==> readopen)
    ensures why == Refused ==> i < |killed| && (!readopen || killed[i])
    ensures why == Finished && i < |killed| ==> faults[i]
    ensures why == Blocked ==> readopen
  {
  }

  /** The room in the ring, by counters and by histories. */
  lemma RoomLeft(data: seq<int>, nread: int, nwrite: int, sent: seq<int>, received: seq<int>)
    requires RingOk(data, nread, nwrite, sent, received)
    ensures PIPESIZE - Occupancy(nread, nwrite) == PIPESIZE + |received| - |sent| >= 0
    ensures Full(nread, nwrite) <==> Occupancy(nread, nwrite) == PIPESIZE
  {
    TestsExact(data, nread, nwrite, sent, received);
  }

  /** Once bytes are put in, the ring is not empty. */
  lemma FilledSome(data0: seq<int>, data: seq<int>, nread: int, nwrite0: int, nwrite: int, sent0: seq<int>, sent: seq<int>, received: seq<int>, more: seq<int>)
    requires RingOk(data0, nread, nwrite0, sent0, received) && RingOk(data, nread, nwrite, sent, received) && sent == sent0 + more
    ensures more != [] ==> !Empty(nread, nwrite)
  {
    TestsExact(data, nread, nwrite, sent, received);
  }

  class Channel {
    var data: seq<int>
    var nread: int
    var nwrite: int
    var readopen: bool
    var writeopen: bool
    var rsleep: set<int>           // processes asleep on &pi->nread
    var wsleep: set<int>           // processes asleep on &pi->nwrite
    ghost var sent: seq<int>       // all bytes ever put into the ring
    ghost var received: seq<int>   // all bytes ever taken out of it
    ghost var cut: bool            // a writer was killed between bytes, and the readers asleep then are so still

    /** Holds whenever pi->lock is free: writers sleep on a full pipe, and readers on an empty one,
        unless a writer was killed between bytes since they went to sleep. */
    ghost predicate Valid()
      reads this
    {
      && RingOk(data, nread, nwrite, sent, received)
      && (wsleep != {} ==> Full(nread, nwrite) && readopen)
      && (cut <==> Stranded())
    }

    /** Readers sleep although there are bytes, or nobody to write any. */
    ghost predicate Stranded()
      reads this
    {
      rsleep != {} && !(Empty(nread, nwrite) && writeopen)
    }

    /** pipealloc's initialisation. */
    constructor ()
      ensures Valid() && readopen && writeopen && sent == received == [] && rsleep == wsleep == {} && !cut
    {
      data := seq(PIPESIZE, i => 0);
      nread, nwrite, readopen, writeopen := 0, 0, true, true;
      rsleep, wsleep, sent, received, cut := {}, {}, [], [], false;
    }

    /** pipewrite's loop body when there is room. */
    method Put(ch: int)
      requires RingOk(data, nread, nwrite, sent, received) && !Full(nread, nwrite)
      modifies this`data, this`nwrite, this`sent
      ensures RingOk(data, nread, nwrite, sent, received) && sent == old(sent) + [ch]
    {
      PutOk(data, nread, nwrite, sent, received, ch);
      data := data[nwrite % PIPESIZE := ch];
      nwrite := (nwrite + 1) % WRAP;
      sent := sent + [ch];
    }

    /** piperead's loop body when there is a byte. */
    method Get() returns (ch: int)
      requires RingOk(data, nread, nwrite, sent, received) && !Empty(nread, nwrite)
      modifies this`nread, this`received
      ensures RingOk(data, nread, nwrite, sent, received) && received == old(received) + [ch]
    {
      GetOk(data, nread, nwrite, sent, received);
      ch := data[nread % PIPESIZE];
      nread := (nread + 1) % WRAP;
      received := received + [ch];
    }

    /** pipewrite by process `me`, from where it gets pi->lock (at the start, or woken, with
        i0 bytes written) to where it gives it up: asleep, or returning. Every byte that
        went in is the next one of src, put in once, whatever other writers put between.
        `killed` and `faults` say what killed() and copyin() answer at each turn. */
    method Write(me: int, src: seq<int>, i0: nat, killed: seq<bool>, faults: seq<bool>, ghost from: int, ghost pos0: seq<int>)
      returns (outcome: Outcome, i: nat, ghost pos: seq<int>)
      requires Valid() && me !in rsleep && me !in wsleep
      requires |killed| == |faults| == |src| && i0 <= |src| && Placed(src[..i0], pos0, from, sent) && from <= |sent|
      modifies this
      ensures Valid() && received == old(received) && readopen == old(readopen) && writeopen == old(writeopen)
      ensures i0 <= i <= |src| && sent == old(sent) + src[i0..i] && pos0 <= pos && Placed(src[..i], pos, from, sent)
      ensures outcome == Asleep ==> Full(nread, nwrite) && rsleep == {} && wsleep == old(wsleep) + {me}
      ensures outcome != Asleep ==> wsleep == old(wsleep) && (outcome.r == -1 || outcome.r == i)
      ensures outcome != Asleep && outcome.r >= 0 ==> rsleep == {} && (i == |src| || faults[i])
      ensures outcome == Returned(-1) ==> i < |src| && (!readopen || killed[i]) && rsleep == old(rsleep)
      ensures Never(killed, i0, i) && (i0 < i ==> readopen)
      ensures var room := PIPESIZE - old(Occupancy(nread, nwrite));
              && (Stranded() <==> old(rsleep) != {} && (Cuts(readopen, killed, faults, i0, room) || (old(Stranded()) && Refuses(readopen, killed, faults, i0, room, i0))))
      ensures old(rsleep != {} && Empty(nread, nwrite)) ==>
                (rsleep != {} && !Empty(nread, nwrite) <==> Cuts(readopen, killed, faults, i0, PIPESIZE))
    {
      hide RingOk, Full, Empty, Placed, Never, Occupancy, Refuses, Cuts, Stops;
      ghost var room := PIPESIZE - Occupancy(nread, nwrite);
      RoomLeft(data, nread, nwrite, sent, received);
      TestsExact(data, nread, nwrite, sent, received);
      var why;
      why, i, pos := Fill(src, i0, killed, faults, from, pos0);
      RefusedOnce(readopen, killed, faults, i0, room, why, i);
      StopFacts(readopen, killed, faults, i0, room, why, i);
      FilledSome(old(data), data, nread, old(nwrite), nwrite, old(sent), sent, received, src[i0..i]);
      assert i > i0 ==> src[i0..i][0] == src[i0];
      match why
      case Refused =>
        cut := rsleep != {} && (cut || i > i0);
        outcome := Returned(-1);
      case Blocked =>
        rsleep, cut := {}, false;
        wsleep := wsleep + {me};
        outcome := Asleep;
      case Finished =>
        rsleep, cut := {}, false;
        outcome := Returned(i);
    }

    /** pipewrite's loop up to where it stops: at a closed read end or a kill, at a full ring, at
        the end or a failed copy. */
    method Fill(src: seq<int>, i0: nat, killed: seq<bool>, faults: seq<bool>, ghost from: int, ghost pos0: seq<int>)
      returns (why: Stop, i: nat, ghost pos: seq<int>)
      requires RingOk(data, nread, nwrite, sent, received)
      requires |killed| == |faults| == |src| && i0 <= |src| && Placed(src[..i0], pos0, from, sent) && from <= |sent|
      modifies this`data, this`nwrite, this`sent
      ensures RingOk(data, nread, nwrite, sent, received) && i0 <= i <= |src| && sent == old(sent) + src[i0..i]
      ensures pos0 <= pos && Placed(src[..i], pos, from, sent) && (i == i0 ==> nwrite == old(nwrite))
      ensures Stops(readopen, killed, faults, i0, PIPESIZE - old(Occupancy(nread, nwrite)), why, i)
      ensures (why == Blocked ==> Full(nread, nwrite)) && (i0 < i ==> !Full(nread, old(nwrite)))
    {
      hide RingOk, Full, Empty, Placed, Never, Occupancy;
      ghost var room := PIPESIZE - Occupancy(nread, nwrite);
      i, pos := i0, pos0;
      NeverStart(killed, i0);
      NeverStart(faults, i0);
      RoomLeft(data, nread, nwrite, sent, received);
      assert src[i0..i0] == [] && sent == old(sent) + [];
      while i < |src|
        invariant i0 <= i <= |src| && pos0 <= pos && Placed(src[..i], pos, from, sent) && from <= |sent|
        invariant Never(killed, i0, i) && Never(faults, i0, i) && (i0 < i ==> readopen && !Full(nread, old(nwrite))) && (i == i0 ==> nwrite == old(nwrite))
        invariant RingOk(data, nread, nwrite, sent, received) && sent == old(sent) + src[i0..i]
        invariant i - i0 <= room && PIPESIZE - Occupancy(nread, nwrite) == room - (i - i0)
      {
        RoomLeft(data, nread, nwrite, sent, received);
        if !readopen || killed[i] {
          return Refused, i, pos;
        }
        if Full(nread, nwrite) {
          return Blocked, i, pos;
        }
        if faults[i] {
          break;
        }
        NeverMore(killed, i0, i);
        NeverMore(faults, i0, i);
        PlacedMore(src[..i], pos, from, sent, src[i]);
        assert src[..i] + [src[i]] == src[..i + 1] && src[i0..i] + [src[i]] == src[i0..i + 1];
        pos := pos + [|sent|];
        Put(src[i]);
        RoomLeft(data, nread, nwrite, sent, received);
        i := i + 1;
      }
      why := Finished;
    }

    /** piperead by process `me`, from where it gets pi->lock to where it gives it up. What
        it returns is what was next in the pipe; `lost` is a byte taken out whose copy to
        the user failed. Zero bytes, short of a failed copy, mean end of file. */
    method Read(me: int, n: int, killed: bool, faults: int -> bool) returns (outcome: Outcome, got: seq<int>, ghost lost: seq<int>)
      requires Valid() && me !in rsleep && me !in wsleep
      modifies this
      ensures Valid() && sent == old(sent) && readopen == old(readopen) && writeopen == old(writeopen) && (Stranded() ==> old(Stranded()))
      ensures received == old(received) + got + lost && received <= sent && |lost| <= 1
      ensures outcome == Asleep <==> old(Empty(nread, nwrite)) && writeopen && !killed
      ensures outcome == Asleep ==> got == lost == [] && rsleep == old(rsleep) + {me} && wsleep == old(wsleep) && Empty(nread, nwrite) && writeopen
      ensures outcome != Asleep ==> outcome.r == -1 || outcome.r == |got|
      ensures outcome != Asleep && outcome.r == -1 ==> got == lost == [] && rsleep == old(rsleep) && wsleep == old(wsleep)
      ensures outcome != Asleep && outcome.r >= 0 ==> wsleep == {} && (n >= 0 ==> |got| <= n)
      ensures outcome != Asleep && 0 <= outcome.r < n && lost == [] ==> Empty(nread, nwrite) && (outcome.r == 0 ==> !writeopen)
    {
      hide Full, Empty;
      got, lost := [], [];
      if Empty(nread, nwrite) && writeopen {
        if killed {
          return Returned(-1), got, lost;
        }
        rsleep := rsleep + {me};
        return Asleep, got, lost;
      }
      var i := 0;
      while i < n
        invariant 0 <= i == |got| && (n >= 0 ==> i <= n) && (n < 0 ==> i == 0)
        invariant RingOk(data, nread, nwrite, sent, received) && sent == old(sent)
        invariant received == old(received) + got && lost == []
        invariant readopen == old(readopen) && writeopen == old(writeopen)
        invariant rsleep == old(rsleep) && cut == old(cut)
        invariant rsleep != {} ==> cut
        invariant i == 0 && Empty(nread, nwrite) ==> !writeopen
      {
        if Empty(nread, nwrite) {
          break;
        }
        var ch := Get();
        if faults(i) {
          lost := [ch];
          break;
        }
        got := got + [ch];
        i := i + 1;
      }
      wsleep := {};
      cut := cut && !(Empty(nread, nwrite) && writeopen);
      return Returned(i), got, lost;
    }

    /** pipeclose of one end; the page is freed when both are closed. */
    method Close(writable: bool) returns (freed: bool)
      requires Valid()
      modifies this`readopen, this`writeopen, this`rsleep, this`wsleep, this`cut
      ensures Valid() && (Stranded() <==> !writable && old(Stranded()))
      ensures writable ==> !writeopen && readopen == old(readopen) && rsleep == {}
      ensures !writable ==> !readopen && writeopen == old(writeopen) && wsleep == {}
      ensures freed <==> !readopen && !writeopen
    {
      hide RingOk, Full, Empty;
      if writable {
        writeopen := false;
        rsleep, cut := {}, false;
      } else {
        readopen := false;
        wsleep := {};
      }
      freed := !readopen && !writeopen;
    }

    /** kill takes a sleeper off its channel. */
    method Killed(victim: int)
      requires Valid()
      modifies this`rsleep, this`wsleep, this`cut
      ensures Valid() && rsleep == old(rsleep) - {victim} && wsleep == old(wsleep) - {victim} && (Stranded() ==> old(Stranded()))
    {
      rsleep, wsleep := rsleep - {victim}, wsleep - {victim};
      cut := cut && rsleep != {};
    }
  }

  datatype Outcome = Asleep | Returned(r: int)

  datatype Stop = Refused | Blocked | Finished

  /** That no writer is killed matters: here a reader is asleep, a writer puts one byte in
      and is killed before its next turn, and pi->lock is free again with the reader still
      asleep and a byte in the pipe. */
  method KilledWriterStrandsReader() returns (c: Channel)
    ensures fresh(c) && c.Valid() && c.rsleep == {1} && !Empty(c.nread, c.nwrite) && c.Stranded()
  {
    c := new Channel();
    var asleep, got, lost := c.Read(1, 1, false, i => false);
    PlacedNone(0, c.sent);
    var outcome, i, pos := c.Write(2, [7, 8], 0, [false, true], [false, false], 0, []);
    TestsExact(c.data, c.nread, c.nwrite, c.sent, c.received);
    assert i <= 1 by { assert [false, true][1]; assert Never([false, true], 0, i); }
  }

  lemma PlacedNone(from: nat, sent: seq<int>)
    ensures Placed([], [], from, sent)
  {
  }
}

/** The operations of kernel/fs.c on one locked inode, inside a transaction. */
module FsFiles {
  import opened FsBlocks
  import opened FsState
  import opened FsFormat

  const MAXOPBLOCKS: int := 10

  class Files {
    const g: Geometry
    /** Blocks as bread returns them. */
    var disk: seq<Block>
    /** The locked inode. */
    var inum: int
    var ip: Inode
    /** Entries of the indirect block that itrunc has freed so far. */
    ghost var freed: int
    ghost var owner: Owner
    /** The offset of the open file that filewrite advances. */
    var offset: int
    /** Blocks passed to log_write since begin_op, and those of the finished transactions. */
    ghost var logged: set<int>
    ghost var txns: seq<set<int>>

    ghost function State(): St
      reads this
    {
      St(disk, inum, ip, freed)
    }

    ghost predicate Valid()
      reads this
    {
      Own(g, State(), owner, 0) && freed == 0
    }

    /** An empty file system with the root inode locked. */
    constructor Format(g: Geometry)
      requires Makeable(g)
      ensures this.g == g && Valid() && Synced(g, State()) && inum == ROOTINO && ip == RootInode() && HoleFree(g, State(), inum) && HasNumbers(g, disk)
      ensures forall b :: 0 <= b < g.size ==> (Used(g, State(), b) <==> b < g.datastart)
    {
      hide Own, Used, Shape, Synced, SameFiles, SameInodes, SameSlots, HasNumbers, StoreInode;
      var s := FormatDisk(g);
      this.g := g;
      disk, inum, ip, offset := s.disk, s.inum, s.ip, 0;
      freed, owner, logged, txns := 0, map[], {}, [];
      new;
      OwnShape(g, s, map[]);
      NumbersStay(g, s, ROOTINO, RootInode());
      Iupdate();
      Unowned(g, State(), owner);
    }

    /** Change a block that bread returned and log it. */
    method LogWrite(b: int, data: Block)
      requires 0 <= b < |disk|
      modifies `disk, `logged
      ensures State() == SetBlock(old(State()), b, data) && logged == old(logged) + {b}
    {
      disk := disk[b := data];
      logged := logged + {b};
    }

    /** The first free block, marked and zeroed; 0 when there is none. */
    method Balloc() returns (b: int)
      requires Own(g, State(), owner, 0)
      modifies `disk, `logged
      ensures b == 0 ==> State() == old(State()) && logged == old(logged) && forall c :: 0 <= c < g.size ==> Used(g, State(), c)
      ensures b != 0 ==>
                && 0 < b < g.size && !Used(g, old(State()), b)
                && (forall c :: 0 <= c < b ==> Used(g, old(State()), c))
                && State() == Alloc(g, old(State()), b) && logged == old(logged) + {g.bmapstart + b / BPB, b}
    {
      hide Bit, PutBit, Own, Shape, Used, BlockOk, Alloc, Zero;
      BootUsed(g, State(), owner);
      b := 0;
      var first := 0;
      while first < g.size
        invariant 0 <= first && first % BPB == 0
        invariant State() == old(State()) && logged == old(logged)
        invariant forall c :: 0 <= c < first && c < g.size ==> Used(g, State(), c)
        decreases g.size - first
      {
        MapBlock(g, State(), first);
        var data := disk[g.bmapstart + first / BPB];
        var bi := FindClear(data, if first + BPB < g.size then BPB else g.size - first);
        MapBits(g, State(), data, first, bi);
        if bi < BPB && first + bi < g.size {
          b := first + bi;
          AllocIs(g, State(), data, first, bi);
          LogWrite(g.bmapstart + first / BPB, PutBit(data, bi, true));
          Bzero(b);
          return;
        }
        first := first + BPB;
      }
    }

    method Bzero(b: int)
      requires 0 <= b < |disk|
      modifies `disk, `logged
      ensures State() == SetBlock(old(State()), b, Zero()) && logged == old(logged) + {b}
    {
      LogWrite(b, Zero());
    }

    /** bfree panics on a free block. */
    method Bfree(b: int)
      requires Shape(g, State()) && 0 <= b < g.size && Used(g, State(), b)
      modifies `disk, `logged
      ensures State() == Mark(g, old(State()), b, false) && logged == old(logged) + {g.bmapstart + b / BPB}
      ensures g.bmapstart + b / BPB in Maps(g)
    {
      var x := g.bmapstart + b / BPB;
      LogWrite(x, PutBit(disk[x], b % BPB, false));
    }

    /** No block is free. */
    ghost predicate Full()
      reads this
      requires Shape(g, State())
    {
      FullState(g, State())
    }

    /** Slot k of the inode, allocated if it is empty. m: the map block used, if any. */
    method MapDirect(k: int) returns (addr: int, ghost m: set<int>)
      requires Valid() && ip.typ != 0 && 0 <= k <= NDIRECT
      modifies `disk, `logged, `ip, `owner
      ensures Valid() && addr == ip.addrs[k] && ip == old(ip).(addrs := ip.addrs)
      ensures SlotSet(g, old(State()), State(), inum, k, addr)
      ensures SameFiles(g, old(State()), State()) && SameTable(g, old(State()), State())
      ensures addr == 0 ==> Full()
      ensures addr == old(ip.addrs[k]) ==> State() == old(State()) && owner == old(owner) && logged == old(logged) && m == {}
      ensures old(ip.addrs[k]) != 0 ==> addr == old(ip.addrs[k])
      ensures addr != old(ip.addrs[k]) ==> |m| == 1 && logged == old(logged) + m + {addr}
    {
      hide Own, Slot, FileByte, Used, Alloc, Shape;
      OwnShape(g, State(), owner);
      addr, m := ip.addrs[k], {};
      if addr == 0 {
        ghost var s := State();
        addr := Balloc();
        if addr != 0 {
          GrowDirect(g, s, owner, k, addr);
          AllocShape(g, s, addr);
          m := {g.bmapstart + addr / BPB};
          ip := ip.(addrs := ip.addrs[k := addr]);
          owner := owner[addr := (inum, k)];
        }
      }
    }

    /** Entry j of the indirect block, allocated if it is empty. */
    method MapEntry(j: int) returns (addr: int, ghost m: set<int>)
      requires Valid() && ip.typ != 0 && 0 <= j < NINDIRECT && ip.addrs[NDIRECT] != 0
      modifies `disk, `logged, `owner
      ensures Valid() && SameFiles(g, old(State()), State()) && SameTable(g, old(State()), State())
      ensures SlotSet(g, old(State()), State(), inum, NDIRECT + 1 + j, addr)
      ensures addr == 0 ==> Full()
      ensures var was := Slot(g, old(State()), inum, NDIRECT + 1 + j);
              && (was != 0 ==> addr == was)
              && (addr == was ==> State() == old(State()) && owner == old(owner) && logged == old(logged) && m == {})
              && (addr != was ==> |m| == 1 && logged == old(logged) + m + {addr, ip.addrs[NDIRECT]})
    {
      hide Own, Slot, FileByte, Used, Alloc, Shape, Word, SetWord, SetEntry;
      OwnShape(g, State(), owner);
      EntrySlot(g, State(), owner, j);
      var a := ip.addrs[NDIRECT];
      ShapeBlocks(g, State(), a);
      addr, m := Word(disk[a], j), {};
      if addr == 0 {
        ghost var s := State();
        addr := Balloc();
        if addr != 0 {
          GrowEntry(g, s, owner, j, addr);
          ShapeBlocks(g, State(), a);
          SetEntryShape(g, State(), j, addr);
          m := {g.bmapstart + addr / BPB};
          LogWrite(a, SetWord(disk[a], j, addr));
          owner := owner[addr := (inum, NDIRECT + 1 + j)];
        }
      }
    }

    /** bmap's second half: file block NDIRECT + j. */
    method MapIndirect(j: int) returns (addr: int, ghost m: set<int>)
      requires Valid() && ip.typ != 0 && 0 <= j < NINDIRECT
      modifies `disk, `logged, `ip, `owner
      ensures Valid() && addr == Slot(g, State(), inum, NDIRECT + 1 + j) && ip == old(ip).(addrs := ip.addrs)
      ensures SameFiles(g, old(State()), State()) && SameTable(g, old(State()), State()) && Grows(g, old(State()), State())
      ensures addr == 0 ==> Full()
      ensures Slot(g, old(State()), inum, NDIRECT + 1 + j) != 0 ==> State() == old(State()) && owner == old(owner) && logged == old(logged) && m == {}
      ensures logged <= old(logged) + m + NonZero(addr) + NonZero(ip.addrs[NDIRECT])
      ensures |m| <= Added(Slot(g, old(State()), inum, NDIRECT + 1 + j), addr) + Added(old(ip.addrs[NDIRECT]), ip.addrs[NDIRECT])
    {
      hide Own, Slot, FileByte, Shape, SameFiles, Grows, SlotSet, FullState;
      ghost var s := State();
      OwnShape(g, s, owner);
      DirectSlot(g, s, NDIRECT);
      if ip.addrs[NDIRECT] == 0 {
        NoIndirect(g, s, j);
      }
      var ind;
      ind, m := MapDirect(NDIRECT);
      ghost var t := State();
      OwnShape(g, t, owner);
      GrowsFromSlots(g, s, t, inum, NDIRECT, ind);
      addr := 0;
      if ind == 0 {
        NoIndirect(g, t, j);
      } else {
        ghost var m1;
        addr, m1 := MapEntry(j);
        OwnShape(g, State(), owner);
        EntryStep(g, s, t, State(), j, ind, addr);
        m := m + m1;
      }
    }

    /** The block of the inode that holds file block bn, allocated if there is none; 0 when
        the disk is full. m: the map blocks used. */
    method Bmap(bn: int) returns (addr: int, ghost m: set<int>)
      requires Valid() && ip.typ != 0 && 0 <= bn < MAXFILE
      modifies `disk, `logged, `ip, `owner
      ensures Valid() && addr == Slot(g, State(), inum, Index(bn)) && ip == old(ip).(addrs := ip.addrs)
      ensures SameFiles(g, old(State()), State()) && SameTable(g, old(State()), State()) && Grows(g, old(State()), State())
      ensures addr == 0 ==> Full()
      ensures Slot(g, old(State()), inum, Index(bn)) != 0 ==> State() == old(State()) && owner == old(owner) && logged == old(logged) && m == {}
      ensures logged <= old(logged) + m + NonZero(addr) + NonZero(ip.addrs[NDIRECT])
      ensures |m| <= Added(Slot(g, old(State()), inum, Index(bn)), addr) + Added(old(ip.addrs[NDIRECT]), ip.addrs[NDIRECT])
    {
      hide Own, Slot, FileByte, Shape, SameFiles, Grows, SlotSet, FullState;
      ghost var s := State();
      OwnShape(g, s, owner);
      if bn < NDIRECT {
        DirectSlot(g, s, bn);
        addr, m := MapDirect(bn);
        OwnShape(g, State(), owner);
        DirectSlot(g, State(), bn);
        GrowsFromSlots(g, s, State(), inum, bn, addr);
      } else {
        addr, m := MapIndirect(bn - NDIRECT);
      }
    }

    /** Copy the inode to its inode block. */
    method Iupdate()
      requires Valid()
      modifies `disk, `logged
      ensures Valid() && Synced(g, State()) && State() == StoreInode(g, old(State()), inum, ip)
      ensures SameFiles(g, old(State()), State()) && SameInodes(g, old(State()), State()) && SameSlots(g, old(State()), State())
      ensures FullState(g, old(State())) ==> Full()
      ensures logged == old(logged) + {g.inodestart + inum / IPB}
    {
      hide Refs, Used, FileByte, PutInode, Din, SameSlots, SameFiles, SameInodes, Synced;
      UpdateKeeps(g, State(), owner);
      FullStored(g, State(), inum, ip);
      var x := g.inodestart + inum / IPB;
      LogWrite(x, PutInode(disk[x], inum % IPB, ip));
    }

    /** itrunc's first loop body. */
    method FreeDirect(k: int)
      requires Valid() && 0 <= k < NDIRECT
      modifies `disk, `logged, `ip, `owner
      ensures Valid() && ip == old(ip).(addrs := old(ip.addrs)[k := 0])
      ensures Shrinks(g, old(State()), State(), old(owner), owner) && logged <= old(logged) + Maps(g)
    {
      hide Own, Slot, FileByte, Used, Mark, Shape;
      OwnShape(g, State(), owner);
      if ip.addrs[k] != 0 {
        FreeDirectOk(g, State(), owner, k);
        Bfree(ip.addrs[k]);
        owner := owner - {ip.addrs[k]};
        ip := ip.(addrs := ip.addrs[k := 0]);
      } else {
        assert ip.addrs[k := 0] == ip.addrs;
        ShrinksSelf(g, State(), owner);
      }
    }

    /** itrunc's second loop body: entry j of the indirect block. */
    method FreeEntry(j: int)
      requires Own(g, State(), owner, 0) && 0 <= j < NINDIRECT && freed == j && ip.addrs[NDIRECT] != 0
      modifies `disk, `logged, `owner, `freed
      ensures Own(g, State(), owner, 0) && freed == j + 1
      ensures Shrinks(g, old(State()), State(), old(owner), owner) && logged <= old(logged) + Maps(g)
    {
      hide Own, Slot, FileByte, Used, Mark, Shape, Word;
      OwnShape(g, State(), owner);
      EntryAt(g, State(), owner, j);
      ShapeBlocks(g, State(), ip.addrs[NDIRECT]);
      var a := Word(disk[ip.addrs[NDIRECT]], j);
      if a != 0 {
        FreeEntryOk(g, State(), owner, j);
        Bfree(a);
        owner := owner - {a};
      } else {
        PassEntryOk(g, State(), owner, j);
      }
      freed := j + 1;
    }

    /** itrunc's second half. */
    method FreeIndirect()
      requires Valid() && ip.addrs[NDIRECT] != 0
      modifies `disk, `logged, `ip, `owner, `freed
      ensures Valid() && ip == old(ip).(addrs := old(ip.addrs)[NDIRECT := 0])
      ensures Shrinks(g, old(State()), State(), old(owner), owner) && logged <= old(logged) + Maps(g)
    {
      hide Own, Slot, FileByte, Used, Mark, Shape, Shrinks;
      ghost var s, owner0 := State(), owner;
      OwnShape(g, s, owner);
      ShrinksSelf(g, s, owner);
      for j := 0 to NINDIRECT
        invariant Own(g, State(), owner, 0) && freed == j && ip == old(ip)
        invariant Shrinks(g, s, State(), owner0, owner) && logged <= old(logged) + Maps(g)
      {
        ghost var t, owner1 := State(), owner;
        FreeEntry(j);
        ShrinksTrans(g, s, t, State(), owner0, owner1, owner);
      }
      ghost var t, owner1 := State(), owner;
      OwnShape(g, t, owner);
      FreeIndirectOk(g, t, owner);
      Bfree(ip.addrs[NDIRECT]);
      owner := owner - {ip.addrs[NDIRECT]};
      ip := ip.(addrs := ip.addrs[NDIRECT := 0]);
      freed := 0;
      ShrinksTrans(g, s, t, State(), owner0, owner1, owner);
    }

    /** All the inode's blocks go back to the free map. */
    method Itrunc()
      requires Valid()
      modifies `disk, `logged, `ip, `owner, `freed
      ensures Valid() && Synced(g, State()) && ip == old(ip).(size := 0, addrs := NewInode(0).addrs)
      ensures SameOthers(g, old(State()), State(), inum)
      ensures forall i :: 0 <= i < g.ninodes && i != inum ==> Ino(g, State(), i) == Ino(g, old(State()), i)
      ensures forall b :: b in owner <==> b in old(owner) && old(owner)[b].0 != inum
      ensures forall b :: b in owner ==> owner[b] == old(owner)[b]
      ensures logged <= old(logged) + Maps(g) + {g.inodestart + inum / IPB}
    {
      hide Own, Slot, FileByte, Used, Mark, Shape, Shrinks, Din, StoreInode;
      ghost var s, owner0 := State(), owner;
      OwnShape(g, s, owner);
      ShrinksSelf(g, s, owner);
      for i := 0 to NDIRECT
        invariant Valid() && ip == old(ip).(addrs := ip.addrs) && |ip.addrs| == NDIRECT + 1
        invariant forall k :: 0 <= k < i ==> ip.addrs[k] == 0
        invariant Shrinks(g, s, State(), owner0, owner) && logged <= old(logged) + Maps(g)
      {
        ghost var t, owner1 := State(), owner;
        FreeDirect(i);
        ShrinksTrans(g, s, t, State(), owner0, owner1, owner);
      }
      if ip.addrs[NDIRECT] != 0 {
        ghost var t, owner1 := State(), owner;
        FreeIndirect();
        ShrinksTrans(g, s, t, State(), owner0, owner1, owner);
      }
      assert ip.addrs == NewInode(0).addrs;
      ghost var t := State();
      AllFreed(g, s, t, owner0, owner);
      SizeKeeps(g, t, owner, 0);
      ip := ip.(size := 0);
      SizeShape(g, t, 0, owner);
      ghost var u := State();
      Iupdate();
      OthersTrans(g, s, t, u, State(), owner0, owner);
    }

    /** writei's loop body: m bytes of user, from tot on, go to file offset o. The copy from
        user memory fails beyond the end of user, and may then leave anything in the buffer. */
    method WriteBlock(user: seq<int>, tot: int, o: int, m: int) returns (done: bool, addr: int, ghost maps: set<int>)
      requires Valid() && ip.typ != 0 && Bytes(user) && 0 <= tot && 0 < m && o % BSIZE + m <= BSIZE && 0 <= o && o + m <= MAXBYTES
      modifies `disk, `logged, `ip, `owner
      ensures Valid() && BlockWritten(g, old(State()), State(), user, tot, o, m, done, addr, maps)
      ensures !done && tot + m <= |user| ==> Full()
      ensures logged <= old(logged) + maps + NonZero(addr) + NonZero(ip.addrs[NDIRECT])
    {
      hide Own, Slot, FileByte, Shape, SameFiles, Grows, FullState, Spliced, SameTable;
      ghost var s := State();
      OwnShape(g, s, owner);
      addr, maps := Bmap(o / BSIZE);
      ghost var t := State();
      OwnShape(g, t, owner);
      if addr == 0 {
        done := false;
        SplicedNone(g, s, t, inum, o, if tot + m > |user| then o + m else o);
        return;
      }
      var data;
      done, data := CopyIn(user, tot, m);
      ChunkKeeps(g, t, owner, o, data);
      ChunkStep(g, s, t, owner, o, data);
      ShapeBlocks(g, t, addr);
      disk := disk[addr := Overlay(disk[addr], o % BSIZE, data)];
      if done {
        logged := logged + {addr};
      } else {
        SplicedOpen(g, s, State(), inum, o, data);
      }
    }

    /** writei's loop: bytes of user go to off on, block by block. D: the data blocks
        touched, M: the map blocks used. */
    method WriteLoop(user: seq<int>, off: int, n: int) returns (tot: int, ghost D: set<int>, ghost M: set<int>)
      requires Valid() && ip.typ != 0 && Bytes(user) && 0 <= off <= ip.size && 0 <= n && off + n <= MAXBYTES
      modifies `disk, `logged, `ip, `owner
      ensures Valid() && Finished(g, old(State()), State(), off, n, user, tot, D, M) && (tot < n ==> Full() || |user| < n)
      ensures logged <= old(logged) + D + M + NonZero(ip.addrs[NDIRECT])
    {
      hide Own, Slot, FileByte, Shape, FullState, Progress, Finished, BlockWritten;
      ghost var s := State();
      OwnShape(g, s, owner);
      tot, D, M := 0, {}, {};
      ProgressNone(g, s, off, n, user);
      while tot < n
        invariant Valid() && Progress(g, s, State(), off, n, user, tot, D, M) && 0 <= tot <= n && |ip.addrs| == NDIRECT + 1
        invariant ip.typ == old(ip.typ) && logged <= old(logged) + D + M + NonZero(ip.addrs[NDIRECT])
      {
        ghost var t := State();
        var o := off + tot;
        var m := if n - tot < BSIZE - o % BSIZE then n - tot else BSIZE - o % BSIZE;
        var done, addr, maps := WriteBlock(user, tot, o, m);
        OwnShape(g, State(), owner);
        Advance(g, s, t, State(), off, n, user, tot, m, done, addr, maps, D, M);
        D, M := D + NonZero(addr), M + maps;
        if !done {
          return;
        }
        tot := tot + m;
      }
      ProgressDone(g, s, State(), off, n, user, D, M);
    }

    /** writei. user: the bytes that can be read at src. W: the blocks logged. */
    method Writei(user: seq<int>, off: int, n: int) returns (r: int, ghost W: set<int>)
      requires Valid() && Synced(g, State()) && ip.typ != 0 && Bytes(user) && 0 <= off < WORD && 0 <= n < WORD
      modifies `disk, `logged, `ip, `owner
      ensures Valid() && Synced(g, State()) && ip == old(ip).(addrs := ip.addrs, size := ip.size)
      ensures r == -1 <==> off > old(ip.size) || off + n >= WORD || off + n > MAXBYTES
      ensures r == -1 ==> State() == old(State()) && W == {}
      ensures r != -1 ==> 0 <= r <= n && r <= |user| && (r < n ==> Full() || |user| < n)
      ensures r != -1 ==> WriteDone(g, old(State()), State(), off, user[..r], if |user| < n then off + n else off + r)
      ensures logged <= old(logged) + W && (HoleFree(g, old(State()), inum) ==> |W| <= LogBound(off, n))
    {
      hide Own, Slot, FileByte, Shape, FullState, Finished, WriteDone, HoleFree, Synced, StoreInode, SameFiles, SameSlots,
        SameInodes;
      OwnShape(g, State(), owner);
      r, W := -1, {};
      if off > ip.size || off + n >= WORD || off + n > MAXBYTES {
        return;
      }
      ghost var s := State();
      ghost var D, M;
      r, D, M := WriteLoop(user, off, n);
      ghost var t := State();
      FinishedSize(g, s, t, owner, off, n, user, r, D, M);
      if off + r > ip.size {
        ip := ip.(size := off + r);
      }
      ghost var u := State();
      FullFrame(g, t, u);
      Iupdate();
      OwnShape(g, State(), owner);
      FinishedStored(g, s, t, u, State(), off, n, user, r, D, M);
      W := D + M + NonZero(ip.addrs[NDIRECT]) + {g.inodestart + inum / IPB};
      WriteCost(g, s, t, off, n, user, r, D, M, W, ip.addrs[NDIRECT], g.inodestart + inum / IPB);
    }

    /** readi. room: how many bytes can be written at dst; out: what is copied there. */
    method Readi(off: int, count: int, room: int) returns (r: int, out: seq<int>)
      requires Valid() && ip.typ != 0 && 0 <= off < WORD && 0 <= count < WORD && 0 <= room
      modifies `disk, `logged, `ip, `owner
      ensures Valid() && ip == old(ip).(addrs := ip.addrs) && SameFiles(g, old(State()), State())
      ensures HoleFree(g, old(State()), inum) ==> State() == old(State()) && owner == old(owner) && logged == old(logged)
      ensures off > ip.size || off + count >= WORD ==> r == 0 && out == [] && State() == old(State())
      ensures off <= ip.size && off + count < WORD ==>
                var n := if off + count > ip.size then ip.size - off else count;
                && (r == -1 ==> room < n)
                && (r != -1 ==> 0 <= r <= n && r <= room && out == Content(g, old(State()), inum)[off..off + r])
                && (0 <= r < n ==> Full() && !HoleFree(g, old(State()), inum)) && (r == n ==> n <= room)
    {
      hide Own, Slot, FileByte, Shape, HoleFree, Content, FullState, SameFiles;
      ghost var s := State();
      OwnShape(g, s, owner);
      OwnSize(g, s, owner);
      r, out := 0, [];
      if off > ip.size || off + count >= WORD {
        return;
      }
      var n := if off + count > ip.size then ip.size - off else count;
      while r < n
        invariant 0 <= r <= n && r <= room && Valid() && ip == old(ip).(addrs := ip.addrs) && Shape(g, State()) && SameFiles(g, s, State())
        invariant HoleFree(g, s, inum) ==> State() == s && owner == old(owner) && logged == old(logged)
        invariant out == Content(g, s, inum)[off..off + r]
      {
        var o := off + r;
        var m := if n - r < BSIZE - o % BSIZE then n - r else BSIZE - o % BSIZE;
        ghost var t := State();
        OwnSize(g, t, owner);
        ContentSame(g, s, t);
        var ok, data := ReadBlock(o, m);
        OwnShape(g, State(), owner);
        FilesTrans(g, s, t, State());
        if !ok {
          return;
        }
        if r + m > room {
          r := -1;
          return;
        }
        out := out + data;
        SliceMore(Content(g, s, inum), off, r, m);
        r := r + m;
      }
    }

    /** readi's loop body: m bytes at offset o; bmap fills a hole, or fails on a full disk. */
    method ReadBlock(o: int, m: int) returns (ok: bool, data: seq<int>)
      requires Valid() && ip.typ != 0 && 0 <= o < ip.size && 0 <= m && o % BSIZE + m <= BSIZE && o + m <= ip.size
      modifies `disk, `logged, `ip, `owner
      ensures Valid() && ip == old(ip).(addrs := ip.addrs) && SameFiles(g, old(State()), State())
      ensures HoleFree(g, old(State()), inum) ==> ok && State() == old(State()) && owner == old(owner) && logged == old(logged)
      ensures !ok ==> Full()
      ensures ok ==> old(ip.size) <= MAXBYTES && data == Content(g, old(State()), inum)[o..o + m]
    {
      hide Own, Slot, FileByte, Shape, HoleFree, Content, FullState, SameFiles, SameTable, Grows, NonZero, Added;
      ghost var t := State();
      OwnShape(g, t, owner);
      OwnSize(g, t, owner);
      ReadMapped(g, t, owner, o);
      var addr, _ := Bmap(o / BSIZE);
      ok, data := addr != 0, [];
      if ok {
        OwnSize(g, State(), owner);
        ReadSlice(g, State(), owner, o, m);
        ContentSame(g, t, State());
        data := disk[addr][o % BSIZE..o % BSIZE + m];
      }
    }

    /** ilock, when the inode is not in memory yet; it panics on a free inode. */
    method Ilock(i: int)
      requires Valid() && Synced(g, State()) && 0 <= i < g.ninodes && Din(g, State(), i).typ != 0
      modifies `inum, `ip
      ensures Valid() && Synced(g, State()) && inum == i && ip == Din(g, old(State()), i)
      ensures SameFiles(g, old(State()), State()) && SameInodes(g, old(State()), State()) && SameSlots(g, old(State()), State())
    {
      hide Refs, Used, FileByte, GetInode, SameFiles, SameInodes, SameSlots, Synced;
      LoadKeeps(g, State(), owner, i);
      var x := disk[g.inodestart + i / IPB];
      inum, ip := i, GetInode(x, i % IPB);
    }

    /** The first free inode, claimed with type typ; 0 when there is none. */
    method Ialloc(typ: int) returns (i: int)
      requires Valid() && Synced(g, State()) && ip.typ != 0 && 0 < typ < 0x1_0000
      modifies `disk, `logged
      ensures Valid() && Synced(g, State()) && SameFiles(g, old(State()), State())
      ensures i == 0 ==> State() == old(State()) && forall j :: 1 <= j < g.ninodes ==> Din(g, State(), j).typ != 0
      ensures i != 0 ==> 1 <= i < g.ninodes && Ino(g, old(State()), i).typ == 0
      ensures i != 0 ==> forall j :: 1 <= j < i ==> Din(g, old(State()), j).typ != 0
      ensures i != 0 ==> forall j :: 0 <= j < g.ninodes ==>
                Ino(g, State(), j) == if j == i then NewInode(typ) else Ino(g, old(State()), j)
      ensures logged == if i == 0 then old(logged) else old(logged) + {g.inodestart + i / IPB}
    {
      hide Own, Shape, FileByte, GetInode, PutInode, SameFiles;
      OwnShape(g, State(), owner);
      i := 1;
      while i < g.ninodes
        invariant 1 <= i && State() == old(State()) && logged == old(logged)
        invariant forall j :: 1 <= j < i && j < g.ninodes ==> Din(g, State(), j).typ != 0
        decreases g.ninodes - i
      {
        InodeBlock(g, State(), i);
        var x := g.inodestart + i / IPB;
        if GetInode(disk[x], i % IPB).typ == 0 {
          ClaimKeeps(g, State(), owner, i, typ);
          StoreShape(g, State(), i, NewInode(typ));
          LogWrite(x, PutInode(disk[x], i % IPB, NewInode(typ)));
          return;
        }
        i := i + 1;
      }
      i := 0;
    }

    /** iput, when the last reference to an unlinked inode goes: truncate and free it. */
    method FreeInode()
      requires Valid() && ip.nlink == 0
      modifies `disk, `logged, `ip, `owner, `freed
      ensures Valid() && Synced(g, State()) && ip.typ == 0 && ip.size == 0 && SameOthers(g, old(State()), State(), inum)
      ensures forall i :: 0 <= i < g.ninodes && i != inum ==> Ino(g, State(), i) == Ino(g, old(State()), i)
      ensures forall b :: b in owner <==> b in old(owner) && old(owner)[b].0 != inum
      ensures logged <= old(logged) + Maps(g) + {g.inodestart + inum / IPB}
    {
      hide Own, Shape, FileByte, StoreInode, Din, SameSlots;
      ghost var s := State();
      OwnShape(g, s, owner);
      Itrunc();
      ghost var t := State();
      OwnShape(g, t, owner);
      TypeKeeps(g, t, owner);
      ip := ip.(typ := 0);
      ghost var u := State();
      OwnShape(g, u, owner);
      Iupdate();
      OwnShape(g, State(), owner);
      FreedOthers(g, s, t, u, State());
    }

    /** filewrite on an inode: a transaction for each chunk of at most three blocks. */
    method Filewrite(user: seq<int>, n: int) returns (ret: int)
      requires Valid() && Synced(g, State()) && ip.typ != 0 && HoleFree(g, State(), inum) && Bytes(user)
      requires 0 <= offset < WORD && n < 0x8000_0000
      modifies `disk, `logged, `ip, `owner, `offset, `txns
      ensures Valid() && Synced(g, State()) && HoleFree(g, State(), inum)
      ensures ret == (if n == offset - old(offset) then n else -1)
      ensures n <= 0 ==> State() == old(State()) && offset == old(offset)
      ensures n > 0 ==> FileDone(g, old(State()), State(), old(offset), n, offset - old(offset), user)
      ensures SmallSince(old(txns), txns)
    {
      hide Refs, Bits, Allocated, Sizes, Slot, FileByte, Shape, HoleFree, FullState, Synced, FileDone, FileSoFar, LogBound,
        WriteDone, SmallSince;
      var max := ((MAXOPBLOCKS - 1 - 1 - 2) / 2) * BSIZE;
      var i := 0;
      ghost var s, off := State(), offset;
      OwnShape(g, s, owner);
      FileNone(g, s, off, user);
      SmallNone(txns);
      while i < n
        invariant Valid() && Synced(g, State()) && HoleFree(g, State(), inum) && ip.typ == old(ip.typ)
        invariant 0 <= i && (i == 0 || i <= n) && offset == off + i < WORD && (i == 0 ==> State() == s)
        invariant FileSoFar(g, s, State(), off, i, user)
        invariant SmallSince(old(txns), txns)
      {
        var n1 := if n - i > max then max else n - i;
        ghost var t := State();
        OwnShape(g, t, owner);
        OwnSize(g, t, owner);
        BytesDrop(user, i);
        logged := {};
        var r, W := Writei(if i <= |user| then user[i..] else [], offset, n1);
        ChunkFits(offset, n1);
        WithinBound(logged, W);
        FileStep(g, s, t, State(), off, i, n, n1, r, user);
        OwnShape(g, State(), owner);
        if r > 0 {
          offset := offset + r;
        }
        SmallMore(old(txns), txns, logged);
        txns := txns + [logged];
        if r != n1 {
          return -1;
        }
        i := i + r;
      }
      if n > 0 {
        FileEnd(g, s, State(), off, n, user);
      }
      ret := if i == n then n else -1;
    }
  }

  function NonZero(a: int): set<int> {
    if a == 0 then {} else {a}
  }

  function Added(was: int, now: int): int {
    if was == 0 && now != 0 then 1 else 0
  }

  /** Inode blocks are not the superblock. */
  lemma NumbersStay(g: Geometry, s: St, i: int, n: Inode)
    requires Makeable(g) && Shape(g, s) && 0 <= i < g.ninodes && InodeOk(n) && HasNumbers(g, s.disk)
    ensures HasNumbers(g, StoreInode(g, s, i, n).disk)
  {
    hide Word, PutInode;
  }

  /** Nothing is owned: the map has the metadata only, and an empty file no holes. */
  lemma Unowned(g: Geometry, s: St, owner: Owner)
    requires Own(g, s, owner, 0) && owner == map[]
    ensures Shape(g, s) && forall b :: 0 <= b < g.size ==> (Used(g, s, b) <==> b < g.datastart)
    ensures s.ip.size == 0 ==> HoleFree(g, s, s.inum)
  {
    hide Used, Refs, Sizes, Allocated;
  }

  /** n block numbers from lo on. */
  ghost function Upto(lo: int, n: nat): (r: set<int>)
    ensures |r| == n && forall x :: x in r <==> lo <= x < lo + n
    decreases n
  {
    if n == 0 then {} else Upto(lo, n - 1) + {lo + n - 1}
  }

  /** The blocks of the free map. */
  ghost function Maps(g: Geometry): set<int> {
    if g.size <= 0 then {} else Upto(g.bmapstart, (g.size - 1) / BPB + 1)
  }

  /** Truncating and freeing an inode logs the map blocks and its inode block at most, and that fits
      in one operation's log space exactly on disks of up to nine map blocks. */
  lemma FreeInodeFits(g: Geometry, i: int)
    requires GeometryOk(g) && 0 <= i < g.ninodes
    ensures |Maps(g) + {g.inodestart + i / IPB}| == (g.size - 1) / BPB + 2
    ensures |Maps(g) + {g.inodestart + i / IPB}| <= MAXOPBLOCKS <==> g.size <= 9 * BPB
  {
    assert g.inodestart + i / IPB < g.bmapstart;
  }

  lemma ShapeBlocks(g: Geometry, s: St, a: int)
    requires Shape(g, s) && 0 <= a < g.size
    ensures |s.disk| == g.size && BlockOk(s.disk[a])
  {
  }

  lemma NoIndirect(g: Geometry, s: St, j: int)
    requires Shape(g, s) && 0 <= j < NINDIRECT && s.ip.addrs[NDIRECT] == 0
    ensures Slot(g, s, s.inum, NDIRECT + 1 + j) == 0
  {
  }

  lemma GrowsFromSlots(g: Geometry, s: St, t: St, i: int, k: int, a: int)
    requires Shape(g, s) && Shape(g, t) && InTab(g, i, k) && SlotSet(g, s, t, i, k, a)
    requires Slot(g, s, i, k) == 0 || Slot(g, s, i, k) == a
    ensures Grows(g, s, t) && Slot(g, t, i, k) == a
  {
    hide Slot;
  }

  lemma GrowsTrans(g: Geometry, s: St, t: St, u: St)
    requires Shape(g, s) && Shape(g, t) && Shape(g, u) && Grows(g, s, t) && Grows(g, t, u)
    ensures Grows(g, s, u)
  {
    hide Slot;
  }

  lemma FilesTrans(g: Geometry, s: St, t: St, u: St)
    requires Shape(g, s) && Shape(g, t) && Shape(g, u) && SameFiles(g, s, t) && SameFiles(g, t, u)
    ensures SameFiles(g, s, u)
  {
    hide FileByte;
  }

  /** First the indirect block, then the entry. */
  lemma EntryStep(g: Geometry, s: St, t: St, u: St, j: int, ind: int, addr: int)
    requires Shape(g, s) && Shape(g, t) && Shape(g, u) && 0 <= j < NINDIRECT && s.inum == t.inum == u.inum
    requires SlotSet(g, s, t, s.inum, NDIRECT, ind) && Grows(g, s, t) && SameFiles(g, s, t) && SameFiles(g, t, u)
    requires SlotSet(g, t, u, s.inum, NDIRECT + 1 + j, addr)
    requires var was := Slot(g, t, s.inum, NDIRECT + 1 + j); was != 0 ==> addr == was
    ensures Grows(g, s, u) && SameFiles(g, s, u) && Slot(g, u, s.inum, NDIRECT + 1 + j) == addr
    ensures Slot(g, t, s.inum, NDIRECT + 1 + j) == Slot(g, s, s.inum, NDIRECT + 1 + j)
  {
    hide Slot, FileByte, SameFiles, Shape;
    ShapeInum(g, s);
    GrowsFromSlots(g, t, u, s.inum, NDIRECT + 1 + j, addr);
    GrowsTrans(g, s, t, u);
    FilesTrans(g, s, t, u);
  }

  lemma ShapeInum(g: Geometry, s: St)
    requires Shape(g, s)
    ensures 0 <= s.inum < g.ninodes
  {
  }

  lemma DirectSlot(g: Geometry, s: St, k: int)
    requires Shape(g, s) && 0 <= k <= NDIRECT
    ensures Slot(g, s, s.inum, k) == s.ip.addrs[k]
  {
  }

  lemma EntrySlot(g: Geometry, s: St, owner: Owner, j: int)
    requires Own(g, s, owner, 0) && s.freed == 0 && 0 <= j < NINDIRECT && s.ip.addrs[NDIRECT] != 0
    ensures g.datastart <= s.ip.addrs[NDIRECT] < g.size
    ensures Slot(g, s, s.inum, NDIRECT + 1 + j) == Word(s.disk[s.ip.addrs[NDIRECT]], j)
    ensures SlotSet(g, s, s, s.inum, NDIRECT + 1 + j, Word(s.disk[s.ip.addrs[NDIRECT]], j))
  {
    hide GetInode, Word;
    SlotOwned(g, s, owner, s.inum, NDIRECT);
    assert Slot(g, s, s.inum, NDIRECT) == s.ip.addrs[NDIRECT];
  }

  /** The indirect block's entry, and the entry's new block, are not the indirect block. */
  lemma SetEntryShape(g: Geometry, s: St, j: int, b: int)
    requires Shape(g, s) && 0 <= j < NINDIRECT && 0 < s.ip.addrs[NDIRECT] < g.size && 0 <= b < g.size
    ensures var a := s.ip.addrs[NDIRECT]; SetEntry(g, s, j, b) == SetBlock(s, a, SetWord(s.disk[a], j, b))
    ensures SetEntry(g, s, j, b).ip == s.ip
  {
  }

  lemma BootUsed(g: Geometry, s: St, owner: Owner)
    requires Own(g, s, owner, 0)
    ensures Shape(g, s) && |s.disk| == g.size && 0 < g.size && Used(g, s, 0)
  {
    hide Used;
  }

  lemma MapBlock(g: Geometry, s: St, b: int)
    requires Shape(g, s) && 0 <= b < g.size
    ensures 0 <= g.bmapstart + b / BPB < |s.disk| == g.size && BlockOk(s.disk[g.bmapstart + b / BPB])
  {
  }

  lemma AllocIs(g: Geometry, s: St, data: Block, first: int, bi: int)
    requires Shape(g, s) && 0 <= first && first % BPB == 0 && 0 <= bi < BPB && first + bi < g.size
    requires data == s.disk[g.bmapstart + first / BPB]
    ensures SetBlock(SetBlock(s, g.bmapstart + first / BPB, PutBit(data, bi, true)), first + bi, Zero()) == Alloc(g, s, first + bi)
  {
  }

  lemma OwnShape(g: Geometry, s: St, owner: Owner)
    requires Own(g, s, owner, 0)
    ensures Shape(g, s) && |s.ip.addrs| == NDIRECT + 1 && 0 < g.datastart <= g.size < WORD && 0 <= s.inum < g.ninodes
    ensures SameFiles(g, s, s) && forall k :: 0 <= k <= NDIRECT ==> SlotSet(g, s, s, s.inum, k, s.ip.addrs[k])
  {
    hide FileByte, GetInode, Word;
  }

  /** balloc's inner loop: the first clear bit among the first `limit` of a map block. */
  method FindClear(data: Block, limit: int) returns (bi: int)
    requires BlockOk(data) && 0 <= limit <= BPB
    ensures 0 <= bi <= limit && (forall c :: 0 <= c < bi ==> Bit(data, c)) && (bi < limit ==> !Bit(data, bi))
  {
    hide BlockOk;
    bi := 0;
    while bi < limit
      invariant 0 <= bi <= limit && forall c :: 0 <= c < bi ==> Bit(data, c)
    {
      if !Bit(data, bi) {
        return;
      }
      bi := bi + 1;
    }
  }

  /** The bits of a map block are those of the blocks from `first` on. */
  lemma MapBits(g: Geometry, s: St, data: Block, first: int, n: int)
    requires Shape(g, s) && 0 <= first < g.size && first % BPB == 0 && 0 <= n <= BPB && first + n <= g.size
    requires data == s.disk[g.bmapstart + first / BPB] && forall c :: 0 <= c < n ==> Bit(data, c)
    requires forall c :: 0 <= c < first ==> Used(g, s, c)
    ensures forall c :: 0 <= c < first + n ==> Used(g, s, c)
    ensures n < BPB && first + n < g.size ==>
              && (Used(g, s, first + n) <==> Bit(data, n))
              && (first + n) / BPB == first / BPB && (first + n) % BPB == n
  {
    hide Bit, BlockOk;
    forall c | first <= c < first + n ensures Used(g, s, c) {
      assert c / BPB == first / BPB && c % BPB == c - first;
      assert Bit(data, c - first);
    }
  }

  /** A block is allocated for direct slot or indirect block k. */
  lemma GrowDirect(g: Geometry, s: St, owner: Owner, k: int, b: int)
    requires Own(g, s, owner, 0) && s.freed == 0 && s.ip.typ != 0 && 0 <= k <= NDIRECT && s.ip.addrs[k] == 0
    requires 0 <= b < g.size && !Used(g, s, b)
    ensures var t := SetAddr(Alloc(g, s, b), k, b);
            && Own(g, t, owner[b := (s.inum, k)], 0) && SameFiles(g, s, t) && SameTable(g, s, t)
            && SlotSet(g, s, t, s.inum, k, b) && b != 0
  {
    hide Refs, Used, FileByte, Mark, Slot, Bits;
    AllocKeeps(g, s, owner, b);
    AllocSlots(g, s, owner, b);
    AllocShape(g, s, b);
    var a := Alloc(g, s, b);
    AssignDirect(g, a, owner, k, b);
    DirectSlots(g, a, k, b);
  }

  lemma AllocShape(g: Geometry, s: St, b: int)
    requires Shape(g, s) && 0 <= b < g.size
    ensures var t := Alloc(g, s, b); t.ip == s.ip && t.inum == s.inum && t.freed == s.freed && t.disk[b] == Zero()
  {
  }

  /** A block is allocated for entry j of the indirect block. */
  lemma GrowEntry(g: Geometry, s: St, owner: Owner, j: int, b: int)
    requires Own(g, s, owner, 0) && s.freed == 0 && s.ip.typ != 0 && 0 <= j < NINDIRECT && s.ip.addrs[NDIRECT] != 0
    requires 0 <= b < g.size && !Used(g, s, b) && Slot(g, s, s.inum, NDIRECT + 1 + j) == 0
    ensures b != 0 && g.datastart <= s.ip.addrs[NDIRECT] < g.size && Alloc(g, s, b).ip == s.ip
    ensures var t := SetEntry(g, Alloc(g, s, b), j, b);
            && Own(g, t, owner[b := (s.inum, NDIRECT + 1 + j)], 0) && SameFiles(g, s, t) && SameTable(g, s, t)
            && SlotSet(g, s, t, s.inum, NDIRECT + 1 + j, b)
  {
    hide Refs, Used, FileByte, Mark, Slot, Bits;
    AllocKeeps(g, s, owner, b);
    AllocSlots(g, s, owner, b);
    AllocShape(g, s, b);
    var a := Alloc(g, s, b);
    AssignEntry(g, a, owner, j, b);
    EntrySlots(g, a, owner, j, b);
  }

  // ---- Truncation ----

  /** Blocks of the current inode may have been freed; nothing else has changed. */
  ghost predicate Shrinks(g: Geometry, s: St, t: St, owner: Owner, owner1: Owner) {
    && Shape(g, s) && Shape(g, t) && t.inum == s.inum && t.ip == s.ip.(addrs := t.ip.addrs)
    && SameOthers(g, s, t, s.inum) && SameTable(g, s, t)
    && (forall b :: b in owner1 ==> b in owner && owner1[b] == owner[b])
    && (forall b :: b in owner && owner[b].0 != s.inum ==> b in owner1)
  }

  lemma ShrinksSelf(g: Geometry, s: St, owner: Owner)
    requires Shape(g, s)
    ensures Shrinks(g, s, s, owner, owner)
  {
    hide FileByte;
  }

  lemma ShrinksTrans(g: Geometry, s: St, t: St, u: St, owner0: Owner, owner1: Owner, owner2: Owner)
    requires Shrinks(g, s, t, owner0, owner1) && Shrinks(g, t, u, owner1, owner2)
    ensures Shrinks(g, s, u, owner0, owner2)
  {
    hide FileByte, Shape;
    ShapeBase(g, s);
  }

  lemma ShapeBase(g: Geometry, s: St)
    requires Shape(g, s)
    ensures GeometryOk(g) && |s.disk| == g.size && 0 <= s.inum < g.ninodes && |s.ip.addrs| == NDIRECT + 1
  {
  }

  lemma FreeShrinks(g: Geometry, s: St, t: St, owner: Owner, k: int)
    requires Own(g, s, owner, 0) && 0 <= k < SLOTS && Slot(g, s, s.inum, k) != 0
    requires 0 <= Slot(g, s, s.inum, k) < g.size && Shape(g, t)
    requires var m := Mark(g, s, Slot(g, s, s.inum, k), false); Retains(g, m, t) && SlotSet(g, m, t, s.inum, k, 0)
    ensures Own(g, t, owner - {Slot(g, s, s.inum, k)}, 0)
    ensures Shrinks(g, s, t, owner, owner - {Slot(g, s, s.inum, k)})
  {
    hide Slot, FileByte, Used, PutBit, Refs;
    FreeKeeps(g, s, t, owner, k);
    SlotUsed(g, s, owner, s.inum, k);
  }

  lemma FreeDirectOk(g: Geometry, s: St, owner: Owner, k: int)
    requires Own(g, s, owner, 0) && s.freed == 0 && 0 <= k < NDIRECT && s.ip.addrs[k] != 0
    ensures var a := s.ip.addrs[k]; 0 <= a < g.size && Used(g, s, a)
    ensures var a := s.ip.addrs[k];
            && Mark(g, s, a, false).(disk := s.disk) == s
            && Own(g, SetAddr(Mark(g, s, a, false), k, 0), owner - {a}, 0)
            && Shrinks(g, s, SetAddr(Mark(g, s, a, false), k, 0), owner, owner - {a})
  {
    hide Slot, FileByte, Used, PutBit, Refs, Shrinks, Bits;
    DirectSlot(g, s, k);
    SlotUsed(g, s, owner, s.inum, k);
    var m := Mark(g, s, s.ip.addrs[k], false);
    DirectSlots(g, m, k, 0);
    FreeShrinks(g, s, SetAddr(m, k, 0), owner, k);
  }

  lemma EntryAt(g: Geometry, s: St, owner: Owner, j: int)
    requires Own(g, s, owner, 0) && 0 <= s.freed <= j < NINDIRECT && s.ip.addrs[NDIRECT] != 0
    ensures Shape(g, s) && 0 < s.ip.addrs[NDIRECT] < g.size == |s.disk|
    ensures Slot(g, s, s.inum, NDIRECT + 1 + j) == Word(s.disk[s.ip.addrs[NDIRECT]], j)
  {
    hide GetInode, Word;
    SlotOwned(g, s, owner, s.inum, NDIRECT);
    assert Slot(g, s, s.inum, NDIRECT) == s.ip.addrs[NDIRECT];
  }

  lemma FreeEntryOk(g: Geometry, s: St, owner: Owner, j: int)
    requires Own(g, s, owner, 0) && s.freed == j && 0 <= j < NINDIRECT
    requires Slot(g, s, s.inum, NDIRECT + 1 + j) != 0
    ensures var a := Slot(g, s, s.inum, NDIRECT + 1 + j); 0 <= a < g.size && Used(g, s, a)
    ensures var a := Slot(g, s, s.inum, NDIRECT + 1 + j);
            var t := Mark(g, s, a, false).(freed := j + 1);
            Mark(g, s, a, false).(disk := s.disk) == s && Own(g, t, owner - {a}, 0) && Shrinks(g, s, t, owner, owner - {a})
  {
    hide Slot, FileByte, Used, PutBit, Refs, Shrinks, Bits;
    SlotUsed(g, s, owner, s.inum, NDIRECT + 1 + j);
    var m := Mark(g, s, Slot(g, s, s.inum, NDIRECT + 1 + j), false);
    EntryFreed(g, m);
    FreeShrinks(g, s, m.(freed := j + 1), owner, NDIRECT + 1 + j);
  }

  lemma PassEntryOk(g: Geometry, s: St, owner: Owner, j: int)
    requires Own(g, s, owner, 0) && s.freed == j && 0 <= j < NINDIRECT
    requires Slot(g, s, s.inum, NDIRECT + 1 + j) == 0
    ensures var t := s.(freed := j + 1); Own(g, t, owner, 0) && Shrinks(g, s, t, owner, owner)
  {
    hide Slot, FileByte, Used, Refs, Bits;
    EntryPassed(g, s, owner);
  }

  lemma FreeIndirectOk(g: Geometry, s: St, owner: Owner)
    requires Own(g, s, owner, 0) && s.freed == NINDIRECT && s.ip.addrs[NDIRECT] != 0
    ensures var a := s.ip.addrs[NDIRECT]; 0 <= a < g.size && Used(g, s, a)
    ensures var a := s.ip.addrs[NDIRECT];
            var t := SetAddr(Mark(g, s, a, false), NDIRECT, 0).(freed := 0);
            Mark(g, s, a, false).(disk := s.disk) == s && Own(g, t, owner - {a}, 0) && Shrinks(g, s, t, owner, owner - {a})
  {
    hide Slot, FileByte, Used, PutBit, Refs, Shrinks, Bits;
    DirectSlot(g, s, NDIRECT);
    SlotUsed(g, s, owner, s.inum, NDIRECT);
    var m := Mark(g, s, s.ip.addrs[NDIRECT], false);
    IndirectFreed(g, m);
    FreeShrinks(g, s, SetAddr(m, NDIRECT, 0).(freed := 0), owner, NDIRECT);
  }

  /** An inode without pointers owns nothing. */
  lemma AllFreed(g: Geometry, s: St, t: St, owner0: Owner, owner: Owner)
    requires Own(g, t, owner, 0) && t.ip.addrs == NewInode(0).addrs && Shrinks(g, s, t, owner0, owner)
    ensures forall b :: b in owner <==> b in owner0 && owner0[b].0 != t.inum
    ensures forall b :: b in owner ==> owner[b] == owner0[b]
  {
    hide FileByte, Used, Word, GetInode;
    forall b | b in owner ensures owner[b].0 != t.inum {
      assert OwnedOk(g, t, owner, b);
    }
  }

  lemma SizeShape(g: Geometry, s: St, z: int, owner: Owner)
    requires Own(g, s, owner, 0) && 0 <= z <= MAXBYTES
    ensures Shape(g, s.(ip := s.ip.(size := z)))
  {
  }

  lemma OthersTrans(g: Geometry, s: St, t: St, u: St, v: St, owner0: Owner, owner: Owner)
    requires Shrinks(g, s, t, owner0, owner) && Shape(g, u) && Shape(g, v) && t.inum == u.inum == v.inum && t.disk == u.disk
    requires SameFiles(g, t, u) && SameFiles(g, u, v) && SameInodes(g, u, v)
    ensures SameOthers(g, s, v, s.inum)
    ensures forall i :: 0 <= i < g.ninodes && i != s.inum ==> Ino(g, v, i) == Ino(g, s, i)
  {
    hide FileByte, GetInode;
    forall i | 0 <= i < g.ninodes && i != s.inum ensures Ino(g, v, i) == Ino(g, s, i) {
      assert Ino(g, u, i) == Ino(g, s, i);
    }
  }

  // ---- Reading and writing ----

  predicate Bytes(d: seq<int>) {
    forall k :: 0 <= k < |d| ==> 0 <= d[k] < 256
  }

  /** either_copyin: m bytes of user from tot on; past its end the copy fails part way. */
  method CopyIn(user: seq<int>, tot: nat, m: nat) returns (ok: bool, data: seq<int>)
    requires Bytes(user)
    ensures ok == (tot + m <= |user|) && |data| == m && Bytes(data)
    ensures ok ==> data == user[tot..tot + m]
  {
    ok := tot + m <= |user|;
    if ok {
      data := user[tot..tot + m];
    } else {
      data := if tot < |user| then user[tot..] else [];
      data := data + seq(m - |data|, _ => 0);
    }
  }

  lemma SplicedNone(g: Geometry, s: St, t: St, i: int, o: nat, limit: int)
    requires Shape(g, s) && Shape(g, t) && SameFiles(g, s, t)
    ensures Spliced(g, s, t, i, o, [], limit)
  {
    hide FileByte;
    forall j, p | 0 <= j < g.ninodes && 0 <= p < MAXBYTES ensures SplicedAt(g, s, t, i, o, [], limit, j, p) {
    }
  }

  lemma SplicedOpen(g: Geometry, s: St, t: St, i: int, o: nat, d: seq<int>)
    requires Shape(g, s) && Shape(g, t) && Spliced(g, s, t, i, o, d, o + |d|)
    ensures Spliced(g, s, t, i, o, [], o + |d|)
  {
    hide FileByte;
    var limit := o + |d|;
    forall j, p | 0 <= j < g.ninodes && 0 <= p < MAXBYTES ensures SplicedAt(g, s, t, i, o, [], limit, j, p) {
      assert SplicedAt(g, s, t, i, o, d, limit, j, p);
    }
  }

  /** Bytes d1 at off, then bytes d2 after them. */
  lemma SplicedTrans(g: Geometry, s: St, t: St, u: St, i: int, off: nat, d1: seq<int>, d2: seq<int>, limit: int)
    requires Shape(g, s) && Shape(g, t) && Shape(g, u)
    requires Spliced(g, s, t, i, off, d1, off + |d1|) && Spliced(g, t, u, i, off + |d1|, d2, limit)
    ensures Spliced(g, s, u, i, off, d1 + d2, limit)
  {
    hide FileByte;
    var o1 := off + |d1|;
    forall j, p | 0 <= j < g.ninodes && 0 <= p < MAXBYTES ensures SplicedAt(g, s, u, i, off, d1 + d2, limit, j, p) {
      assert SplicedAt(g, s, t, i, off, d1, o1, j, p);
      assert SplicedAt(g, t, u, i, o1, d2, limit, j, p);
    }
  }

  /** bmap, then one block's worth of bytes. */
  lemma ChunkStep(g: Geometry, s: St, t: St, owner: Owner, o: int, d: seq<int>)
    requires Own(g, t, owner, 0) && 0 <= o < MAXBYTES && o % BSIZE + |d| <= BSIZE && Bytes(d)
    requires Slot(g, t, t.inum, Index(o / BSIZE)) != 0
    requires Shape(g, s) && SameFiles(g, s, t) && Grows(g, s, t) && SameTable(g, s, t) && s.inum == t.inum
    ensures var a := Slot(g, t, t.inum, Index(o / BSIZE)); g.datastart <= a < g.size
    ensures var a := Slot(g, t, t.inum, Index(o / BSIZE));
            var u := SetBlock(t, a, Overlay(t.disk[a], o % BSIZE, d));
            && Shape(g, u) && Spliced(g, s, u, s.inum, o, d, o + |d|) && Grows(g, s, u) && SameTable(g, s, u)
            && Slot(g, u, t.inum, Index(o / BSIZE)) == a
  {
    hide Slot, FileByte, Overlay, Refs, Used, SplicedAt, Spliced;
    ChunkKeeps(g, t, owner, o, d);
    var a := Slot(g, t, t.inum, Index(o / BSIZE));
    var u := SetBlock(t, a, Overlay(t.disk[a], o % BSIZE, d));
    SplicedNone(g, s, t, s.inum, o, o);
    assert [] + d == d;
    SplicedTrans(g, s, t, u, s.inum, o, [], d, o + |d|);
  }

  // ---- writei's loop ----

  /** Every file block that holds a byte from off up to end is mapped. */
  ghost predicate Mapped(g: Geometry, t: St, off: int, end: int)
    requires Shape(g, t)
  {
    off < end ==>
      forall bn :: 0 <= bn < MAXFILE && off / BSIZE <= bn && bn * BSIZE < end ==> Slot(g, t, t.inum, Index(bn)) != 0
  }

  /** t comes from s by writing d at off; the bytes after d, up to limit, are open. */
  ghost predicate Written(g: Geometry, s: St, t: St, off: int, d: seq<int>, limit: int) {
    && Shape(g, s) && Shape(g, t) && t.inum == s.inum && t.ip == s.ip.(addrs := t.ip.addrs) && 0 <= off
    && SameTable(g, s, t) && Grows(g, s, t) && Spliced(g, s, t, s.inum, off, d, limit) && Mapped(g, t, off, off + |d|)
  }

  lemma WrittenNone(g: Geometry, s: St, off: int)
    requires Shape(g, s) && 0 <= off
    ensures Written(g, s, s, off, [], off)
  {
    hide Slot, FileByte;
    SplicedNone(g, s, s, s.inum, off, off);
  }

  lemma WrittenLimit(g: Geometry, s: St, t: St, off: int, d: seq<int>, l1: int, l2: int)
    requires Written(g, s, t, off, d, l1) && l1 <= l2
    ensures Written(g, s, t, off, d, l2)
  {
    hide Slot, FileByte, Shape, Grows, Mapped;
    ShapeBase(g, s);
    forall j, o | 0 <= j < g.ninodes && 0 <= o < MAXBYTES ensures SplicedAt(g, s, t, s.inum, off, d, l2, j, o) {
      assert SplicedAt(g, s, t, s.inum, off, d, l1, j, o);
    }
  }

  /** In a hole-free file, a write that starts inside a block finds that block mapped. */
  lemma FirstMapped(g: Geometry, s: St, t: St, off: int, d: seq<int>)
    requires Written(g, s, t, off, d, off + |d|) && off <= s.ip.size && off < MAXBYTES
    ensures HoleFree(g, s, s.inum) && off % BSIZE != 0 ==> Slot(g, t, t.inum, Index(off / BSIZE)) != 0
  {
    hide Slot, FileByte, Spliced, Mapped;
    if HoleFree(g, s, s.inum) && off % BSIZE != 0 {
      assert off / BSIZE * BSIZE < off;
      assert Slot(g, s, s.inum, Index(off / BSIZE)) != 0;
    }
  }

  /** One more block's worth. */
  lemma WriteStep(g: Geometry, s: St, t: St, u: St, off: int, tot: nat, m: nat, user: seq<int>, limit: int)
    requires tot <= |user| && 0 <= off + tot < MAXBYTES && Written(g, s, t, off, user[..tot], off + tot)
    requires Shape(g, u) && u.inum == t.inum && u.ip == t.ip.(addrs := u.ip.addrs) && SameTable(g, t, u) && Grows(g, t, u)
    requires tot + m <= |user| && 0 < m ==> Slot(g, u, u.inum, Index((off + tot) / BSIZE)) != 0
    requires tot == 0 || (off + tot) % BSIZE == 0
    requires (off + tot) % BSIZE + m <= BSIZE
    requires var d := if tot + m <= |user| then user[tot..tot + m] else [];
             Spliced(g, t, u, t.inum, off + tot, d, limit)
    ensures Written(g, s, u, off, if tot + m <= |user| then user[..tot + m] else user[..tot], limit)
  {
    hide Slot, FileByte, SplicedAt, Spliced, Shape;
    ShapeBase(g, s);
    var d := if tot + m <= |user| then user[tot..tot + m] else [];
    var all := if tot + m <= |user| then user[..tot + m] else user[..tot];
    assert user[..tot] + d == all;
    SplicedTrans(g, s, t, u, s.inum, off, user[..tot], d, limit);
    GrowsTrans(g, s, t, u);
    forall bn | 0 <= bn < MAXFILE && off / BSIZE <= bn && bn * BSIZE < off + |all| && off < off + |all|
      ensures Slot(g, u, u.inum, Index(bn)) != 0
    {
      if bn * BSIZE < off + tot && tot > 0 {
        assert Slot(g, t, t.inum, Index(bn)) != 0;
      } else {
        assert bn == (off + tot) / BSIZE;
      }
    }
  }

  lemma IndirectStays(g: Geometry, s: St, t: St, u: St, off: int, d: seq<int>, limit: int)
    requires Written(g, s, t, off, d, limit) && Shape(g, u) && u.inum == t.inum && Grows(g, t, u)
    ensures s.ip.addrs[NDIRECT] != 0 ==> t.ip.addrs[NDIRECT] == s.ip.addrs[NDIRECT]
    ensures t.ip.addrs[NDIRECT] != 0 ==> u.ip.addrs[NDIRECT] == t.ip.addrs[NDIRECT]
  {
    hide Slot, FileByte, Spliced, Mapped;
    DirectSlot(g, s, NDIRECT);
    DirectSlot(g, t, NDIRECT);
    DirectSlot(g, u, NDIRECT);
  }

  // ---- The log space of a write ----

  /** How many blocks tot bytes from off on lie in. */
  function Visited(off: int, tot: int): int {
    if tot == 0 then 0 else (off + tot - 1) / BSIZE - off / BSIZE + 1
  }

  /** A write into the middle of a block. */
  function Partial(off: int, tot: int): int {
    if tot > 0 && off % BSIZE != 0 then 1 else 0
  }

  /** Data blocks D and map blocks M that writing tot bytes at off may log. hf: the file had no
      hole; ind0 and ind: its indirect block before and after. */
  ghost predicate Budget(hf: bool, off: int, tot: int, ind0: int, ind: int, D: set<int>, M: set<int>) {
    && |D| <= Visited(off, tot)
    && (hf ==> |M| <= Visited(off, tot) - Partial(off, tot) + Added(ind0, ind))
  }

  lemma BudgetNone(hf: bool, off: int, ind: int)
    ensures Budget(hf, off, 0, ind, ind, {}, {})
  {
  }

  lemma BudgetStep(hf: bool, off: int, tot: int, m: int, ind0: int, ind: int, ind1: int, added: int,
                   D: set<int>, M: set<int>, addr: int, maps: set<int>)
    requires 0 <= off && 0 <= tot && 0 < m && (off + tot) % BSIZE + m <= BSIZE && (tot == 0 || (off + tot) % BSIZE == 0)
    requires Budget(hf, off, tot, ind0, ind, D, M)
    requires (ind0 != 0 ==> ind == ind0) && (ind != 0 ==> ind1 == ind)
    requires |maps| <= added + Added(ind, ind1) && added <= 1 && (hf && tot == 0 && off % BSIZE != 0 ==> added <= 0)
    ensures Budget(hf, off, tot + m, ind0, ind1, D + NonZero(addr), M + maps)
  {
    assert |D + NonZero(addr)| <= |D| + 1;
    assert |M + maps| <= |M| + |maps|;
    assert Visited(off, tot + m) == Visited(off, tot) + 1;
  }

  lemma BudgetMore(hf: bool, off: int, tot: int, n: int, ind0: int, ind: int, D: set<int>, M: set<int>)
    requires 0 <= off && 0 < tot <= n && Budget(hf, off, tot, ind0, ind, D, M)
    ensures Budget(hf, off, n, ind0, ind, D, M)
  {
  }

  /** What one pass of writei's loop does. */
  ghost predicate BlockWritten(g: Geometry, t: St, u: St, user: seq<int>, tot: int, o: int, m: int,
                               done: bool, addr: int, maps: set<int>)
    requires 0 <= tot && 0 < m && 0 <= o && o + m <= MAXBYTES
  {
    && Shape(g, t) && Shape(g, u) && u.inum == t.inum && u.ip == t.ip.(addrs := u.ip.addrs)
    && SameTable(g, t, u) && Grows(g, t, u) && addr == Slot(g, u, u.inum, Index(o / BSIZE))
    && (done ==> tot + m <= |user| && addr != 0 && Spliced(g, t, u, t.inum, o, user[tot..tot + m], o + m))
    && (!done ==> Spliced(g, t, u, t.inum, o, [], if tot + m > |user| then o + m else o))
    && |maps| <= Added(Slot(g, t, t.inum, Index(o / BSIZE)), addr) + Added(t.ip.addrs[NDIRECT], u.ip.addrs[NDIRECT])
  }

  /** The state at the head of writei's loop. */
  ghost predicate Progress(g: Geometry, s: St, t: St, off: int, n: int, user: seq<int>, tot: int, D: set<int>, M: set<int>) {
    && 0 <= tot <= n && tot <= |user| && (tot == 0 || tot == n || (off + tot) % BSIZE == 0)
    && Written(g, s, t, off, user[..tot], off + tot) && off <= s.ip.size
    && Budget(HoleFree(g, s, s.inum), off, tot, s.ip.addrs[NDIRECT], t.ip.addrs[NDIRECT], D, M)
  }

  /** The state after it. */
  ghost predicate Finished(g: Geometry, s: St, t: St, off: int, n: int, user: seq<int>, tot: int, D: set<int>, M: set<int>) {
    && 0 <= tot <= n && tot <= |user|
    && Written(g, s, t, off, user[..tot], if |user| < n then off + n else off + tot)
    && Budget(HoleFree(g, s, s.inum), off, n, s.ip.addrs[NDIRECT], t.ip.addrs[NDIRECT], D, M)
  }

  lemma ProgressNone(g: Geometry, s: St, off: int, n: int, user: seq<int>)
    requires Shape(g, s) && 0 <= off <= s.ip.size && 0 <= n
    ensures Progress(g, s, s, off, n, user, 0, {}, {})
  {
    hide Written, HoleFree, Budget;
    assert user[..0] == [];
    WrittenNone(g, s, off);
    BudgetNone(HoleFree(g, s, s.inum), off, s.ip.addrs[NDIRECT]);
  }

  lemma ProgressDone(g: Geometry, s: St, t: St, off: int, n: int, user: seq<int>, D: set<int>, M: set<int>)
    requires Progress(g, s, t, off, n, user, n, D, M)
    ensures Finished(g, s, t, off, n, user, n, D, M)
  {
    hide Written, HoleFree, Budget;
    WrittenShape(g, s, t, off, user[..n], off + n);
  }

  lemma WrittenShape(g: Geometry, s: St, t: St, off: int, d: seq<int>, limit: int)
    requires Written(g, s, t, off, d, limit)
    ensures Shape(g, s) && Shape(g, t) && t.inum == s.inum && 0 <= s.inum < g.ninodes && 0 <= off
    ensures |s.ip.addrs| == NDIRECT + 1 == |t.ip.addrs|
  {
  }

  lemma Advance(g: Geometry, s: St, t: St, u: St, off: int, n: int, user: seq<int>, tot: int, m: int,
                done: bool, addr: int, maps: set<int>, D: set<int>, M: set<int>)
    requires 0 <= off && 0 < m && tot + m <= n && off + n <= MAXBYTES && (off + tot) % BSIZE + m <= BSIZE
    requires tot + m == n || (off + tot + m) % BSIZE == 0
    requires Progress(g, s, t, off, n, user, tot, D, M) && BlockWritten(g, t, u, user, tot, off + tot, m, done, addr, maps)
    ensures done ==> Progress(g, s, u, off, n, user, tot + m, D + NonZero(addr), M + maps)
    ensures !done ==> Finished(g, s, u, off, n, user, tot, D + NonZero(addr), M + maps)
    ensures |t.ip.addrs| == NDIRECT + 1 == |u.ip.addrs| && u.ip.typ == t.ip.typ
    ensures t.ip.addrs[NDIRECT] != 0 ==> u.ip.addrs[NDIRECT] == t.ip.addrs[NDIRECT]
  {
    hide Slot, Shape, Written, HoleFree, Budget, Spliced, SameTable, Grows;
    WrittenShape(g, s, t, off, user[..tot], off + tot);
    ShapeBase(g, u);
    FirstMapped(g, s, t, off, user[..tot]);
    var o := off + tot;
    var limit := if done || tot + m > |user| then o + m else o;
    AdvanceBytes(g, s, t, u, off, tot, m, user, done, limit);
    IndirectStays(g, s, t, u, off, user[..tot], off + tot);
    var hf := HoleFree(g, s, s.inum);
    BudgetStep(hf, off, tot, m, s.ip.addrs[NDIRECT], t.ip.addrs[NDIRECT], u.ip.addrs[NDIRECT],
               Added(Slot(g, t, t.inum, Index(o / BSIZE)), addr), D, M, addr, maps);
    if !done {
      BudgetMore(hf, off, tot + m, n, s.ip.addrs[NDIRECT], u.ip.addrs[NDIRECT], D + NonZero(addr), M + maps);
      WrittenLimit(g, s, u, off, user[..tot], limit, if |user| < n then off + n else off + tot);
    }
  }

  lemma AdvanceBytes(g: Geometry, s: St, t: St, u: St, off: int, tot: int, m: int, user: seq<int>, done: bool, limit: int)
    requires 0 <= off && 0 <= tot <= |user| && 0 < m && off + tot + m <= MAXBYTES && (tot == 0 || (off + tot) % BSIZE == 0)
    requires (off + tot) % BSIZE + m <= BSIZE && Written(g, s, t, off, user[..tot], off + tot)
    requires Shape(g, u) && u.inum == t.inum && u.ip == t.ip.(addrs := u.ip.addrs) && SameTable(g, t, u) && Grows(g, t, u)
    requires done ==> tot + m <= |user| && Slot(g, u, u.inum, Index((off + tot) / BSIZE)) != 0
    requires Spliced(g, t, u, t.inum, off + tot, if done then user[tot..tot + m] else [], limit)
    ensures Written(g, s, u, off, if done then user[..tot + m] else user[..tot], limit)
  {
    hide Slot, Shape, Written, Spliced, SameTable, Grows;
    if done {
      WriteStep(g, s, t, u, off, tot, m, user, limit);
    } else {
      assert user[tot..tot + 0] == [];
      WriteStep(g, s, t, u, off, tot, 0, user, limit);
    }
  }

  // ---- writei ----

  function Larger(a: int, b: int): int {
    if a > b then a else b
  }

  /** What writei does to the file system: d lands at off, the size grows to cover it, every
      other file is untouched, and no hole appears. */
  ghost predicate WriteDone(g: Geometry, s: St, v: St, off: int, d: seq<int>, limit: int) {
    && Shape(g, s) && Shape(g, v) && v.inum == s.inum && 0 <= off
    && Spliced(g, s, v, s.inum, off, d, limit)
    && v.ip.size == Larger(s.ip.size, off + |d|)
    && (forall i :: 0 <= i < g.ninodes && i != s.inum ==> Ino(g, v, i) == Ino(g, s, i))
    && Grows(g, s, v) && (HoleFree(g, s, s.inum) ==> HoleFree(g, v, v.inum))
  }

  lemma FinishedSize(g: Geometry, s: St, t: St, owner: Owner, off: int, n: int, user: seq<int>, tot: int, D: set<int>, M: set<int>)
    requires Own(g, t, owner, 0) && t.freed == 0 && Finished(g, s, t, off, n, user, tot, D, M) && off + n <= MAXBYTES
    ensures t.ip == s.ip.(addrs := t.ip.addrs)
    ensures Shape(g, t) && 0 <= tot <= n && tot <= |user|
    ensures var u := t.(ip := t.ip.(size := Larger(s.ip.size, off + tot)));
            Own(g, u, owner, 0) && Shape(g, u) && SameFiles(g, t, u) && SameSlots(g, t, u)
    ensures t.(ip := t.ip.(size := t.ip.size)) == t
  {
    hide Slot, FileByte, Spliced, Grows, HoleFree, Refs, Used, Mapped;
    assert Ino(g, t, t.inum).size <= MAXBYTES;
    SizeKeeps(g, t, owner, Larger(s.ip.size, off + tot));
  }

  ghost predicate FullState(g: Geometry, s: St)
    requires Shape(g, s)
  {
    forall c :: 0 <= c < g.size ==> Used(g, s, c)
  }

  lemma FullFrame(g: Geometry, s: St, t: St)
    requires Shape(g, s) && Shape(g, t) && t.disk == s.disk
    ensures FullState(g, s) ==> FullState(g, t)
  {
    hide Bit;
    forall c | 0 <= c < g.size ensures Used(g, t, c) == Used(g, s, c) {
    }
  }

  lemma FullStored(g: Geometry, s: St, i: int, n: Inode)
    requires Shape(g, s) && 0 <= i < g.ninodes && InodeOk(n)
    ensures FullState(g, s) ==> FullState(g, StoreInode(g, s, i, n))
  {
    hide Used, StoreInode;
    StoreInodeOk(g, s, i, n);
  }

  lemma FinishedStored(g: Geometry, s: St, t: St, u: St, v: St, off: int, n: int, user: seq<int>, tot: int, D: set<int>, M: set<int>)
    requires Finished(g, s, t, off, n, user, tot, D, M) && Shape(g, u) && Shape(g, v) && off <= s.ip.size
    requires u == t.(ip := t.ip.(size := Larger(s.ip.size, off + tot))) && SameFiles(g, t, u) && SameSlots(g, t, u)
    requires v.inum == u.inum && v.ip == u.ip && SameFiles(g, u, v) && SameInodes(g, u, v) && SameSlots(g, u, v)
    ensures WriteDone(g, s, v, off, user[..tot], if |user| < n then off + n else off + tot)
  {
    hide Slot, FileByte, SameFiles, SameInodes, SameSlots, Spliced, Grows, HoleFree, Mapped, Budget;
    SplicedStored(g, s, t, u, v, off, user[..tot], if |user| < n then off + n else off + tot);
    TableStored(g, s, t, u, v);
    HolesStored(g, s, t, u, v, off, tot);
  }

  lemma SplicedStored(g: Geometry, s: St, t: St, u: St, v: St, off: nat, d: seq<int>, limit: int)
    requires Shape(g, s) && Shape(g, t) && Shape(g, u) && Shape(g, v) && SameFiles(g, t, u) && SameFiles(g, u, v)
    requires Spliced(g, s, t, s.inum, off, d, limit)
    ensures Spliced(g, s, v, s.inum, off, d, limit)
  {
    hide FileByte, Shape;
    ShapeBase(g, s);
    forall j, o | 0 <= j < g.ninodes && 0 <= o < MAXBYTES ensures SplicedAt(g, s, v, s.inum, off, d, limit, j, o) {
      assert SplicedAt(g, s, t, s.inum, off, d, limit, j, o);
    }
  }

  lemma TableStored(g: Geometry, s: St, t: St, u: St, v: St)
    requires Shape(g, s) && Shape(g, t) && Shape(g, u) && Shape(g, v) && s.inum == t.inum == u.inum == v.inum
    requires SameTable(g, s, t) && u.disk == t.disk && SameInodes(g, u, v)
    ensures forall i :: 0 <= i < g.ninodes && i != s.inum ==> Ino(g, v, i) == Ino(g, s, i)
  {
    hide GetInode;
    forall i | 0 <= i < g.ninodes && i != s.inum ensures Ino(g, v, i) == Ino(g, s, i) {
      assert Ino(g, u, i) == Ino(g, s, i);
    }
  }

  lemma HolesStored(g: Geometry, s: St, t: St, u: St, v: St, off: int, tot: int)
    requires Shape(g, s) && Shape(g, t) && Shape(g, u) && Shape(g, v) && s.inum == t.inum == u.inum == v.inum
    requires SameSlots(g, t, u) && SameSlots(g, u, v) && Grows(g, s, t) && Mapped(g, t, off, off + tot)
    requires 0 <= off <= s.ip.size && 0 <= tot && v.ip.size == Larger(s.ip.size, off + tot)
    ensures Grows(g, s, v) && (HoleFree(g, s, s.inum) ==> HoleFree(g, v, v.inum))
  {
    hide Slot;
    forall i, k | InTab(g, i, k) ensures Slot(g, v, i, k) == Slot(g, t, i, k) {
    }
    if HoleFree(g, s, s.inum) {
      forall bn | 0 <= bn < MAXFILE && bn * BSIZE < v.ip.size ensures Slot(g, v, v.inum, Index(bn)) != 0 {
        if bn * BSIZE < s.ip.size {
          assert Slot(g, s, s.inum, Index(bn)) != 0;
        } else {
          assert Slot(g, t, t.inum, Index(bn)) != 0;
        }
      }
    }
  }

  function LogBound(off: int, n: int): int {
    2 * Visited(off, n) - Partial(off, n) + 3
  }

  lemma WriteCost(g: Geometry, s: St, t: St, off: int, n: int, user: seq<int>, tot: int, D: set<int>, M: set<int>, W: set<int>,
                  ind: int, ib: int)
    requires Finished(g, s, t, off, n, user, tot, D, M) && W == D + M + NonZero(ind) + {ib}
    ensures HoleFree(g, s, s.inum) ==> |W| <= LogBound(off, n)
  {
    hide Written, HoleFree;
    assert |D + M| <= |D| + |M|;
    assert |D + M + NonZero(ind)| <= |D + M| + 1;
    assert |W| <= |D + M + NonZero(ind)| + 1;
  }

  /** A chunk of filewrite, at most three blocks long, fits in one operation's log space. */
  lemma ChunkFits(off: int, n: int)
    requires 0 <= off && 0 <= n <= 3 * BSIZE
    ensures LogBound(off, n) <= 10
  {
  }

  // ---- readi, ilock, ialloc ----

  lemma OwnSize(g: Geometry, s: St, owner: Owner)
    requires Own(g, s, owner, 0)
    ensures Shape(g, s) && 0 <= s.inum < g.ninodes && Ino(g, s, s.inum).size == s.ip.size <= MAXBYTES
  {
  }

  /** A file with the same bytes and size has the same content. */
  lemma ContentSame(g: Geometry, s: St, t: St)
    requires Shape(g, s) && Shape(g, t) && SameFiles(g, s, t) && t.inum == s.inum && t.ip.size == s.ip.size <= MAXBYTES
    requires Ino(g, s, s.inum).size == s.ip.size && Ino(g, t, t.inum).size == t.ip.size
    ensures Content(g, t, t.inum) == Content(g, s, s.inum)
  {
    hide FileByte;
    var c, d := Content(g, s, s.inum), Content(g, t, t.inum);
    assert forall o :: 0 <= o < s.ip.size ==> d[o] == FileByte(g, t, t.inum, o) && c[o] == FileByte(g, s, s.inum, o);
  }

  lemma ReadMapped(g: Geometry, s: St, owner: Owner, o: int)
    requires Own(g, s, owner, 0) && 0 <= o < s.ip.size
    ensures 0 <= o / BSIZE < MAXFILE
    ensures HoleFree(g, s, s.inum) ==> Slot(g, s, s.inum, Index(o / BSIZE)) != 0
  {
    hide Slot, Refs, Used;
    OwnSize(g, s, owner);
    assert o / BSIZE * BSIZE < s.ip.size;
  }

  lemma ReadSlice(g: Geometry, s: St, owner: Owner, o: int, m: int)
    requires Own(g, s, owner, 0) && 0 <= o && 0 <= m && o % BSIZE + m <= BSIZE && o + m <= s.ip.size && o < s.ip.size
    requires s.ip.size <= MAXBYTES && Ino(g, s, s.inum).size == s.ip.size
    requires Slot(g, s, s.inum, Index(o / BSIZE)) != 0
    ensures var a := Slot(g, s, s.inum, Index(o / BSIZE));
            && 0 < a < |s.disk| && |s.disk[a]| == BSIZE
            && s.disk[a][o % BSIZE..o % BSIZE + m] == Content(g, s, s.inum)[o..o + m]
  {
    hide Slot, Refs, Used;
    SlotOwned(g, s, owner, s.inum, Index(o / BSIZE));
    var a := Slot(g, s, s.inum, Index(o / BSIZE));
    var x, y := s.disk[a][o % BSIZE..o % BSIZE + m], Content(g, s, s.inum)[o..o + m];
    forall k | 0 <= k < m ensures x[k] == y[k] {
      assert (o + k) / BSIZE == o / BSIZE && (o + k) % BSIZE == o % BSIZE + k;
      assert y[k] == FileByte(g, s, s.inum, o + k);
    }
  }

  lemma SliceMore(c: seq<int>, off: int, r: int, m: int)
    requires 0 <= off && 0 <= r && 0 <= m && off + r + m <= |c|
    ensures c[off..off + r] + c[off + r..off + r + m] == c[off..off + r + m]
  {
  }

  lemma InodeBlock(g: Geometry, s: St, i: int)
    requires Shape(g, s) && 0 <= i < g.ninodes
    ensures 0 <= g.inodestart + i / IPB < |s.disk| && BlockOk(s.disk[g.inodestart + i / IPB])
  {
  }

  lemma FreedOthers(g: Geometry, s: St, t: St, u: St, v: St)
    requires Shape(g, s) && Shape(g, t) && Shape(g, u) && Shape(g, v) && s.inum == t.inum == u.inum == v.inum
    requires SameOthers(g, s, t, s.inum) && SameFiles(g, t, u) && SameFiles(g, u, v) && u.disk == t.disk && SameInodes(g, u, v)
    requires forall i :: 0 <= i < g.ninodes && i != s.inum ==> Ino(g, t, i) == Ino(g, s, i)
    ensures SameOthers(g, s, v, s.inum)
    ensures forall i :: 0 <= i < g.ninodes && i != s.inum ==> Ino(g, v, i) == Ino(g, s, i)
  {
    hide FileByte, GetInode;
    forall i | 0 <= i < g.ninodes && i != s.inum ensures Ino(g, v, i) == Ino(g, s, i) {
      assert Ino(g, u, i) == Ino(g, t, i);
    }
  }

  // ---- filewrite ----

  lemma WriteDoneNone(g: Geometry, s: St, off: int)
    requires Shape(g, s) && 0 <= off <= s.ip.size
    ensures WriteDone(g, s, s, off, [], off)
  {
    hide Slot, FileByte, HoleFree;
    SplicedNone(g, s, s, s.inum, off, off);
  }

  /** Two writes, the second where the first ended. */
  lemma WriteDoneTrans(g: Geometry, s: St, t: St, u: St, off: int, d1: seq<int>, d2: seq<int>, limit: int)
    requires WriteDone(g, s, t, off, d1, off + |d1|) && WriteDone(g, t, u, off + |d1|, d2, limit)
    ensures WriteDone(g, s, u, off, d1 + d2, limit)
  {
    hide Slot, FileByte, HoleFree, Spliced;
    SplicedTrans(g, s, t, u, s.inum, off, d1, d2, limit);
    GrowsTrans(g, s, t, u);
  }

  /** Where filewrite's loop stands after i bytes: the file has them, or nothing has changed
      because the offset was beyond the end. */
  ghost predicate FileSoFar(g: Geometry, s: St, t: St, off: int, i: int, user: seq<int>) {
    if off <= s.ip.size then 0 <= i <= |user| && WriteDone(g, s, t, off, user[..i], off + i) && off + i <= t.ip.size
    else t == s && i == 0
  }

  /** What filewrite leaves after k of n bytes: short only when the disk is full, the user's
      memory ended, or the file would be too large. */
  ghost predicate FileDone(g: Geometry, s: St, t: St, off: int, n: int, k: int, user: seq<int>) {
    if off <= s.ip.size then
      && 0 <= k <= n && k <= |user| && WriteDone(g, s, t, off, user[..k], if |user| < n then off + n else off + k)
      && (k < n ==> FullState(g, t) || |user| < n || off + n > MAXBYTES)
    else t == s && k == 0
  }

  /** Each transaction after those in `was` logs at most MAXOPBLOCKS blocks. */
  ghost predicate SmallSince(was: seq<set<int>>, txns: seq<set<int>>) {
    was <= txns && forall t :: |was| <= t < |txns| ==> |txns[t]| <= MAXOPBLOCKS
  }

  lemma SmallNone(txns: seq<set<int>>)
    ensures SmallSince(txns, txns)
  {
  }

  lemma SmallMore(was: seq<set<int>>, txns: seq<set<int>>, logged: set<int>)
    requires SmallSince(was, txns) && |logged| <= MAXOPBLOCKS
    ensures SmallSince(was, txns + [logged])
  {
  }

  lemma FileNone(g: Geometry, s: St, off: int, user: seq<int>)
    requires Shape(g, s) && 0 <= off
    ensures FileSoFar(g, s, s, off, 0, user)
  {
    hide WriteDone;
    assert user[..0] == [];
    if off <= s.ip.size {
      WriteDoneNone(g, s, off);
    }
  }

  lemma FileEnd(g: Geometry, s: St, t: St, off: int, n: int, user: seq<int>)
    requires 0 < n && FileSoFar(g, s, t, off, n, user)
    ensures FileDone(g, s, t, off, n, n, user)
  {
    hide WriteDone;
  }

  lemma BytesDrop(user: seq<int>, i: int)
    requires Bytes(user) && 0 <= i
    ensures Bytes(if i <= |user| then user[i..] else [])
  {
  }

  lemma WithinBound(logged: set<int>, W: set<int>)
    requires logged <= {} + W
    ensures |logged| <= |W|
  {
    assert W == logged + (W - logged);
  }

  lemma FileStep(g: Geometry, s: St, t: St, u: St, off: int, i: int, n: int, n1: int, r: int, user: seq<int>)
    requires 0 <= off && 0 < n1 <= n - i && FileSoFar(g, s, t, off, i, user) && off + i < WORD
    requires r == -1 <==> off + i > t.ip.size || off + i + n1 >= WORD || off + i + n1 > MAXBYTES
    requires r == -1 ==> u == t
    requires var rest := if i <= |user| then user[i..] else [];
             r != -1 ==> 0 <= r <= n1 && r <= |rest| && Shape(g, u) && (r < n1 ==> FullState(g, u) || |rest| < n1)
                         && WriteDone(g, t, u, off + i, rest[..r], if |rest| < n1 then off + i + n1 else off + i + r)
    requires t.ip.size <= MAXBYTES && 0 <= i
    ensures r == n1 ==> FileSoFar(g, s, u, off, i + n1, user)
    ensures r != n1 ==> FileDone(g, s, u, off, n, i + Larger(r, 0), user)
    ensures r != -1 ==> off + i + r < WORD
    ensures Shape(g, t) && 0 <= t.inum < g.ninodes && HoleFree(g, t, t.inum) ==>
              Shape(g, u) && 0 <= u.inum < g.ninodes && HoleFree(g, u, u.inum)
  {
    hide WriteDone, FullState, Shape, HoleFree;
    if r != -1 {
      WriteDoneHoles(g, t, u, off + i, if i <= |user| then user[i..][..r] else [],
                     if (if i <= |user| then |user| - i else 0) < n1 then off + i + n1 else off + i + r);
    }
    if off > s.ip.size || r == -1 {
      FileStuck(g, s, t, off, i, n, user);
    } else {
      assert user[i..][..r] == user[i..i + r] && user[..i] + user[i..i + r] == user[..i + r];
      var limit := if |user| - i < n1 then off + i + n1 else off + i + r;
      WriteDoneTrans(g, s, t, u, off, user[..i], user[i..i + r], limit);
      WriteDoneSize(g, s, u, off, user[..i + r], limit);
      if r != n1 {
        WriteDoneLimit(g, s, u, off, user[..i + r], limit, if |user| < n then off + n else off + i + r);
      }
    }
  }

  lemma WriteDoneHoles(g: Geometry, s: St, t: St, off: int, d: seq<int>, limit: int)
    requires WriteDone(g, s, t, off, d, limit)
    ensures Shape(g, s) && Shape(g, t) && 0 <= s.inum < g.ninodes && t.inum == s.inum
    ensures HoleFree(g, s, s.inum) ==> HoleFree(g, t, t.inum)
  {
    hide HoleFree;
  }

  lemma WriteDoneSize(g: Geometry, s: St, t: St, off: int, d: seq<int>, limit: int)
    requires WriteDone(g, s, t, off, d, limit)
    ensures Shape(g, t) && off + |d| <= t.ip.size
  {
  }

  lemma WriteDoneLimit(g: Geometry, s: St, t: St, off: int, d: seq<int>, l1: int, l2: int)
    requires WriteDone(g, s, t, off, d, l1) && l1 <= l2
    ensures WriteDone(g, s, t, off, d, l2)
  {
    hide Slot, FileByte, Shape, Grows, HoleFree, Ino;
    ShapeBase(g, s);
    forall j, o | 0 <= j < g.ninodes && 0 <= o < MAXBYTES ensures SplicedAt(g, s, t, s.inum, off, d, l2, j, o) {
      assert SplicedAt(g, s, t, s.inum, off, d, l1, j, o);
    }
  }

  /** A chunk that writei refuses ends the write. */
  lemma FileStuck(g: Geometry, s: St, t: St, off: int, i: int, n: int, user: seq<int>)
    requires FileSoFar(g, s, t, off, i, user) && i < n && 0 <= off
    requires off <= s.ip.size ==> off + n > MAXBYTES
    ensures FileDone(g, s, t, off, n, i, user)
  {
    hide WriteDone;
    if off <= s.ip.size {
      WriteDoneLimit(g, s, t, off, user[..i], off + i, if |user| < n then off + n else off + i);
    }
  }

  // ---- Files as byte strings ----

  /** A write whose source can be read splices the bytes it returns into the file, and leaves
      every other file as it was. */
  lemma WriteSplices(g: Geometry, s: St, t: St, off: int, d: seq<int>, i: int)
    requires WriteDone(g, s, t, off, d, off + |d|) && off <= s.ip.size && off + |d| <= MAXBYTES
    requires Sizes(g, s) && Sizes(g, t) && 0 <= i < g.ninodes
    ensures Ino(g, s, i).size <= MAXBYTES && Ino(g, t, i).size <= MAXBYTES && (i == s.inum ==> off <= |Content(g, s, i)|)
    ensures Content(g, t, i) == if i == s.inum then Splice(Content(g, s, i), off, d) else Content(g, s, i)
  {
    hide Slot, FileByte, HoleFree, Spliced;
    if i == s.inum {
      ContentSpliced(g, s, t, i, off, d);
    } else {
      ContentOther(g, s, t, off, d, i);
    }
  }

  lemma ContentOther(g: Geometry, s: St, t: St, off: int, d: seq<int>, i: int)
    requires Shape(g, s) && Shape(g, t) && 0 <= off && 0 <= i < g.ninodes && i != s.inum
    requires Spliced(g, s, t, s.inum, off, d, off + |d|) && Ino(g, t, i) == Ino(g, s, i) && Ino(g, s, i).size <= MAXBYTES
    ensures Content(g, t, i) == Content(g, s, i)
  {
    hide Slot, FileByte, Shape, Ino;
    var c, limit := Content(g, t, i), off + |d|;
    forall o | 0 <= o < |c| ensures c[o] == Content(g, s, i)[o] {
      assert SplicedAt(g, s, t, s.inum, off, d, limit, i, o);
    }
  }

  // ---- Exact ownership, without the ghost map ----

  /** Inode i, allocated on disk, refers to block b from slot k. */
  predicate Refers(g: Geometry, s: St, i: int, k: int, b: int)
    requires Shape(g, s) && InTab(g, i, k)
  {
    b != 0 && Slot(g, s, i, k) == b && Din(g, s, i).typ != 0
  }

  /** Between operations a map bit is set exactly for the metadata blocks and the blocks some
      allocated inode refers to, and nothing refers to a block twice. */
  lemma ExactOwnership(g: Geometry, s: St, owner: Owner)
    requires Own(g, s, owner, 0) && Synced(g, s)
    ensures forall b :: 0 <= b < g.size ==>
              (Used(g, s, b) <==> b < g.datastart || exists i, k :: InTab(g, i, k) && Refers(g, s, i, k, b))
    ensures forall i, k, j, l :: InTab(g, i, k) && InTab(g, j, l) && Slot(g, s, i, k) == Slot(g, s, j, l) != 0 ==> i == j && k == l
  {
    hide Slot, Used, Din;
    forall b | 0 <= b < g.size
      ensures Used(g, s, b) <==> b < g.datastart || exists i, k :: InTab(g, i, k) && Refers(g, s, i, k, b)
    {
      if b in owner {
        assert OwnedOk(g, s, owner, b);
        assert Ino(g, s, owner[b].0).typ != 0;
        assert Refers(g, s, owner[b].0, owner[b].1, b);
      }
      forall i, k | InTab(g, i, k) && Refers(g, s, i, k, b) ensures b in owner {
        SlotOwned(g, s, owner, i, k);
      }
    }
    forall i, k, j, l | InTab(g, i, k) && InTab(g, j, l) && Slot(g, s, i, k) == Slot(g, s, j, l) != 0
      ensures i == j && k == l
    {
      SlotOwned(g, s, owner, i, k);
      SlotOwned(g, s, owner, j, l);
    }
  }
}

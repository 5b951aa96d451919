/** The file system on disk (kernel/fs.c): which block each inode refers to, which block
    owns which bit of the free map, and the bytes of each file. One inode, `inum`, has an
    in-memory copy that may be ahead of the disk. */
module FsState {
  import opened FsBlocks

  /** The superblock: where the inode blocks, the free map and the data blocks start. */
  datatype Geometry = Geometry(size: int, ninodes: int, inodestart: int, bmapstart: int, datastart: int)

  predicate GeometryOk(g: Geometry) {
    && 2 <= g.inodestart && 1 <= g.ninodes
    && g.inodestart + g.ninodes / IPB + 1 <= g.bmapstart
    && g.bmapstart + g.size / BPB + 1 <= g.datastart
    && g.datastart <= g.size < 0x8000_0000
  }

  /** disk: the blocks as the log and cache present them. ip: the in-memory copy of inode
      inum. freed: how many entries of its indirect block itrunc has already given back. */
  datatype St = St(disk: seq<Block>, inum: int, ip: Inode, freed: int)

  predicate Shape(g: Geometry, s: St) {
    && GeometryOk(g)
    && |s.disk| == g.size && (forall b :: 0 <= b < g.size ==> BlockOk(s.disk[b]))
    && 0 <= s.inum < g.ninodes && InodeOk(s.ip) && 0 <= s.freed <= NINDIRECT
  }

  const SLOTS: int := NDIRECT + 1 + NINDIRECT

  predicate InTab(g: Geometry, i: int, k: int) {
    0 <= i < g.ninodes && 0 <= k < SLOTS
  }

  /** The inode as the disk has it. */
  function Din(g: Geometry, s: St, i: int): (n: Inode)
    requires Shape(g, s) && 0 <= i < g.ninodes
    ensures InodeOk(n)
  {
    GetInode(s.disk[g.inodestart + i / IPB], i % IPB)
  }

  function Ino(g: Geometry, s: St, i: int): (n: Inode)
    requires Shape(g, s) && 0 <= i < g.ninodes
    ensures InodeOk(n)
  {
    if i == s.inum then s.ip else Din(g, s, i)
  }

  /** Slots 0 to 11 are the direct blocks, slot 12 the indirect block, 13 on its entries. */
  function Slot(g: Geometry, s: St, i: int, k: int): (a: int)
    requires Shape(g, s) && InTab(g, i, k)
    ensures 0 <= a < WORD
  {
    if k <= NDIRECT then Ino(g, s, i).addrs[k]
    else Entry(g, s, Ino(g, s, i).addrs[NDIRECT], k - NDIRECT - 1, if i == s.inum then s.freed else 0)
  }

  /** Entry j of indirect block a, once the first `freed` entries are given back. */
  function Entry(g: Geometry, s: St, a: int, j: int, freed: int): (r: int)
    requires Shape(g, s) && 0 <= j < NINDIRECT
    ensures 0 <= r < WORD
  {
    if 0 < a < g.size && freed <= j then Word(s.disk[a], j) else 0
  }

  type Owner = map<int, (int, int)>

  predicate PtrOk(g: Geometry, owner: Owner, a: int, i: int, k: int) {
    a != 0 ==> g.datastart <= a < g.size && a in owner && owner[a] == (i, k)
  }

  /** The owner map is the inverse of the slots: no block is referred to twice. */
  ghost predicate Refs(g: Geometry, s: St, owner: Owner)
    requires Shape(g, s)
  {
    && (forall i, k :: InTab(g, i, k) ==> PtrOk(g, owner, Slot(g, s, i, k), i, k))
    && (forall b :: b in owner ==> OwnedOk(g, s, owner, b))
  }

  predicate OwnedOk(g: Geometry, s: St, owner: Owner, b: int)
    requires Shape(g, s) && b in owner
  {
    var (i, k) := owner[b];
    g.datastart <= b < g.size && InTab(g, i, k) && Slot(g, s, i, k) == b
  }

  predicate Used(g: Geometry, s: St, b: int)
    requires Shape(g, s) && 0 <= b < g.size
  {
    Bit(s.disk[g.bmapstart + b / BPB], b % BPB)
  }

  /** The bits set are those of the metadata, the owned blocks, and block extra. */
  ghost predicate Bits(g: Geometry, s: St, owner: Owner, extra: int)
    requires Shape(g, s)
  {
    forall b :: 0 <= b < g.size ==> (Used(g, s, b) <==> b < g.datastart || b in owner || b == extra)
  }

  /** Only allocated inodes own blocks. */
  ghost predicate Allocated(g: Geometry, s: St, owner: Owner)
    requires Shape(g, s)
  {
    forall b :: b in owner ==> (var i := owner[b].0; 0 <= i < g.ninodes && Ino(g, s, i).typ != 0)
  }

  // ---- Files ----

  function Index(bn: int): int {
    if bn < NDIRECT then bn else bn + 1
  }

  const MAXBYTES: int := MAXFILE * BSIZE

  /** Byte o of file i; where no block is mapped it is zero. */
  function FileByte(g: Geometry, s: St, i: int, o: int): int
    requires Shape(g, s) && 0 <= i < g.ninodes && 0 <= o < MAXBYTES
  {
    var a := Slot(g, s, i, Index(o / BSIZE));
    if 0 < a < g.size then s.disk[a][o % BSIZE] else 0
  }

  ghost predicate Sizes(g: Geometry, s: St)
    requires Shape(g, s)
  {
    forall i :: 0 <= i < g.ninodes ==> Ino(g, s, i).size <= MAXBYTES
  }

  /** Exact block ownership, with block extra (0 for none) marked but not yet referred to. */
  ghost predicate Own(g: Geometry, s: St, owner: Owner, extra: int) {
    Shape(g, s) && Refs(g, s, owner) && Bits(g, s, owner, extra) && Allocated(g, s, owner) && Sizes(g, s)
  }

  /** Every byte of every file is as it was. */
  ghost predicate SameFiles(g: Geometry, s: St, t: St)
    requires Shape(g, s) && Shape(g, t)
  {
    forall i, o :: 0 <= i < g.ninodes && 0 <= o < MAXBYTES ==> FileByte(g, t, i, o) == FileByte(g, s, i, o)
  }

  /** The inode blocks are as they were. */
  ghost predicate SameTable(g: Geometry, s: St, t: St)
    requires Shape(g, s) && Shape(g, t)
  {
    forall b :: g.inodestart <= b < g.bmapstart ==> t.disk[b] == s.disk[b]
  }

  // ---- One block changes ----

  /** Neither an inode block nor an indirect block. */
  predicate Quiet(g: Geometry, owner: Owner, x: int) {
    && 0 <= x < g.size && !(g.inodestart <= x < g.bmapstart)
    && (x in owner ==> owner[x].1 != NDIRECT)
  }

  function SetBlock(s: St, x: int, v: Block): St
    requires 0 <= x < |s.disk|
  {
    s.(disk := s.disk[x := v])
  }

  lemma SlotFrame(g: Geometry, s: St, owner: Owner, x: int, v: Block, i: int, k: int)
    requires Shape(g, s) && Refs(g, s, owner) && Quiet(g, owner, x) && BlockOk(v) && InTab(g, i, k)
    ensures Shape(g, SetBlock(s, x, v))
    ensures Ino(g, SetBlock(s, x, v), i) == Ino(g, s, i)
    ensures Slot(g, SetBlock(s, x, v), i, k) == Slot(g, s, i, k)
  {
    hide GetInode, Word;
    assert PtrOk(g, owner, Slot(g, s, i, NDIRECT), i, NDIRECT);
  }

  lemma RefsFrame(g: Geometry, s: St, owner: Owner, x: int, v: Block)
    requires Shape(g, s) && Refs(g, s, owner) && Quiet(g, owner, x) && BlockOk(v)
    ensures Shape(g, SetBlock(s, x, v)) && Refs(g, SetBlock(s, x, v), owner)
  {
    hide Slot;
    var s1 := SetBlock(s, x, v);
    forall i, k | InTab(g, i, k) ensures PtrOk(g, owner, Slot(g, s1, i, k), i, k) {
      SlotFrame(g, s, owner, x, v, i, k);
    }
    forall b | b in owner ensures OwnedOk(g, s1, owner, b) {
      assert OwnedOk(g, s, owner, b);
      SlotFrame(g, s, owner, x, v, owner[b].0, owner[b].1);
    }
  }

  lemma OwnedData(g: Geometry, s: St, owner: Owner)
    requires Shape(g, s) && Refs(g, s, owner)
    ensures forall b :: b in owner ==> g.datastart <= b < g.size
  {
    hide Slot;
    forall b | b in owner ensures g.datastart <= b < g.size {
      assert OwnedOk(g, s, owner, b);
    }
  }

  lemma ByteFrame(g: Geometry, s: St, owner: Owner, x: int, v: Block, i: int, o: int)
    requires Shape(g, s) && Refs(g, s, owner) && Quiet(g, owner, x) && BlockOk(v)
    requires 0 <= i < g.ninodes && 0 <= o < MAXBYTES
    ensures Shape(g, SetBlock(s, x, v))
    ensures FileByte(g, SetBlock(s, x, v), i, o)
            == if Slot(g, s, i, Index(o / BSIZE)) == x && x != 0 then v[o % BSIZE] else FileByte(g, s, i, o)
  {
    hide Slot, Refs, BlockOk, Ino;
    SlotFrame(g, s, owner, x, v, i, Index(o / BSIZE));
  }

  /** A data block is written: the bytes it holds change, and nothing else. */
  lemma WriteKeeps(g: Geometry, s: St, owner: Owner, extra: int, x: int, v: Block)
    requires Own(g, s, owner, extra) && Quiet(g, owner, x) && g.datastart <= x && BlockOk(v)
    ensures Own(g, SetBlock(s, x, v), owner, extra)
  {
    hide Slot, Refs, GetInode, Bit;
    var t := SetBlock(s, x, v);
    RefsFrame(g, s, owner, x, v);
    forall c | 0 <= c < g.size ensures Used(g, t, c) == Used(g, s, c) {
      assert g.bmapstart + c / BPB < g.datastart;
    }
    InosFrame(g, s, owner, x, v);
  }

  lemma InosFrame(g: Geometry, s: St, owner: Owner, x: int, v: Block)
    requires Shape(g, s) && Refs(g, s, owner) && Quiet(g, owner, x) && BlockOk(v)
    ensures Shape(g, SetBlock(s, x, v))
    ensures Allocated(g, s, owner) ==> Allocated(g, SetBlock(s, x, v), owner)
    ensures Sizes(g, s) ==> Sizes(g, SetBlock(s, x, v))
  {
    hide Slot, Refs, GetInode;
    var t := SetBlock(s, x, v);
    forall i | 0 <= i < g.ninodes ensures Shape(g, t) && Ino(g, t, i) == Ino(g, s, i) {
      SlotFrame(g, s, owner, x, v, i, 0);
    }
  }

  // ---- balloc and bfree ----

  /** The map bit of block b is set or cleared. */
  function Mark(g: Geometry, s: St, b: int, on: bool): (t: St)
    requires Shape(g, s) && 0 <= b < g.size
    ensures Shape(g, t)
  {
    var x := g.bmapstart + b / BPB;
    SetBlock(s, x, PutBit(s.disk[x], b % BPB, on))
  }

  lemma MarkUsed(g: Geometry, s: St, b: int, on: bool, c: int)
    requires Shape(g, s) && 0 <= b < g.size && 0 <= c < g.size
    ensures Used(g, Mark(g, s, b, on), c) == if c == b then on else Used(g, s, c)
  {
    hide Bit, PutBit;
    if c / BPB == b / BPB {
      BitPut(s.disk[g.bmapstart + b / BPB], b % BPB, on, c % BPB);
    }
  }

  /** Marking changes the free map only. */
  lemma MarkKeeps(g: Geometry, s: St, owner: Owner, b: int, on: bool)
    requires Shape(g, s) && Refs(g, s, owner) && 0 <= b < g.size
    ensures var t := Mark(g, s, b, on);
            && Refs(g, t, owner) && SameFiles(g, s, t)
            && (Allocated(g, s, owner) ==> Allocated(g, t, owner)) && (Sizes(g, s) ==> Sizes(g, t))
  {
    hide PutBit, Slot, FileByte, Refs, Allocated, Sizes, Ino;
    var x := g.bmapstart + b / BPB;
    var v := PutBit(s.disk[x], b % BPB, on);
    OwnedData(g, s, owner);
    RefsFrame(g, s, owner, x, v);
    InosFrame(g, s, owner, x, v);
    var t := Mark(g, s, b, on);
    forall i, o | 0 <= i < g.ninodes && 0 <= o < MAXBYTES ensures FileByte(g, t, i, o) == FileByte(g, s, i, o) {
      ByteFrame(g, s, owner, x, v, i, o);
      SlotOwned(g, s, owner, i, Index(o / BSIZE));
    }
  }

  /** balloc's effect: a free block is marked and zeroed. */
  function Alloc(g: Geometry, s: St, b: int): (t: St)
    requires Shape(g, s) && 0 <= b < g.size
    ensures Shape(g, t)
  {
    SetBlock(Mark(g, s, b, true), b, Zero())
  }

  lemma AllocKeeps(g: Geometry, s: St, owner: Owner, b: int)
    requires Own(g, s, owner, 0) && 0 <= b < g.size && !Used(g, s, b)
    ensures g.datastart <= b && b !in owner
    ensures Own(g, Alloc(g, s, b), owner, b) && SameFiles(g, s, Alloc(g, s, b)) && SameTable(g, s, Alloc(g, s, b))
  {
    hide Slot, FileByte, Refs, Allocated, Sizes, Used;
    var m := Mark(g, s, b, true);
    MarkKeeps(g, s, owner, b, true);
    assert Bits(g, m, owner, b) by {
      forall c | 0 <= c < g.size ensures Used(g, m, c) <==> c < g.datastart || c in owner || c == b {
        MarkUsed(g, s, b, true, c);
      }
    }
    WriteKeeps(g, m, owner, b, b, Zero());
    var t := Alloc(g, s, b);
    forall i, o | 0 <= i < g.ninodes && 0 <= o < MAXBYTES ensures FileByte(g, t, i, o) == FileByte(g, s, i, o) {
      ByteFrame(g, m, owner, b, Zero(), i, o);
      SlotOwned(g, m, owner, i, Index(o / BSIZE));
    }
  }

  lemma SlotOwned(g: Geometry, s: St, owner: Owner, i: int, k: int)
    requires Shape(g, s) && Refs(g, s, owner) && InTab(g, i, k)
    ensures PtrOk(g, owner, Slot(g, s, i, k), i, k)
  {
  }

  // ---- Slots of the current inode change ----

  function SetAddr(s: St, k: int, a: int): St
    requires |s.ip.addrs| == NDIRECT + 1 && 0 <= k <= NDIRECT
  {
    s.(ip := s.ip.(addrs := s.ip.addrs[k := a]))
  }

  /** The slots of t are those of s, except that slot k of inode i now holds a. */
  ghost predicate SlotSet(g: Geometry, s: St, t: St, i: int, k: int, a: int)
    requires Shape(g, s) && Shape(g, t)
  {
    forall j, l :: InTab(g, j, l) ==> Slot(g, t, j, l) == if (j, l) == (i, k) then a else Slot(g, s, j, l)
  }

  /** A block that no slot refers to is put in an empty slot. */
  lemma RefsAdd(g: Geometry, s: St, t: St, owner: Owner, i: int, k: int, b: int)
    requires Shape(g, s) && Shape(g, t) && Refs(g, s, owner) && InTab(g, i, k) && Slot(g, s, i, k) == 0
    requires g.datastart <= b < g.size && b !in owner && SlotSet(g, s, t, i, k, b)
    ensures Refs(g, t, owner[b := (i, k)])
  {
    hide Slot;
    var owner1 := owner[b := (i, k)];
    forall j, l | InTab(g, j, l) ensures PtrOk(g, owner1, Slot(g, t, j, l), j, l) {
      assert PtrOk(g, owner, Slot(g, s, j, l), j, l);
    }
    forall c | c in owner1 ensures OwnedOk(g, t, owner1, c) {
      if c != b {
        assert OwnedOk(g, s, owner, c);
      }
    }
  }

  /** A slot is emptied. */
  lemma RefsDrop(g: Geometry, s: St, t: St, owner: Owner, i: int, k: int)
    requires Shape(g, s) && Shape(g, t) && Refs(g, s, owner) && InTab(g, i, k) && SlotSet(g, s, t, i, k, 0)
    ensures Refs(g, t, owner - {Slot(g, s, i, k)})
  {
    hide Slot, Shape, GeometryOk;
    var b := Slot(g, s, i, k);
    var owner1 := owner - {b};
    assert PtrOk(g, owner, b, i, k);
    forall j, l | InTab(g, j, l) ensures PtrOk(g, owner1, Slot(g, t, j, l), j, l) {
      assert PtrOk(g, owner, Slot(g, s, j, l), j, l);
    }
    forall c | c in owner1 ensures OwnedOk(g, t, owner1, c) {
      assert OwnedOk(g, s, owner, c);
      var (j, l) := owner[c];
      assert Slot(g, t, j, l) == c;
    }
  }

  lemma DirectSlots(g: Geometry, s: St, k: int, a: int)
    requires Shape(g, s) && 0 <= k <= NDIRECT && 0 <= a < WORD
    requires k == NDIRECT ==> s.ip.addrs[k] == 0 && s.freed == 0 && 0 < a < g.size && s.disk[a] == Zero()
    ensures Shape(g, SetAddr(s, k, a)) && SlotSet(g, s, SetAddr(s, k, a), s.inum, k, a)
  {
    hide Word, GetInode;
    var t := SetAddr(s, k, a);
    forall j, l | InTab(g, j, l) ensures Slot(g, t, j, l) == if (j, l) == (s.inum, k) then a else Slot(g, s, j, l) {
      if k == NDIRECT && l > NDIRECT {
        WordZero(l - NDIRECT - 1);
      }
    }
  }

  /** bmap: the zeroed block b becomes slot k of the inode. */
  lemma AssignDirect(g: Geometry, s: St, owner: Owner, k: int, b: int)
    requires Own(g, s, owner, b) && 0 <= k <= NDIRECT && s.ip.addrs[k] == 0 && s.freed == 0 && s.ip.typ != 0
    requires g.datastart <= b < g.size && b !in owner && s.disk[b] == Zero()
    ensures Own(g, SetAddr(s, k, b), owner[b := (s.inum, k)], 0) && SameFiles(g, s, SetAddr(s, k, b))
  {
    hide GetInode, Word, Used, Refs, Entry;
    DirectSlots(g, s, k, b);
    RefsAdd(g, s, SetAddr(s, k, b), owner, s.inum, k, b);
    SetAddrKeeps(g, s, owner, k, b, b);
    ZeroBytes(g, s, SetAddr(s, k, b), k, b);
  }

  lemma SetAddrKeeps(g: Geometry, s: St, owner: Owner, k: int, a: int, extra: int)
    requires Shape(g, s) && Bits(g, s, owner, extra) && Allocated(g, s, owner) && Sizes(g, s)
    requires 0 <= k <= NDIRECT && 0 <= a < WORD && s.ip.typ != 0
    ensures var t := SetAddr(s, k, a); Shape(g, t) && Bits(g, t, owner, extra) && Allocated(g, t, owner) && Sizes(g, t)
  {
    hide GetInode, Bit;
    var t := SetAddr(s, k, a);
    forall c | 0 <= c < g.size ensures Used(g, t, c) == Used(g, s, c) {
    }
    forall i | 0 <= i < g.ninodes ensures Ino(g, t, i).typ == Ino(g, s, i).typ && Ino(g, t, i).size == Ino(g, s, i).size {
    }
  }

  /** A zeroed block in an empty slot of the inode changes no byte. */
  lemma ZeroBytes(g: Geometry, s: St, t: St, k: int, b: int)
    requires Shape(g, s) && Shape(g, t) && 0 <= k < SLOTS && 0 < b < g.size
    requires Slot(g, s, s.inum, k) == 0 && SlotSet(g, s, t, s.inum, k, b) && t.disk[b] == Zero()
    requires forall i, o :: 0 <= i < g.ninodes && 0 <= o < MAXBYTES ==> SameBlock(g, s, t, Slot(g, s, i, Index(o / BSIZE)))
    ensures SameFiles(g, s, t)
  {
    hide Slot;
    forall i, o | 0 <= i < g.ninodes && 0 <= o < MAXBYTES ensures FileByte(g, t, i, o) == FileByte(g, s, i, o) {
      assert SameBlock(g, s, t, Slot(g, s, i, Index(o / BSIZE)));
    }
  }

  predicate SameBlock(g: Geometry, s: St, t: St, a: int)
    requires Shape(g, s) && Shape(g, t)
  {
    0 < a < g.size ==> t.disk[a] == s.disk[a]
  }

  /** Entry j of the current inode's indirect block is set to b. */
  function SetEntry(g: Geometry, s: St, j: int, b: int): (t: St)
    requires Shape(g, s) && 0 <= j < NINDIRECT && 0 < s.ip.addrs[NDIRECT] < g.size && 0 <= b < WORD
    ensures Shape(g, t)
  {
    var a := s.ip.addrs[NDIRECT];
    SetBlock(s, a, SetWord(s.disk[a], j, b))
  }

  lemma EntrySlots(g: Geometry, s: St, owner: Owner, j: int, b: int)
    requires Shape(g, s) && Refs(g, s, owner) && 0 <= j < NINDIRECT && s.ip.addrs[NDIRECT] != 0 && s.freed == 0
    requires 0 <= b < WORD
    ensures g.datastart <= s.ip.addrs[NDIRECT] < g.size
    ensures SlotSet(g, s, SetEntry(g, s, j, b), s.inum, NDIRECT + 1 + j, b)
  {
    hide Word, GetInode, SetWord;
    SlotOwned(g, s, owner, s.inum, NDIRECT);
    var a := s.ip.addrs[NDIRECT];
    assert Slot(g, s, s.inum, NDIRECT) == a;
    var t := SetEntry(g, s, j, b);
    forall i, l | InTab(g, i, l)
      ensures Slot(g, t, i, l) == if (i, l) == (s.inum, NDIRECT + 1 + j) then b else Slot(g, s, i, l)
    {
      SlotOwned(g, s, owner, i, NDIRECT);
      if i == s.inum && l > NDIRECT {
        WordSet(s.disk[a], j, b, l - NDIRECT - 1);
      }
    }
  }

  /** bmap: the zeroed block b becomes entry j of the inode's indirect block. */
  lemma AssignEntry(g: Geometry, s: St, owner: Owner, j: int, b: int)
    requires Own(g, s, owner, b) && 0 <= j < NINDIRECT && s.ip.addrs[NDIRECT] != 0 && s.freed == 0 && s.ip.typ != 0
    requires Slot(g, s, s.inum, NDIRECT + 1 + j) == 0
    requires g.datastart <= b < g.size && b !in owner && s.disk[b] == Zero()
    ensures g.datastart <= s.ip.addrs[NDIRECT] < g.size
    ensures Own(g, SetEntry(g, s, j, b), owner[b := (s.inum, NDIRECT + 1 + j)], 0)
    ensures SameFiles(g, s, SetEntry(g, s, j, b))
  {
    hide GetInode, Word, SetWord, Bit, Refs, Slot;
    EntrySlots(g, s, owner, j, b);
    var t := SetEntry(g, s, j, b);
    RefsAdd(g, s, t, owner, s.inum, NDIRECT + 1 + j, b);
    IndirectFrame(g, s, owner, j, b);
    ZeroBytes(g, s, t, NDIRECT + 1 + j, b);
  }

  /** Setting an entry leaves the free map, the inodes and the data blocks alone. */
  lemma IndirectFrame(g: Geometry, s: St, owner: Owner, j: int, b: int)
    requires Shape(g, s) && Refs(g, s, owner) && 0 <= j < NINDIRECT && 0 <= b < WORD
    requires g.datastart <= s.ip.addrs[NDIRECT] < g.size
    ensures s.ip.addrs[NDIRECT] in owner
    ensures var t := SetEntry(g, s, j, b);
            && (forall c :: 0 <= c < g.size ==> Used(g, t, c) == Used(g, s, c))
            && (forall i :: 0 <= i < g.ninodes ==> Ino(g, t, i) == Ino(g, s, i))
            && (forall c :: 0 <= c < g.size && c != s.ip.addrs[NDIRECT] ==> t.disk[c] == s.disk[c])
            && (forall i, o :: 0 <= i < g.ninodes && 0 <= o < MAXBYTES
                 ==> SameBlock(g, s, t, Slot(g, s, i, Index(o / BSIZE))))
  {
    hide GetInode, SetWord, Bit, Refs;
    var t := SetEntry(g, s, j, b);
    SlotOwned(g, s, owner, s.inum, NDIRECT);
    forall i, o | 0 <= i < g.ninodes && 0 <= o < MAXBYTES
      ensures SameBlock(g, s, t, Slot(g, s, i, Index(o / BSIZE)))
    {
      SlotOwned(g, s, owner, i, Index(o / BSIZE));
    }
    forall c | 0 <= c < g.size ensures Used(g, t, c) == Used(g, s, c) {
      assert g.bmapstart + c / BPB < g.datastart;
    }
  }

  // ---- Slots are given back ----

  /** Every byte of every file but inode i is as it was. */
  ghost predicate SameOthers(g: Geometry, s: St, t: St, i: int)
    requires Shape(g, s) && Shape(g, t)
  {
    forall j, o :: 0 <= j < g.ninodes && j != i && 0 <= o < MAXBYTES ==> FileByte(g, t, j, o) == FileByte(g, s, j, o)
  }

  /** The block in slot k is owned, so its bit is set: bfree cannot find it free. */
  lemma SlotUsed(g: Geometry, s: St, owner: Owner, i: int, k: int)
    requires Own(g, s, owner, 0) && InTab(g, i, k) && Slot(g, s, i, k) != 0
    ensures var a := Slot(g, s, i, k); g.datastart <= a < g.size && a in owner && owner[a] == (i, k) && Used(g, s, a)
  {
    hide Slot, Used;
    SlotOwned(g, s, owner, i, k);
  }

  /** t has the disk of s, and the current inode differs in its pointers at most. */
  predicate Retains(g: Geometry, s: St, t: St) {
    t.disk == s.disk && t.inum == s.inum && t.ip == s.ip.(addrs := t.ip.addrs)
  }

  /** A block is freed and its slot emptied. */
  lemma FreeKeeps(g: Geometry, s: St, t: St, owner: Owner, k: int)
    requires Own(g, s, owner, 0) && 0 <= k < SLOTS && Slot(g, s, s.inum, k) != 0
    requires 0 <= Slot(g, s, s.inum, k) < g.size && Shape(g, t)
    requires var m := Mark(g, s, Slot(g, s, s.inum, k), false); Retains(g, m, t) && SlotSet(g, m, t, s.inum, k, 0)
    ensures Own(g, t, owner - {Slot(g, s, s.inum, k)}, 0) && SameOthers(g, s, t, s.inum) && SameTable(g, s, t)
  {
    hide Slot, Refs, Used, FileByte, Allocated, Sizes, PutBit;
    var a := Slot(g, s, s.inum, k);
    var m := Mark(g, s, a, false);
    SlotUsed(g, s, owner, s.inum, k);
    MarkKeeps(g, s, owner, a, false);
    MarkSlots(g, s, owner, a, false);
    RefsDrop(g, m, t, owner, s.inum, k);
    RetainsKeeps(g, m, t, owner);
    var owner1 := owner - {a};
    forall c | 0 <= c < g.size ensures Used(g, t, c) <==> c < g.datastart || c in owner1 || c == 0 {
      MarkUsed(g, s, a, false, c);
    }
    AllocatedLess(g, t, owner, a);
    OthersKept(g, m, t, s.inum, k);
  }

  lemma AllocatedLess(g: Geometry, s: St, owner: Owner, a: int)
    requires Shape(g, s) && Allocated(g, s, owner)
    ensures Allocated(g, s, owner - {a})
  {
  }

  lemma RetainsKeeps(g: Geometry, s: St, t: St, owner: Owner)
    requires Shape(g, s) && Shape(g, t) && Retains(g, s, t)
    ensures forall c :: 0 <= c < g.size ==> Used(g, t, c) == Used(g, s, c)
    ensures Allocated(g, s, owner) ==> Allocated(g, t, owner)
    ensures Sizes(g, s) ==> Sizes(g, t)
  {
    hide Bit, GetInode;
    forall i | 0 <= i < g.ninodes ensures Ino(g, t, i).typ == Ino(g, s, i).typ && Ino(g, t, i).size == Ino(g, s, i).size {
    }
    forall c | 0 <= c < g.size ensures Used(g, t, c) == Used(g, s, c) {
    }
  }

  lemma MarkSlots(g: Geometry, s: St, owner: Owner, b: int, on: bool)
    requires Shape(g, s) && Refs(g, s, owner) && 0 <= b < g.size
    ensures forall i, k :: InTab(g, i, k) ==> Slot(g, Mark(g, s, b, on), i, k) == Slot(g, s, i, k)
  {
    hide Slot, PutBit, Refs;
    OwnedData(g, s, owner);
    var x := g.bmapstart + b / BPB;
    forall i, k | InTab(g, i, k) ensures Slot(g, Mark(g, s, b, on), i, k) == Slot(g, s, i, k) {
      SlotFrame(g, s, owner, x, PutBit(s.disk[x], b % BPB, on), i, k);
    }
  }

  lemma OthersKept(g: Geometry, s: St, t: St, i: int, k: int)
    requires Shape(g, s) && Shape(g, t) && t.disk == s.disk && SlotSet(g, s, t, i, k, 0)
    ensures SameOthers(g, s, t, i)
  {
    hide Slot;
    forall j, o | 0 <= j < g.ninodes && j != i && 0 <= o < MAXBYTES
      ensures FileByte(g, t, j, o) == FileByte(g, s, j, o)
    {
      assert Slot(g, t, j, Index(o / BSIZE)) == Slot(g, s, j, Index(o / BSIZE));
    }
  }

  /** Entry j of the indirect block is given back. */
  lemma EntryFreed(g: Geometry, s: St)
    requires Shape(g, s) && s.freed < NINDIRECT
    ensures Shape(g, s.(freed := s.freed + 1))
    ensures SlotSet(g, s, s.(freed := s.freed + 1), s.inum, NDIRECT + 1 + s.freed, 0)
  {
    hide Word, GetInode;
  }

  /** An empty entry is passed over. */
  lemma EntryPassed(g: Geometry, s: St, owner: Owner)
    requires Own(g, s, owner, 0) && s.freed < NINDIRECT && Slot(g, s, s.inum, NDIRECT + 1 + s.freed) == 0
    ensures Own(g, s.(freed := s.freed + 1), owner, 0) && SameOthers(g, s, s.(freed := s.freed + 1), s.inum)
  {
    hide Slot, FileByte, Used, Refs, Allocated, Sizes;
    var t := s.(freed := s.freed + 1);
    EntryFreed(g, s);
    RefsDrop(g, s, t, owner, s.inum, NDIRECT + 1 + s.freed);
    OwnedData(g, s, owner);
    assert owner - {0} == owner;
    RetainsKeeps(g, s, t, owner);
    OthersKept(g, s, t, s.inum, NDIRECT + 1 + s.freed);
  }

  /** All entries given back: the indirect block itself can go. */
  lemma IndirectFreed(g: Geometry, s: St)
    requires Shape(g, s) && s.freed == NINDIRECT
    ensures Shape(g, SetAddr(s, NDIRECT, 0).(freed := 0))
    ensures SlotSet(g, s, SetAddr(s, NDIRECT, 0).(freed := 0), s.inum, NDIRECT, 0)
  {
    hide Word, GetInode;
  }

  // ---- Inodes change ----

  /** The slots and the blocks in them are the same. */
  ghost predicate SameSlots(g: Geometry, s: St, t: St)
    requires Shape(g, s) && Shape(g, t)
  {
    forall i, k :: InTab(g, i, k) ==> Slot(g, t, i, k) == Slot(g, s, i, k) && SameBlock(g, s, t, Slot(g, s, i, k))
  }

  lemma SlotsSameKeeps(g: Geometry, s: St, t: St, owner: Owner)
    requires Shape(g, s) && Shape(g, t) && Refs(g, s, owner) && SameSlots(g, s, t)
    ensures Refs(g, t, owner) && SameFiles(g, s, t)
  {
    hide Slot;
    forall i, k | InTab(g, i, k) ensures PtrOk(g, owner, Slot(g, t, i, k), i, k) {
      SlotOwned(g, s, owner, i, k);
    }
    forall b | b in owner ensures OwnedOk(g, t, owner, b) {
      assert OwnedOk(g, s, owner, b);
      var (j, l) := owner[b];
      assert Slot(g, t, j, l) == b;
    }
    forall i, o | 0 <= i < g.ninodes && 0 <= o < MAXBYTES ensures FileByte(g, t, i, o) == FileByte(g, s, i, o) {
      assert SameBlock(g, s, t, Slot(g, s, i, Index(o / BSIZE)));
    }
  }

  /** Inode i is written to its inode block. */
  function StoreInode(g: Geometry, s: St, i: int, n: Inode): (t: St)
    requires Shape(g, s) && 0 <= i < g.ninodes && InodeOk(n)
    ensures Shape(g, t)
  {
    var x := g.inodestart + i / IPB;
    SetBlock(s, x, PutInode(s.disk[x], i % IPB, n))
  }

  lemma StoreInodeOk(g: Geometry, s: St, i: int, n: Inode)
    requires Shape(g, s) && 0 <= i < g.ninodes && InodeOk(n)
    ensures var t := StoreInode(g, s, i, n);
            && (forall j :: 0 <= j < g.ninodes ==> Din(g, t, j) == if j == i then n else Din(g, s, j))
            && (forall b :: g.datastart <= b < g.size ==> t.disk[b] == s.disk[b])
            && (forall c :: 0 <= c < g.size ==> Used(g, t, c) == Used(g, s, c))
  {
    hide GetInode, PutInode, Bit;
    var t := StoreInode(g, s, i, n);
    forall j | 0 <= j < g.ninodes ensures Din(g, t, j) == if j == i then n else Din(g, s, j) {
      if j / IPB == i / IPB {
        InodePut(s.disk[g.inodestart + i / IPB], i % IPB, n, j % IPB);
      }
    }
    forall c | 0 <= c < g.size ensures Used(g, t, c) == Used(g, s, c) {
      assert g.bmapstart + c / BPB > g.inodestart + i / IPB;
    }
  }

  /** The in-memory copy is what the disk has, and no truncation is under way. */
  predicate Synced(g: Geometry, s: St)
    requires Shape(g, s)
  {
    Din(g, s, s.inum) == s.ip && s.freed == 0
  }

  /** iupdate. */
  lemma UpdateKeeps(g: Geometry, s: St, owner: Owner)
    requires Own(g, s, owner, 0) && s.freed == 0
    ensures var t := StoreInode(g, s, s.inum, s.ip);
            Own(g, t, owner, 0) && Synced(g, t) && SameFiles(g, s, t) && SameInodes(g, s, t) && SameSlots(g, s, t)
  {
    hide Used, Refs, FileByte, StoreInode, Din;
    var t := StoreInode(g, s, s.inum, s.ip);
    StoreInodeOk(g, s, s.inum, s.ip);
    StoreShape(g, s, s.inum, s.ip);
    SameInodesSlots(g, s, t, owner);
  }

  lemma StoreShape(g: Geometry, s: St, i: int, n: Inode)
    requires Shape(g, s) && 0 <= i < g.ninodes && InodeOk(n)
    ensures var t := StoreInode(g, s, i, n); t.inum == s.inum && t.ip == s.ip && t.freed == s.freed
  {
  }

  ghost predicate SameInodes(g: Geometry, s: St, t: St)
    requires Shape(g, s) && Shape(g, t)
  {
    forall i :: 0 <= i < g.ninodes ==> Ino(g, t, i) == Ino(g, s, i)
  }

  /** The data blocks and the pointers are the same, and the free map is. */
  lemma SameInodesSlots(g: Geometry, s: St, t: St, owner: Owner)
    requires Own(g, s, owner, 0) && Shape(g, t) && s.freed == 0 == t.freed
    requires forall i :: 0 <= i < g.ninodes ==> Ino(g, t, i).addrs == Ino(g, s, i).addrs
    requires forall b :: g.datastart <= b < g.size ==> t.disk[b] == s.disk[b]
    requires forall c :: 0 <= c < g.size ==> Used(g, t, c) == Used(g, s, c)
    ensures Refs(g, t, owner) && SameFiles(g, s, t) && SameSlots(g, s, t) && Bits(g, t, owner, 0)
    ensures SameInodes(g, s, t) ==> Own(g, t, owner, 0)
  {
    hide Ino, Used, FileByte, Word, Refs;
    forall i, k | InTab(g, i, k)
      ensures Slot(g, t, i, k) == Slot(g, s, i, k) && SameBlock(g, s, t, Slot(g, s, i, k))
    {
      SlotOwned(g, s, owner, i, k);
      SlotOwned(g, s, owner, i, NDIRECT);
    }
    SlotsSameKeeps(g, s, t, owner);
  }

  /** ilock: another inode becomes the current one. */
  function Load(g: Geometry, s: St, i: int): (t: St)
    requires Shape(g, s) && 0 <= i < g.ninodes
    ensures Shape(g, t)
  {
    s.(inum := i, ip := Din(g, s, i))
  }

  lemma LoadKeeps(g: Geometry, s: St, owner: Owner, i: int)
    requires Own(g, s, owner, 0) && Synced(g, s) && 0 <= i < g.ninodes
    ensures var t := Load(g, s, i);
            Own(g, t, owner, 0) && Synced(g, t) && SameFiles(g, s, t) && SameInodes(g, s, t) && SameSlots(g, s, t)
  {
    hide GetInode, Bit, Refs, FileByte;
    var t := Load(g, s, i);
    forall j | 0 <= j < g.ninodes ensures Ino(g, t, j) == Ino(g, s, j) {
    }
    forall c | 0 <= c < g.size ensures Used(g, t, c) == Used(g, s, c) {
    }
    SameInodesSlots(g, s, t, owner);
  }

  /** The size of the current inode changes. */
  lemma SizeKeeps(g: Geometry, s: St, owner: Owner, z: int)
    requires Own(g, s, owner, 0) && s.freed == 0 && 0 <= z <= MAXBYTES
    ensures var t := s.(ip := s.ip.(size := z)); Own(g, t, owner, 0) && SameFiles(g, s, t) && SameSlots(g, s, t)
  {
    hide GetInode, Bit, Refs, FileByte;
    var t := s.(ip := s.ip.(size := z));
    forall j | 0 <= j < g.ninodes ensures Ino(g, t, j).addrs == Ino(g, s, j).addrs && Ino(g, t, j).typ == Ino(g, s, j).typ {
    }
    forall c | 0 <= c < g.size ensures Used(g, t, c) == Used(g, s, c) {
    }
    SameInodesSlots(g, s, t, owner);
    forall j | 0 <= j < g.ninodes ensures Ino(g, t, j).size <= MAXBYTES {
      assert Ino(g, s, j).size <= MAXBYTES;
    }
  }

  /** An inode that owns nothing becomes free. */
  lemma TypeKeeps(g: Geometry, s: St, owner: Owner)
    requires Own(g, s, owner, 0) && s.freed == 0 && forall b :: b in owner ==> owner[b].0 != s.inum
    ensures var t := s.(ip := s.ip.(typ := 0)); Own(g, t, owner, 0) && SameFiles(g, s, t)
  {
    hide GetInode, Bit, Refs, FileByte;
    var t := s.(ip := s.ip.(typ := 0));
    forall j | 0 <= j < g.ninodes ensures Ino(g, t, j).addrs == Ino(g, s, j).addrs && Ino(g, t, j).size == Ino(g, s, j).size {
    }
    forall c | 0 <= c < g.size ensures Used(g, t, c) == Used(g, s, c) {
    }
    SameInodesSlots(g, s, t, owner);
    forall b | b in owner ensures Ino(g, t, owner[b].0).typ != 0 {
      assert Ino(g, s, owner[b].0).typ != 0;
    }
  }

  /** What ialloc writes. */
  function NewInode(typ: int): (n: Inode)
    requires 0 <= typ < 0x1_0000
    ensures InodeOk(n) && n.typ == typ
  {
    Inode(typ, 0, 0, 0, 0, [0, 0, 0, 0, 0, 0, 0, 0, 0, 0, 0, 0, 0])
  }

  lemma FreeInodeEmpty(g: Geometry, s: St, owner: Owner, i: int, k: int)
    requires Own(g, s, owner, 0) && InTab(g, i, k) && Ino(g, s, i).typ == 0
    ensures Slot(g, s, i, k) == 0
  {
    hide Slot, Ino;
    SlotOwned(g, s, owner, i, k);
  }

  /** ialloc: a free inode is claimed. */
  lemma ClaimKeeps(g: Geometry, s: St, owner: Owner, i: int, typ: int)
    requires Own(g, s, owner, 0) && Synced(g, s) && 0 <= i < g.ninodes && i != s.inum
    requires Din(g, s, i).typ == 0 && 0 < typ < 0x1_0000
    ensures var t := StoreInode(g, s, i, NewInode(typ));
            && Own(g, t, owner, 0) && Synced(g, t) && SameFiles(g, s, t)
            && (forall j :: 0 <= j < g.ninodes ==> Ino(g, t, j) == if j == i then NewInode(typ) else Ino(g, s, j))
  {
    hide Used, Refs, FileByte, StoreInode, Din, Slot;
    var t := StoreInode(g, s, i, NewInode(typ));
    StoreInodeOk(g, s, i, NewInode(typ));
    StoreShape(g, s, i, NewInode(typ));
    ClaimSlots(g, s, t, owner, i);
    SlotsSameKeeps(g, s, t, owner);
    forall b | b in owner ensures Ino(g, t, owner[b].0).typ != 0 {
      assert Ino(g, s, owner[b].0).typ != 0;
    }
    forall j | 0 <= j < g.ninodes ensures Ino(g, t, j).size <= MAXBYTES {
      assert Ino(g, s, j).size <= MAXBYTES;
    }
  }

  lemma ClaimSlots(g: Geometry, s: St, t: St, owner: Owner, i: int)
    requires Own(g, s, owner, 0) && Shape(g, t) && 0 <= i < g.ninodes && s.inum == t.inum && s.freed == 0 == t.freed
    requires Ino(g, s, i).typ == 0 && (forall k :: 0 <= k <= NDIRECT ==> Ino(g, t, i).addrs[k] == 0)
    requires forall j :: 0 <= j < g.ninodes && j != i ==> Ino(g, t, j).addrs == Ino(g, s, j).addrs
    requires forall b :: g.datastart <= b < g.size ==> t.disk[b] == s.disk[b]
    ensures SameSlots(g, s, t)
  {
    hide Ino, Used, FileByte, Word, Refs;
    forall j, k | InTab(g, j, k)
      ensures Slot(g, t, j, k) == Slot(g, s, j, k) && SameBlock(g, s, t, Slot(g, s, j, k))
    {
      SlotOwned(g, s, owner, j, k);
      SlotOwned(g, s, owner, j, NDIRECT);
      if j == i {
        FreeInodeEmpty(g, s, owner, i, k);
      }
    }
  }

  lemma AllocSlots(g: Geometry, s: St, owner: Owner, b: int)
    requires Own(g, s, owner, 0) && 0 <= b < g.size && !Used(g, s, b)
    ensures forall i, k :: InTab(g, i, k) ==> Slot(g, Alloc(g, s, b), i, k) == Slot(g, s, i, k)
  {
    hide Slot, Refs, Used;
    AllocKeeps(g, s, owner, b);
    MarkKeeps(g, s, owner, b, true);
    MarkSlots(g, s, owner, b, true);
    var m := Mark(g, s, b, true);
    forall i, k | InTab(g, i, k) ensures Slot(g, Alloc(g, s, b), i, k) == Slot(g, s, i, k) {
      SlotFrame(g, m, owner, b, Zero(), i, k);
    }
  }

  // ---- Contents ----

  /** Blocks, once in a slot, stay there. */
  ghost predicate Grows(g: Geometry, s: St, t: St)
    requires Shape(g, s) && Shape(g, t)
  {
    forall i, k :: InTab(g, i, k) && Slot(g, s, i, k) != 0 ==> Slot(g, t, i, k) == Slot(g, s, i, k)
  }

  /** Every block up to the size is mapped. */
  ghost predicate HoleFree(g: Geometry, s: St, i: int)
    requires Shape(g, s) && 0 <= i < g.ninodes
  {
    forall bn :: 0 <= bn < MAXFILE && bn * BSIZE < Ino(g, s, i).size ==> Slot(g, s, i, Index(bn)) != 0
  }

  function Content(g: Geometry, s: St, i: int): (c: seq<int>)
    requires Shape(g, s) && 0 <= i < g.ninodes && Ino(g, s, i).size <= MAXBYTES
    ensures |c| == Ino(g, s, i).size
  {
    seq(Ino(g, s, i).size, o requires 0 <= o < Ino(g, s, i).size => FileByte(g, s, i, o))
  }

  /** Byte string c with d laid over it from off on. */
  function Splice(c: seq<int>, off: nat, d: seq<int>): (r: seq<int>)
    requires off <= |c|
    ensures |r| == if off + |d| > |c| then off + |d| else |c|
    ensures forall o :: 0 <= o < |r| ==> r[o] == if off <= o < off + |d| then d[o - off] else c[o]
  {
    c[..off] + d + (if off + |d| < |c| then c[off + |d|..] else [])
  }

  /** File i has d from off on; its bytes from there up to limit are open; all others are as they were. */
  ghost predicate Spliced(g: Geometry, s: St, t: St, i: int, off: nat, d: seq<int>, limit: int)
    requires Shape(g, s) && Shape(g, t)
  {
    forall j, o :: 0 <= j < g.ninodes && 0 <= o < MAXBYTES ==> SplicedAt(g, s, t, i, off, d, limit, j, o)
  }

  predicate SplicedAt(g: Geometry, s: St, t: St, i: int, off: nat, d: seq<int>, limit: int, j: int, o: int)
    requires Shape(g, s) && Shape(g, t) && 0 <= j < g.ninodes && 0 <= o < MAXBYTES
  {
    if j == i && off <= o < off + |d| then FileByte(g, t, j, o) == d[o - off]
    else (j == i && off + |d| <= o < limit) || FileByte(g, t, j, o) == FileByte(g, s, j, o)
  }

  lemma ContentSpliced(g: Geometry, s: St, t: St, i: int, off: nat, d: seq<int>)
    requires Shape(g, s) && Shape(g, t) && 0 <= i < g.ninodes && Spliced(g, s, t, i, off, d, off + |d|)
    requires off <= Ino(g, s, i).size <= MAXBYTES && off + |d| <= MAXBYTES
    requires Ino(g, t, i).size == if off + |d| > Ino(g, s, i).size then off + |d| else Ino(g, s, i).size
    ensures Content(g, t, i) == Splice(Content(g, s, i), off, d)
  {
    hide Slot, Shape, Ino, FileByte, Splice;
    var c := Content(g, t, i);
    forall o | 0 <= o < |c| ensures c[o] == Splice(Content(g, s, i), off, d)[o] {
      assert SplicedAt(g, s, t, i, off, d, off + |d|, i, o);
    }
  }

  /** Part of block a of a file is overwritten. */
  function Overlay(b: Block, from: int, d: seq<int>): (r: Block)
    requires BlockOk(b) && 0 <= from && from + |d| <= BSIZE && forall k :: 0 <= k < |d| ==> 0 <= d[k] < 256
    ensures BlockOk(r)
    ensures forall k :: 0 <= k < BSIZE ==> r[k] == if from <= k < from + |d| then d[k - from] else b[k]
  {
    b[..from] + d + b[from + |d|..]
  }

  /** One block's worth of writei: bytes d go to file offset o0 of the current inode. */
  lemma ChunkKeeps(g: Geometry, s: St, owner: Owner, o0: int, d: seq<int>)
    requires Own(g, s, owner, 0) && 0 <= o0 < MAXBYTES && o0 % BSIZE + |d| <= BSIZE
    requires forall k :: 0 <= k < |d| ==> 0 <= d[k] < 256
    requires Slot(g, s, s.inum, Index(o0 / BSIZE)) != 0
    ensures var a := Slot(g, s, s.inum, Index(o0 / BSIZE)); g.datastart <= a < g.size
    ensures var a := Slot(g, s, s.inum, Index(o0 / BSIZE));
            var t := SetBlock(s, a, Overlay(s.disk[a], o0 % BSIZE, d));
            && Own(g, t, owner, 0) && Spliced(g, s, t, s.inum, o0, d, o0 + |d|) && SameTable(g, s, t)
            && (forall i, k :: InTab(g, i, k) ==> Slot(g, t, i, k) == Slot(g, s, i, k))
  {
    hide Slot, Refs, Used, Overlay, FileByte;
    var k0 := Index(o0 / BSIZE);
    SlotOwned(g, s, owner, s.inum, k0);
    var a := Slot(g, s, s.inum, k0);
    var v := Overlay(s.disk[a], o0 % BSIZE, d);
    var t := SetBlock(s, a, v);
    WriteKeeps(g, s, owner, 0, a, v);
    forall i, k | InTab(g, i, k) ensures Slot(g, t, i, k) == Slot(g, s, i, k) {
      SlotFrame(g, s, owner, a, v, i, k);
    }
    var limit := o0 + |d|;
    forall j, o | 0 <= j < g.ninodes && 0 <= o < MAXBYTES ensures SplicedAt(g, s, t, s.inum, o0, d, limit, j, o) {
      SlotOwned(g, s, owner, j, Index(o / BSIZE));
      ByteFrame(g, s, owner, a, v, j, o);
      if Slot(g, s, j, Index(o / BSIZE)) == a {
        assert o / BSIZE == o0 / BSIZE;
        ByteOf(g, s, j, o);
      }
    }
  }

  lemma ByteOf(g: Geometry, s: St, i: int, o: int)
    requires Shape(g, s) && 0 <= i < g.ninodes && 0 <= o < MAXBYTES
    ensures var a := Slot(g, s, i, Index(o / BSIZE)); 0 < a < g.size ==> FileByte(g, s, i, o) == s.disk[a][o % BSIZE]
  {
  }
}

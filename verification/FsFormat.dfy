/** An empty file system, laid out as mkfs does (mkfs/mkfs.c): the invariant of the file system
    holds of it, and the root directory has its inode. */
module FsFormat {
  import opened FsBlocks
  import opened FsState

  const ROOTINO: int := 1
  const T_DIR: int := 1

  const FSMAGIC: int := 0x10203040

  /** A layout whose numbers fit in the superblock, with a root inode. */
  predicate Makeable(g: Geometry) {
    GeometryOk(g) && ROOTINO < g.ninodes < WORD
  }

  /** The superblock's words: after the magic number the size, the numbers of data blocks, inodes
      and log blocks, and where log, inodes and free map start. */
  function Numbers(g: Geometry): (ws: seq<int>)
    requires Makeable(g)
    ensures |ws| == 8 && forall k :: 0 <= k < 8 ==> 0 <= ws[k] < WORD
  {
    [FSMAGIC, g.size, g.size - g.datastart, g.ninodes, g.inodestart - 2, 2, g.inodestart, g.bmapstart]
  }

  /** What the kernel reads in block 1. */
  ghost predicate HasNumbers(g: Geometry, disk: seq<Block>)
    requires Makeable(g)
  {
    |disk| > 1 && BlockOk(disk[1]) && forall k :: 0 <= k < 8 ==> Word(disk[1], k) == Numbers(g)[k]
  }

  /** The root inode as mkfs makes it. */
  function RootInode(): (n: Inode)
    ensures InodeOk(n) && n.typ == T_DIR
  {
    NewInode(T_DIR).(nlink := 1)
  }

  function BlankBlock(g: Geometry, b: int): (r: Block)
    requires Makeable(g)
    ensures BlockOk(r)
  {
    if b == 1 then SetWords(Zero(), 0, Numbers(g)) else Zero()
  }

  /** All blocks zero but the superblock, and the root inode in memory. */
  function Blank(g: Geometry): (s: St)
    requires Makeable(g)
    ensures Shape(g, s)
  {
    St(seq(g.size, b => BlankBlock(g, b)), ROOTINO, RootInode(), 0)
  }

  lemma BlankNumbers(g: Geometry)
    requires Makeable(g)
    ensures HasNumbers(g, Blank(g).disk)
  {
    hide Word, SetWords, Zero;
    forall k | 0 <= k < 8 ensures Word(BlankBlock(g, 1), k) == Numbers(g)[k] {
      WordsSet(Zero(), 0, Numbers(g), k);
    }
  }

  lemma ZeroWords(w: int)
    requires 0 <= w && w + 13 <= 256
    ensures Words(Zero(), w, 13) == NewInode(0).addrs
  {
    hide Word, Zero;
    var ws := Words(Zero(), w, 13);
    forall k | 0 <= k < 13 ensures ws[k] == 0 {
      WordZero(w + k);
    }
    var zero := NewInode(0).addrs;
    assert forall k :: 0 <= k < 13 ==> ws[k] == zero[k];
  }

  lemma ZeroInode(i: int)
    requires 0 <= i < IPB
    ensures GetInode(Zero(), i) == NewInode(0)
  {
    hide Word, Words, Zero, BlockOk;
    WordZero(16 * i);
    WordZero(16 * i + 1);
    WordZero(16 * i + 2);
    ZeroWords(16 * i + 3);
  }

  lemma BlankInodes(g: Geometry, i: int)
    requires Makeable(g) && 0 <= i < g.ninodes
    ensures Ino(g, Blank(g), i) == if i == ROOTINO then RootInode() else NewInode(0)
  {
    hide GetInode, Zero;
    ZeroInode(i % IPB);
  }

  /** Nothing refers to a block. */
  lemma BlankRefs(g: Geometry)
    requires Makeable(g)
    ensures var s := Blank(g); Refs(g, s, map[]) && Allocated(g, s, map[]) && Sizes(g, s)
  {
    hide Ino, Blank;
    var s := Blank(g);
    forall i, k | InTab(g, i, k) ensures Slot(g, s, i, k) == 0 {
      BlankInodes(g, i);
    }
    forall i | 0 <= i < g.ninodes ensures Ino(g, s, i).size == 0 {
      BlankInodes(g, i);
    }
  }

  lemma ByteBitZero(k: nat)
    ensures !ByteBit(0, k)
  {
  }

  lemma BlankBits(g: Geometry, b: int)
    requires Makeable(g) && 0 <= b < g.size
    ensures !Used(g, Blank(g), b)
  {
    ByteBitZero(b % BPB % 8);
  }

  /** mkfs marks the blocks in front of the data blocks. */
  method FormatDisk(g: Geometry) returns (s: St)
    requires Makeable(g)
    ensures Own(g, s, map[], 0) && s.inum == ROOTINO && s.ip == RootInode() && s.freed == 0
    ensures HasNumbers(g, s.disk) && forall i :: 0 <= i < g.ninodes && i != ROOTINO ==> Ino(g, s, i) == NewInode(0)
  {
    hide HasNumbers, Used, Refs, Ino, Mark, Blank, Allocated, Sizes, Shape, Bits;
    s := Blank(g);
    BlankState(g);
    var b := 0;
    while b < g.datastart
      invariant 0 <= b <= g.datastart && Formatted(g, s, b)
    {
      MarkNext(g, s, b);
      s := Mark(g, s, b, true);
      b := b + 1;
    }
    FormatOwn(g, s);
  }

  /** A blank file system with the first n blocks marked. */
  ghost predicate Formatted(g: Geometry, s: St, n: int) {
    && Makeable(g) && HasNumbers(g, s.disk) && Shape(g, s) && Refs(g, s, map[]) && Allocated(g, s, map[]) && Sizes(g, s)
    && s.inum == ROOTINO && s.ip == RootInode() && s.freed == 0
    && (forall i :: 0 <= i < g.ninodes && i != ROOTINO ==> Ino(g, s, i) == NewInode(0))
    && (forall b :: 0 <= b < g.size ==> (Used(g, s, b) <==> b < n))
  }

  lemma BlankState(g: Geometry)
    requires Makeable(g)
    ensures Formatted(g, Blank(g), 0)
  {
    hide Used, Refs, Ino, Allocated, Sizes, NewInode, HasNumbers;
    BlankRefs(g);
    BlankNumbers(g);
    forall b | 0 <= b < g.size ensures !Used(g, Blank(g), b) {
      BlankBits(g, b);
    }
    forall i | 0 <= i < g.ninodes && i != ROOTINO ensures Ino(g, Blank(g), i) == NewInode(0) {
      BlankInodes(g, i);
    }
  }

  lemma MarkNext(g: Geometry, s: St, n: int)
    requires Formatted(g, s, n) && 0 <= n < g.datastart && g.datastart <= g.size
    ensures Shape(g, s) && Formatted(g, Mark(g, s, n, true), n + 1)
  {
    hide Used, Refs, Allocated, Sizes, NewInode, PutBit, GetInode, Word;
    var t := Mark(g, s, n, true);
    MarkKeeps(g, s, map[], n, true);
    forall i | 0 <= i < g.ninodes ensures Ino(g, t, i) == Ino(g, s, i) {
      assert g.inodestart + i / IPB < g.bmapstart;
    }
    forall b | 0 <= b < g.size ensures Used(g, t, b) <==> b < n + 1 {
      MarkUsed(g, s, n, true, b);
    }
  }

  lemma FormatOwn(g: Geometry, s: St)
    requires Formatted(g, s, g.datastart)
    ensures Own(g, s, map[], 0)
  {
    hide Used, Refs, Ino, Allocated, Sizes, Shape, HasNumbers;
  }
}

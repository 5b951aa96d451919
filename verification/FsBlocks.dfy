/** What the bytes of a disk block mean: the words of an indirect block, the bits of a
    bitmap block, and the inodes of an inode block (kernel/fs.h). */
module FsBlocks {
  const BSIZE: int := 1024
  const BPB: int := 8192
  const IPB: int := 16
  const NDIRECT: int := 12
  const NINDIRECT: int := 256
  const MAXFILE: int := 268
  const WORD: int := 0x1_0000_0000

  type Block = seq<int>

  predicate BlockOk(b: Block) {
    |b| == 1024 && forall k :: 0 <= k < 1024 ==> 0 <= b[k] < 256
  }

  function Zero(): (b: Block)
    ensures BlockOk(b) && forall k :: 0 <= k < 1024 ==> b[k] == 0
  {
    seq(1024, _ => 0)
  }

  // ---- Little-endian words ----

  function Word(b: Block, i: int): (w: int)
    requires BlockOk(b) && 0 <= i < 256
    ensures 0 <= w < WORD
  {
    b[4 * i] + 0x100 * b[4 * i + 1] + 0x1_0000 * b[4 * i + 2] + 0x100_0000 * b[4 * i + 3]
  }

  function SetWord(b: Block, i: int, v: int): (r: Block)
    requires BlockOk(b) && 0 <= i < 256 && 0 <= v < WORD
    ensures BlockOk(r)
  {
    b[4 * i := v % 0x100][4 * i + 1 := v / 0x100 % 0x100][4 * i + 2 := v / 0x1_0000 % 0x100]
     [4 * i + 3 := v / 0x100_0000]
  }

  lemma BytesOfWord(v: int)
    requires 0 <= v < WORD
    ensures v % 0x100 + 0x100 * (v / 0x100 % 0x100) + 0x1_0000 * (v / 0x1_0000 % 0x100) + 0x100_0000 * (v / 0x100_0000) == v
  {
    var a := v / 0x100;
    var c := a / 0x100;
    assert c == v / 0x1_0000 && c / 0x100 == v / 0x100_0000;
  }

  lemma WordSet(b: Block, i: int, v: int, j: int)
    requires BlockOk(b) && 0 <= i < 256 && 0 <= j < 256 && 0 <= v < WORD
    ensures Word(SetWord(b, i, v), j) == if i == j then v else Word(b, j)
  {
    BytesOfWord(v);
  }

  lemma WordZero(i: int)
    requires 0 <= i < 256
    ensures Word(Zero(), i) == 0
  {
  }

  // ---- Bits ----

  predicate ByteBit(x: int, k: nat)
    decreases k
  {
    if k == 0 then x % 2 == 1 else ByteBit(x / 2, k - 1)
  }

  /** x | 1 << k, or x & ~(1 << k). */
  function PutByteBit(x: int, k: nat, on: bool): int
    decreases k
  {
    if k == 0 then x - x % 2 + (if on then 1 else 0) else x % 2 + 2 * PutByteBit(x / 2, k - 1, on)
  }

  predicate Bit(b: Block, n: int)
    requires BlockOk(b) && 0 <= n < 8192
  {
    ByteBit(b[n / 8], n % 8)
  }

  function PutBit(b: Block, n: int, on: bool): (r: Block)
    requires BlockOk(b) && 0 <= n < 8192
    ensures BlockOk(r)
  {
    PutByteOk(b[n / 8], n % 8, on, 8);
    b[n / 8 := PutByteBit(b[n / 8], n % 8, on)]
  }

  function Power2(n: nat): nat {
    if n == 0 then 1 else 2 * Power2(n - 1)
  }

  lemma {:induction false} PutByteOk(x: int, k: nat, on: bool, n: nat)
    requires k < n && 0 <= x < Power2(n)
    ensures 0 <= PutByteBit(x, k, on) < Power2(n) && Power2(8) == 256
    decreases k
  {
    assert Power2(8) == 256;
    if k > 0 {
      assert x / 2 < Power2(n - 1);
      PutByteOk(x / 2, k - 1, on, n - 1);
    }
  }

  lemma {:induction false} ByteBitPut(x: int, k: nat, on: bool, j: nat)
    requires 0 <= x
    ensures ByteBit(PutByteBit(x, k, on), j) == if j == k then on else ByteBit(x, j)
    decreases k
  {
    if k > 0 {
      var rest := PutByteBit(x / 2, k - 1, on);
      assert PutByteBit(x, k, on) / 2 == rest && PutByteBit(x, k, on) % 2 == x % 2;
      if j > 0 {
        ByteBitPut(x / 2, k - 1, on, j - 1);
      }
    } else if j > 0 {
      assert PutByteBit(x, k, on) / 2 == x / 2;
    }
  }

  lemma BitPut(b: Block, n: int, on: bool, j: int)
    requires BlockOk(b) && 0 <= n < 8192 && 0 <= j < 8192
    ensures Bit(PutBit(b, n, on), j) == if j == n then on else Bit(b, j)
  {
    ByteBitPut(b[n / 8], n % 8, on, j % 8);
  }

  // ---- Inodes ----

  datatype Inode = Inode(typ: int, major: int, minor: int, nlink: int, size: int, addrs: seq<int>)

  predicate InodeOk(n: Inode) {
    && 0 <= n.typ < 0x1_0000 && 0 <= n.major < 0x1_0000 && 0 <= n.minor < 0x1_0000 && 0 <= n.nlink < 0x1_0000
    && 0 <= n.size < WORD && |n.addrs| == NDIRECT + 1
    && forall k :: 0 <= k <= NDIRECT ==> 0 <= n.addrs[k] < WORD
  }

  /** struct dinode as sixteen words. */
  function Encode(n: Inode): (ws: seq<int>)
    requires InodeOk(n)
    ensures |ws| == 16 && forall k :: 0 <= k < 16 ==> 0 <= ws[k] < WORD
  {
    [n.typ + 0x1_0000 * n.major, n.minor + 0x1_0000 * n.nlink, n.size] + n.addrs
  }

  function SetWords(b: Block, i: int, ws: seq<int>): (r: Block)
    requires BlockOk(b) && 0 <= i && i + |ws| <= 256 && forall k :: 0 <= k < |ws| ==> 0 <= ws[k] < WORD
    ensures BlockOk(r)
    decreases |ws|
  {
    if ws == [] then b else SetWords(SetWord(b, i, ws[0]), i + 1, ws[1..])
  }

  lemma {:induction false} WordsSet(b: Block, i: int, ws: seq<int>, j: int)
    requires BlockOk(b) && 0 <= i && i + |ws| <= 256 && 0 <= j < 256
    requires forall k :: 0 <= k < |ws| ==> 0 <= ws[k] < WORD
    ensures Word(SetWords(b, i, ws), j) == if i <= j < i + |ws| then ws[j - i] else Word(b, j)
    decreases |ws|
  {
    if ws != [] {
      WordSet(b, i, ws[0], j);
      WordsSet(SetWord(b, i, ws[0]), i + 1, ws[1..], j);
    }
  }

  function GetInode(b: Block, i: int): (n: Inode)
    requires BlockOk(b) && 0 <= i < IPB
    ensures InodeOk(n)
  {
    var w := 16 * i;
    Decode(Word(b, w), Word(b, w + 1), Word(b, w + 2), Words(b, w + 3, 13))
  }

  function Decode(w0: int, w1: int, size: int, addrs: seq<int>): (n: Inode)
    requires 0 <= w0 < WORD && 0 <= w1 < WORD && 0 <= size < WORD
    requires |addrs| == 13 && forall k :: 0 <= k < 13 ==> 0 <= addrs[k] < WORD
    ensures InodeOk(n)
  {
    Inode(w0 % 0x1_0000, w0 / 0x1_0000, w1 % 0x1_0000, w1 / 0x1_0000, size, addrs)
  }

  function Words(b: Block, i: int, n: nat): (ws: seq<int>)
    requires BlockOk(b) && 0 <= i && i + n <= 256
    decreases n
    ensures |ws| == n && forall k :: 0 <= k < n ==> 0 <= ws[k] < WORD && ws[k] == Word(b, i + k)
  {
    if n == 0 then [] else [Word(b, i)] + Words(b, i + 1, n - 1)
  }

  function PutInode(b: Block, i: int, n: Inode): (r: Block)
    requires BlockOk(b) && 0 <= i < IPB && InodeOk(n)
    ensures BlockOk(r)
  {
    SetWords(b, 16 * i, Encode(n))
  }

  lemma InodeWord(b: Block, i: int, n: Inode, j: int, k: int)
    requires BlockOk(b) && 0 <= i < IPB && 0 <= j < IPB && InodeOk(n) && 0 <= k < 16
    ensures Word(PutInode(b, i, n), 16 * j + k) == if i == j then Encode(n)[k] else Word(b, 16 * j + k)
  {
    hide SetWords, Word, Encode;
    WordsSet(b, 16 * i, Encode(n), 16 * j + k);
  }

  lemma InodePut(b: Block, i: int, n: Inode, j: int)
    requires BlockOk(b) && 0 <= i < IPB && 0 <= j < IPB && InodeOk(n)
    ensures GetInode(PutInode(b, i, n), j) == if i == j then n else GetInode(b, j)
  {
    hide PutInode, Word, BlockOk, Words;
    var r := PutInode(b, i, n);
    InodeWord(b, i, n, j, 0);
    InodeWord(b, i, n, j, 1);
    InodeWord(b, i, n, j, 2);
    var now, was := Words(r, 16 * j + 3, 13), Words(b, 16 * j + 3, 13);
    forall k | 0 <= k < 13
      ensures now[k] == if i == j then n.addrs[k] else was[k]
    {
      InodeWord(b, i, n, j, 3 + k);
    }
    if i == j {
      assert now == n.addrs;
    } else {
      assert now == was;
    }
  }
}

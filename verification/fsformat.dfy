/**
  The on-disk format of fs.h: the layout of the disk, the free-block bitmap, the
  64-byte inodes, and the block addresses an inode holds.
 */
module FsFormat {
  import opened Blocks

  const NDIRECT: nat := 12
  const NINDIRECT: nat := WORDS
  const MAXFILE: nat := NDIRECT + NINDIRECT
  const BPB: nat := 4096       // bitmap bits per block
  const IPB: nat := 8          // inodes per block
  const T_DEV: Half := 3

  type Half = x: int | 0 <= x < 0x1_0000

  datatype Dinode = Dinode(kind: Half, major: Half, minor: Half, nlink: Half, size: Word, addrs: seq<Word>)

  type Inode = d: Dinode | |d.addrs| == NDIRECT + 1 witness Dinode(0, 0, 0, 0, 0, seq(NDIRECT + 1, i => 0))

  /** The superblock, and nmeta, the number of the first data block. */
  datatype Super = Super(size: Word, ninodes: nat, inodestart: nat, bmapstart: nat, nmeta: nat)

  /** boot block, superblock, log, inode blocks, bitmap, data: as mkfs lays them out. */
  ghost predicate Layout(sb: Super) {
    && 2 <= sb.inodestart && sb.inodestart + sb.ninodes / IPB + 1 <= sb.bmapstart
    && sb.bmapstart + sb.size / BPB + 1 <= sb.nmeta <= sb.size
  }

  ghost predicate OnDisk(sb: Super, disk: Disk) {
    Layout(sb) && |disk| == sb.size
  }

  // ---- bitmap ----

  /** 1 << k */
  function Mask(k: nat): (m: nat)
    ensures m > 0
  {
    if k == 0 then 1 else 2 * Mask(k - 1)
  }

  /** (x & (1 << k)) != 0 */
  predicate Bit(x: nat, k: nat) {
    if k == 0 then x % 2 == 1 else Bit(x / 2, k - 1)
  }

  lemma {:induction false} AddMask(x: nat, k: nat, j: nat)
    requires !Bit(x, k)
    ensures Bit(x + Mask(k), j) <==> j == k || Bit(x, j)
  {
    if k > 0 {
      assert (x + Mask(k)) / 2 == x / 2 + Mask(k - 1);
      if j > 0 { AddMask(x / 2, k - 1, j - 1); }
    } else if j > 0 {
      assert (x + 1) / 2 == x / 2;
    }
  }

  lemma {:induction false} AddMaskFits(x: nat, k: nat, n: nat)
    requires x < Mask(n) && k < n && !Bit(x, k)
    ensures x + Mask(k) < Mask(n)
  {
    var m := Mask(n - 1);
    assert Mask(n) == 2 * m;
    if k > 0 {
      assert x / 2 < m;
      AddMaskFits(x / 2, k - 1, n - 1);
    }
  }

  lemma {:induction false} TakeMask(x: nat, k: nat, j: nat)
    requires Bit(x, k)
    ensures x >= Mask(k)
    ensures Bit(x - Mask(k), j) <==> j != k && Bit(x, j)
  {
    if k > 0 {
      TakeMask(x / 2, k - 1, if j > 0 then j - 1 else 0);
      assert (x - Mask(k)) / 2 == x / 2 - Mask(k - 1);
    } else if j > 0 {
      assert (x - 1) / 2 == x / 2;
    }
  }

  /** data |= 1 << k */
  function SetBit(x: Byte, k: nat): (r: Byte)
    requires k < 8
    ensures forall j: nat :: Bit(r, j) <==> j == k || Bit(x, j)
  {
    if Bit(x, k) then x
    else
      AddMaskFits(x, k, 8);
      assert Mask(8) == 256 by { assert Mask(4) == 16; }
      assert forall j: nat :: Bit(x + Mask(k), j) <==> j == k || Bit(x, j) by {
        forall j: nat ensures Bit(x + Mask(k), j) <==> j == k || Bit(x, j) { AddMask(x, k, j); }
      }
      x + Mask(k)
  }

  /** data &= ~(1 << k) */
  function ClearBit(x: Byte, k: nat): (r: Byte)
    requires k < 8
    ensures forall j: nat :: Bit(r, j) <==> j != k && Bit(x, j)
  {
    if !Bit(x, k) then x
    else
      TakeMask(x, k, k);
      assert forall j: nat :: Bit(x - Mask(k), j) <==> j != k && Bit(x, j) by {
        forall j: nat ensures Bit(x - Mask(k), j) <==> j != k && Bit(x, j) { TakeMask(x, k, j); }
      }
      x - Mask(k)
  }

  function BitBlock(sb: Super, b: nat): nat {
    b / BPB + sb.bmapstart
  }

  /** The bitmap marks block b as in use. */
  predicate Used(sb: Super, disk: Disk, b: nat)
    requires BitBlock(sb, b) < |disk|
  {
    Bit(disk[BitBlock(sb, b)][b % BPB / 8], b % BPB % 8)
  }

  function Marked(sb: Super, disk: Disk, b: nat, used: bool): Disk
    requires BitBlock(sb, b) < |disk|
  {
    var x := disk[BitBlock(sb, b)][b % BPB / 8];
    disk[BitBlock(sb, b) := disk[BitBlock(sb, b)]
      [b % BPB / 8 := if used then SetBit(x, b % BPB % 8) else ClearBit(x, b % BPB % 8)]]
  }

  lemma MarkedUsed(sb: Super, disk: Disk, b: nat, used: bool, c: nat)
    requires BitBlock(sb, b) < |disk| && BitBlock(sb, c) < |disk|
    ensures Used(sb, Marked(sb, disk, b, used), c) <==> if c == b then used else Used(sb, disk, c)
  {
    if b / BPB == c / BPB && b % BPB / 8 == c % BPB / 8 && b % BPB % 8 == c % BPB % 8 { SameBit(b, c); }
  }

  lemma SameBit(b: nat, c: nat)
    requires b / BPB == c / BPB && b % BPB / 8 == c % BPB / 8 && b % BPB % 8 == c % BPB % 8
    ensures b == c
  {
  }

  // ---- inodes ----

  function PutWords(b: Block, at: nat, ws: seq<Word>): (r: Block)
    requires at + |ws| <= WORDS
    ensures forall j: nat :: j < WORDS ==> GetWord(r, j) == if at <= j < at + |ws| then ws[j-at] else GetWord(b, j)
    decreases |ws|
  {
    if ws == [] then b else PutWords(PutWord(b, at, ws[0]), at + 1, ws[1..])
  }

  function InodeWords(d: Inode): (ws: seq<Word>)
    ensures |ws| == 16
  {
    var k: int, m: int, n: int, l: int := d.kind, d.major, d.minor, d.nlink;
    [k + 0x1_0000 * m, n + 0x1_0000 * l, d.size] + d.addrs
  }

  function GetInode(b: Block, s: nat): Inode
    requires s < IPB
  {
    var w := seq<Word>(16, j requires 0 <= j < 16 => GetWord(b, 16 * s + j));
    Dinode(w[0] % 0x1_0000, w[0] / 0x1_0000, w[1] % 0x1_0000, w[1] / 0x1_0000, w[2], w[3..])
  }

  /** The fields copied into slot s of an inode block; the other slots keep their inodes. */
  function PutInode(b: Block, s: nat, d: Inode): (r: Block)
    requires s < IPB
    ensures GetInode(r, s) == d
    ensures forall t: nat :: t < IPB && t != s ==> GetInode(r, t) == GetInode(b, t)
  {
    var r := PutWords(b, 16 * s, InodeWords(d));
    assert GetInode(r, s) == d by { ReadBack(b, s, d); }
    assert forall t: nat :: t < IPB && t != s ==> GetInode(r, t) == GetInode(b, t) by {
      forall t: nat | t < IPB && t != s ensures GetInode(r, t) == GetInode(b, t) { OtherSlot(b, s, d, t); }
    }
    r
  }

  lemma ReadBack(b: Block, s: nat, d: Inode)
    requires s < IPB
    ensures GetInode(PutWords(b, 16 * s, InodeWords(d)), s) == d
  {
    hide GetWord, PutWords;
    var r, ws := PutWords(b, 16 * s, InodeWords(d)), InodeWords(d);
    var w := seq(16, j requires 0 <= j < 16 => GetWord(r, 16 * s + j));
    assert w == ws;
    assert ws[3..] == d.addrs;
  }

  lemma OtherSlot(b: Block, s: nat, d: Inode, t: nat)
    requires s < IPB && t < IPB && t != s
    ensures GetInode(PutWords(b, 16 * s, InodeWords(d)), t) == GetInode(b, t)
  {
    hide GetWord, PutWords;
    var r := PutWords(b, 16 * s, InodeWords(d));
    assert seq(16, j requires 0 <= j < 16 => GetWord(r, 16 * t + j))
      == seq(16, j requires 0 <= j < 16 => GetWord(b, 16 * t + j));
  }

  function InodeBlock(sb: Super, i: nat): nat {
    i / IPB + sb.inodestart
  }

  /** Inode i as it is on the disk. */
  function Stored(sb: Super, disk: Disk, i: nat): Inode
    requires InodeBlock(sb, i) < |disk|
  {
    GetInode(disk[InodeBlock(sb, i)], i % IPB)
  }

  function Store(sb: Super, disk: Disk, i: nat, d: Inode): (r: Disk)
    requires InodeBlock(sb, i) < |disk|
    ensures |r| == |disk| && forall c: nat :: c < |r| && c != InodeBlock(sb, i) ==> r[c] == disk[c]
    ensures forall j: nat :: InodeBlock(sb, j) < |r| ==> Stored(sb, r, j) == if j == i then d else Stored(sb, disk, j)
  {
    disk[InodeBlock(sb, i) := PutInode(disk[InodeBlock(sb, i)], i % IPB, d)]
  }

  // ---- the blocks of an inode ----

  /**
    An inode's block addresses, by slot: the direct ones, then at NDIRECT that of
    the indirect block, then the entries of the indirect block.
   */
  const SLOTS: nat := NDIRECT + 1 + NINDIRECT

  function Addr(disk: Disk, d: Inode, k: nat): Word
    requires k < SLOTS
  {
    if k <= NDIRECT then d.addrs[k]
    else if d.addrs[NDIRECT] == 0 || d.addrs[NDIRECT] >= |disk| then 0
    else GetWord(disk[d.addrs[NDIRECT]], k - NDIRECT - 1)
  }

  /** The slot of the file's data block bn. */
  function DataSlot(bn: nat): (k: nat)
    ensures k != NDIRECT && (bn < MAXFILE ==> k < SLOTS)
  {
    if bn < NDIRECT then bn else bn + 1
  }
}

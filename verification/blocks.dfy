/**
  Disk blocks as byte sequences, and the little-endian 32-bit words that the
  kernel overlays on them (log header, indirect block).
 */
module Blocks {
  const BSIZE: nat := 512
  const WORDS: nat := 128      // BSIZE / sizeof(uint)

  type Byte = x: int | 0 <= x < 256
  type Word = x: int | 0 <= x < 0x1_0000_0000
  type Block = b: seq<Byte> | |b| == BSIZE witness seq(BSIZE, i => 0)
  type Disk = seq<Block>

  function ZeroBlock(): Block {
    seq(BSIZE, i => 0)
  }

  function GetWord(b: Block, i: nat): Word
    requires i < WORDS
  {
    var b0: int, b1: int, b2: int, b3: int := b[4*i], b[4*i+1], b[4*i+2], b[4*i+3];
    b0 + 0x100 * b1 + 0x1_0000 * b2 + 0x100_0000 * b3
  }

  /** Stores one word; every other word of the block keeps its value. */
  function PutWord(b: Block, i: nat, w: Word): (r: Block)
    requires i < WORDS
    ensures GetWord(r, i) == w
    ensures forall j: nat :: j < WORDS && j != i ==> GetWord(r, j) == GetWord(b, j)
  {
    var b0 := w % 0x100;
    var b1 := w / 0x100 % 0x100;
    var b2 := w / 0x1_0000 % 0x100;
    var b3 := w / 0x100_0000;
    WordBytes(w);
    b[4*i := b0][4*i+1 := b1][4*i+2 := b2][4*i+3 := b3]
  }

  lemma WordBytes(w: Word)
    ensures w / 0x100_0000 < 0x100
    ensures w == w % 0x100 + 0x100 * (w / 0x100 % 0x100) + 0x1_0000 * (w / 0x1_0000 % 0x100)
                 + 0x100_0000 * (w / 0x100_0000)
  {
    var w1: int, w2: int, w3: int := w / 0x100, w / 0x1_0000, w / 0x100_0000;
    assert w2 == w1 / 0x100 && w3 == w2 / 0x100;
  }

  lemma ZeroWords(i: nat)
    requires i < WORDS
    ensures GetWord(ZeroBlock(), i) == 0
  {
  }
}

/** Disk blocks as bytes, and the little-endian 32-bit words the kernel overlays on them. */
module Bytes {
  const BSIZE: nat := 512

  type Byte = x: int | 0 <= x < 256
  type Word = x: int | 0 <= x < 0x1_0000_0000
  type Block = b: seq<Byte> | |b| == BSIZE witness seq(512, _ => 0)

  /** Unsigned 32-bit arithmetic. */
  function Wrap(x: nat): Word { x % 0x1_0000_0000 }

  /** The word stored at word index i, as a C `uint` array over the block's data reads it. */
  function WordAt(b: Block, i: nat): Word
    requires i < BSIZE / 4
  {
    var b0: int, b1: int, b2: int, b3: int := b[4 * i], b[4 * i + 1], b[4 * i + 2], b[4 * i + 3];
    b0 + 0x100 * b1 + 0x1_0000 * b2 + 0x100_0000 * b3
  }

  function PutWord(b: Block, i: nat, w: Word): Block
    requires i < BSIZE / 4
  {
    b[4 * i := w % 0x100][4 * i + 1 := w / 0x100 % 0x100]
     [4 * i + 2 := w / 0x1_0000 % 0x100][4 * i + 3 := w / 0x100_0000]
  }

  lemma WordSplits(w: Word)
    ensures w % 0x100 + 0x100 * (w / 0x100 % 0x100)
          + 0x1_0000 * (w / 0x1_0000 % 0x100) + 0x100_0000 * (w / 0x100_0000) == w
  {
    assert w / 0x1_0000 == w / 0x100 / 0x100;
    assert w / 0x100_0000 == w / 0x1_0000 / 0x100;
  }

  /** A stored word reads back, and no other word changes. */
  lemma WordAfterPut(b: Block, i: nat, w: Word, j: nat)
    requires i < BSIZE / 4 && j < BSIZE / 4
    ensures WordAt(PutWord(b, i, w), j) == if i == j then w else WordAt(b, j)
  {
    WordSplits(w);
  }
}

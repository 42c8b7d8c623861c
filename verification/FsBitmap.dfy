/** The free-block bitmap, bit by bit, inside the bitmap blocks. */
module FsBitmap {
  import opened Bytes

  const BPB: nat := BSIZE * 8

  // ---------------------------------------------------------------- bits of a byte

  /** x & (1 << k) != 0 */
  predicate BitOf(x: nat, k: nat) {
    if k == 0 then x % 2 == 1 else BitOf(x / 2, k - 1)
  }

  /** x | (1 << k) when on, x & ~(1 << k) when off. */
  function WithBit(x: nat, k: nat, on: bool): nat {
    if k == 0 then x / 2 * 2 + (if on then 1 else 0) else 2 * WithBit(x / 2, k - 1, on) + x % 2
  }

  lemma {:induction false} BitAfter(x: nat, k: nat, on: bool, j: nat)
    ensures BitOf(WithBit(x, k, on), j) == if j == k then on else BitOf(x, j)
  {
    var y := WithBit(x, k, on);
    if k == 0 {
      assert y / 2 == x / 2;
    } else {
      assert y / 2 == WithBit(x / 2, k - 1, on) && y % 2 == x % 2;
      if j > 0 { BitAfter(x / 2, k - 1, on, j - 1); }
    }
  }

  function Pow2(k: nat): nat { if k == 0 then 1 else 2 * Pow2(k - 1) }

  lemma {:induction false} WithBitBound(x: nat, k: nat, on: bool, n: nat)
    requires x < Pow2(n) && k < n
    ensures WithBit(x, k, on) < Pow2(n)
  {
    if k > 0 { WithBitBound(x / 2, k - 1, on, n - 1); }
  }

  lemma ByteStaysByte(x: Byte, k: nat, on: bool)
    requires k < 8
    ensures 0 <= WithBit(x, k, on) < 256
  {
    assert Pow2(8) == 256 by {
      assert Pow2(2) == 4;
      assert Pow2(4) == 16;
      assert Pow2(6) == 64;
    }
    WithBitBound(x, k, on, 8);
  }

  // ---------------------------------------------------------------- bits of the bitmap blocks

  /** Where the file system's parts lie.  data is the first data block. */
  datatype Super = Super(size: nat, ninodes: nat, inodestart: nat, bmapstart: nat, data: nat)

  /** BBLOCK: the bitmap block that holds block b's bit. */
  function BBlock(sb: Super, b: nat): nat { b / BPB + sb.bmapstart }

  predicate Layout(sb: Super, blocks: seq<Block>) {
    && |blocks| == sb.size <= 0x1_0000_0000
    && sb.data <= sb.size
    && 0 < sb.bmapstart && (sb.size > 0 ==> BBlock(sb, sb.size - 1) < sb.data)
  }

  lemma BitmapBlockIsMeta(sb: Super, blocks: seq<Block>, b: nat)
    requires Layout(sb, blocks) && b < sb.size
    ensures BBlock(sb, b) < sb.data <= |blocks|
  {
    assert b / BPB <= (sb.size - 1) / BPB;
  }

  /** Block b is marked in use. */
  predicate Used(sb: Super, blocks: seq<Block>, b: nat)
    requires Layout(sb, blocks) && b < sb.size
  {
    BitmapBlockIsMeta(sb, blocks, b);
    BitOf(blocks[BBlock(sb, b)][b % BPB / 8], b % BPB % 8)
  }

  function SetByte(x: Block, i: nat, v: Byte): Block
    requires i < BSIZE
  {
    x[i := v]
  }

  function Mark(sb: Super, blocks: seq<Block>, b: nat, on: bool): (r: seq<Block>)
    requires Layout(sb, blocks) && b < sb.size
    ensures Layout(sb, r)
  {
    BitmapBlockIsMeta(sb, blocks, b);
    var bb, i := BBlock(sb, b), b % BPB / 8;
    ByteStaysByte(blocks[bb][i], b % BPB % 8, on);
    blocks[bb := SetByte(blocks[bb], i, WithBit(blocks[bb][i], b % BPB % 8, on))]
  }

  /** Marking a block changes that block's bit and no other. */
  lemma UsedAfterMark(sb: Super, blocks: seq<Block>, b: nat, on: bool, c: nat)
    requires Layout(sb, blocks) && b < sb.size && c < sb.size
    ensures Used(sb, Mark(sb, blocks, b, on), c) == if c == b then on else Used(sb, blocks, c)
  {
    BitmapBlockIsMeta(sb, blocks, b);
    BitmapBlockIsMeta(sb, blocks, c);
    var bb, i, k := BBlock(sb, b), b % BPB / 8, b % BPB % 8;
    if BBlock(sb, c) == bb && c % BPB / 8 == i {
      BitAfter(blocks[bb][i], k, on, c % BPB % 8);
      ByteStaysByte(blocks[bb][i], k, on);
      if c % BPB % 8 == k { SamePlace(b, c); }
    }
  }

  lemma SamePlace(b: nat, c: nat)
    requires b / BPB == c / BPB && b % BPB / 8 == c % BPB / 8 && b % BPB % 8 == c % BPB % 8
    ensures b == c
  {
    var x, y := b % BPB, c % BPB;
    assert x == 8 * (x / 8) + x % 8 && y == 8 * (y / 8) + y % 8;
    assert b == BPB * (b / BPB) + x && c == BPB * (c / BPB) + y;
  }

  /** Marking changes no block outside the bitmap. */
  lemma MarkElsewhere(sb: Super, blocks: seq<Block>, b: nat, on: bool, x: nat)
    requires Layout(sb, blocks) && b < sb.size && x < sb.size && x != BBlock(sb, b)
    ensures Mark(sb, blocks, b, on)[x] == blocks[x]
  {
    BitmapBlockIsMeta(sb, blocks, b);
  }
}

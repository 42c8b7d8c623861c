/** The disk as one long array of bytes: where the header of the log, the inodes, the bitmap and the bytes of a file
    lie. */
module DiskLayout {
  import opened Bytes
  import opened FsBitmap
  import opened FsOwnership
  import opened FsContent
  import opened FsInode
  import opened FsInodeTable
  import RedoLog

  /** Byte o of the disk. */
  function ByteAt(blocks: seq<Block>, o: nat): Byte
    requires o < 512 * |blocks|
  {
    blocks[o / 512][o % 512]
  }

  /** The little-endian unsigned number of four bytes from o on. */
  function UintAt(blocks: seq<Block>, o: nat): int
    requires o + 4 <= 512 * |blocks|
  {
    ByteAt(blocks, o) + 0x100 * ByteAt(blocks, o + 1) + 0x1_0000 * ByteAt(blocks, o + 2)
      + 0x100_0000 * ByteAt(blocks, o + 3)
  }

  /** The little-endian two's complement number of two bytes from o on. */
  function ShortAt(blocks: seq<Block>, o: nat): int
    requires o + 2 <= 512 * |blocks|
  {
    var x := ByteAt(blocks, o) + 0x100 * ByteAt(blocks, o + 1);
    if x < 0x8000 then x else x - 0x1_0000
  }

  lemma InBlockAt(b: nat, r: nat)
    requires r < 512
    ensures (512 * b + r) / 512 == b && (512 * b + r) % 512 == r
  {}

  lemma WordIs(blocks: seq<Block>, b: nat, j: nat)
    requires b < |blocks| && j < 128
    ensures WordAt(blocks[b], j) == UintAt(blocks, 512 * b + 4 * j)
  {
    InBlockAt(b, 4 * j);
    InBlockAt(b, 4 * j + 1);
    InBlockAt(b, 4 * j + 2);
    InBlockAt(b, 4 * j + 3);
  }

  // ---------------------------------------------------------------- inodes

  /** The 64 bytes from o on are the struct dinode of ip. */
  predicate InodeBytes(blocks: seq<Block>, o: nat, ip: Inode)
    requires o + 64 <= 512 * |blocks|
  {
    && ip.typ == ShortAt(blocks, o) && ip.major == ShortAt(blocks, o + 2)
    && ip.minor == ShortAt(blocks, o + 4) && ip.nlink == ShortAt(blocks, o + 6)
    && ip.size == UintAt(blocks, o + 8)
    && |ip.addrs| == 13 && forall k | 0 <= k < 13 :: ip.addrs[k] == UintAt(blocks, o + 12 + 4 * k)
  }

  lemma ShortsIs(blocks: seq<Block>, b: nat, j: nat)
    requires b < |blocks| && j < 128
    ensures Low(WordAt(blocks[b], j)) == ShortAt(blocks, 512 * b + 4 * j)
    ensures High(WordAt(blocks[b], j)) == ShortAt(blocks, 512 * b + 4 * j + 2)
  {
    WordIs(blocks, b, j);
    var o := 512 * b + 4 * j;
    HalvesOf(ByteAt(blocks, o), ByteAt(blocks, o + 1), ByteAt(blocks, o + 2), ByteAt(blocks, o + 3));
  }

  lemma HalvesOf(b0: Byte, b1: Byte, b2: Byte, b3: Byte)
    ensures var w := b0 + 0x100 * b1 + 0x1_0000 * b2 + 0x100_0000 * b3;
      w % 0x1_0000 == b0 + 0x100 * b1 && w / 0x1_0000 == b2 + 0x100 * b3
  {}

  lemma RecordAt(start: nat, i: nat)
    ensures 512 * (i / 8 + start) + 64 * (i % 8) == 512 * start + 64 * i
  {}

  lemma RecordShorts(blocks: seq<Block>, b: nat, m: nat)
    requires b < |blocks| && m < 8
    ensures var ip, o := Load(blocks[b], m), 512 * b + 64 * m;
      && ip.typ == ShortAt(blocks, o) && ip.major == ShortAt(blocks, o + 2)
      && ip.minor == ShortAt(blocks, o + 4) && ip.nlink == ShortAt(blocks, o + 6)
  {
    ShortsIs(blocks, b, 16 * m);
    ShortsIs(blocks, b, 16 * m + 1);
  }

  lemma RecordAddr(blocks: seq<Block>, b: nat, m: nat, k: nat)
    requires b < |blocks| && m < 8 && k < 13
    ensures Load(blocks[b], m).addrs[k] == UintAt(blocks, 512 * b + 64 * m + 12 + 4 * k)
  {
    WordIs(blocks, b, 16 * m + k + 3);
    assert 4 * (16 * m + k + 3) == 64 * m + 12 + 4 * k;
  }

  lemma RecordWords(blocks: seq<Block>, b: nat, m: nat)
    requires b < |blocks| && m < 8
    ensures var ip, o := Load(blocks[b], m), 512 * b + 64 * m;
      && ip.size == UintAt(blocks, o + 8)
      && |ip.addrs| == 13 && forall k | 0 <= k < 13 :: ip.addrs[k] == UintAt(blocks, o + 12 + 4 * k)
  {
    WordIs(blocks, b, 16 * m + 2);
    forall k | 0 <= k < 13 ensures Load(blocks[b], m).addrs[k] == UintAt(blocks, 512 * b + 64 * m + 12 + 4 * k) {
      RecordAddr(blocks, b, m, k);
    }
  }

  lemma RecordIs(blocks: seq<Block>, b: nat, m: nat)
    requires b < |blocks| && m < 8
    ensures InodeBytes(blocks, 512 * b + 64 * m, Load(blocks[b], m))
  {
    RecordShorts(blocks, b, m);
    RecordWords(blocks, b, m);
  }

  /** The bytes determine the inode. */
  lemma SameInode(blocks: seq<Block>, o: nat, got: Inode, ip: Inode)
    requires o + 64 <= 512 * |blocks| && InodeBytes(blocks, o, got)
    ensures got == ip <==> InodeBytes(blocks, o, ip)
  {
    if InodeBytes(blocks, o, ip) { assert ip.addrs == got.addrs; }
  }

  /** Record m of block b. */
  lemma RecordBytes(blocks: seq<Block>, b: nat, m: nat, ip: Inode)
    requires b < |blocks| && m < 8
    ensures Load(blocks[b], m) == ip <==> InodeBytes(blocks, 512 * b + 64 * m, ip)
  {
    RecordIs(blocks, b, m);
    SameInode(blocks, 512 * b + 64 * m, Load(blocks[b], m), ip);
  }

  /** ilock gets ip for inode i exactly when the bytes from 512 * inodestart + 64 * i on are its dinode. */
  lemma InodeLayout(sb: Super, blocks: seq<Block>, i: nat, ip: Inode)
    requires IBlock(sb, i) < sb.bmapstart && IBlock(sb, i) < |blocks|
    ensures 512 * sb.inodestart + 64 * i + 64 <= 512 * |blocks|
    ensures DinodeIs(sb, blocks, i, ip) <==> InodeBytes(blocks, 512 * sb.inodestart + 64 * i, ip)
  {
    RecordAt(sb.inodestart, i);
    RecordBytes(blocks, IBlock(sb, i), i % 8, ip);
  }

  lemma {:induction false} OtherBytes(b: Block, at: nat, ws: seq<Word>, r: nat)
    requires at + |ws| <= 128 && r < 512 && !(4 * at <= r < 4 * (at + |ws|))
    ensures PutWords(b, at, ws)[r] == b[r]
    decreases |ws|
  {
    if ws != [] { OtherBytes(PutWord(b, at, ws[0]), at + 1, ws[1..], r); }
  }

  lemma WordsTouch(blocks: seq<Block>, b: nat, m: nat, ws: seq<Word>, o: nat)
    requires b < |blocks| && m < 8 && |ws| == 16 && o < 512 * |blocks|
    requires !(512 * b + 64 * m <= o < 512 * b + 64 * m + 64)
    ensures ByteAt(blocks[b := PutWords(blocks[b], 16 * m, ws)], o) == ByteAt(blocks, o)
  {
    if o / 512 == b {
      assert o == 512 * b + o % 512;
      OtherBytes(blocks[b], 16 * m, ws, o % 512);
    }
  }

  lemma RecordTouches(blocks: seq<Block>, b: nat, m: nat, ip: Inode, o: nat)
    requires b < |blocks| && m < 8 && Packable(ip) && o < 512 * |blocks|
    requires !(512 * b + 64 * m <= o < 512 * b + 64 * m + 64)
    ensures ByteAt(blocks[b := Store(blocks[b], m, ip)], o) == ByteAt(blocks, o)
  {
    WordsTouch(blocks, b, m, Packed(ip), o);
  }

  /** Every byte of the disk but those from lo to hi is the same. */
  predicate SameOutside(blocks: seq<Block>, blocks': seq<Block>, lo: nat, hi: nat) {
    |blocks'| == |blocks| && forall o | 0 <= o < 512 * |blocks| && !(lo <= o < hi) ::
      ByteAt(blocks', o) == ByteAt(blocks, o)
  }

  /** iupdate changes no byte of the disk outside those 64. */
  lemma StoreTouches(sb: Super, blocks: seq<Block>, i: nat, ip: Inode)
    requires IBlock(sb, i) < |blocks| && Packable(ip)
    ensures var o := 512 * sb.inodestart + 64 * i;
      SameOutside(blocks, blocks[IBlock(sb, i) := Store(blocks[IBlock(sb, i)], i % IPB, ip)], o, o + 64)
  {
    RecordAt(sb.inodestart, i);
    forall o | 0 <= o < 512 * |blocks| && !(512 * sb.inodestart + 64 * i <= o < 512 * sb.inodestart + 64 * i + 64)
      ensures ByteAt(blocks[IBlock(sb, i) := Store(blocks[IBlock(sb, i)], i % IPB, ip)], o) == ByteAt(blocks, o)
    {
      RecordTouches(blocks, IBlock(sb, i), i % 8, ip, o);
    }
  }

  /** Of the whole disk, only the 64 bytes of inode i have changed, and they are the dinode of ip. */
  predicate InodeWritten(sb: Super, blocks: seq<Block>, blocks': seq<Block>, i: nat, ip: Inode) {
    var o := 512 * sb.inodestart + 64 * i;
    SameOutside(blocks, blocks', o, o + 64) && o + 64 <= 512 * |blocks'| && InodeBytes(blocks', o, ip)
  }

  lemma StoreWrites(sb: Super, blocks: seq<Block>, i: nat, ip: Inode)
    requires IBlock(sb, i) < sb.bmapstart && IBlock(sb, i) < |blocks| && Packable(ip)
    ensures InodeWritten(sb, blocks, blocks[IBlock(sb, i) := Store(blocks[IBlock(sb, i)], i % IPB, ip)], i, ip)
  {
    var blocks' := blocks[IBlock(sb, i) := Store(blocks[IBlock(sb, i)], i % IPB, ip)];
    StoreTouches(sb, blocks, i, ip);
    LoadAfterStore(blocks[IBlock(sb, i)], i % IPB, ip, i % IPB);
    InodeLayout(sb, blocks', i, ip);
  }

  // ---------------------------------------------------------------- the bitmap

  lemma {:induction false} BitValue(x: nat, k: nat)
    ensures Pow2(k) > 0 && (BitOf(x, k) <==> x / Pow2(k) % 2 == 1)
  {
    if k > 0 {
      BitValue(x / 2, k - 1);
      HalfThenMore(x, Pow2(k - 1));
    }
  }

  lemma HalfThenMore(x: nat, p: nat)
    requires p > 0
    ensures x / 2 / p == x / (2 * p)
  {
    var q := x / 2 / p;
    assert x / 2 == p * q + x / 2 % p;
    assert x == 2 * (x / 2) + x % 2;
    var r := 2 * (x / 2 % p) + x % 2;
    assert 2 * p * q == 2 * (p * q);
    assert x == (2 * p) * q + r && 0 <= r < 2 * p;
    Quotient(x, 2 * p, q, r);
  }

  lemma {:induction false} Apart(d: nat, a: nat, b: nat)
    ensures a < b ==> d * a + d <= d * b
  {
    if a < b {
      Apart(d, a, b - 1);
      assert d * b == d * (b - 1) + d;
    }
  }

  lemma Quotient(x: nat, d: nat, q: nat, r: nat)
    requires d > 0 && x == d * q + r && r < d
    ensures x / d == q
  {
    var e := x / d;
    assert x == d * e + x % d;
    Apart(d, e, q);
    Apart(d, q, e);
  }

  lemma BlockBit(blocks: seq<Block>, c: nat, r: nat, k: nat)
    requires c < |blocks| && r < 512
    ensures Pow2(k) > 0 && (BitOf(blocks[c][r], k) <==> ByteAt(blocks, 512 * c + r) / Pow2(k) % 2 == 1)
  {
    InBlockAt(c, r);
    BitValue(blocks[c][r], k);
  }

  /** Block b is in use exactly when bit b % 8 of byte 512 * bmapstart + b / 8 is set. */
  lemma BitLayout(sb: Super, blocks: seq<Block>, b: nat)
    requires Layout(sb, blocks) && b < sb.size
    ensures 512 * sb.bmapstart + b / 8 < 512 * |blocks| && Pow2(b % 8) > 0
    ensures Used(sb, blocks, b) <==> ByteAt(blocks, 512 * sb.bmapstart + b / 8) / Pow2(b % 8) % 2 == 1
  {
    BitmapBlockIsMeta(sb, blocks, b);
    BitOffset(b, sb.bmapstart);
    BlockBit(blocks, BBlock(sb, b), b % BPB / 8, b % 8);
  }

  lemma BitOffset(b: nat, start: nat)
    ensures b % 4096 / 8 < 512 && b % 4096 % 8 == b % 8
    ensures 512 * (b / 4096 + start) + b % 4096 / 8 == 512 * start + b / 8
  {
    var q, r := b / 4096, b % 4096;
    assert b == 4096 * q + r;
    assert b == 8 * (512 * q + r / 8) + r % 8;
  }

  // ---------------------------------------------------------------- files

  /** Byte r of block b of a file; a block that was never mapped reads as zeroes. */
  function Mapped(blocks: seq<Block>, b: nat, r: nat): Byte
    requires r < 512 && b < |blocks|
  {
    if b == 0 then 0 else ByteAt(blocks, 512 * b + r)
  }

  /** Byte o of a file lies in the block its direct address names, or behind the first twelve blocks in the block named
      by its number in the indirect block. */
  lemma FileLayout(blocks: seq<Block>, tab: Table, i: nat, o: nat)
    requires TableShape(tab) && i < |tab| && o < MAXBYTES
    requires forall k | 0 <= k < NSLOTS :: Owns(blocks, tab, i, k) < |blocks|
    ensures o < 12 * 512 ==>
      tab[i][o / 512] < |blocks| && Space(blocks, tab, i)[o] == Mapped(blocks, tab[i][o / 512], o % 512)
    ensures o >= 12 * 512 && tab[i][12] == 0 ==> Space(blocks, tab, i)[o] == 0
    ensures o >= 12 * 512 && tab[i][12] != 0 ==>
      tab[i][12] < |blocks| && 0 <= UintAt(blocks, 512 * tab[i][12] + 4 * (o / 512 - 12)) < |blocks|
      && Space(blocks, tab, i)[o] == Mapped(blocks, UintAt(blocks, 512 * tab[i][12] + 4 * (o / 512 - 12)), o % 512)
  {
    var bn := o / 512;
    var b := Owns(blocks, tab, i, SlotOf(bn));
    InBlockAt(b, o % 512);
    assert Owns(blocks, tab, i, INDIRECT) == tab[i][12];
    if bn >= 12 { WordIs(blocks, tab[i][12], bn - 12); }
  }

  // ---------------------------------------------------------------- the header of the log

  /** The header block at start: a count, and after it that many block numbers. */
  lemma HeadLayout(blocks: seq<Block>, start: nat, i: nat)
    requires start < |blocks| && RedoLog.HeaderOk(blocks[start])
    ensures |RedoLog.HeadOf(blocks[start])| == UintAt(blocks, 512 * start)
    ensures i < |RedoLog.HeadOf(blocks[start])| ==>
      512 * start + 4 * i + 8 <= 512 * |blocks|
      && RedoLog.HeadOf(blocks[start])[i] == UintAt(blocks, 512 * start + 4 + 4 * i)
  {
    WordIs(blocks, start, 0);
    if i < |RedoLog.HeadOf(blocks[start])| { WordIs(blocks, start, i + 1); }
  }

  /** After a crash, the block that entry k of the header names gets the contents of the k-th block behind the header,
      and every other block of the file system keeps its own. */
  lemma LogLayout(lay: RedoLog.Layout, d: RedoLog.Disk, b: nat, r: nat)
    requires RedoLog.HeaderFits(lay, d) && RedoLog.Home(lay, d, b) && r < 512
    requires RedoLog.Distinct(RedoLog.HeadOf(d[lay.start]))
    ensures b in RedoLog.AfterCrash(lay, d)
    ensures forall k: nat | k < |RedoLog.HeadOf(d[lay.start])| && RedoLog.HeadOf(d[lay.start])[k] == b ::
      512 * (lay.start + 1 + k) + r < 512 * |d|
      && RedoLog.AfterCrash(lay, d)[b][r] == ByteAt(d, 512 * (lay.start + 1 + k) + r)
    ensures b !in RedoLog.HeadOf(d[lay.start]) ==> RedoLog.AfterCrash(lay, d)[b][r] == ByteAt(d, 512 * b + r)
  {
    var lh := RedoLog.HeadOf(d[lay.start]);
    InBlockAt(b, r);
    forall k: nat | k < |lh| && lh[k] == b
      ensures RedoLog.RecoveredAt(lay, d, b) == d[lay.start + 1 + k]
           && ByteAt(d, 512 * (lay.start + 1 + k) + r) == d[lay.start + 1 + k][r]
    {
      assert RedoLog.Names(lh, k, b);
      InBlockAt(lay.start + 1 + k, r);
    }
  }
}

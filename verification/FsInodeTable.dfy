/** The inode blocks of the disk: where each inode lies, and that writing one disturbs nothing else. */
module FsInodeTable {
  import opened Bytes
  import opened FsBitmap
  import opened FsOwnership
  import opened FsContent
  import opened FsInode

  /** IBLOCK: the block that holds inode i. */
  function IBlock(sb: Super, i: nat): nat { i / IPB + sb.inodestart }

  /** ilock, reading inode i, gets ip. */
  predicate DinodeIs(sb: Super, blocks: seq<Block>, i: nat, ip: Inode) {
    && IBlock(sb, i) < sb.bmapstart && IBlock(sb, i) < |blocks|
    && Load(blocks[IBlock(sb, i)], i % IPB) == ip
  }

  predicate OnDisk(sb: Super, blocks: seq<Block>, dinodes: seq<Inode>) {
    forall i | 0 <= i < |dinodes| :: DinodeIs(sb, blocks, i, dinodes[i])
  }

  /** The inodes on disk. */
  function Dinodes(sb: Super, blocks: seq<Block>, n: nat): (r: seq<Inode>)
    requires forall i | 0 <= i < n :: IBlock(sb, i) < |blocks|
    ensures |r| == n
  {
    seq(n, i requires 0 <= i < n => Load(blocks[IBlock(sb, i)], i % IPB))
  }

  /** Blocks below the bitmap, the inode blocks among them, are the same. */
  predicate SameHead(sb: Super, blocks: seq<Block>, blocks': seq<Block>) {
    |blocks'| == |blocks| && forall x | 0 <= x < sb.bmapstart && x < |blocks| :: blocks'[x] == blocks[x]
  }

  lemma OnDiskKept(sb: Super, blocks: seq<Block>, blocks': seq<Block>, dinodes: seq<Inode>)
    requires OnDisk(sb, blocks, dinodes) && SameHead(sb, blocks, blocks')
    ensures OnDisk(sb, blocks', dinodes)
  {
    forall i | 0 <= i < |dinodes| ensures DinodeIs(sb, blocks', i, dinodes[i]) {
      assert DinodeIs(sb, blocks, i, dinodes[i]);
    }
  }

  lemma AllocHead(sb: Super, blocks: seq<Block>, b: nat)
    requires Layout(sb, blocks) && sb.data <= b < sb.size
    ensures SameHead(sb, blocks, Alloc(sb, blocks, b))
  {
    BitmapBlockIsMeta(sb, blocks, b);
  }

  lemma DataHead(sb: Super, blocks: seq<Block>, b: nat, x: Block)
    requires Layout(sb, blocks) && sb.data <= b < sb.size
    ensures SameHead(sb, blocks, blocks[b := x])
  {
    BitmapBlockIsMeta(sb, blocks, b);
  }

  lemma SamePlaceInTable(i: nat, j: nat)
    requires i / IPB == j / IPB && i % IPB == j % IPB
    ensures i == j
  {
    assert i == 8 * (i / 8) + i % 8 && j == 8 * (j / 8) + j % 8;
  }

  /** iupdate: inode i on disk becomes ip and every other inode stays, those in the same block included. */
  lemma StoreOnDisk(sb: Super, blocks: seq<Block>, dinodes: seq<Inode>, i: nat, ip: Inode)
    requires OnDisk(sb, blocks, dinodes) && i < |dinodes| && Packable(ip)
    ensures IBlock(sb, i) < sb.bmapstart && IBlock(sb, i) < |blocks|
    ensures OnDisk(sb, blocks[IBlock(sb, i) := Store(blocks[IBlock(sb, i)], i % IPB, ip)], dinodes[i := ip])
  {
    assert DinodeIs(sb, blocks, i, dinodes[i]);
    var x := IBlock(sb, i);
    var blocks' := blocks[x := Store(blocks[x], i % IPB, ip)];
    var dinodes' := dinodes[i := ip];
    forall j | 0 <= j < |dinodes'| ensures DinodeIs(sb, blocks', j, dinodes'[j]) {
      assert DinodeIs(sb, blocks, j, dinodes[j]);
      if IBlock(sb, j) == x {
        LoadAfterStore(blocks[x], i % IPB, ip, j % IPB);
        if j % IPB == i % IPB { SamePlaceInTable(i, j); }
      }
    }
  }

  /** What an inode of a sound file system fits into. */
  lemma InodePackable(sb: Super, blocks: seq<Block>, inodes: seq<Inode>, i: nat)
    requires i < |inodes| && Sound(sb, blocks, TabOf(inodes)) && inodes[i].size <= MAXBYTES && Shorts(inodes[i])
    ensures Packable(inodes[i])
  {
    assert TabOf(inodes)[i] == inodes[i].addrs;
    forall k | 0 <= k < |inodes[i].addrs| ensures inodes[i].addrs[k] < 0x1_0000_0000 {
      assert Owns(blocks, TabOf(inodes), i, k) == inodes[i].addrs[k];
    }
  }

  /** A write below the bitmap changes no bit, no block map and no file. */
  lemma HeadWriteKeeps(sb: Super, blocks: seq<Block>, tab: Table, x: nat, y: Block)
    requires Sound(sb, blocks, tab) && x < sb.bmapstart && x < |blocks|
    ensures Sound(sb, blocks[x := y], tab) && Files(blocks[x := y], tab) == Files(blocks, tab)
    ensures forall j, l | 0 <= j < |tab| && 0 <= l < NSLOTS ::
      Owns(blocks[x := y], tab, j, l) == Owns(blocks, tab, j, l)
    ensures forall c | 0 <= c < sb.size :: Used(sb, blocks[x := y], c) == Used(sb, blocks, c)
  {
    var blocks' := blocks[x := y];
    BitmapBlockIsMeta(sb, blocks, 0);
    forall j, l | 0 <= j < |tab| && 0 <= l < NSLOTS ensures Owns(blocks', tab, j, l) == Owns(blocks, tab, j, l) {
      assert Owns(blocks, tab, j, INDIRECT) == tab[j][INDIRECT];
    }
    forall c | 0 <= c < sb.size ensures Used(sb, blocks', c) == Used(sb, blocks, c) {
      BitmapBlockIsMeta(sb, blocks, c);
    }
    FewerInjective(blocks, tab, blocks', tab);
    forall j, bn | 0 <= j < |tab| && 0 <= bn < MAXFILE
      ensures FileBlock(blocks', tab, j, bn) == FileBlock(blocks, tab, j, bn)
    {
      assert Owns(blocks', tab, j, SlotOf(bn)) == Owns(blocks, tab, j, SlotOf(bn));
    }
    FilesSame(blocks, tab, blocks', tab);
  }
}

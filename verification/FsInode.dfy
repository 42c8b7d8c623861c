/** How an inode lies in its block: eight 64-byte records of sixteen words. */
module FsInode {
  import opened Bytes
  import opened FsOwnership
  import opened FsContent

  /** Inodes per block. */
  const IPB: nat := 8
  const WORDS: nat := 16

  predicate Short(x: int) { -0x8000 <= x < 0x8000 }

  predicate Shorts(ip: Inode) { Short(ip.typ) && Short(ip.major) && Short(ip.minor) && Short(ip.nlink) }

  /** The fields fit their C types: four shorts, then the size and the addresses as uints. */
  predicate Packable(ip: Inode) {
    && Shorts(ip) && ip.size < 0x1_0000_0000
    && |ip.addrs| == NDIRECT + 1 && forall k | 0 <= k < |ip.addrs| :: ip.addrs[k] < 0x1_0000_0000
  }

  /** Two shorts in one little-endian word. */
  function Pair(lo: int, hi: int): Word { lo % 0x1_0000 + 0x1_0000 * (hi % 0x1_0000) }

  function SignOf(x: nat): int { if x < 0x8000 then x else x - 0x1_0000 }

  function Low(w: Word): int { SignOf(w % 0x1_0000) }

  function High(w: Word): int { SignOf(w / 0x1_0000) }

  lemma PairSplits(lo: int, hi: int)
    requires Short(lo) && Short(hi)
    ensures Low(Pair(lo, hi)) == lo && High(Pair(lo, hi)) == hi
  {
    var w := Pair(lo, hi);
    assert w % 0x1_0000 == lo % 0x1_0000 && w / 0x1_0000 == hi % 0x1_0000;
  }

  function Packed(ip: Inode): (ws: seq<Word>)
    requires Packable(ip)
    ensures |ws| == WORDS
  {
    var addrs: seq<Word> := seq(NDIRECT + 1, k requires 0 <= k < NDIRECT + 1 => ip.addrs[k]);
    [Pair(ip.typ, ip.major), Pair(ip.minor, ip.nlink), ip.size] + addrs
  }

  function Unpacked(ws: seq<Word>): Inode
    requires |ws| == WORDS
  {
    Inode(Low(ws[0]), High(ws[0]), Low(ws[1]), High(ws[1]), ws[2],
        seq(NDIRECT + 1, k requires 0 <= k < NDIRECT + 1 => ws[k + 3]))
  }

  lemma UnpackPacked(ip: Inode)
    requires Packable(ip)
    ensures Unpacked(Packed(ip)) == ip
  {
    PairSplits(ip.typ, ip.major);
    PairSplits(ip.minor, ip.nlink);
    assert Unpacked(Packed(ip)).addrs == ip.addrs;
  }

  /** The words of slot i. */
  function WordsAt(b: Block, i: nat): (ws: seq<Word>)
    requires i < IPB
    ensures |ws| == WORDS
  {
    seq(WORDS, k requires 0 <= k < WORDS => WordAt(b, Place(i, k)))
  }

  /** Word k of slot i. */
  function Place(i: nat, k: nat): (j: nat)
    requires i < IPB && k < WORDS
    ensures j < BSIZE / 4
  {
    16 * i + k
  }

  /** The record of slot i, as ilock reads it. */
  function Load(b: Block, i: nat): Inode
    requires i < IPB
  {
    Unpacked(WordsAt(b, i))
  }

  function PutWords(b: Block, at: nat, ws: seq<Word>): Block
    requires at + |ws| <= BSIZE / 4
    decreases |ws|
  {
    if ws == [] then b else PutWords(PutWord(b, at, ws[0]), at + 1, ws[1..])
  }

  lemma {:induction false} WordAfterWords(b: Block, at: nat, ws: seq<Word>, j: nat)
    requires at + |ws| <= BSIZE / 4 && j < BSIZE / 4
    ensures WordAt(PutWords(b, at, ws), j) == if at <= j < at + |ws| then ws[j - at] else WordAt(b, j)
    decreases |ws|
  {
    if ws != [] {
      WordAfterPut(b, at, ws[0], j);
      WordAfterWords(PutWord(b, at, ws[0]), at + 1, ws[1..], j);
    }
  }

  /** The block after iupdate writes the record of slot i. */
  function Store(b: Block, i: nat, ip: Inode): Block
    requires i < IPB && Packable(ip)
  {
    PutWords(b, Place(i, 0), Packed(ip))
  }

  lemma StoredWord(b: Block, i: nat, ws: seq<Word>, j: nat, k: nat)
    requires i < IPB && j < IPB && k < WORDS && |ws| == WORDS
    ensures WordAt(PutWords(b, Place(i, 0), ws), Place(j, k)) == if j == i then ws[k] else WordAt(b, Place(j, k))
  {
    WordAfterWords(b, Place(i, 0), ws, Place(j, k));
  }

  lemma StoredWords(b: Block, i: nat, ws: seq<Word>, j: nat)
    requires i < IPB && j < IPB && |ws| == WORDS
    ensures WordsAt(PutWords(b, Place(i, 0), ws), j) == if j == i then ws else WordsAt(b, j)
  {
    var l, r := WordsAt(PutWords(b, Place(i, 0), ws), j), if j == i then ws else WordsAt(b, j);
    forall k | 0 <= k < WORDS ensures l[k] == r[k] { StoredWord(b, i, ws, j, k); }
  }

  /** An inode written to its block reads back, and the other inodes of the block are untouched. */
  lemma LoadAfterStore(b: Block, i: nat, ip: Inode, j: nat)
    requires i < IPB && j < IPB && Packable(ip)
    ensures Load(Store(b, i, ip), j) == if j == i then ip else Load(b, j)
  {
    StoredWords(b, i, Packed(ip), j);
    UnpackPacked(ip);
  }
}

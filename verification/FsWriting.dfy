/** What truncation and writing change, in blocks, mappings and log blocks. */
module FsWriting {
  import opened Common
  import opened Bytes
  import opened FsBitmap
  import opened FsOwnership
  import opened FsContent
  import opened FsInodeTable

  /** Every block is marked in use. */
  predicate Full(sb: Super, blocks: seq<Block>)
    requires Layout(sb, blocks)
  {
    forall c | 0 <= c < sb.size :: Used(sb, blocks, c)
  }

  /** Every block that changed was given to log_write. */
  predicate Logs(blocks: seq<Block>, blocks': seq<Block>, logged: set<nat>) {
    |blocks| == |blocks'| && forall x: nat | x < |blocks| && blocks'[x] != blocks[x] :: x in logged
  }

  /** Nothing but the addresses of inode i changed. */
  predicate OnlyAddrs(inodes: seq<Inode>, inodes': seq<Inode>, i: nat) {
    |inodes| == |inodes'| && i < |inodes| && inodes' == inodes[i := inodes[i].(addrs := inodes'[i].addrs)]
  }

  /** How many of the blocks bmap needs for file block bn are not there yet. */
  function Missing(blocks: seq<Block>, tab: Table, i: nat, bn: nat): nat
    requires i < |tab| && TableShape(tab) && bn < MAXFILE
  {
    (if Owns(blocks, tab, i, SlotOf(bn)) == 0 then 1 else 0) + (if bn >= NDIRECT && tab[i][INDIRECT] == 0 then 1 else 0)
  }

  function IndirectOf(tab: Table, i: nat): set<nat>
    requires i < |tab| && TableShape(tab)
  {
    if tab[i][INDIRECT] == 0 then {} else {tab[i][INDIRECT]}
  }

  /** Bit bi of the bitmap block at b is the bit of block b + bi. */
  lemma BitPlace(sb: Super, blocks: seq<Block>, b: nat, bi: nat)
    requires Layout(sb, blocks) && b % BPB == 0 && bi < BPB && b + bi < sb.size
    ensures BBlock(sb, b + bi) == BBlock(sb, b) < sb.data && (b + bi) % BPB == bi
  {
    BitmapBlockIsMeta(sb, blocks, b);
    assert (b + bi) / BPB == b / BPB;
  }

  /** Data blocks keep their contents. */
  predicate SameData(sb: Super, blocks: seq<Block>, blocks': seq<Block>) {
    |blocks| == |blocks'| && forall x: nat | sb.data <= x < |blocks| :: blocks'[x] == blocks[x]
  }

  predicate SameOwners(blocks: seq<Block>, blocks': seq<Block>, tab: Table)
    requires TableShape(tab)
  {
    forall j, l | 0 <= j < |tab| && 0 <= l < NSLOTS :: Owns(blocks', tab, j, l) == Owns(blocks, tab, j, l)
  }

  /** Exactly the blocks in freed lost their mark. */
  predicate UsedLess(sb: Super, blocks: seq<Block>, blocks': seq<Block>, freed: set<nat>)
    requires Layout(sb, blocks) && Layout(sb, blocks')
  {
    forall c: nat | c < sb.size :: Used(sb, blocks', c) == (Used(sb, blocks, c) && c !in freed)
  }

  /** Clearing one bit. */
  lemma MarkedLess(sb: Super, blocks: seq<Block>, b: nat)
    requires Layout(sb, blocks) && sb.data <= b < sb.size
    ensures UsedLess(sb, blocks, Mark(sb, blocks, b, false), {b})
    ensures SameData(sb, blocks, Mark(sb, blocks, b, false)) && SameHead(sb, blocks, Mark(sb, blocks, b, false))
  {
    forall c: nat | c < sb.size ensures Used(sb, Mark(sb, blocks, b, false), c) == (Used(sb, blocks, c) && c !in {b}) {
      UsedAfterMark(sb, blocks, b, false, c);
    }
    BitmapBlockIsMeta(sb, blocks, b);
  }

  /** The blocks in slots lo..hi of an inode with these addresses. */
  function SlotSet(blocks: seq<Block>, addrs: seq<nat>, lo: nat, hi: nat): set<nat>
    requires |addrs| == NDIRECT + 1 && lo <= hi <= NSLOTS
  {
    set l | lo <= l < hi && SlotBlock(blocks, addrs, l) != 0 :: SlotBlock(blocks, addrs, l)
  }

  lemma SlotSetSnoc(blocks: seq<Block>, addrs: seq<nat>, lo: nat, k: nat)
    requires |addrs| == NDIRECT + 1 && lo <= k < NSLOTS
    ensures SlotSet(blocks, addrs, lo, k + 1) ==
      SlotSet(blocks, addrs, lo, k) + if SlotBlock(blocks, addrs, k) == 0 then {} else {SlotBlock(blocks, addrs, k)}
  {}

  function NoAddrs(): seq<nat> { seq(NDIRECT + 1, _ => 0) }

  lemma SlotSetHead(blocks: seq<Block>, addrs: seq<nat>)
    requires |addrs| == NDIRECT + 1 && addrs[INDIRECT] != 0
    ensures SlotSet(blocks, addrs, INDIRECT, NSLOTS) == SlotSet(blocks, addrs, NDIRECT + 1, NSLOTS) + {addrs[INDIRECT]}
  {
    assert SlotBlock(blocks, addrs, INDIRECT) == addrs[INDIRECT];
  }

  lemma SlotSetSplit(blocks: seq<Block>, addrs: seq<nat>, k: nat)
    requires |addrs| == NDIRECT + 1 && k <= NSLOTS
    ensures SlotSet(blocks, addrs, 0, NSLOTS) == SlotSet(blocks, addrs, 0, k) + SlotSet(blocks, addrs, k, NSLOTS)
  {
    var a, b := SlotSet(blocks, addrs, 0, NSLOTS), SlotSet(blocks, addrs, 0, k) + SlotSet(blocks, addrs, k, NSLOTS);
    forall x | x in a ensures x in b {
      var l :| 0 <= l < NSLOTS && SlotBlock(blocks, addrs, l) == x && x != 0;
      if l < k { assert x in SlotSet(blocks, addrs, 0, k); } else { assert x in SlotSet(blocks, addrs, k, NSLOTS); }
    }
  }

  /** No indirect block: nothing in the slots from there on. */
  lemma EmptyTail(blocks: seq<Block>, addrs: seq<nat>)
    requires |addrs| == NDIRECT + 1 && addrs[INDIRECT] == 0
    ensures SlotSet(blocks, addrs, INDIRECT, NSLOTS) == {}
  {}

  /** Blocks listed in the indirect block are owned by nobody once the inode has let go of it. */
  lemma EntriesUnowned(sb: Super, blocks: seq<Block>, tab: Table, i: nat)
    requires Sound(sb, blocks, tab) && i < |tab| && tab[i][INDIRECT] != 0
    ensures forall e | NDIRECT < e < NSLOTS && Owns(blocks, tab, i, e) != 0 ::
      Unowned(blocks, Assign(tab, i, INDIRECT, 0), Owns(blocks, tab, i, e))
  {
    var bare := Assign(tab, i, INDIRECT, 0);
    UnassignKeeps(sb, blocks, tab, i, INDIRECT);
    forall e, j, l | NDIRECT < e < NSLOTS && Owns(blocks, tab, i, e) != 0 && 0 <= j < |tab| && 0 <= l < NSLOTS
      ensures Owns(blocks, bare, j, l) != Owns(blocks, tab, i, e)
    {
      if j != i || l != e { OwnersDiffer(blocks, tab, i, e, j, l); }
    }
  }

  /** Inode i has let go of its indirect block, and the blocks of its first e entries are freed. */
  ghost predicate Midway(sb: Super, was: seq<Block>, blocks: seq<Block>, tab: Table, i: nat, e: nat)
    requires Layout(sb, was) && TableShape(tab) && i < |tab| && e <= NINDIRECT
  {
    && Sound(sb, blocks, Assign(tab, i, INDIRECT, 0))
    && SameOwners(was, blocks, Assign(tab, i, INDIRECT, 0))
    && SameData(sb, was, blocks) && SameHead(sb, was, blocks)
    && UsedLess(sb, was, blocks, SlotSet(was, tab[i], NDIRECT + 1, NDIRECT + 1 + e))
  }

  /** An entry the loop has not come to is still marked in use. */
  lemma EntryStillUsed(sb: Super, blocks: seq<Block>, blocks': seq<Block>, tab: Table, i: nat, e: nat)
    requires Sound(sb, blocks, tab) && i < |tab| && e < NINDIRECT && Layout(sb, blocks')
    requires UsedLess(sb, blocks, blocks', SlotSet(blocks, tab[i], NDIRECT + 1, NDIRECT + 1 + e))
    requires Owns(blocks, tab, i, NDIRECT + 1 + e) != 0
    ensures sb.data <= Owns(blocks, tab, i, NDIRECT + 1 + e) < sb.size
    ensures Used(sb, blocks', Owns(blocks, tab, i, NDIRECT + 1 + e))
  {
    var a := Owns(blocks, tab, i, NDIRECT + 1 + e);
    NotAmong(sb, blocks, tab, i, NDIRECT + 1, NDIRECT + 1 + e, NDIRECT + 1 + e);
  }

  lemma IndirectStillUsed(sb: Super, blocks: seq<Block>, blocks': seq<Block>, tab: Table, i: nat)
    requires Sound(sb, blocks, tab) && i < |tab| && Layout(sb, blocks') && tab[i][INDIRECT] != 0
    requires UsedLess(sb, blocks, blocks', SlotSet(blocks, tab[i], NDIRECT + 1, NSLOTS))
    ensures sb.data <= tab[i][INDIRECT] < sb.size && Used(sb, blocks', tab[i][INDIRECT])
  {
    assert Owns(blocks, tab, i, INDIRECT) == tab[i][INDIRECT];
    NotAmong(sb, blocks, tab, i, NDIRECT + 1, NSLOTS, INDIRECT);
  }

  lemma NotAmong(sb: Super, blocks: seq<Block>, tab: Table, i: nat, lo: nat, hi: nat, k: nat)
    requires Sound(sb, blocks, tab) && i < |tab| && lo <= hi <= NSLOTS && k < NSLOTS && !(lo <= k < hi)
    requires Owns(blocks, tab, i, k) != 0
    ensures Owns(blocks, tab, i, k) !in SlotSet(blocks, tab[i], lo, hi)
  {
    forall l | lo <= l < hi && SlotBlock(blocks, tab[i], l) != 0
      ensures SlotBlock(blocks, tab[i], l) != Owns(blocks, tab, i, k)
    {
      OwnersDiffer(blocks, tab, i, k, i, l);
    }
  }

  /** Freeing direct blocks leaves the indirect part as it was. */
  lemma TailSlotsSame(sb: Super, blocks: seq<Block>, tab: Table, blocks': seq<Block>, tab': Table, i: nat)
    requires Sound(sb, blocks, tab) && |tab| == |tab'| && TableShape(tab') && i < |tab| && SameData(sb, blocks, blocks')
    requires tab'[i][INDIRECT] == tab[i][INDIRECT]
    ensures SlotSet(blocks', tab'[i], INDIRECT, NSLOTS) == SlotSet(blocks, tab[i], INDIRECT, NSLOTS)
  {
    assert Owns(blocks, tab, i, INDIRECT) == tab[i][INDIRECT];
    assert forall l | INDIRECT <= l < NSLOTS :: SlotBlock(blocks', tab'[i], l) == SlotBlock(blocks, tab[i], l);
  }

  lemma ClearedIsEmpty(sb: Super, blocks: seq<Block>, inodes: seq<Inode>, i: nat)
    requires i < |inodes| && Sound(sb, blocks, TabOf(inodes))
    ensures Sound(sb, blocks, TabOf(inodes[i := inodes[i].(size := 0)]))
  {
    assert TabOf(inodes[i := inodes[i].(size := 0)]) == TabOf(inodes);
  }

  /** Files whose inode and data blocks are untouched have the same contents. */
  lemma OthersSame(sb: Super, blocks: seq<Block>, inodes: seq<Inode>, blocks': seq<Block>, inodes': seq<Inode>, i: nat)
    requires Sound(sb, blocks, TabOf(inodes)) && |inodes| == |inodes'| && TableShape(TabOf(inodes'))
    requires SameData(sb, blocks, blocks')
    requires forall j | 0 <= j < |inodes| && j != i :: inodes'[j] == inodes[j]
    ensures forall j, bn | 0 <= j < |inodes| && 0 <= bn < MAXFILE && j != i ::
      FileBlock(blocks', TabOf(inodes'), j, bn) == FileBlock(blocks, TabOf(inodes), j, bn)
  {
    var tab, tab' := TabOf(inodes), TabOf(inodes');
    forall j, bn | 0 <= j < |inodes| && 0 <= bn < MAXFILE && j != i
      ensures FileBlock(blocks', tab', j, bn) == FileBlock(blocks, tab, j, bn)
    {
      assert tab'[j] == tab[j];
      assert Owns(blocks, tab, j, INDIRECT) == tab[j][INDIRECT];
      assert Owns(blocks', tab', j, SlotOf(bn)) == Owns(blocks, tab, j, SlotOf(bn));
    }
  }

  /** File i with d written at off, every other file as it was. */
  function Written(files: seq<seq<Byte>>, i: nat, off: nat, d: seq<Byte>): (r: seq<seq<Byte>>)
    requires i < |files| && off + |d| <= |files[i]|
    ensures |r| == |files| && |r[i]| == |files[i]|
  {
    files[i := Splice(files[i], off, d)]
  }

  lemma WrittenNone(files: seq<seq<Byte>>, i: nat, off: nat)
    requires i < |files| && off <= |files[i]|
    ensures Written(files, i, off, []) == files
  {
    assert Splice(files[i], off, []) == files[i];
  }

  lemma WrittenMore(f0: seq<seq<Byte>>, f1: seq<seq<Byte>>, f2: seq<seq<Byte>>, i: nat, off: nat, src: seq<Byte>,
      tot: nat, next: nat)
    requires i < |f0| && tot <= next <= |src| && off + |src| <= |f0[i]|
    requires f1 == Written(f0, i, off, src[..tot]) && f2 == Written(f1, i, off + tot, src[tot..next])
    ensures f2 == Written(f0, i, off, src[..next])
  {
    SpliceMore(f0[i], off, src[..tot], src[tot..next]);
    Append(src, 0, tot, next, src[..tot], src[tot..next]);
  }

  lemma SpentMore(l0: set<nat>, l1: set<nat>, l2: set<nat>, spent: set<nat>, ind: set<nat>, more: set<nat>,
      ind': set<nat>)
    requires l1 <= l0 + (spent + ind) && l2 <= l1 + (more + ind') && ind <= ind'
    ensures l2 <= l0 + (spent + more + ind') && |spent + more| <= |spent| + |more|
  {}

  /** Every file block that meets off..end is mapped. */
  predicate MappedIn(blocks: seq<Block>, tab: Table, i: nat, off: nat, end: nat)
    requires i < |tab| && TableShape(tab) && end <= MAXBYTES
  {
    forall bn | 0 <= bn < MAXFILE && off / BSIZE <= bn && bn * BSIZE < end && off < end ::
      Owns(blocks, tab, i, SlotOf(bn)) != 0
  }

  lemma StillMapped(b0: seq<Block>, t0: Table, b1: seq<Block>, t1: Table, i: nat, off: nat, end: nat, o: nat)
    requires |t0| == |t1| && TableShape(t0) && TableShape(t1) && i < |t0| && off <= o < end <= MAXBYTES
    requires MappedIn(b0, t0, i, off, end) && Extends(b0, t0, b1, t1, i)
    ensures Owns(b1, t1, i, SlotOf(o / BSIZE)) != 0
  {
    assert o / BSIZE * BSIZE < end && off / BSIZE <= o / BSIZE;
    assert Owns(b0, t0, i, SlotOf(o / BSIZE)) != 0;
  }

  lemma MappedStep(b1: seq<Block>, t1: Table, b2: seq<Block>, t2: Table, i: nat, off: nat, o: nat, m: nat)
    requires |t1| == |t2| && TableShape(t1) && TableShape(t2) && i < |t1| && off <= o && 0 < m && o + m <= MAXBYTES
    requires InBlock(o, m) && MappedIn(b1, t1, i, off, o) && Extends(b1, t1, b2, t2, i)
    requires Owns(b2, t2, i, SlotOf(o / BSIZE)) != 0
    ensures MappedIn(b2, t2, i, off, o + m)
  {
    forall bn | 0 <= bn < MAXFILE && off / BSIZE <= bn && bn * BSIZE < o + m ensures Owns(b2, t2, i, SlotOf(bn)) != 0 {
      if bn * BSIZE < o && off < o {
        assert Owns(b1, t1, i, SlotOf(bn)) != 0;
      } else {
        assert bn == o / BSIZE;
      }
    }
  }

  /** tot bytes of n end where a block or the whole does. */
  predicate Boundary(off: nat, tot: nat, n: nat) { tot == 0 || tot == n || (off + tot) % BSIZE == 0 }

  /** How many blocks the bytes off..off + n lie in. */
  function Spanned(off: nat, n: nat): nat
  {
    if n == 0 then 0 else (off + n - 1) / BSIZE - off / BSIZE + 1
  }

  /** 1 when the first block written is mapped already. */
  function HeadMapped(blocks: seq<Block>, tab: Table, i: nat, off: nat, n: nat): nat
    requires i < |tab| && TableShape(tab) && off + n <= MAXBYTES
  {
    if n > 0 && Owns(blocks, tab, i, SlotOf(off / BSIZE)) != 0 then 1 else 0
  }

  /** Where the turn that starts after tot of n bytes ends. */
  function Next(off: nat, tot: nat, n: nat): (next: nat)
    requires tot < n
    ensures tot < next <= n && InBlock(off + tot, next - tot)
  {
    tot + Part(off + tot, off + n)
  }

  /** Each turn spans one more block, and the first costs no bitmap block if it is mapped. */
  lemma TurnSpan(b0: seq<Block>, t0: Table, b1: seq<Block>, t1: Table, i: nat, off: nat, tot: nat, n: nat, next: nat)
    requires |t0| == |t1| && TableShape(t0) && TableShape(t1) && i < |t0| && off + n <= MAXBYTES && tot < n
    requires Boundary(off, tot, n) && Extends(b0, t0, b1, t1, i) && next == Next(off, tot, n)
    ensures Boundary(off, next, n) && Spanned(off, next) == Spanned(off, tot) + 1
    ensures HeadMapped(b0, t0, i, off, next) - HeadMapped(b0, t0, i, off, tot)
         <= (if Owns(b1, t1, i, SlotOf((off + tot) / BSIZE)) == 0 then 0 else 1)
    ensures MappedIn(b0, t0, i, off, off + n) ==> Owns(b1, t1, i, SlotOf((off + tot) / BSIZE)) != 0
  {
    SameFileBlock(off + tot, next - tot - 1);
    if tot > 0 { assert (off + tot - 1) / BSIZE == (off + tot) / BSIZE - 1; }
    if MappedIn(b0, t0, i, off, off + n) { StillMapped(b0, t0, b1, t1, i, off, off + n, off + tot); }
  }

  /** An indirect block is allocated once. */
  lemma IndirectCost(b1: seq<Block>, t1: Table, b2: seq<Block>, t2: Table, i: nat, bn: nat)
    requires |t1| == |t2| && TableShape(t1) && TableShape(t2) && i < |t1| && bn < MAXFILE && Extends(b1, t1, b2, t2, i)
    requires Owns(b2, t2, i, SlotOf(bn)) != 0
    ensures IndirectOf(t1, i) <= IndirectOf(t2, i)
    ensures Missing(b1, t1, i, bn)
         <= (if Owns(b1, t1, i, SlotOf(bn)) == 0 then 1 else 0) + |IndirectOf(t2, i)| - |IndirectOf(t1, i)|
  {
    assert Owns(b1, t1, i, INDIRECT) == t1[i][INDIRECT] && Owns(b2, t2, i, INDIRECT) == t2[i][INDIRECT];
  }

  /** One turn of the writing loop from (b1, t1) to (b2, t2), in a loop that began in (b0, t0). */
  lemma Turn(b0: seq<Block>, t0: Table, b1: seq<Block>, t1: Table, b2: seq<Block>, t2: Table, i: nat, off: nat,
      tot: nat, n: nat, next: nat, c: nat)
    requires |t0| == |t1| == |t2| && TableShape(t0) && TableShape(t1) && TableShape(t2) && i < |t0|
    requires off + n <= MAXBYTES && tot < n && Boundary(off, tot, n) && next == Next(off, tot, n)
    requires Extends(b0, t0, b1, t1, i) && Extends(b1, t1, b2, t2, i)
    requires MappedIn(b1, t1, i, off, off + tot) && Owns(b2, t2, i, SlotOf((off + tot) / BSIZE)) != 0
    ensures Extends(b0, t0, b2, t2, i) && IndirectOf(t1, i) <= IndirectOf(t2, i)
    ensures MappedIn(b2, t2, i, off, off + next)
    ensures c <= 1 + Missing(b1, t1, i, (off + tot) / BSIZE) ==> TurnCost(b0, t0, b1, t1, t2, i, off, tot, next, c)
  {
    TurnSpan(b0, t0, b1, t1, i, off, tot, n, next);
    ExtendsTrans(b0, t0, b1, t1, b2, t2, i);
    MappedStep(b1, t1, b2, t2, i, off, off + tot, next - tot);
    IndirectCost(b1, t1, b2, t2, i, (off + tot) / BSIZE);
  }

  /** What a turn that logs c data and bitmap blocks adds to the account. */
  predicate TurnCost(b0: seq<Block>, t0: Table, b1: seq<Block>, t1: Table, t2: Table, i: nat, off: nat, tot: nat,
      next: nat, c: nat)
    requires TableShape(t0) && TableShape(t1) && TableShape(t2) && i < |t0| == |t1| == |t2| && tot <= next
    requires off + next <= MAXBYTES
  {
    c + HeadMapped(b0, t0, i, off, next) + |IndirectOf(t1, i)| <= 2 + HeadMapped(b0, t0, i, off, tot) + |IndirectOf(t2,
        i)|
  }

  /** c blocks logged, not counting the indirect block, for the first tot bytes at off. */
  predicate Account(b0: seq<Block>, t0: Table, t: Table, i: nat, off: nat, tot: nat, c: nat)
    requires TableShape(t0) && TableShape(t) && i < |t0| == |t| && off + tot <= MAXBYTES
  {
    c + HeadMapped(b0, t0, i, off, tot) <= 2 * Spanned(off, tot) + |IndirectOf(t, i)|
  }

  lemma AccountMore(b0: seq<Block>, t0: Table, b1: seq<Block>, t1: Table, t2: Table, i: nat, off: nat, tot: nat,
      next: nat, c: nat, d: nat, e: nat)
    requires TableShape(t0) && TableShape(t1) && TableShape(t2) && i < |t0| == |t1| == |t2| && tot <= next
    requires off + next <= MAXBYTES
    requires Account(b0, t0, t1, i, off, tot, c) && TurnCost(b0, t0, b1, t1, t2, i, off, tot, next, d)
    requires Spanned(off, next) == Spanned(off, tot) + 1 && e <= c + d
    ensures Account(b0, t0, t2, i, off, next, e)
  {}

  const T_DEV: int := 3

  /** The check off + n < off tells whether the sum overflows. */
  lemma WrapSum(off: Word, n: nat)
    requires n < 0x1_0000_0000
    ensures Wrap(off + n) < off <==> off + n >= 0x1_0000_0000
    ensures off + n < 0x1_0000_0000 ==> Wrap(off + n) == off + n
  {}

  lemma TakeSlice(s: seq<Byte>, size: nat, a: nat, b: nat)
    requires a <= b <= size <= |s|
    ensures s[..size][a..b] == s[a..b]
  {}

  /** How readi and writei end: a panic, -1, handing the call on to a device driver, or a count. */
  datatype Io = Panic | Fail | Handed | Count(n: nat)

  /** min(n - tot, BSIZE - off % BSIZE): the part of o..end that lies in o's block. */
  function Part(o: nat, end: nat): (m: nat)
    requires o < end
    ensures 0 < m && o + m <= end && InBlock(o, m)
  {
    Min(end - o, BSIZE - o % BSIZE)
  }

  /** writei's answer is -1. */
  predicate WriteRefused(size: nat, off: nat, n: nat) { off > size || off + n > MAXBYTES }

  function GrownSize(size: nat, off: nat, n: nat): nat { if off + n > size then off + n else size }

  /** ip' is ip with that size and maybe more blocks. */
  predicate SameFileBut(ip: Inode, ip': Inode, size: nat) { ip' == ip.(size := size, addrs := ip'.addrs) }

  /** Nothing but entry i changed. */
  predicate OnlyAt<T(==)>(s: seq<T>, s': seq<T>, i: nat) {
    |s| == |s'| && forall j | 0 <= j < |s| && j != i :: s'[j] == s[j]
  }

  /** Data and bitmap blocks twice the span, the indirect block with its bitmap block, the inode block;
      one bitmap block less when the first block is mapped because the write starts inside it. */
  function WriteCost(off: nat, n: nat): nat {
    if n == 0 then 0 else 2 * Spanned(off, n) + 3 - (if off % BSIZE != 0 then 1 else 0)
  }

  /** Below size everything is mapped: so is the first block of a write that starts inside it, and all of one that
      ends there. */
  lemma MappedSoFar(blocks: seq<Block>, tab: Table, i: nat, size: nat, off: nat, n: nat)
    requires i < |tab| && TableShape(tab) && off <= size <= MAXBYTES && off + n <= MAXBYTES
    requires MappedTo(blocks, tab, i, size)
    ensures off + n <= size ==> MappedIn(blocks, tab, i, off, off + n)
    ensures off % BSIZE != 0 && n > 0 ==> HeadMapped(blocks, tab, i, off, n) == 1
  {
    if off % BSIZE != 0 { BelowMapped(blocks, tab, i, size, off - 1); }
  }

  lemma MappedAfter(b0: seq<Block>, t0: Table, b1: seq<Block>, t1: Table, i: nat, size: nat, off: nat, n: nat)
    requires |t0| == |t1| && TableShape(t0) && TableShape(t1) && i < |t0| && off <= size <= MAXBYTES
    requires off + n <= MAXBYTES
    requires MappedTo(b0, t0, i, size) && Extends(b0, t0, b1, t1, i) && MappedIn(b1, t1, i, off, off + n)
    ensures MappedTo(b1, t1, i, GrownSize(size, off, n))
  {
    forall bn | 0 <= bn < MAXFILE && bn * BSIZE < GrownSize(size, off, n) ensures Owns(b1, t1, i, SlotOf(bn)) != 0 {
      if bn * BSIZE < size {
        assert Owns(b0, t0, i, SlotOf(bn)) != 0;
      } else {
        assert off / BSIZE <= bn;
      }
    }
  }

  lemma Bill(l0: set<nat>, l1: set<nat>, spent: set<nat>, ind: set<nat>, ib: nat, b0: seq<Block>, t0: Table,
      t1: Table, i: nat, off: nat, n: nat)
    requires TableShape(t0) && TableShape(t1) && i < |t0| == |t1| && off + n <= MAXBYTES && ind == IndirectOf(t1, i)
    requires l1 <= l0 + (spent + ind) && Account(b0, t0, t1, i, off, n, |spent|)
    requires off % BSIZE != 0 && n > 0 ==> HeadMapped(b0, t0, i, off, n) == 1
    ensures n > 0 ==> |l1 - l0| <= WriteCost(off, n) && |l1 + {ib} - l0| <= WriteCost(off, n)
    ensures n == 0 && l1 == l0 ==> |l1 - l0| <= WriteCost(off, n)
  {
    SubsetSize(l1 + {ib} - l0, spent + ind + {ib});
    SubsetSize(l1 - l0, l1 + {ib} - l0);
    assert |spent + ind + {ib}| <= |spent| + |ind| + 1;
  }

  lemma {:induction false} SubsetSize(a: set<nat>, b: set<nat>)
    requires a <= b
    ensures |a| <= |b|
  {
    if a != {} {
      var x :| x in a;
      SubsetSize(a - {x}, b - {x});
    }
  }


  /** filewrite's max. */
  const MAXCHUNK: nat := 1536

  /** No chunk logs more blocks than one operation may. */
  lemma ChunkFits(off: nat, n: nat)
    requires n <= MAXCHUNK
    ensures WriteCost(off, n) <= MAXOPBLOCKS && MAXCHUNK == (MAXOPBLOCKS - 1 - 1 - 2) / 2 * 512
  {
    if n > 0 {
      var last := off + n - 1;
      assert off == BSIZE * (off / BSIZE) + off % BSIZE && last == BSIZE * (last / BSIZE) + last % BSIZE;
    }
  }

  /** filewrite's answer is -1. */
  predicate FileRefused(size: nat, off: nat, n: nat) { n > 0 && WriteRefused(size, off, n) }

  /** How much of a write of n bytes filewrite stores: all, or as many whole chunks as the largest file has room for. */
  function Taken(size: nat, off: nat, n: nat): (t: nat)
    requires size <= MAXBYTES
    ensures t <= n && (t > 0 ==> off <= size)
  {
    if off > size then 0 else if off + n <= MAXBYTES then n else (MAXBYTES - off) / MAXCHUNK * MAXCHUNK
  }

  /** c with d written at off; writing nothing needs no place. */
  function Put(c: seq<Byte>, off: nat, d: seq<Byte>): seq<Byte>
    requires d != [] ==> off <= |c|
  {
    if d == [] then c else Splice(c, off, d)
  }

  /** i bytes written in whole chunks, and room for them. */
  predicate SoFar(size: nat, off: nat, i: nat, n: nat) {
    (i > 0 ==> off <= size && off + i <= MAXBYTES) && (i == n || Whole(i))
  }

  /** A number of whole chunks. */
  predicate Whole(i: nat) { i == 0 || (i >= MAXCHUNK && Whole(i - MAXCHUNK)) }

  /** The next chunk is refused exactly when the write as a whole is and all whole chunks that fit are stored. */
  lemma NextChunk(size: nat, off: nat, i: nat, n: nat, next: nat, now: nat)
    requires size <= MAXBYTES && i < n && SoFar(size, off, i, n) && next == i + Min(n - i, MAXCHUNK)
    requires now == if i == 0 then size else GrownSize(size, off, i)
    ensures WriteRefused(now, off + i, next - i) ==> FileRefused(size, off, n) && i == Taken(size, off, n)
    ensures !WriteRefused(now, off + i, next - i) ==> SoFar(size, off, next, n) && off <= size
  {
    if off <= size {
      if off + next > MAXBYTES {
        WholeChunks(MAXBYTES - off, i);
      } else if next < n {
        assert next == i + MAXCHUNK;
      }
    }
  }

  lemma {:induction false} WholeChunks(room: nat, i: nat)
    requires Whole(i) && i <= room < i + MAXCHUNK
    ensures room / MAXCHUNK * MAXCHUNK == i
  {
    if i > 0 {
      WholeChunks(room - MAXCHUNK, i - MAXCHUNK);
      assert room / MAXCHUNK == (room - MAXCHUNK) / MAXCHUNK + 1;
    }
  }

  lemma PutMore(c: seq<Byte>, off: nat, src: seq<Byte>, i: nat, next: nat)
    requires i < next <= |src| && (i > 0 ==> off <= |c|)
    ensures off <= |c| ==>
      && off + i <= |Put(c, off, src[..i])|
      && Put(c, off, src[..next]) == Splice(Put(c, off, src[..i]), off + i, src[i..next])
    ensures |Put(c, off, src[..i])| == if i == 0 then |c| else GrownSize(|c|, off, i)
  {
    if off <= |c| {
      SpliceMore(c, off, src[..i], src[i..next]);
      Append(src, 0, i, next, src[..i], src[i..next]);
      if i == 0 { assert Splice(c, off, src[..0]) == c; }
    }
  }

  /** Blocks, in-memory inodes, on-disk inodes. */
  datatype Disk = Disk(blocks: seq<Block>, inodes: seq<Inode>, dinodes: seq<Inode>)

  predicate DiskShape(s: Disk) {
    TableShape(TabOf(s.inodes)) && |s.dinodes| == |s.inodes| && forall i | 0 <= i < |s.inodes| ::
      s.inodes[i].size <= MAXBYTES
  }

  predicate MappedBelow(s: Disk, ip: nat)
    requires DiskShape(s) && ip < |s.inodes|
  {
    MappedTo(s.blocks, TabOf(s.inodes), ip, s.inodes[ip].size)
  }

  /** Every file but ip, its inode and its inode on disk are as they were. */
  predicate OthersKept(s: Disk, s': Disk, ip: nat)
    requires DiskShape(s) && DiskShape(s')
  {
    && OnlyAt(s.inodes, s'.inodes, ip) && OnlyAt(s.dinodes, s'.dinodes, ip)
    && OnlyAt(Files(s.blocks, TabOf(s.inodes)), Files(s'.blocks, TabOf(s'.inodes)), ip)
  }

  /** File ip had d written at off.  If its blocks below size were mapped they still are, and then
      an inode that agreed with the one on disk still does. */
  predicate Stored(s: Disk, s': Disk, ip: nat, off: nat, d: seq<Byte>)
    requires DiskShape(s) && DiskShape(s') && ip < |s.inodes| && ip < |s'.inodes|
  {
    && OthersKept(s, s', ip) && s'.inodes[ip].typ == s.inodes[ip].typ
    && (d != [] ==> off <= s.inodes[ip].size)
    && Content(s'.blocks, s'.inodes, ip) == Put(Content(s.blocks, s.inodes, ip), off, d)
    && (MappedBelow(s, ip) ==> MappedBelow(s', ip))
    && (MappedBelow(s, ip) && s.dinodes[ip] == s.inodes[ip] ==> s'.dinodes[ip] == s'.inodes[ip])
  }

  lemma OthersTrans(s0: Disk, s1: Disk, s2: Disk, ip: nat)
    requires DiskShape(s0) && DiskShape(s1) && DiskShape(s2) && OthersKept(s0, s1, ip) && OthersKept(s1, s2, ip)
    ensures OthersKept(s0, s2, ip)
  {}

  lemma StoredNone(s: Disk, ip: nat, off: nat)
    requires DiskShape(s) && ip < |s.inodes|
    ensures Stored(s, s, ip, off, [])
  {}

  lemma StoredSize(s: Disk, s': Disk, ip: nat, off: nat, d: seq<Byte>)
    requires DiskShape(s) && DiskShape(s') && ip < |s.inodes| == |s'.inodes| && Stored(s, s', ip, off, d)
    ensures s'.inodes[ip].size == if d == [] then s.inodes[ip].size else GrownSize(s.inodes[ip].size, off, |d|)
  {
    assert |Content(s'.blocks, s'.inodes, ip)| == s'.inodes[ip].size;
  }

  lemma StoredMore(s0: Disk, s1: Disk, s2: Disk, ip: nat, off: nat, src: seq<Byte>, i: nat, next: nat)
    requires DiskShape(s0) && DiskShape(s1) && DiskShape(s2) && ip < |s0.inodes| == |s1.inodes| == |s2.inodes|
    requires i < next <= |src|
    requires Stored(s0, s1, ip, off, src[..i]) && Stored(s1, s2, ip, off + i, src[i..next]) && off <= s0.inodes[ip].size
    ensures Stored(s0, s2, ip, off, src[..next])
  {
    OthersTrans(s0, s1, s2, ip);
    PutMore(Content(s0.blocks, s0.inodes, ip), off, src, i, next);
  }

  /** What filewrite does to an ordinary file: off' is the new offset and r the answer. */
  predicate FileWritten(s: Disk, s': Disk, ip: nat, off: nat, off': nat, src: seq<Byte>, r: Io)
    requires DiskShape(s) && DiskShape(s') && ip < |s.inodes| && ip < |s'.inodes|
  {
    var taken := Taken(s.inodes[ip].size, off, |src|);
    && r == (if FileRefused(s.inodes[ip].size, off, |src|) then Fail else Count(|src|))
    && off' == off + taken && Stored(s, s', ip, off, src[..taken])
  }

  // ---------------------------------------------------------------- filewrite as transactions

  /** Where chunk k of n bytes starts: after k times MAXCHUNK bytes, or at the end. */
  function Cut(k: nat, n: nat): (c: nat)
    ensures c <= n
  {
    if 1536 * k < n then 1536 * k else n
  }

  /** How many chunks hold t bytes. */
  function Chunks(t: nat): nat { (t + 1535) / 1536 }

  lemma CutNext(k: nat, n: nat)
    ensures Cut(k, n) <= Cut(k + 1, n) && MAXCHUNK == 1536
    ensures Cut(k, n) < n ==> Cut(k + 1, n) == Cut(k, n) + Min(n - Cut(k, n), 1536) && Chunks(Cut(k + 1, n)) == k + 1
  {
  }

  /** Logging the blocks op, one operation stored d at off in file ip; within budget if the blocks below size were
      mapped. */
  predicate Transaction(s: Disk, s': Disk, op: set<nat>, ip: nat, off: nat, d: seq<Byte>) {
    && DiskShape(s) && DiskShape(s') && ip < |s.inodes| && ip < |s'.inodes|
    && Stored(s, s', ip, off, d) && Logs(s.blocks, s'.blocks, op)
    && (MappedBelow(s, ip) ==> |op| <= MAXOPBLOCKS)
  }

  /** The operation stored chunk k of src. */
  predicate ChunkStored(s: Disk, s': Disk, op: set<nat>, ip: nat, off: nat, src: seq<Byte>, k: nat) {
    CutNext(k, |src|);
    Transaction(s, s', op, ip, off + Cut(k, |src|), src[Cut(k, |src|)..Cut(k + 1, |src|)])
  }

  /** Operation k took the file from states[k] to states[k + 1] by storing chunk k of src. */
  predicate Transactions(states: seq<Disk>, ops: seq<set<nat>>, ip: nat, off: nat, src: seq<Byte>) {
    && |states| == |ops| + 1
    && forall k: nat | k < |ops| :: ChunkStored(states[k], states[k + 1], ops[k], ip, off, src, k)
  }

  lemma TransactionsMore(states: seq<Disk>, ops: seq<set<nat>>, ip: nat, off: nat, src: seq<Byte>, s: Disk,
      op: set<nat>)
    requires Transactions(states, ops, ip, off, src) && ChunkStored(states[|ops|], s, op, ip, off, src, |ops|)
    ensures Transactions(states + [s], ops + [op], ip, off, src)
  {
    var states', ops' := states + [s], ops + [op];
    forall k: nat | k < |ops'| ensures ChunkStored(states'[k], states'[k + 1], ops'[k], ip, off, src, k) {
      if k < |ops| { assert ChunkStored(states[k], states[k + 1], ops[k], ip, off, src, k); }
    }
  }

  /** Every operation of such a write stays within its budget if the blocks below size were mapped at the start. */
  lemma {:induction false} WithinBudget(states: seq<Disk>, ops: seq<set<nat>>, ip: nat, off: nat, src: seq<Byte>,
      k: nat)
    requires Transactions(states, ops, ip, off, src) && k <= |ops|
    requires DiskShape(states[0]) && ip < |states[0].inodes| && MappedBelow(states[0], ip)
    ensures DiskShape(states[k]) && ip < |states[k].inodes| && MappedBelow(states[k], ip)
    ensures k < |ops| ==> |ops[k]| <= MAXOPBLOCKS
  {
    if k > 0 { WithinBudget(states, ops, ip, off, src, k - 1); }
    if k < |ops| { assert ChunkStored(states[k], states[k + 1], ops[k], ip, off, src, k); }
  }

  /** filewrite's loop after i bytes of src. */
  predicate Progress(was: Disk, s: Disk, ip: nat, off: nat, src: seq<Byte>, i: nat, ops: seq<set<nat>>,
      states: seq<Disk>) {
    && i <= |src| && DiskShape(was) && DiskShape(s) && ip < |was.inodes| == |s.inodes|
    && SoFar(was.inodes[ip].size, off, i, |src|) && Stored(was, s, ip, off, src[..i])
    && i == Cut(|ops|, |src|) && Chunks(i) == |ops|
    && Transactions(states, ops, ip, off, src) && states[0] == was && states[|ops|] == s
  }

  lemma ProgressStart(was: Disk, ip: nat, off: nat, src: seq<Byte>)
    requires DiskShape(was) && ip < |was.inodes|
    ensures Progress(was, was, ip, off, src, 0, [], [was])
  {
    assert src[..0] == [];
    StoredNone(was, ip, off);
  }

  lemma ProgressStep(was: Disk, s: Disk, s': Disk, ip: nat, off: nat, src: seq<Byte>, i: nat, next: nat,
      ops: seq<set<nat>>, states: seq<Disk>, op: set<nat>)
    requires Progress(was, s, ip, off, src, i, ops, states) && i < |src| && next == i + Min(|src| - i, MAXCHUNK)
    requires Transaction(s, s', op, ip, off + i, src[i..next]) && |s'.inodes| == |s.inodes|
    requires off <= was.inodes[ip].size && SoFar(was.inodes[ip].size, off, next, |src|)
    ensures Progress(was, s', ip, off, src, next, ops + [op], states + [s'])
  {
    CutNext(|ops|, |src|);
    StoredMore(was, s, s', ip, off, src, i, next);
    TransactionsMore(states, ops, ip, off, src, s', op);
  }

  /** What the next chunk up to end will meet. */
  lemma ProgressAhead(was: Disk, s: Disk, ip: nat, off: nat, src: seq<Byte>, i: nat, end: nat,
      ops: seq<set<nat>>, states: seq<Disk>)
    requires Progress(was, s, ip, off, src, i, ops, states) && i < |src| && end == i + Min(|src| - i, MAXCHUNK)
    ensures OthersKept(was, s, ip) && s.inodes[ip].typ == was.inodes[ip].typ
    ensures WriteRefused(s.inodes[ip].size, off + i, end - i) ==>
      i == Taken(was.inodes[ip].size, off, |src|) && FileRefused(was.inodes[ip].size, off, |src|)
    ensures !WriteRefused(s.inodes[ip].size, off + i, end - i) ==>
      off <= was.inodes[ip].size && SoFar(was.inodes[ip].size, off, end, |src|)
  {
    StoredSize(was, s, ip, off, src[..i]);
    NextChunk(was.inodes[ip].size, off, i, |src|, end, s.inodes[ip].size);
  }

  /** What a turn that ends with r leaves of the progress; it took the disk from s to s' and logged op. */
  predicate TurnLeaves(was: Disk, s: Disk, s': Disk, ip: nat, off: nat, src: seq<Byte>, i: nat, end: nat,
      ops: seq<set<nat>>, states: seq<Disk>, op: set<nat>, r: Io)
    requires DiskShape(was) && DiskShape(s') && ip < |was.inodes|
  {
    && (r.Panic? ==> OthersKept(was, s', ip))
    && (r.Handed? ==> was.inodes[ip].typ == T_DEV)
    && (r.Fail? && was.inodes[ip].typ != T_DEV ==>
          i == Taken(was.inodes[ip].size, off, |src|) && FileRefused(was.inodes[ip].size, off, |src|))
    && (r.Count? ==> Progress(was, s', ip, off, src, end, ops + [op], states + [s']))
  }

  lemma TurnEnds(was: Disk, s: Disk, s': Disk, ip: nat, off: nat, src: seq<Byte>, i: nat, end: nat,
      ops: seq<set<nat>>, states: seq<Disk>, op: set<nat>, r: Io)
    requires Progress(was, s, ip, off, src, i, ops, states) && i < |src| && end == i + Min(|src| - i, MAXCHUNK)
    requires DiskShape(s') && |s'.inodes| == |s.inodes|
    requires s.inodes[ip].typ == T_DEV ==> r.Handed? || r.Fail?
    requires s.inodes[ip].typ != T_DEV ==>
      !r.Handed? && (r.Fail? <==> WriteRefused(s.inodes[ip].size, off + i, end - i))
    requires r.Panic? ==> OthersKept(s, s', ip)
    requires r.Count? ==> Transaction(s, s', op, ip, off + i, src[i..end])
    ensures TurnLeaves(was, s, s', ip, off, src, i, end, ops, states, op, r)
  {
    ProgressAhead(was, s, ip, off, src, i, end, ops, states);
    match r
    case Count(_) => ProgressStep(was, s, s', ip, off, src, i, end, ops, states, op);
    case Panic => OthersTrans(was, s, s', ip);
    case _ =>
  }
}

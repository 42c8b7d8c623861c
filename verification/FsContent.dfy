/** Files as flat byte sequences over the block maps. */
module FsContent {
  import opened Bytes
  import opened FsBitmap
  import opened FsOwnership

  const MAXBYTES: nat := MAXFILE * BSIZE

  /** The in-memory inode, and with the same fields the on-disk one. */
  datatype Inode = Inode(typ: int, major: int, minor: int, nlink: int, size: nat, addrs: seq<nat>)

  function TabOf(inodes: seq<Inode>): (t: Table)
    ensures |t| == |inodes|
  {
    seq(|inodes|, i requires 0 <= i < |inodes| => inodes[i].addrs)
  }

  /** All the bytes inode i could hold; beyond the mapped blocks they are zero. */
  function Space(blocks: seq<Block>, tab: Table, i: nat): (s: seq<Byte>)
    requires i < |tab| && TableShape(tab)
    ensures |s| == MAXBYTES
  {
    seq(MAXBYTES, o requires 0 <= o < MAXBYTES => FileBlock(blocks, tab, i, o / BSIZE)[o % BSIZE])
  }

  /** The file: its first size bytes. */
  function Content(blocks: seq<Block>, inodes: seq<Inode>, i: nat): (s: seq<Byte>)
    requires i < |inodes| && TableShape(TabOf(inodes)) && inodes[i].size <= MAXBYTES
    ensures |s| == inodes[i].size
  {
    Files(blocks, TabOf(inodes))[i][..inodes[i].size]
  }

  /** s with d written at offset off, growing if d reaches past the end. */
  function Splice(s: seq<Byte>, off: nat, d: seq<Byte>): (r: seq<Byte>)
    requires off <= |s|
    ensures |r| == if off + |d| > |s| then off + |d| else |s|
  {
    s[..off] + d + (if off + |d| < |s| then s[off + |d|..] else [])
  }

  lemma SpliceAt(s: seq<Byte>, off: nat, d: seq<Byte>, k: nat)
    requires off <= |s| && k < |Splice(s, off, d)|
    ensures off <= k < off + |d| ==> Splice(s, off, d)[k] == d[k - off]
    ensures !(off <= k < off + |d|) ==> k < |s| && Splice(s, off, d)[k] == s[k]
  {}

  lemma SpliceMore(s: seq<Byte>, off: nat, d: seq<Byte>, e: seq<Byte>)
    requires off <= |s|
    ensures Splice(Splice(s, off, d), off + |d|, e) == Splice(s, off, d + e)
  {
    var m := Splice(s, off, d);
    var l, r := Splice(m, off + |d|, e), Splice(s, off, d + e);
    assert |l| == |r|;
    forall k | 0 <= k < |l| ensures l[k] == r[k] {
      SpliceAt(m, off + |d|, e, k);
      SpliceAt(s, off, d + e, k);
      if k < |m| { SpliceAt(s, off, d, k); }
    }
  }

  /** Writing into the space and then cutting at the new size is writing into the file. */
  lemma SpliceFile(s: seq<Byte>, size: nat, off: nat, d: seq<Byte>, size': nat)
    requires off <= size <= |s| && off + |d| <= |s|
    requires size' == if off + |d| > size then off + |d| else size
    ensures Splice(s, off, d)[..size'] == Splice(s[..size], off, d)
  {
    var l, r := Splice(s, off, d)[..size'], Splice(s[..size], off, d);
    forall k | 0 <= k < |l| ensures l[k] == r[k] {
      SpliceAt(s, off, d, k);
      SpliceAt(s[..size], off, d, k);
    }
  }

  /** The spaces of all inodes: what the files hold, with no word of where. */
  function Files(blocks: seq<Block>, tab: Table): (f: seq<seq<Byte>>)
    requires TableShape(tab)
    ensures |f| == |tab| && forall i | 0 <= i < |f| :: f[i] == Space(blocks, tab, i)
  {
    seq(|tab|, i requires 0 <= i < |tab| => Space(blocks, tab, i))
  }

  lemma SpaceSame(blocks: seq<Block>, tab: Table, blocks': seq<Block>, tab': Table, i: nat)
    requires TableShape(tab) && TableShape(tab') && i < |tab| == |tab'|
    requires forall bn | 0 <= bn < MAXFILE :: FileBlock(blocks', tab', i, bn) == FileBlock(blocks, tab, i, bn)
    ensures Space(blocks', tab', i) == Space(blocks, tab, i)
  {
    forall o | 0 <= o < MAXBYTES ensures Space(blocks', tab', i)[o] == Space(blocks, tab, i)[o] {
      assert FileBlock(blocks', tab', i, o / BSIZE) == FileBlock(blocks, tab, i, o / BSIZE);
    }
  }

  lemma FilesSame(blocks: seq<Block>, tab: Table, blocks': seq<Block>, tab': Table)
    requires |tab| == |tab'| && TableShape(tab) && TableShape(tab')
    requires SameFiles(blocks, tab, blocks', tab')
    ensures Files(blocks', tab') == Files(blocks, tab)
  {
    forall i | 0 <= i < |tab|
      ensures Space(blocks', tab', i) == Space(blocks, tab, i)
    {
      SpaceSame(blocks, tab, blocks', tab', i);
    }
  }

  /** m bytes at off lie in one block. */
  predicate InBlock(off: nat, m: nat) { off % BSIZE + m <= BSIZE }

  /** What one step of the reading loop copies out is that stretch of the file. */
  lemma SpaceSlice(blocks: seq<Block>, tab: Table, i: nat, off: nat, next: nat)
    requires i < |tab| && TableShape(tab) && off < MAXBYTES && off <= next && InBlock(off, next - off)
    ensures next <= MAXBYTES
    ensures Space(blocks, tab, i)[off..next] ==
      FileBlock(blocks, tab, i, off / BSIZE)[off % BSIZE..off % BSIZE + (next - off)]
  {
    var m := next - off;
    EndInSpace(off, m);
    var l, r := Space(blocks, tab, i)[off..next], FileBlock(blocks, tab, i, off / BSIZE)[off % BSIZE..off % BSIZE + m];
    forall k | 0 <= k < m ensures l[k] == r[k] { SameFileBlock(off, k); }
  }

  lemma EndInSpace(off: nat, m: nat)
    requires off < MAXBYTES && InBlock(off, m)
    ensures off + m <= MAXBYTES
  {
    assert off == BSIZE * (off / BSIZE) + off % BSIZE;
    assert off / BSIZE < MAXFILE;
  }

  lemma SameFileBlock(off: nat, k: nat)
    requires off % BSIZE + k < BSIZE
    ensures (off + k) / BSIZE == off / BSIZE && (off + k) % BSIZE == off % BSIZE + k
  {}

  // ---------------------------------------------------------------- writing into an owned block

  /** memmove(data + at, d, |d|) */
  function Overwrite(x: Block, at: nat, d: seq<Byte>): (r: Block)
    requires at + |d| <= BSIZE
  {
    x[..at] + d + x[at + |d|..]
  }

  lemma OwnsAfterWrite(sb: Super, blocks: seq<Block>, tab: Table, i: nat, bn: nat, x: Block, j: nat, l: nat)
    requires Sound(sb, blocks, tab) && i < |tab| && bn < MAXFILE && j < |tab| && l < NSLOTS
    requires 0 < Owns(blocks, tab, i, SlotOf(bn)) < |blocks|
    ensures Owns(blocks[Owns(blocks, tab, i, SlotOf(bn)) := x], tab, j, l) == Owns(blocks, tab, j, l)
  {
    assert Owns(blocks, tab, j, INDIRECT) == tab[j][INDIRECT];
    OwnersDiffer(blocks, tab, i, SlotOf(bn), j, INDIRECT);
  }

  /** Writing a file's block changes that file block and nothing else in any file. */
  lemma WriteKeeps(sb: Super, blocks: seq<Block>, tab: Table, i: nat, bn: nat, x: Block)
    requires Sound(sb, blocks, tab) && i < |tab| && bn < MAXFILE
    requires 0 < Owns(blocks, tab, i, SlotOf(bn)) < |blocks|
    ensures Sound(sb, blocks[Owns(blocks, tab, i, SlotOf(bn)) := x], tab)
    ensures forall j, l | 0 <= j < |tab| && 0 <= l < NSLOTS ::
      Owns(blocks[Owns(blocks, tab, i, SlotOf(bn)) := x], tab, j, l) == Owns(blocks, tab, j, l)
    ensures forall j, c | 0 <= j < |tab| && 0 <= c < MAXFILE ::
      FileBlock(blocks[Owns(blocks, tab, i, SlotOf(bn)) := x], tab, j, c) == if j == i && c == bn then x
        else FileBlock(blocks, tab, j, c)
  {
    var a := Owns(blocks, tab, i, SlotOf(bn));
    var blocks' := blocks[a := x];
    forall j, l | 0 <= j < |tab| && 0 <= l < NSLOTS ensures Owns(blocks', tab, j, l) == Owns(blocks, tab, j, l) {
      OwnsAfterWrite(sb, blocks, tab, i, bn, x, j, l);
    }
    FewerInjective(blocks, tab, blocks', tab);
    forall c | 0 <= c < sb.size
      ensures Used(sb, blocks', c) == Used(sb, blocks, c)
    {
      SameMetaUsed(sb, blocks, blocks', c);
    }
    forall j, c | 0 <= j < |tab| && 0 <= c < MAXFILE
      ensures FileBlock(blocks', tab, j, c) == if j == i && c == bn then x else FileBlock(blocks, tab, j, c)
    {
      assert Owns(blocks', tab, j, SlotOf(c)) == Owns(blocks, tab, j, SlotOf(c));
      if j != i || c != bn { OwnersDiffer(blocks, tab, i, SlotOf(bn), j, SlotOf(c)); }
    }
  }

  predicate Within(o: nat, off: nat, m: nat) { off <= o < off + m }

  /** Offsets of one block, taken apart. */
  lemma WithinBlock(o: nat, off: nat, m: nat)
    requires InBlock(off, m)
    ensures Within(o, off, m) <==> o / BSIZE == off / BSIZE && Within(o % BSIZE, off % BSIZE, m)
    ensures o / BSIZE == off / BSIZE ==> o - off == o % BSIZE - off % BSIZE
  {
    if Within(o, off, m) { SameFileBlock(off, o - off); }
    assert o == BSIZE * (o / BSIZE) + o % BSIZE && off == BSIZE * (off / BSIZE) + off % BSIZE;
  }

  lemma SpaceAfterWrite(blocks: seq<Block>, tab: Table, blocks': seq<Block>, i: nat, off: nat, d: seq<Byte>)
    requires i < |tab| && TableShape(tab) && off < MAXBYTES && InBlock(off, |d|)
    requires forall c | 0 <= c < MAXFILE ::
      FileBlock(blocks', tab, i, c) == if c == off / BSIZE then
        Overwrite(FileBlock(blocks, tab, i, c), off % BSIZE, d) else FileBlock(blocks, tab, i, c)
    ensures Space(blocks', tab, i) == Splice(Space(blocks, tab, i), off, d)
  {
    EndInSpace(off, |d|);
    var l, s := Space(blocks', tab, i), Space(blocks, tab, i);
    var r := Splice(s, off, d);
    forall o | 0 <= o < MAXBYTES ensures l[o] == r[o] {
      var c := o / BSIZE;
      assert l[o] == FileBlock(blocks', tab, i, c)[o % BSIZE] && s[o] == FileBlock(blocks, tab, i, c)[o % BSIZE];
      WithinBlock(o, off, |d|);
      if Within(o, off, |d|) { assert r[o] == d[o - off]; } else { assert r[o] == s[o]; }
    }
  }

  /** Writing d at off into the block that holds file i's bytes there. */
  lemma FilesAfterWrite(sb: Super, blocks: seq<Block>, tab: Table, i: nat, off: nat, d: seq<Byte>)
    requires Sound(sb, blocks, tab) && i < |tab| && off < MAXBYTES && InBlock(off, |d|)
    requires 0 < Owns(blocks, tab, i, SlotOf(off / BSIZE)) < |blocks|
    ensures var a := Owns(blocks, tab, i, SlotOf(off / BSIZE));
      Files(blocks[a := Overwrite(blocks[a], off % BSIZE, d)], tab) ==
        Files(blocks, tab)[i := Splice(Files(blocks, tab)[i], off, d)]
  {
    var a := Owns(blocks, tab, i, SlotOf(off / BSIZE));
    var blocks' := blocks[a := Overwrite(blocks[a], off % BSIZE, d)];
    WriteKeeps(sb, blocks, tab, i, off / BSIZE, Overwrite(blocks[a], off % BSIZE, d));
    SpaceAfterWrite(blocks, tab, blocks', i, off, d);
    forall j | 0 <= j < |tab| && j != i
      ensures Space(blocks', tab, j) == Space(blocks, tab, j)
    {
      SpaceSame(blocks, tab, blocks', tab, j);
    }
  }

  // ---------------------------------------------------------------- the space below size

  /** Every block that holds a byte of the first size bytes is mapped. */
  predicate MappedTo(blocks: seq<Block>, tab: Table, i: nat, size: nat)
    requires i < |tab| && TableShape(tab) && size <= MAXBYTES
  {
    forall bn | 0 <= bn < MAXFILE && bn * BSIZE < size :: Owns(blocks, tab, i, SlotOf(bn)) != 0
  }

  lemma BelowMapped(blocks: seq<Block>, tab: Table, i: nat, size: nat, o: nat)
    requires i < |tab| && TableShape(tab) && o < size <= MAXBYTES && MappedTo(blocks, tab, i, size)
    ensures Owns(blocks, tab, i, SlotOf(o / BSIZE)) != 0
  {
    assert o / BSIZE * BSIZE < size;
  }

  lemma Append(s: seq<Byte>, a: nat, b: nat, c: nat, x: seq<Byte>, y: seq<Byte>)
    requires a <= b <= c <= |s| && x == s[a..b] && y == s[b..c]
    ensures x + y == s[a..c]
  {}

  /** Filled slots keep their block, and only inode i gets new ones. */
  predicate Extends(blocks: seq<Block>, tab: Table, blocks': seq<Block>, tab': Table, i: nat)
    requires |tab| == |tab'| && TableShape(tab) && TableShape(tab')
  {
    forall j, l | 0 <= j < |tab| && 0 <= l < NSLOTS ::
      Owns(blocks', tab', j, l) == Owns(blocks, tab, j, l) || (j == i && Owns(blocks, tab, j, l) == 0)
  }

  lemma ExtendsTrans(b0: seq<Block>, t0: Table, b1: seq<Block>, t1: Table, b2: seq<Block>, t2: Table, i: nat)
    requires |t0| == |t1| == |t2| && TableShape(t0) && TableShape(t1) && TableShape(t2)
    requires Extends(b0, t0, b1, t1, i) && Extends(b1, t1, b2, t2, i)
    ensures Extends(b0, t0, b2, t2, i)
  {
    forall j, l | 0 <= j < |t0| && 0 <= l < NSLOTS
      ensures Owns(b2, t2, j, l) == Owns(b0, t0, j, l) || (j == i && Owns(b0, t0, j, l) == 0)
    {
      assert Owns(b1, t1, j, l) == Owns(b0, t0, j, l) || (j == i && Owns(b0, t0, j, l) == 0);
    }
  }

  lemma SetAddr(inodes: seq<Inode>, i: nat, k: nat, b: nat)
    requires i < |inodes| && TableShape(TabOf(inodes)) && k <= NDIRECT
    ensures |inodes[i].addrs| == NDIRECT + 1
    ensures TabOf(inodes[i := inodes[i].(addrs := inodes[i].addrs[k := b])]) == Assign(TabOf(inodes), i, k, b)
  {
    assert TabOf(inodes)[i] == inodes[i].addrs;
  }
}

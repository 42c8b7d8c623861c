/** Which inode owns which block: the block maps of all inodes against the bitmap. */
module FsOwnership {
  import opened Common
  import opened Bytes
  import opened FsBitmap

  const NDIRECT: nat := 12
  const NINDIRECT: nat := BSIZE / 4
  const MAXFILE: nat := NDIRECT + NINDIRECT

  /** Slots of an inode: the direct entries, the indirect block itself, the entries of the indirect block. */
  const INDIRECT: nat := NDIRECT
  const NSLOTS: nat := NDIRECT + 1 + NINDIRECT

  /** addrs[] of every inode. */
  type Table = seq<seq<nat>>

  predicate TableShape(tab: Table) { forall i | 0 <= i < |tab| :: |tab[i]| == NDIRECT + 1 }

  predicate Shape(sb: Super, blocks: seq<Block>, tab: Table) {
    Layout(sb, blocks) && TableShape(tab)
  }

  /** The block number in slot k of an inode with these addresses; 0 for none. */
  function SlotBlock(blocks: seq<Block>, addrs: seq<nat>, k: nat): nat
    requires |addrs| == NDIRECT + 1 && k < NSLOTS
  {
    if k <= NDIRECT then addrs[k]
    else if addrs[INDIRECT] == 0 || addrs[INDIRECT] >= |blocks| then 0
    else WordAt(blocks[addrs[INDIRECT]], k - NDIRECT - 1)
  }

  function Owns(blocks: seq<Block>, tab: Table, i: nat, k: nat): nat
    requires i < |tab| && |tab[i]| == NDIRECT + 1 && k < NSLOTS
  {
    SlotBlock(blocks, tab[i], k)
  }

  /** Owned blocks are data blocks and marked in use. */
  ghost predicate InRange(sb: Super, blocks: seq<Block>, tab: Table)
    requires Shape(sb, blocks, tab)
  {
    forall i, k | 0 <= i < |tab| && 0 <= k < NSLOTS && Owns(blocks, tab, i, k) != 0 ::
      sb.data <= Owns(blocks, tab, i, k) < sb.size && Used(sb, blocks, Owns(blocks, tab, i, k))
  }

  /** Two slots hold the same block. */
  predicate Clash(blocks: seq<Block>, tab: Table, i: nat, k: nat, j: nat, l: nat)
    requires TableShape(tab) && i < |tab| && k < NSLOTS && j < |tab| && l < NSLOTS
  {
    Owns(blocks, tab, i, k) != 0 && Owns(blocks, tab, i, k) == Owns(blocks, tab, j, l) && (i != j || k != l)
  }

  /** No block is owned twice. */
  ghost predicate Injective(blocks: seq<Block>, tab: Table)
    requires TableShape(tab)
  {
    forall i, k, j, l | 0 <= i < |tab| && 0 <= k < NSLOTS && 0 <= j < |tab| && 0 <= l < NSLOTS ::
      !Clash(blocks, tab, i, k, j, l)
  }

  predicate MetaUsed(sb: Super, blocks: seq<Block>)
    requires Layout(sb, blocks)
  {
    forall b | 0 <= b < sb.data :: Used(sb, blocks, b)
  }

  ghost predicate Sound(sb: Super, blocks: seq<Block>, tab: Table) {
    Shape(sb, blocks, tab) && InRange(sb, blocks, tab) && Injective(blocks, tab) && MetaUsed(sb, blocks)
  }

  /** A file system with no files: the metadata blocks marked in use, every address zero. */
  lemma FreshSound(sb: Super, blocks: seq<Block>, tab: Table)
    requires Shape(sb, blocks, tab) && MetaUsed(sb, blocks)
    requires forall i, k | 0 <= i < |tab| && 0 <= k <= NDIRECT :: tab[i][k] == 0
    ensures Sound(sb, blocks, tab)
  {
    forall i, k | 0 <= i < |tab| && 0 <= k < NSLOTS ensures Owns(blocks, tab, i, k) == 0 {
      assert tab[i][NDIRECT] == 0;
    }
  }

  ghost predicate Unowned(blocks: seq<Block>, tab: Table, b: nat)
    requires TableShape(tab)
  {
    forall i, k | 0 <= i < |tab| && 0 <= k < NSLOTS :: Owns(blocks, tab, i, k) != b
  }

  lemma OwnersDiffer(blocks: seq<Block>, tab: Table, i: nat, k: nat, j: nat, l: nat)
    requires TableShape(tab) && Injective(blocks, tab) && i < |tab| && k < NSLOTS && j < |tab| && l < NSLOTS
    requires Owns(blocks, tab, i, k) != 0 && (i != j || k != l)
    ensures Owns(blocks, tab, i, k) != Owns(blocks, tab, j, l)
  {
    assert !Clash(blocks, tab, i, k, j, l);
  }

  /** Emptying slots keeps ownership injective. */
  lemma FewerInjective(blocks: seq<Block>, tab: Table, blocks': seq<Block>, tab': Table)
    requires |tab| == |tab'| && TableShape(tab) && TableShape(tab') && Injective(blocks, tab)
    requires forall j, l | 0 <= j < |tab| && 0 <= l < NSLOTS ::
      Owns(blocks', tab', j, l) == Owns(blocks, tab, j, l) || Owns(blocks', tab', j, l) == 0
    ensures Injective(blocks', tab')
  {
    forall i, k, j, l | 0 <= i < |tab| && 0 <= k < NSLOTS && 0 <= j < |tab| && 0 <= l < NSLOTS
      ensures !Clash(blocks', tab', i, k, j, l)
    {
      assert !Clash(blocks, tab, i, k, j, l);
    }
  }

  // ---------------------------------------------------------------- file contents

  function Zeroed(): Block { seq(BSIZE, _ => 0) }

  /** The slot of file block bn. */
  function SlotOf(bn: nat): (k: nat)
    requires bn < MAXFILE
    ensures k < NSLOTS && k != INDIRECT
  {
    if bn < NDIRECT then bn else bn + 1
  }

  /** Contents of file block bn; a block that is not mapped reads as zeroes. */
  function FileBlock(blocks: seq<Block>, tab: Table, i: nat, bn: nat): Block
    requires i < |tab| && |tab[i]| == NDIRECT + 1 && bn < MAXFILE
  {
    var b := Owns(blocks, tab, i, SlotOf(bn));
    if b == 0 || b >= |blocks| then Zeroed() else blocks[b]
  }

  /** Every file has the contents it had. */
  predicate SameFiles(blocks: seq<Block>, tab: Table, blocks': seq<Block>, tab': Table)
    requires |tab| == |tab'| && TableShape(tab) && TableShape(tab')
  {
    forall i, bn | 0 <= i < |tab| && 0 <= bn < MAXFILE ::
      FileBlock(blocks', tab', i, bn) == FileBlock(blocks, tab, i, bn)
  }

  // ---------------------------------------------------------------- allocation

  /** balloc's effect: the bit is set and the block zeroed. */
  function Alloc(sb: Super, blocks: seq<Block>, b: nat): (r: seq<Block>)
    requires Layout(sb, blocks) && b < sb.size
    ensures Layout(sb, r)
  {
    Mark(sb, blocks, b, true)[b := Zeroed()]
  }

  /** A free block is nobody's and not part of the metadata. */
  lemma FreeIsUnowned(sb: Super, blocks: seq<Block>, tab: Table, b: nat)
    requires Sound(sb, blocks, tab) && b < sb.size && !Used(sb, blocks, b)
    ensures sb.data <= b && b != 0 && Unowned(blocks, tab, b)
  {
    assert 0 < sb.data by { BitmapBlockIsMeta(sb, blocks, b); }
  }

  lemma UsedAfterAlloc(sb: Super, blocks: seq<Block>, b: nat, c: nat)
    requires Layout(sb, blocks) && sb.data <= b < sb.size && c < sb.size
    ensures Used(sb, Alloc(sb, blocks, b), c) == (c == b || Used(sb, blocks, c))
  {
    UsedAfterMark(sb, blocks, b, true, c);
    BitmapBlockIsMeta(sb, blocks, c);
  }

  lemma AllocElsewhere(sb: Super, blocks: seq<Block>, b: nat, x: nat)
    requires Layout(sb, blocks) && b < sb.size && sb.data <= x < sb.size && x != b
    ensures Alloc(sb, blocks, b)[x] == blocks[x]
  {
    BitmapBlockIsMeta(sb, blocks, b);
    MarkElsewhere(sb, blocks, b, true, x);
  }

  lemma OwnsAfterAlloc(sb: Super, blocks: seq<Block>, tab: Table, b: nat, i: nat, k: nat)
    requires Sound(sb, blocks, tab) && b < sb.size && !Used(sb, blocks, b) && i < |tab| && k < NSLOTS
    ensures Owns(Alloc(sb, blocks, b), tab, i, k) == Owns(blocks, tab, i, k)
  {
    FreeIsUnowned(sb, blocks, tab, b);
    var ind := tab[i][INDIRECT];
    assert Owns(blocks, tab, i, INDIRECT) == ind;
    if k > NDIRECT && ind != 0 { AllocElsewhere(sb, blocks, b, ind); }
  }

  /** Allocation leaves everybody's blocks alone. */
  lemma AllocKeeps(sb: Super, blocks: seq<Block>, tab: Table, b: nat)
    requires Sound(sb, blocks, tab) && b < sb.size && !Used(sb, blocks, b)
    ensures Sound(sb, Alloc(sb, blocks, b), tab) && Unowned(Alloc(sb, blocks, b), tab, b)
    ensures SameFiles(blocks, tab, Alloc(sb, blocks, b), tab)
    ensures sb.data <= b && Used(sb, Alloc(sb, blocks, b), b)
    ensures forall j, l | 0 <= j < |tab| && 0 <= l < NSLOTS ::
      Owns(Alloc(sb, blocks, b), tab, j, l) == Owns(blocks, tab, j, l)
  {
    var blocks' := Alloc(sb, blocks, b);
    FreeIsUnowned(sb, blocks, tab, b);
    forall i, k | 0 <= i < |tab| && 0 <= k < NSLOTS
      ensures Owns(blocks', tab, i, k) == Owns(blocks, tab, i, k)
    {
      OwnsAfterAlloc(sb, blocks, tab, b, i, k);
    }
    forall c | 0 <= c < sb.size
      ensures Used(sb, blocks', c) == (c == b || Used(sb, blocks, c))
    {
      UsedAfterAlloc(sb, blocks, b, c);
    }
    forall i, bn | 0 <= i < |tab| && 0 <= bn < MAXFILE
      ensures FileBlock(blocks', tab, i, bn) == FileBlock(blocks, tab, i, bn)
    {
      var c := Owns(blocks, tab, i, SlotOf(bn));
      if c != 0 { AllocElsewhere(sb, blocks, b, c); }
    }
    FewerInjective(blocks, tab, blocks', tab);
  }

  // ---------------------------------------------------------------- filling a slot

  /** The ownership table after slot k of inode i is given block b. */
  ghost predicate Attached(blocks: seq<Block>, tab: Table, blocks': seq<Block>, tab': Table, i: nat, k: nat, b: nat)
    requires |tab| == |tab'| && TableShape(tab) && TableShape(tab')
  {
    forall j, l | 0 <= j < |tab| && 0 <= l < NSLOTS ::
      Owns(blocks', tab', j, l) == if j == i && l == k then b else Owns(blocks, tab, j, l)
  }

  /** Blocks below the data area are the same, so the bitmap is. */
  predicate SameMeta(sb: Super, blocks: seq<Block>, blocks': seq<Block>) {
    |blocks| == |blocks'| && forall x | 0 <= x < sb.data && x < |blocks| :: blocks'[x] == blocks[x]
  }

  lemma SameMetaUsed(sb: Super, blocks: seq<Block>, blocks': seq<Block>, b: nat)
    requires Layout(sb, blocks) && SameMeta(sb, blocks, blocks') && b < sb.size
    ensures Layout(sb, blocks') && Used(sb, blocks', b) == Used(sb, blocks, b)
  {
    BitmapBlockIsMeta(sb, blocks, b);
  }

  lemma AttachSound(sb: Super, blocks: seq<Block>, tab: Table, blocks': seq<Block>, tab': Table, i: nat, k: nat, b: nat)
    requires Sound(sb, blocks, tab) && |tab| == |tab'| && TableShape(tab')
    requires i < |tab| && k < NSLOTS && sb.data <= b < sb.size && Used(sb, blocks, b) && Unowned(blocks, tab, b)
    requires SameMeta(sb, blocks, blocks') && Attached(blocks, tab, blocks', tab', i, k, b)
    ensures Sound(sb, blocks', tab')
  {
    forall c | 0 <= c < sb.size
      ensures Used(sb, blocks', c) == Used(sb, blocks, c)
    {
      SameMetaUsed(sb, blocks, blocks', c);
    }
    AttachInjective(blocks, tab, blocks', tab', i, k, b);
  }

  lemma AttachInjective(blocks: seq<Block>, tab: Table, blocks': seq<Block>, tab': Table, i: nat, k: nat, b: nat)
    requires |tab| == |tab'| && TableShape(tab) && TableShape(tab') && Injective(blocks, tab) && Unowned(blocks, tab, b)
    requires Attached(blocks, tab, blocks', tab', i, k, b)
    ensures Injective(blocks', tab')
  {
    forall p, q, j, l | 0 <= p < |tab| && 0 <= q < NSLOTS && 0 <= j < |tab| && 0 <= l < NSLOTS
      ensures !Clash(blocks', tab', p, q, j, l)
    {
      assert !Clash(blocks, tab, p, q, j, l);
    }
  }

  function Assign(tab: Table, i: nat, k: nat, b: nat): (r: Table)
    requires i < |tab| && TableShape(tab) && k <= NDIRECT
    ensures TableShape(r) && |r| == |tab|
  {
    var addrs: seq<nat> := tab[i];
    tab[i := addrs[k := b]]
  }

  /** A zeroed block nobody owns may become a direct block or the indirect block of an inode that lacks it. */
  lemma AssignKeeps(sb: Super, blocks: seq<Block>, tab: Table, i: nat, k: nat, b: nat)
    requires Sound(sb, blocks, tab) && i < |tab| && k <= NDIRECT && tab[i][k] == 0
    requires 0 < b && sb.data <= b < sb.size && Used(sb, blocks, b) && Unowned(blocks, tab, b) && blocks[b] == Zeroed()
    ensures Sound(sb, blocks, Assign(tab, i, k, b))
    ensures Attached(blocks, tab, blocks, Assign(tab, i, k, b), i, k, b)
    ensures SameFiles(blocks, tab, blocks, Assign(tab, i, k, b))
  {
    var tab' := Assign(tab, i, k, b);
    forall j, l | 0 <= j < |tab| && 0 <= l < NSLOTS
      ensures Owns(blocks, tab', j, l) == if j == i && l == k then b else Owns(blocks, tab, j, l)
    {
      if j == i && l > NDIRECT && k == INDIRECT { ZeroWord(l - NDIRECT - 1); }
    }
    AttachSound(sb, blocks, tab, blocks, tab', i, k, b);
  }

  lemma ZeroWord(e: nat)
    requires e < NINDIRECT
    ensures WordAt(Zeroed(), e) == 0
  {}

  /** a[e] = b inside block ind. */
  function PutEntry(blocks: seq<Block>, ind: nat, e: nat, b: Word): (r: seq<Block>)
    requires ind < |blocks| && e < NINDIRECT
    ensures |r| == |blocks|
  {
    blocks[ind := PutWord(blocks[ind], e, b)]
  }

  lemma OwnsAfterEntry(sb: Super, blocks: seq<Block>, tab: Table, i: nat, e: nat, b: Word, j: nat, l: nat)
    requires Sound(sb, blocks, tab) && i < |tab| && e < NINDIRECT && j < |tab| && l < NSLOTS
    requires tab[i][INDIRECT] != 0 && tab[i][INDIRECT] < |blocks|
    ensures Owns(PutEntry(blocks, tab[i][INDIRECT], e, b), tab, j, l) ==
      if j == i && l == NDIRECT + 1 + e then b else Owns(blocks, tab, j, l)
  {
    var ind := tab[i][INDIRECT];
    if l > NDIRECT && 0 < tab[j][INDIRECT] < |blocks| {
      assert Owns(blocks, tab, j, INDIRECT) == tab[j][INDIRECT] && Owns(blocks, tab, i, INDIRECT) == ind;
      if j == i {
        WordAfterPut(blocks[ind], e, b, l - NDIRECT - 1);
      } else {
        OwnersDiffer(blocks, tab, i, INDIRECT, j, INDIRECT);
      }
    }
  }

  /** A zeroed block nobody owns may fill an empty entry of the indirect block. */
  lemma EntryKeeps(sb: Super, blocks: seq<Block>, tab: Table, i: nat, e: nat, b: nat)
    requires Sound(sb, blocks, tab) && i < |tab| && e < NINDIRECT
    requires tab[i][INDIRECT] != 0 && tab[i][INDIRECT] < |blocks| && Owns(blocks, tab, i, NDIRECT + 1 + e) == 0
    requires 0 < b && sb.data <= b < sb.size && Used(sb, blocks, b) && Unowned(blocks, tab, b) && blocks[b] == Zeroed()
    ensures Sound(sb, PutEntry(blocks, tab[i][INDIRECT], e, b), tab)
    ensures Attached(blocks, tab, PutEntry(blocks, tab[i][INDIRECT], e, b), tab, i, NDIRECT + 1 + e, b)
    ensures SameFiles(blocks, tab, PutEntry(blocks, tab[i][INDIRECT], e, b), tab)
  {
    var ind := tab[i][INDIRECT];
    var blocks' := PutEntry(blocks, ind, e, b);
    assert Owns(blocks, tab, i, INDIRECT) == ind;
    forall j, l | 0 <= j < |tab| && 0 <= l < NSLOTS
      ensures Owns(blocks', tab, j, l) == if j == i && l == NDIRECT + 1 + e then b else Owns(blocks, tab, j, l)
    {
      OwnsAfterEntry(sb, blocks, tab, i, e, b, j, l);
    }
    AttachSound(sb, blocks, tab, blocks', tab, i, NDIRECT + 1 + e, b);
    forall j, bn | 0 <= j < |tab| && 0 <= bn < MAXFILE
      ensures FileBlock(blocks', tab, j, bn) == FileBlock(blocks, tab, j, bn)
    {
      if Owns(blocks, tab, j, SlotOf(bn)) != 0 { OwnersDiffer(blocks, tab, j, SlotOf(bn), i, INDIRECT); }
    }
  }

  // ---------------------------------------------------------------- taking blocks away

  lemma UnassignKeeps(sb: Super, blocks: seq<Block>, tab: Table, i: nat, k: nat)
    requires Sound(sb, blocks, tab) && i < |tab| && k <= NDIRECT && tab[i][k] != 0
    ensures Sound(sb, blocks, Assign(tab, i, k, 0)) && Unowned(blocks, Assign(tab, i, k, 0), tab[i][k])
    ensures forall j, l | 0 <= j < |tab| && 0 <= l < NSLOTS ::
      Owns(blocks, Assign(tab, i, k, 0), j, l) == if j == i && (l == k || k == INDIRECT < l) then 0
        else Owns(blocks, tab, j, l)
  {
    var tab' := Assign(tab, i, k, 0);
    forall j, l | 0 <= j < |tab| && 0 <= l < NSLOTS
      ensures Owns(blocks, tab', j, l) == if j == i && (l == k || k == INDIRECT < l) then 0 else Owns(blocks, tab, j, l)
    {}
    assert Owns(blocks, tab, i, k) == tab[i][k];
    FewerInjective(blocks, tab, blocks, tab');
    forall j, l | 0 <= j < |tab| && 0 <= l < NSLOTS ensures Owns(blocks, tab', j, l) != tab[i][k] {
      if j != i || l != k { OwnersDiffer(blocks, tab, i, k, j, l); }
    }
  }

  /** A data block nobody owns may be marked free. */
  lemma FreeKeeps(sb: Super, blocks: seq<Block>, tab: Table, b: nat)
    requires Sound(sb, blocks, tab) && sb.data <= b < sb.size && Unowned(blocks, tab, b)
    ensures Sound(sb, Mark(sb, blocks, b, false), tab)
    ensures forall j, l | 0 <= j < |tab| && 0 <= l < NSLOTS ::
      Owns(Mark(sb, blocks, b, false), tab, j, l) == Owns(blocks, tab, j, l)
  {
    var blocks' := Mark(sb, blocks, b, false);
    forall j, l | 0 <= j < |tab| && 0 <= l < NSLOTS
      ensures Owns(blocks', tab, j, l) == Owns(blocks, tab, j, l)
    {
      OwnsAfterFree(sb, blocks, tab, b, j, l);
    }
    forall c | 0 <= c < sb.size
      ensures Used(sb, blocks', c) == (c != b && Used(sb, blocks, c))
    {
      UsedAfterMark(sb, blocks, b, false, c);
    }
    FewerInjective(blocks, tab, blocks', tab);
  }

  lemma OwnsAfterFree(sb: Super, blocks: seq<Block>, tab: Table, b: nat, j: nat, l: nat)
    requires Sound(sb, blocks, tab) && b < sb.size && j < |tab| && l < NSLOTS
    ensures Owns(Mark(sb, blocks, b, false), tab, j, l) == Owns(blocks, tab, j, l)
  {
    BitmapBlockIsMeta(sb, blocks, b);
    var ind := tab[j][INDIRECT];
    assert Owns(blocks, tab, j, INDIRECT) == ind;
    if l > NDIRECT && ind != 0 { MarkElsewhere(sb, blocks, b, false, ind); }
  }
}

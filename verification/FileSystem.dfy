/** The block and inode layer: the allocator, the block map, truncation, reading and writing. */
module FileSystem {
  import opened Common
  import opened Bytes
  import opened DiskLayout
  import opened FsBitmap
  import opened FsOwnership
  import opened FsContent
  import opened FsInode
  import opened FsInodeTable
  import opened FsWriting

  datatype FileKind = FdNone | FdPipe | FdInode

  /** An open file. */
  class File {
    const kind: FileKind
    const writable: bool
    const ip: nat
    var off: Word

    constructor (kind: FileKind, writable: bool, ip: nat)
      ensures this.kind == kind && this.writable == writable && this.ip == ip && off == 0
    {
      this.kind, this.writable, this.ip, off := kind, writable, ip, 0;
    }
  }

  class FileSystem {
    const sb: Super
    /** Major device numbers that have a driver. */
    const readers: set<int>
    const writers: set<int>
    /** Block contents as bread returns them. */
    var blocks: seq<Block>
    /** In-memory inodes, by inode number. */
    var inodes: seq<Inode>
    /** On-disk inodes, by inode number, as they lie in the inode blocks. */
    ghost var dinodes: seq<Inode>
    /** Blocks given to log_write. */
    var logged: set<nat>

    ghost predicate Valid()
      reads this
    {
      && Sound(sb, blocks, TabOf(inodes))
      && |dinodes| == |inodes| && OnDisk(sb, blocks, dinodes)
      && forall i | 0 <= i < |inodes| :: inodes[i].size <= MAXBYTES && Shorts(inodes[i])
    }

    /** Every inode as ilock first reads it; no block logged. */
    constructor (sb: Super, readers: set<int>, writers: set<int>, blocks: seq<Block>)
      requires forall i | 0 <= i < sb.ninodes :: IBlock(sb, i) < sb.bmapstart && IBlock(sb, i) < |blocks|
      requires var dinodes := Dinodes(sb, blocks, sb.ninodes);
        Sound(sb, blocks, TabOf(dinodes)) && forall i | 0 <= i < |dinodes| :: dinodes[i].size <= MAXBYTES
      ensures Valid() && inodes == dinodes == Dinodes(sb, blocks, sb.ninodes) && this.blocks == blocks && logged == {}
      ensures this.sb == sb && this.readers == readers && this.writers == writers
    {
      this.sb, this.readers, this.writers, this.blocks := sb, readers, writers, blocks;
      inodes, logged := Dinodes(sb, blocks, sb.ninodes), {};
      dinodes := Dinodes(sb, blocks, sb.ninodes);
    }

    // -------------------------------------------------------------- blocks

    method Bzero(bno: nat)
      requires bno < |blocks|
      modifies `blocks, `logged
      ensures blocks == old(blocks)[bno := Zeroed()] && logged == old(logged) + {bno}
    {
      blocks := blocks[bno := Zeroed()];
      logged := logged + {bno};
    }

    /** Takes the lowest free block, or none when all are in use. */
    method Balloc() returns (r: Option<nat>)
      requires Layout(sb, blocks)
      modifies `blocks, `logged
      ensures r.None? ==> blocks == old(blocks) && logged == old(logged) && Full(sb, blocks)
      ensures r.Some? ==> r.value < sb.size && !Used(sb, old(blocks), r.value)
      ensures r.Some? ==> forall c | 0 <= c < r.value :: Used(sb, old(blocks), c)
      ensures r.Some? ==>
        blocks == Alloc(sb, old(blocks), r.value) && logged == old(logged) + {BBlock(sb, r.value), r.value}
    {
      var b := 0;
      while b < sb.size
        invariant b % BPB == 0 && blocks == old(blocks) && logged == old(logged)
        invariant forall c | 0 <= c < b && c < sb.size :: Used(sb, blocks, c)
      {
        var bi := FreeBit(b);
        if bi < BPB && b + bi < sb.size {
          TakeBit(b, bi);
          Bzero(b + bi);
          return Some(b + bi);
        }
        b := b + BPB;
      }
      return None;
    }

    /** The inner loop: the first clear bit of the bitmap block at b. */
    method FreeBit(b: nat) returns (bi: nat)
      requires Layout(sb, blocks) && b % BPB == 0 && b < sb.size
      ensures bi <= BPB && b + bi <= sb.size
      ensures forall c | b <= c < b + bi :: Used(sb, blocks, c)
      ensures bi == BPB || b + bi == sb.size || !Used(sb, blocks, b + bi)
    {
      var bp := BBlock(sb, b);
      bi := 0;
      while bi < BPB && b + bi < sb.size
        invariant bi <= BPB && b + bi <= sb.size
        invariant forall c | b <= c < b + bi :: Used(sb, blocks, c)
      {
        BitPlace(sb, blocks, b, bi);
        if !BitOf(blocks[bp][bi / 8], bi % 8) { return; }
        bi := bi + 1;
      }
    }

    /** Marks block b + bi in use. */
    method TakeBit(b: nat, bi: nat)
      requires Layout(sb, blocks) && b % BPB == 0 && bi < BPB && b + bi < sb.size
      modifies `blocks, `logged
      ensures blocks == Mark(sb, old(blocks), b + bi, true) && logged == old(logged) + {BBlock(sb, b + bi)}
    {
      var bp := BBlock(sb, b);
      BitPlace(sb, blocks, b, bi);
      ByteStaysByte(blocks[bp][bi / 8], bi % 8, true);
      blocks := blocks[bp := SetByte(blocks[bp], bi / 8, WithBit(blocks[bp][bi / 8], bi % 8, true))];
      logged := logged + {bp};
    }

    /** False stands for the panic on a block that is already free. */
    method Bfree(b: nat) returns (ok: bool)
      requires Layout(sb, blocks) && b < sb.size
      modifies `blocks, `logged
      ensures ok == Used(sb, old(blocks), b)
      ensures ok ==> blocks == Mark(sb, old(blocks), b, false) && logged == old(logged) + {BBlock(sb, b)}
      ensures !ok ==> blocks == old(blocks) && logged == old(logged)
    {
      var bp, bi := BBlock(sb, b), b % BPB;
      BitmapBlockIsMeta(sb, blocks, b);
      if !BitOf(blocks[bp][bi / 8], bi % 8) { return false; }
      ByteStaysByte(blocks[bp][bi / 8], bi % 8, false);
      blocks := blocks[bp := SetByte(blocks[bp], bi / 8, WithBit(blocks[bp][bi / 8], bi % 8, false))];
      logged := logged + {bp};
      return true;
    }

    // -------------------------------------------------------------- the block map

    /** addrs[k] = balloc() */
    method Grow(i: nat, k: nat) returns (r: Option<nat>)
      requires Valid() && i < |inodes| && k <= NDIRECT && TabOf(inodes)[i][k] == 0
      modifies `blocks, `inodes, `logged
      ensures Valid() && OnlyAddrs(old(inodes), inodes, i) && Logs(old(blocks), blocks, logged) && old(logged) <= logged
      ensures Files(blocks, TabOf(inodes)) == Files(old(blocks), TabOf(old(inodes)))
      ensures r.None? ==> blocks == old(blocks) && inodes == old(inodes) && logged == old(logged) && Full(sb, blocks)
      ensures r.Some? ==>
        r.value != 0 && Attached(old(blocks), TabOf(old(inodes)), blocks, TabOf(inodes), i, k, r.value)
      ensures r.Some? ==> logged == old(logged) + {BBlock(sb, r.value), r.value}
    {
      r := Balloc();
      if r.Some? {
        var b := r.value;
        ghost var tab := TabOf(inodes);
        AllocKeeps(sb, old(blocks), tab, b);
        AllocHead(sb, old(blocks), b);
        OnDiskKept(sb, old(blocks), blocks, dinodes);
        SetAddr(inodes, i, k, b);
        inodes := inodes[i := inodes[i].(addrs := inodes[i].addrs[k := b])];
        AssignKeeps(sb, blocks, tab, i, k, b);
        FilesSame(old(blocks), tab, blocks, tab);
        FilesSame(blocks, tab, blocks, TabOf(inodes));
      }
    }

    /** a[e] of the indirect block, allocated if it is missing. */
    method Entry(i: nat, e: nat) returns (r: Option<nat>)
      requires Valid() && i < |inodes| && e < NINDIRECT && TabOf(inodes)[i][INDIRECT] != 0
      modifies `blocks, `logged
      ensures Valid() && Logs(old(blocks), blocks, logged) && old(logged) <= logged
      ensures Files(blocks, TabOf(inodes)) == Files(old(blocks), TabOf(inodes))
      ensures Owns(old(blocks), TabOf(inodes), i, NDIRECT + 1 + e) != 0 ==>
        r == Some(Owns(old(blocks), TabOf(inodes), i, NDIRECT + 1 + e)) && blocks == old(blocks)
          && logged == old(logged)
      ensures r.None? ==> blocks == old(blocks) && logged == old(logged) && Full(sb, blocks)
      ensures r.Some? ==>
        r.value != 0 && Attached(old(blocks), TabOf(inodes), blocks, TabOf(inodes), i, NDIRECT + 1 + e, r.value)
      ensures r.Some? && Owns(old(blocks), TabOf(inodes), i, NDIRECT + 1 + e) == 0 ==>
        logged == old(logged) + {BBlock(sb, r.value), r.value, inodes[i].addrs[INDIRECT]}
    {
      ghost var tab := TabOf(inodes);
      var ind := inodes[i].addrs[INDIRECT];
      assert Owns(blocks, tab, i, INDIRECT) == ind && Owns(blocks, tab, i, NDIRECT + 1 + e) == WordAt(blocks[ind], e);
      var a := WordAt(blocks[ind], e);
      if a != 0 { return Some(a); }
      r := Balloc();
      if r.Some? {
        var b := r.value;
        AllocKeeps(sb, old(blocks), tab, b);
        assert Owns(blocks, tab, i, NDIRECT + 1 + e) == 0;
        EntryKeeps(sb, blocks, tab, i, e, b);
        FilesSame(old(blocks), tab, blocks, tab);
        FilesSame(blocks, tab, PutEntry(blocks, ind, e, b), tab);
        AllocHead(sb, old(blocks), b);
        DataHead(sb, blocks, ind, PutEntry(blocks, ind, e, b)[ind]);
        OnDiskKept(sb, old(blocks), PutEntry(blocks, ind, e, b), dinodes);
        blocks := PutEntry(blocks, ind, e, b);
        logged := logged + {ind};
      }
    }

    /** The block of file block bn, allocated if it is missing; None stands for either panic. */
    method Bmap(i: nat, bn: nat) returns (r: Option<nat>, ghost bm: set<nat>)
      requires Valid() && i < |inodes|
      modifies `blocks, `inodes, `logged
      ensures Valid() && OnlyAddrs(old(inodes), inodes, i) && Logs(old(blocks), blocks, logged) && old(logged) <= logged
      ensures Files(blocks, TabOf(inodes)) == Files(old(blocks), TabOf(old(inodes)))
      ensures Extends(old(blocks), TabOf(old(inodes)), blocks, TabOf(inodes), i)
      ensures bn >= MAXFILE ==> r.None? && blocks == old(blocks) && inodes == old(inodes) && logged == old(logged)
      ensures r.None? && bn < MAXFILE ==> Full(sb, blocks)
      ensures r.Some? ==> bn < MAXFILE && r.value == Owns(blocks, TabOf(inodes), i, SlotOf(bn)) != 0
      ensures bn < MAXFILE && Owns(old(blocks), TabOf(old(inodes)), i, SlotOf(bn)) != 0 ==>
        r.Some? && blocks == old(blocks) && inodes == old(inodes) && logged == old(logged)
      ensures r.Some? ==> |bm| <= Missing(old(blocks), TabOf(old(inodes)), i, bn)
      ensures r.Some? ==> logged <= old(logged) + (bm + {r.value} + IndirectOf(TabOf(inodes), i))
    {
      bm := {};
      if bn < NDIRECT {
        var addr := inodes[i].addrs[bn];
        r := Some(addr);
        if addr == 0 {
          r := Grow(i, bn);
          if r.Some? { bm := {BBlock(sb, r.value)}; }
        }
        return;
      }
      if bn - NDIRECT < NINDIRECT {
        r, bm := BmapIndirect(i, bn - NDIRECT);
        return;
      }
      return None, {};
    }

    method BmapIndirect(i: nat, e: nat) returns (r: Option<nat>, ghost bm: set<nat>)
      requires Valid() && i < |inodes| && e < NINDIRECT
      modifies `blocks, `inodes, `logged
      ensures Valid() && OnlyAddrs(old(inodes), inodes, i) && Logs(old(blocks), blocks, logged) && old(logged) <= logged
      ensures Files(blocks, TabOf(inodes)) == Files(old(blocks), TabOf(old(inodes)))
      ensures Extends(old(blocks), TabOf(old(inodes)), blocks, TabOf(inodes), i)
      ensures r.None? ==> Full(sb, blocks)
      ensures r.Some? ==> r.value == Owns(blocks, TabOf(inodes), i, NDIRECT + 1 + e) != 0
      ensures Owns(old(blocks), TabOf(old(inodes)), i, NDIRECT + 1 + e) != 0 ==>
        r.Some? && blocks == old(blocks) && inodes == old(inodes) && logged == old(logged)
      ensures r.Some? ==> |bm| <= Missing(old(blocks), TabOf(old(inodes)), i, NDIRECT + e)
      ensures r.Some? ==> logged <= old(logged) + (bm + {r.value} + IndirectOf(TabOf(inodes), i))
    {
      bm := {};
      assert inodes[i].addrs == TabOf(inodes)[i];
      var addr := inodes[i].addrs[INDIRECT];
      if addr == 0 {
        r := Grow(i, INDIRECT);
        if r.None? { return; }
        bm := {BBlock(sb, r.value)};
      }
      assert Owns(blocks, TabOf(inodes), i, INDIRECT) != 0;
      ghost var b1 := blocks;
      r := Entry(i, e);
      if r.Some? && Owns(b1, TabOf(inodes), i, NDIRECT + 1 + e) == 0 { bm := bm + {BBlock(sb, r.value)}; }
    }

    // -------------------------------------------------------------- truncation

    /** Frees a block that no slot of tab owns any more. */
    method Release(b: nat, ghost tab: Table) returns (ok: bool)
      requires Sound(sb, blocks, tab) && sb.data <= b < sb.size && Used(sb, blocks, b) && Unowned(blocks, tab, b)
      modifies `blocks, `logged
      ensures ok && Sound(sb, blocks, tab) && old(logged) <= logged
      ensures SameOwners(old(blocks), blocks, tab) && SameData(sb, old(blocks), blocks)
      ensures Logs(old(blocks), blocks, logged)
      ensures SameHead(sb, old(blocks), blocks) && UsedLess(sb, old(blocks), blocks, {b})
    {
      FreeKeeps(sb, blocks, tab, b);
      MarkedLess(sb, blocks, b);
      ok := Bfree(b);
      BitmapBlockIsMeta(sb, blocks, b);
    }

    /** The first loop of itrunc. */
    method TruncDirect(i: nat) returns (ok: bool)
      requires Valid() && i < |inodes|
      modifies `blocks, `inodes, `logged
      ensures ok && Valid() && OnlyAddrs(old(inodes), inodes, i) && old(logged) <= logged
      ensures forall k | 0 <= k <= NDIRECT :: TabOf(inodes)[i][k] == if k < NDIRECT then 0 else TabOf(old(inodes))[i][k]
      ensures SameData(sb, old(blocks), blocks) && Logs(old(blocks), blocks, logged)
      ensures UsedLess(sb, old(blocks), blocks, SlotSet(old(blocks), TabOf(old(inodes))[i], 0, NDIRECT))
    {
      ghost var addrs := TabOf(inodes)[i];
      var k := 0;
      while k < NDIRECT
        invariant k <= NDIRECT && Valid() && OnlyAddrs(old(inodes), inodes, i) && old(logged) <= logged
        invariant forall l | 0 <= l <= NDIRECT :: TabOf(inodes)[i][l] == if l < k then 0 else addrs[l]
        invariant SameData(sb, old(blocks), blocks) && Logs(old(blocks), blocks, logged)
        invariant UsedLess(sb, old(blocks), blocks, SlotSet(old(blocks), addrs, 0, k))
      {
        SlotSetSnoc(old(blocks), addrs, 0, k);
        assert inodes[i].addrs == TabOf(inodes)[i];
        var b := inodes[i].addrs[k];
        if b != 0 {
          ok := DropDirect(i, k);
        }
        k := k + 1;
      }
      ok := true;
    }

    method DropDirect(i: nat, k: nat) returns (ok: bool)
      requires Valid() && i < |inodes| && k < NDIRECT && TabOf(inodes)[i][k] != 0
      modifies `blocks, `inodes, `logged
      ensures ok && Valid() && old(logged) <= logged
      ensures OnlyAddrs(old(inodes), inodes, i) && TabOf(inodes) == Assign(TabOf(old(inodes)), i, k, 0)
      ensures SameData(sb, old(blocks), blocks) && Logs(old(blocks), blocks, logged)
      ensures UsedLess(sb, old(blocks), blocks, {TabOf(old(inodes))[i][k]})
    {
      ghost var tab := TabOf(inodes);
      var b := inodes[i].addrs[k];
      assert Owns(blocks, tab, i, k) == b;
      UnassignKeeps(sb, blocks, tab, i, k);
      ok := Release(b, Assign(tab, i, k, 0));
      OnDiskKept(sb, old(blocks), blocks, dinodes);
      SetAddr(inodes, i, k, 0);
      inodes := inodes[i := inodes[i].(addrs := inodes[i].addrs[k := 0])];
    }

    /** One turn of the second loop of itrunc. */
    method DropEntry(i: nat, ind: nat, e: nat, ghost was: seq<Block>, ghost tab: Table) returns (ok: bool)
      requires Sound(sb, was, tab) && i < |tab| && tab[i][INDIRECT] == ind != 0 && e < NINDIRECT
      requires Midway(sb, was, blocks, tab, i, e)
      modifies `blocks, `logged
      ensures ok && Midway(sb, was, blocks, tab, i, e + 1)
      ensures old(logged) <= logged && Logs(old(blocks), blocks, logged)
    {
      assert Owns(was, tab, i, INDIRECT) == ind;
      SlotSetSnoc(was, tab[i], NDIRECT + 1, NDIRECT + 1 + e);
      var a := WordAt(blocks[ind], e);
      assert Owns(was, tab, i, NDIRECT + 1 + e) == a;
      ok := true;
      if a != 0 {
        EntryStillUsed(sb, was, blocks, tab, i, e);
        EntriesUnowned(sb, was, tab, i);
        ok := Release(a, Assign(tab, i, INDIRECT, 0));
      }
    }

    /** The second loop of itrunc. */
    method TruncEntries(i: nat, ind: nat) returns (ok: bool)
      requires Valid() && i < |inodes| && TabOf(inodes)[i][INDIRECT] == ind != 0
      modifies `blocks, `logged
      ensures ok && Midway(sb, old(blocks), blocks, TabOf(inodes), i, NINDIRECT)
      ensures old(logged) <= logged && Logs(old(blocks), blocks, logged)
    {
      UnassignKeeps(sb, blocks, TabOf(inodes), i, INDIRECT);
      var e := 0;
      ok := true;
      while e < NINDIRECT
        invariant ok && e <= NINDIRECT && Midway(sb, old(blocks), blocks, TabOf(inodes), i, e)
        invariant old(logged) <= logged && Logs(old(blocks), blocks, logged)
      {
        ok := DropEntry(i, ind, e, old(blocks), TabOf(inodes));
        e := e + 1;
      }
    }

    /** The indirect part of itrunc. */
    method TruncIndirect(i: nat) returns (ok: bool)
      requires Valid() && i < |inodes| && TabOf(inodes)[i][INDIRECT] != 0
      modifies `blocks, `inodes, `logged
      ensures ok && Valid() && old(logged) <= logged
      ensures OnlyAddrs(old(inodes), inodes, i) && TabOf(inodes) == Assign(TabOf(old(inodes)), i, INDIRECT, 0)
      ensures SameData(sb, old(blocks), blocks) && Logs(old(blocks), blocks, logged)
      ensures UsedLess(sb, old(blocks), blocks, SlotSet(old(blocks), TabOf(old(inodes))[i], INDIRECT, NSLOTS))
    {
      ghost var tab := TabOf(inodes);
      var ind := inodes[i].addrs[INDIRECT];
      UnassignKeeps(sb, blocks, tab, i, INDIRECT);
      ok := TruncEntries(i, ind);
      IndirectStillUsed(sb, old(blocks), blocks, tab, i);
      ok := Release(ind, Assign(tab, i, INDIRECT, 0));
      OnDiskKept(sb, old(blocks), blocks, dinodes);
      SetAddr(inodes, i, INDIRECT, 0);
      inodes := inodes[i := inodes[i].(addrs := inodes[i].addrs[INDIRECT := 0])];
      SlotSetHead(old(blocks), tab[i]);
    }

    method ClearMap(i: nat) returns (ok: bool)
      requires Valid() && i < |inodes|
      modifies `blocks, `inodes, `logged
      ensures ok && Valid() && OnlyAddrs(old(inodes), inodes, i)
      ensures forall k | 0 <= k <= NDIRECT :: TabOf(inodes)[i][k] == 0
      ensures UsedLess(sb, old(blocks), blocks, SlotSet(old(blocks), TabOf(old(inodes))[i], 0, NSLOTS))
      ensures SameData(sb, old(blocks), blocks) && Logs(old(blocks), blocks, logged)
    {
      ghost var addrs := TabOf(inodes)[i];
      ok := TruncDirect(i);
      TailSlotsSame(sb, old(blocks), TabOf(old(inodes)), blocks, TabOf(inodes), i);
      SlotSetSplit(old(blocks), addrs, INDIRECT);
      assert inodes[i].addrs == TabOf(inodes)[i];
      if inodes[i].addrs[INDIRECT] != 0 {
        ok := TruncIndirect(i);
      } else {
        EmptyTail(blocks, TabOf(inodes)[i]);
      }
    }

    /** Writes inode i over its record in the inode block: ilock would read it back, and every other inode as before. */
    method Iupdate(i: nat)
      requires Valid() && i < |inodes|
      modifies `blocks, `dinodes, `logged
      ensures Valid() && DinodeIs(sb, blocks, i, inodes[i]) && dinodes == old(dinodes)[i := inodes[i]]
      ensures InodeWritten(sb, old(blocks), blocks, i, inodes[i])
      ensures Files(blocks, TabOf(inodes)) == Files(old(blocks), TabOf(inodes))
      ensures SameData(sb, old(blocks), blocks) && SameOwners(old(blocks), blocks, TabOf(inodes))
      ensures UsedLess(sb, old(blocks), blocks, {})
      ensures Logs(old(blocks), blocks, logged) && logged == old(logged) + {IBlock(sb, i)}
    {
      InodePackable(sb, blocks, inodes, i);
      StoreOnDisk(sb, blocks, dinodes, i, inodes[i]);
      var bp := IBlock(sb, i);
      var x := Store(blocks[bp], i % IPB, inodes[i]);
      HeadWriteKeeps(sb, blocks, TabOf(inodes), bp, x);
      BitmapBlockIsMeta(sb, blocks, 0);
      StoreWrites(sb, blocks, i, inodes[i]);
      blocks := blocks[bp := x];
      dinodes := dinodes[i := inodes[i]];
      logged := logged + {bp};
      assert DinodeIs(sb, blocks, i, dinodes[i]);
    }

    /** Frees exactly the inode's blocks; the "freeing free block" panic is not reached. */
    method Itrunc(i: nat) returns (ok: bool)
      requires Valid() && i < |inodes|
      modifies `blocks, `inodes, `dinodes, `logged
      ensures ok && Valid()
      ensures inodes == old(inodes)[i := old(inodes)[i].(addrs := NoAddrs(), size := 0)]
      ensures dinodes == old(dinodes)[i := inodes[i]]
      ensures UsedLess(sb, old(blocks), blocks, SlotSet(old(blocks), TabOf(old(inodes))[i], 0, NSLOTS))
      ensures SameData(sb, old(blocks), blocks)
      ensures forall j, bn | 0 <= j < |inodes| && 0 <= bn < MAXFILE && j != i ::
        FileBlock(blocks, TabOf(inodes), j, bn) == FileBlock(old(blocks), TabOf(old(inodes)), j, bn)
      ensures Logs(old(blocks), blocks, logged) && IBlock(sb, i) in logged
    {
      ok := ClearMap(i);
      assert inodes[i].addrs == TabOf(inodes)[i] == NoAddrs();
      ClearedIsEmpty(sb, blocks, inodes, i);
      inodes := inodes[i := inodes[i].(size := 0)];
      ghost var cleared := blocks;
      Iupdate(i);
      assert UsedLess(sb, cleared, blocks, {});
      OthersSame(sb, old(blocks), old(inodes), blocks, inodes, i);
    }

    // -------------------------------------------------------------- reading

    /** One turn of readi's loop. */
    method ReadBlock(i: nat, off: nat, next: nat) returns (r: Option<seq<Byte>>)
      requires Valid() && i < |inodes| && off < MAXBYTES && off <= next && InBlock(off, next - off)
      modifies `blocks, `inodes, `logged
      ensures Valid() && OnlyAddrs(old(inodes), inodes, i) && Logs(old(blocks), blocks, logged) && old(logged) <= logged
      ensures Files(blocks, TabOf(inodes)) == Files(old(blocks), TabOf(old(inodes)))
      ensures r.None? ==> Full(sb, blocks)
      ensures r.Some? ==> next <= MAXBYTES && r.value == Files(old(blocks), TabOf(old(inodes)))[i][off..next]
      ensures Owns(old(blocks), TabOf(old(inodes)), i, SlotOf(off / BSIZE)) != 0 ==>
        r.Some? && blocks == old(blocks) && inodes == old(inodes) && logged == old(logged)
    {
      var addr, _ := Bmap(i, off / BSIZE);
      if addr.None? { return None; }
      SpaceSlice(blocks, TabOf(inodes), i, off, next);
      r := Some(blocks[addr.value][off % BSIZE..off % BSIZE + (next - off)]);
    }

    /** Reads n bytes at off, or what there is of them. */
    method Readi(i: nat, off: Word, n: Word) returns (r: Io, data: seq<Byte>)
      requires Valid() && i < |inodes|
      modifies `blocks, `inodes, `logged
      ensures Valid() && OnlyAddrs(old(inodes), inodes, i) && Logs(old(blocks), blocks, logged)
      ensures Files(blocks, TabOf(inodes)) == Files(old(blocks), TabOf(old(inodes)))
      ensures old(inodes)[i].typ == T_DEV ==> r == if old(inodes)[i].major in readers then Handed else Fail
      ensures old(inodes)[i].typ != T_DEV ==>
        !r.Handed? && (r.Fail? <==> off > old(inodes)[i].size || off + n >= 0x1_0000_0000)
      ensures r.Handed? || r.Fail? ==> blocks == old(blocks) && inodes == old(inodes) && logged == old(logged)
      ensures r.Count? ==>
        data == Content(old(blocks), old(inodes), i)[off..Min(off + n, old(inodes)[i].size)] && r.n == |data|
      ensures MappedTo(old(blocks), TabOf(old(inodes)), i, old(inodes)[i].size) ==>
        !r.Panic? && blocks == old(blocks) && inodes == old(inodes) && logged == old(logged)
      ensures r.Panic? ==> Full(sb, blocks)
    {
      data := [];
      var ip := inodes[i];
      if ip.typ == T_DEV {
        return if ip.major in readers then Handed else Fail, data;
      }
      WrapSum(off, n);
      if off > ip.size || Wrap(off + n) < off { return Fail, data; }
      var end := if Wrap(off + n) > ip.size then ip.size else off + n;
      TakeSlice(Files(blocks, TabOf(inodes))[i], ip.size, off, end);
      var d := ReadRange(i, off, end);
      if d.None? { return Panic, data; }
      return Count(end - off), d.value;
    }

    /** readi's loop. */
    method ReadRange(i: nat, off: nat, end: nat) returns (r: Option<seq<Byte>>)
      requires Valid() && i < |inodes| && off <= end <= MAXBYTES
      modifies `blocks, `inodes, `logged
      ensures Valid() && OnlyAddrs(old(inodes), inodes, i) && Logs(old(blocks), blocks, logged) && old(logged) <= logged
      ensures Files(blocks, TabOf(inodes)) == Files(old(blocks), TabOf(old(inodes)))
      ensures r.None? ==> Full(sb, blocks)
      ensures r.Some? ==> r.value == Files(old(blocks), TabOf(old(inodes)))[i][off..end]
      ensures MappedTo(old(blocks), TabOf(old(inodes)), i, end) ==>
        r.Some? && blocks == old(blocks) && inodes == old(inodes) && logged == old(logged)
    {
      ghost var tab := TabOf(inodes);
      ghost var file := Files(blocks, tab)[i];
      var data, o := [], off;
      while o < end
        invariant off <= o <= end && Valid() && OnlyAddrs(old(inodes), inodes, i)
        invariant Logs(old(blocks), blocks, logged) && old(logged) <= logged
        invariant Files(blocks, TabOf(inodes)) == Files(old(blocks), tab)
        invariant data == file[off..o]
        invariant MappedTo(old(blocks), tab, i, end) ==>
          blocks == old(blocks) && inodes == old(inodes) && logged == old(logged)
      {
        var next := o + Part(o, end);
        if MappedTo(old(blocks), tab, i, end) { BelowMapped(old(blocks), tab, i, end, o); }
        var d := ReadBlock(i, o, next);
        if d.None? { return None; }
        Append(file, off, o, next, data, d.value);
        data := data + d.value;
        o := next;
      }
      return Some(data);
    }

    // -------------------------------------------------------------- writing

    /** One turn of writei's loop. */
    method WriteBlock(i: nat, off: nat, d: seq<Byte>) returns (r: Option<nat>, ghost spent: set<nat>)
      requires Valid() && i < |inodes| && off < MAXBYTES && InBlock(off, |d|)
      modifies `blocks, `inodes, `logged
      ensures Valid() && OnlyAddrs(old(inodes), inodes, i) && Logs(old(blocks), blocks, logged) && old(logged) <= logged
      ensures Extends(old(blocks), TabOf(old(inodes)), blocks, TabOf(inodes), i)
      ensures r.None? ==> Full(sb, blocks) && Files(blocks, TabOf(inodes)) == Files(old(blocks), TabOf(old(inodes)))
      ensures r.Some? ==> r.value == Owns(blocks, TabOf(inodes), i, SlotOf(off / BSIZE)) != 0
      ensures r.Some? ==> Files(blocks, TabOf(inodes)) == Written(Files(old(blocks), TabOf(old(inodes))), i, off, d)
      ensures Owns(old(blocks), TabOf(old(inodes)), i, SlotOf(off / BSIZE)) != 0 ==> r.Some? && inodes == old(inodes)
      ensures r.Some? ==> |spent| <= 1 + Missing(old(blocks), TabOf(old(inodes)), i, off / BSIZE)
      ensures r.Some? ==> logged <= old(logged) + (spent + IndirectOf(TabOf(inodes), i))
    {
      r, spent := Bmap(i, off / BSIZE);
      if r.Some? {
        spent := spent + {r.value};
        StoreBlock(i, off, r.value, d);
      }
    }

    /** memmove into the buffer and log_write. */
    method StoreBlock(i: nat, off: nat, addr: nat, d: seq<Byte>)
      requires Valid() && i < |inodes| && off < MAXBYTES && InBlock(off, |d|)
      requires addr == Owns(blocks, TabOf(inodes), i, SlotOf(off / BSIZE)) != 0
      modifies `blocks, `logged
      ensures Valid() && |blocks| == |old(blocks)| && logged == old(logged) + {addr}
      ensures forall x | 0 <= x < |blocks| && x != addr :: blocks[x] == old(blocks)[x]
      ensures SameOwners(old(blocks), blocks, TabOf(inodes))
      ensures Files(blocks, TabOf(inodes)) == Written(Files(old(blocks), TabOf(inodes)), i, off, d)
    {
      WriteKeeps(sb, blocks, TabOf(inodes), i, off / BSIZE, Overwrite(blocks[addr], off % BSIZE, d));
      FilesAfterWrite(sb, blocks, TabOf(inodes), i, off, d);
      DataHead(sb, blocks, addr, Overwrite(blocks[addr], off % BSIZE, d));
      OnDiskKept(sb, blocks, blocks[addr := Overwrite(blocks[addr], off % BSIZE, d)], dinodes);
      blocks := blocks[addr := Overwrite(blocks[addr], off % BSIZE, d)];
      logged := logged + {addr};
    }

    /** One turn of writei's loop, with what it adds to the log; was and tab are the state the loop began in. */
    method WriteTurn(i: nat, off: nat, tot: nat, src: seq<Byte>, ghost was: seq<Block>, ghost tab: Table)
      returns (next: nat, r: Option<nat>, ghost spent: set<nat>)
      requires Valid() && i < |inodes| && off + |src| <= MAXBYTES && tot < |src| && Boundary(off, tot, |src|)
      requires |tab| == |inodes| && TableShape(tab) && Extends(was, tab, blocks, TabOf(inodes), i)
      requires MappedIn(blocks, TabOf(inodes), i, off, off + tot)
      modifies `blocks, `inodes, `logged
      ensures next == Next(off, tot, |src|) && Boundary(off, next, |src|) && Spanned(off, next) == Spanned(off, tot) + 1
      ensures Valid() && OnlyAddrs(old(inodes), inodes, i) && Logs(old(blocks), blocks, logged) && old(logged) <= logged
      ensures Extends(was, tab, blocks, TabOf(inodes), i)
      ensures r.None? ==> Full(sb, blocks) && Files(blocks, TabOf(inodes)) == Files(old(blocks), TabOf(old(inodes)))
      ensures r.Some? ==>
        Files(blocks, TabOf(inodes)) == Written(Files(old(blocks), TabOf(old(inodes))), i, off + tot, src[tot..next])
      ensures r.Some? ==> MappedIn(blocks, TabOf(inodes), i, off, off + next)
      ensures MappedIn(was, tab, i, off, off + |src|) ==> r.Some? && inodes == old(inodes)
      ensures r.Some? ==> TurnCost(was, tab, old(blocks), TabOf(old(inodes)), TabOf(inodes), i, off, tot, next, |spent|)
      ensures r.Some? ==> IndirectOf(TabOf(old(inodes)), i) <= IndirectOf(TabOf(inodes), i)
      ensures r.Some? ==> logged <= old(logged) + (spent + IndirectOf(TabOf(inodes), i))
    {
      next := Next(off, tot, |src|);
      TurnSpan(was, tab, blocks, TabOf(inodes), i, off, tot, |src|, next);
      r, spent := WriteBlock(i, off + tot, src[tot..next]);
      if r.Some? {
        Turn(was, tab, old(blocks), TabOf(old(inodes)), blocks, TabOf(inodes), i, off, tot, |src|, next, |spent|);
      } else {
        ExtendsTrans(was, tab, old(blocks), TabOf(old(inodes)), blocks, TabOf(inodes), i);
      }
    }

    /** writei's loop.  The ghost result holds the data blocks and the bitmap blocks it logs. */
    method WriteRange(i: nat, off: nat, src: seq<Byte>) returns (ok: bool, ghost spent: set<nat>)
      requires Valid() && i < |inodes| && off + |src| <= MAXBYTES
      modifies `blocks, `inodes, `logged
      ensures Valid() && OnlyAddrs(old(inodes), inodes, i) && Logs(old(blocks), blocks, logged) && old(logged) <= logged
      ensures Extends(old(blocks), TabOf(old(inodes)), blocks, TabOf(inodes), i)
      ensures !ok ==>
        Full(sb, blocks) && OnlyAt(Files(old(blocks), TabOf(old(inodes))), Files(blocks, TabOf(inodes)), i)
      ensures ok ==> Files(blocks, TabOf(inodes)) == Written(Files(old(blocks), TabOf(old(inodes))), i, off, src)
      ensures ok ==> MappedIn(blocks, TabOf(inodes), i, off, off + |src|)
      ensures MappedIn(old(blocks), TabOf(old(inodes)), i, off, off + |src|) ==> ok && inodes == old(inodes)
      ensures |src| == 0 ==> logged == old(logged)
      ensures ok ==> Account(old(blocks), TabOf(old(inodes)), TabOf(inodes), i, off, |src|, |spent|)
      ensures ok ==> logged <= old(logged) + (spent + IndirectOf(TabOf(inodes), i))
    {
      ghost var tab := TabOf(inodes);
      ghost var files := Files(blocks, tab);
      spent := {};
      var tot := 0;
      WrittenNone(files, i, off);
      assert src[..0] == [];
      while tot < |src|
        invariant tot <= |src| && Boundary(off, tot, |src|)
        invariant Valid() && OnlyAddrs(old(inodes), inodes, i) && Logs(old(blocks), blocks, logged)
        invariant old(logged) <= logged
        invariant Extends(old(blocks), tab, blocks, TabOf(inodes), i)
        invariant Files(blocks, TabOf(inodes)) == Written(files, i, off, src[..tot])
        invariant MappedIn(blocks, TabOf(inodes), i, off, off + tot)
        invariant MappedIn(old(blocks), tab, i, off, off + |src|) ==> inodes == old(inodes)
        invariant logged <= old(logged) + (spent + IndirectOf(TabOf(inodes), i))
        invariant Account(old(blocks), tab, TabOf(inodes), i, off, tot, |spent|) && (tot == 0 ==> logged == old(logged))
      {
        ghost var b1, t1, l1 := blocks, TabOf(inodes), logged;
        var next, r, more := WriteTurn(i, off, tot, src, old(blocks), tab);
        if r.None? { return false, spent; }
        WrittenMore(files, Files(b1, t1), Files(blocks, TabOf(inodes)), i, off, src, tot, next);
        SpentMore(old(logged), l1, logged, spent, IndirectOf(t1, i), more, IndirectOf(TabOf(inodes), i));
        AccountMore(old(blocks), tab, b1, t1, TabOf(inodes), i, off, tot, next, |spent|, |more|, |spent + more|);
        spent := spent + more;
        tot := next;
      }
      assert src[..|src|] == src;
      return true, spent;
    }

    /** Writes src at off.  Only a size that grows makes writei put the inode on disk. */
    method Writei(i: nat, off: Word, src: seq<Byte>) returns (r: Io)
      requires Valid() && i < |inodes| && |src| < 0x1_0000_0000
      modifies `blocks, `inodes, `dinodes, `logged
      ensures Valid() && Logs(old(blocks), blocks, logged) && old(logged) <= logged
      ensures old(inodes)[i].typ == T_DEV ==> r == if old(inodes)[i].major in writers then Handed else Fail
      ensures old(inodes)[i].typ != T_DEV ==> !r.Handed? && (r.Fail? <==> WriteRefused(old(inodes)[i].size, off, |src|))
      ensures r.Handed? || r.Fail? ==>
        blocks == old(blocks) && inodes == old(inodes) && dinodes == old(dinodes) && logged == old(logged)
      ensures r.Panic? ==> Full(sb, blocks)
      ensures OnlyAt(old(inodes), inodes, i) && OnlyAt(old(dinodes), dinodes, i)
      ensures OnlyAt(Files(old(blocks), TabOf(old(inodes))), Files(blocks, TabOf(inodes)), i)
      ensures r.Count? ==>
        r.n == |src| && SameFileBut(old(inodes)[i], inodes[i], GrownSize(old(inodes)[i].size, off, |src|))
      ensures r.Count? ==> Content(blocks, inodes, i) == Splice(Content(old(blocks), old(inodes), i), off, src)
      ensures r.Count? && MappedTo(old(blocks), TabOf(old(inodes)), i, old(inodes)[i].size) ==>
        MappedTo(blocks, TabOf(inodes), i, inodes[i].size) && |logged - old(logged)| <= WriteCost(off, |src|)
      ensures r.Count? && MappedTo(old(blocks), TabOf(old(inodes)), i, old(inodes)[i].size) ==>
        old(dinodes)[i] == old(inodes)[i] ==> dinodes[i] == inodes[i]
    {
      var ip := inodes[i];
      if ip.typ == T_DEV {
        return if ip.major in writers then Handed else Fail;
      }
      WrapSum(off, |src|);
      if off > ip.size || Wrap(off + |src|) < off || Wrap(off + |src|) > MAXBYTES { return Fail; }
      var ok := WriteFile(i, off, src);
      return if ok then Count(|src|) else Panic;
    }

    /** writei once its checks have passed. */
    method WriteFile(i: nat, off: nat, src: seq<Byte>) returns (ok: bool)
      requires Valid() && i < |inodes| && !WriteRefused(inodes[i].size, off, |src|)
      modifies `blocks, `inodes, `dinodes, `logged
      ensures Valid() && Logs(old(blocks), blocks, logged) && old(logged) <= logged
      ensures !ok ==> Full(sb, blocks)
      ensures OnlyAt(old(inodes), inodes, i) && OnlyAt(old(dinodes), dinodes, i)
      ensures OnlyAt(Files(old(blocks), TabOf(old(inodes))), Files(blocks, TabOf(inodes)), i)
      ensures ok ==> SameFileBut(old(inodes)[i], inodes[i], GrownSize(old(inodes)[i].size, off, |src|))
      ensures ok ==> Content(blocks, inodes, i) == Splice(Content(old(blocks), old(inodes), i), off, src)
      ensures ok && MappedTo(old(blocks), TabOf(old(inodes)), i, old(inodes)[i].size) ==>
        MappedTo(blocks, TabOf(inodes), i, inodes[i].size) && |logged - old(logged)| <= WriteCost(off, |src|)
      ensures ok && MappedTo(old(blocks), TabOf(old(inodes)), i, old(inodes)[i].size) ==>
        old(dinodes)[i] == old(inodes)[i] ==> dinodes[i] == inodes[i]
    {
      SpliceFile(Files(blocks, TabOf(inodes))[i], inodes[i].size, off, src, GrownSize(inodes[i].size, off, |src|));
      ok := WriteBody(i, off, src);
      if ok && |src| > 0 && off + |src| > inodes[i].size { Extend(i, off + |src|); }
    }

    /** The loop, and what the blocks below size being mapped means for it. */
    method WriteBody(i: nat, off: nat, src: seq<Byte>) returns (ok: bool)
      requires Valid() && i < |inodes| && !WriteRefused(inodes[i].size, off, |src|)
      modifies `blocks, `inodes, `logged
      ensures Valid() && OnlyAddrs(old(inodes), inodes, i) && Logs(old(blocks), blocks, logged) && old(logged) <= logged
      ensures !ok ==>
        Full(sb, blocks) && OnlyAt(Files(old(blocks), TabOf(old(inodes))), Files(blocks, TabOf(inodes)), i)
      ensures ok ==> Files(blocks, TabOf(inodes)) == Written(Files(old(blocks), TabOf(old(inodes))), i, off, src)
      ensures MappedTo(old(blocks), TabOf(old(inodes)), i, old(inodes)[i].size) ==>
        && (ok ==> MappedTo(blocks, TabOf(inodes), i, GrownSize(inodes[i].size, off, |src|)))
        && (ok ==> |logged - old(logged)| <= WriteCost(off, |src|))
        && (ok && |src| > 0 ==> |logged + {IBlock(sb, i)} - old(logged)| <= WriteCost(off, |src|))
        && (off + |src| <= inodes[i].size ==> inodes == old(inodes))
    {
      ghost var tab := TabOf(inodes);
      var size := inodes[i].size;
      if MappedTo(blocks, tab, i, size) { MappedSoFar(blocks, tab, i, size, off, |src|); }
      ghost var spent;
      ok, spent := WriteRange(i, off, src);
      if ok && MappedTo(old(blocks), tab, i, size) {
        MappedAfter(old(blocks), tab, blocks, TabOf(inodes), i, size, off, |src|);
        Bill(old(logged), logged, spent, IndirectOf(TabOf(inodes), i), IBlock(sb, i), old(blocks), tab, TabOf(inodes),
            i, off, |src|);
      }
    }

    /** ip->size = off; iupdate(ip) */
    method Extend(i: nat, size: nat)
      requires Valid() && i < |inodes| && size <= MAXBYTES
      modifies `blocks, `inodes, `dinodes, `logged
      ensures Valid() && inodes == old(inodes)[i := old(inodes)[i].(size := size)]
      ensures TabOf(inodes) == TabOf(old(inodes))
      ensures Files(blocks, TabOf(inodes)) == Files(old(blocks), TabOf(inodes))
      ensures SameOwners(old(blocks), blocks, TabOf(inodes)) && Logs(old(blocks), blocks, logged)
      ensures dinodes == old(dinodes)[i := inodes[i]] && logged == old(logged) + {IBlock(sb, i)}
    {
      inodes := inodes[i := inodes[i].(size := size)];
      assert TabOf(inodes) == TabOf(old(inodes));
      Iupdate(i);
    }

    // -------------------------------------------------------------- filewrite

    /** The state that writing changes. */
    ghost function Now(): Disk
      reads this
    {
      Disk(blocks, inodes, dinodes)
    }

    /** One transaction of filewrite: begin_op, writei, advance, end_op. */
    method WriteChunk(f: File, src: seq<Byte>) returns (r: Io)
      requires Valid() && f.ip < |inodes| && 0 < |src| <= MAXCHUNK
      modifies `blocks, `inodes, `dinodes, `logged, f`off
      ensures Valid() && |inodes| == |old(inodes)| && Logs(old(blocks), blocks, logged)
      ensures old(inodes)[f.ip].typ == T_DEV ==> r == if old(inodes)[f.ip].major in writers then Handed else Fail
      ensures old(inodes)[f.ip].typ != T_DEV ==>
        !r.Handed? && (r.Fail? <==> WriteRefused(old(inodes)[f.ip].size, old(f.off), |src|))
      ensures r.Handed? || r.Fail? ==> Now() == old(Now()) && f.off == old(f.off)
      ensures r.Panic? ==> Full(sb, blocks) && OthersKept(old(Now()), Now(), f.ip)
      ensures r.Count? ==> r.n == |src| && f.off == old(f.off) + |src|
      ensures r.Count? ==> Transaction(old(Now()), Now(), logged, f.ip, old(f.off), src)
    {
      logged := {};
      r := Writei(f.ip, f.off, src);
      ChunkFits(old(f.off), |src|);
      assert logged - {} == logged;
      if r.Count? && r.n > 0 { f.off := f.off + r.n; }
    }

    /** Writes src in transactions of at most MAXCHUNK bytes: ops has the blocks each of them logged, states the file
        system between them. */
    method FileWrite(f: File, src: seq<Byte>) returns (r: Io, ghost ops: seq<set<nat>>, ghost states: seq<Disk>)
      requires Valid() && f.ip < |inodes|
      modifies `blocks, `inodes, `dinodes, `logged, f`off
      ensures Valid() && |inodes| == |old(inodes)|
      ensures !f.writable ==> r == Fail
      ensures f.writable && f.kind == FdNone ==> r == Panic
      ensures f.writable && f.kind == FdPipe ==> r == Handed
      ensures !f.writable || f.kind != FdInode ==> Now() == old(Now()) && f.off == old(f.off)
      ensures r.Panic? ==> OthersKept(old(Now()), Now(), f.ip)
      ensures f.writable && f.kind == FdInode && old(inodes)[f.ip].typ != T_DEV && !r.Panic? ==>
        && FileWritten(old(Now()), Now(), f.ip, old(f.off), f.off, src, r)
        && |ops| == Chunks(Taken(old(inodes)[f.ip].size, old(f.off), |src|))
      ensures Transactions(states, ops, f.ip, old(f.off), src) && states[0] == old(Now())
      ensures !r.Panic? ==> states[|ops|] == Now()
      ensures MappedBelow(old(Now()), f.ip) ==> forall k | 0 <= k < |ops| :: |ops[k]| <= MAXOPBLOCKS
    {
      ops, states := [], [Now()];
      if !f.writable { return Fail, ops, states; }
      if f.kind == FdPipe { return Handed, ops, states; }
      if f.kind != FdInode { return Panic, ops, states; }
      r, ops, states := WriteChunks(f, src);
      if MappedBelow(old(Now()), f.ip) {
        forall k | 0 <= k < |ops| ensures |ops[k]| <= MAXOPBLOCKS {
          WithinBudget(states, ops, f.ip, old(f.off), src, k);
        }
      }
    }

    /** One turn of filewrite's loop; it began in state was at offset off. */
    method ChunkTurn(f: File, src: seq<Byte>, i: nat, ghost was: Disk, ghost off: nat, ghost ops: seq<set<nat>>,
        ghost states: seq<Disk>)
      returns (next: nat, r: Io)
      requires Valid() && i < |src| && f.ip < |inodes| && f.off == off + i
      requires Progress(was, Now(), f.ip, off, src, i, ops, states)
      modifies `blocks, `inodes, `dinodes, `logged, f`off
      ensures Valid() && |inodes| == |old(inodes)| && (!r.Panic? ==> f.off == off + next)
      ensures r.Panic? ==> OthersKept(was, Now(), f.ip)
      ensures r.Fail? || r.Handed? ==> next == i && Now() == old(Now())
      ensures r.Handed? ==> was.inodes[f.ip].typ == T_DEV
      ensures r.Fail? && was.inodes[f.ip].typ != T_DEV ==>
        next == Taken(was.inodes[f.ip].size, off, |src|) && FileRefused(was.inodes[f.ip].size, off, |src|)
      ensures r.Count? ==> i < next && Progress(was, Now(), f.ip, off, src, next, ops + [logged], states + [Now()])
    {
      var end := i + Min(|src| - i, MAXCHUNK);
      ghost var mid := Now();
      r := WriteChunk(f, src[i..end]);
      TurnEnds(was, mid, Now(), f.ip, off, src, i, end, ops, states, logged, r);
      next := i;
      if r.Count? { next := end; }
    }

    /** filewrite's loop. */
    method WriteChunks(f: File, src: seq<Byte>) returns (r: Io, ghost ops: seq<set<nat>>, ghost states: seq<Disk>)
      requires Valid() && f.ip < |inodes|
      modifies `blocks, `inodes, `dinodes, `logged, f`off
      ensures Valid() && |inodes| == |old(inodes)|
      ensures r.Panic? ==> OthersKept(old(Now()), Now(), f.ip)
      ensures old(inodes)[f.ip].typ != T_DEV && !r.Panic? ==>
        && FileWritten(old(Now()), Now(), f.ip, old(f.off), f.off, src, r)
        && |ops| == Chunks(Taken(old(inodes)[f.ip].size, old(f.off), |src|))
      ensures Transactions(states, ops, f.ip, old(f.off), src) && states[0] == old(Now())
      ensures !r.Panic? ==> states[|ops|] == Now()
    {
      ghost var was, off := Now(), f.off;
      ops, states := [], [was];
      var i, n := 0, |src|;
      ProgressStart(was, f.ip, off, src);
      r := Count(0);
      while i < n
        invariant i <= n && Valid() && f.off == off + i && Progress(was, Now(), f.ip, off, src, i, ops, states)
      {
        var next, w := ChunkTurn(f, src, i, was, off, ops, states);
        if !w.Count? { return w, ops, states; }
        ops, states := ops + [logged], states + [Now()];
        i := next;
      }
      assert src[..n] == src;
      r := Count(n);
    }
  }
}

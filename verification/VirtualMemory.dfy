/** kalloc and kfree, and the operations on user address spaces built on them. */
module VirtualMemory {
  import opened Common
  import opened PageTables
  import opened VmFrames

  class Vm {
    /** kmem.freelist, first page first. */
    var free: seq<nat>
    var dir: Dirs
    var tab: Tabs
    var mem: map<nat, Page>
    const kmap: seq<Kmap>
    ghost var owner: Owner
    ghost const pool: set<nat>

    ghost predicate Valid()
      reads this
    {
      && Sound(dir, tab, owner) && Conserved(free, owner, pool) && pool <= mem.Keys
      && KmapsOk(kmap)
    }

    /** freerange over the pages first..last: all of them free, no directory yet. */
    constructor (kmap: seq<Kmap>, first: nat, last: nat)
      requires KmapsOk(kmap) && 0 < first
      ensures Valid() && this.kmap == kmap && dir == map[] && owner == map[]
      ensures forall f: nat :: f in pool <==> first <= f < last
      ensures forall f | f in pool :: mem[f] == JUNK
    {
      var p, list: seq<nat>, bytes: map<nat, Page> := first, [], map[];
      while p < last
        invariant p <= last || p == first
        invariant forall f: nat :: f in list <==> first <= f < p
        invariant forall i, j | 0 <= i < j < |list| :: list[i] != list[j]
        invariant bytes.Keys == (set f | f in list) && forall f | f in bytes :: bytes[f] == JUNK
      {
        assert forall i | 0 <= i < |list| :: list[i] in list;
        list, bytes := [p] + list, bytes[p := JUNK];
        p := p + 1;
      }
      this.kmap, free, mem, dir, tab, owner := kmap, list, bytes, map[], map[], map[];
      pool := set f | f in list;
    }

    ghost function Now(): Frames
      reads this
    {
      Frames(dir, tab, owner, mem, |free|)
    }

    // -------------------------------------------------------------- frames

    method Kalloc() returns (r: Option<nat>)
      requires Valid()
      modifies `free, `owner
      ensures Valid()
      ensures r.None? <==> old(free) == []
      ensures r.None? ==> free == old(free) && owner == old(owner)
      ensures r.Some? ==>
        && r.value !in old(owner) && owner == old(owner)[r.value := Held] && free == old(free)[1..]
        && r.value == old(free)[0]
    {
      if free == [] { return None; }
      TakenConserved(free, owner, pool);
      HoldSound(dir, tab, owner, free[0]);
      r := Some(free[0]);
      owner := owner[free[0] := Held];
      free := free[1..];
    }

    method Kfree(f: nat)
      requires Valid() && f in owner && owner[f] == Held
      modifies `free, `owner, `mem
      ensures Valid() && owner == old(owner) - {f} && free == [f] + old(free)
      ensures mem == old(mem)[f := JUNK]
    {
      GivenConserved(free, owner, pool, f);
      DropSound(dir, tab, owner, f);
      mem := mem[f := JUNK];
      free := [f] + free;
      owner := owner - {f};
    }

    // -------------------------------------------------------------- walkpgdir, mappages

    /** The table that serves page v, made if asked for. */
    method Walk(pg: nat, v: nat, alloc: bool) returns (r: Option<nat>)
      requires Valid() && pg in dir && v < ALLPAGES
      modifies `free, `dir, `tab, `owner
      ensures Valid() && pg in dir && SameUse(old(owner), owner, pg) && dir.Keys == old(dir).Keys
      ensures SameBut(old(dir), old(tab), dir, tab, pg, 0, 0)
      ensures r.Some? ==> Serves(dir, tab, pg, v, r.value)
      ensures r.None? ==>
        owner == old(owner) && free == old(free) && dir == old(dir) && tab == old(tab) && NoTable(dir, pg, v / ENTRIES)
      ensures !alloc ==> dir == old(dir) && tab == old(tab) && owner == old(owner) && free == old(free)
      ensures r.None? && alloc ==> free == []
      ensures r.Some? ==> OneTable(old(dir), dir, pg, v) && |old(free)| == |free| + TableCost(old(dir), pg, v)
    {
      assert DirOk(dir, owner, pg) && TabOk(dir, tab, owner, pg, v / ENTRIES);
      var pde := dir[pg][v / ENTRIES];
      if pde.Some? { return pde; }
      if !alloc { return None; }
      var t := Kalloc();
      if t.None? { return None; }
      Install(pg, v / ENTRIES, t.value);
      return t;
    }

    method Install(pg: nat, d: nat, t: nat)
      requires Valid() && pg in dir && d < ENTRIES && |dir[pg]| == ENTRIES && dir[pg][d].None? && t in owner
      requires owner[t] == Held
      modifies `dir, `tab, `owner
      ensures Valid() && dir == SetDir(old(dir), pg, d, t) && tab == old(tab)[t := NoPtes()]
      ensures owner == old(owner)[t := Tab(pg, d)]
      ensures SameBut(old(dir), old(tab), dir, tab, pg, 0, 0)
    {
      NewTableSound(dir, tab, owner, pg, d, t);
      forall p: nat, v: nat ensures Lookup(SetDir(dir, pg, d, t), tab[t := NoPtes()], p, v) == Lookup(dir, tab, p, v) {
        NewTableLookup(dir, tab, owner, pg, d, t, p, v);
      }
      RenamedConserved(free, owner, pool, owner[t := Tab(pg, d)]);
      dir := SetDir(dir, pg, d, t);
      tab := tab[t := NoPtes()];
      owner := owner[t := Tab(pg, d)];
    }

    // -------------------------------------------------------------- deallocuvm

    /** kfree(v); *pte = 0 */
    method Unmap(pg: nat, v: nat, t: nat)
      requires Valid() && Serves(dir, tab, pg, v, t) && v < USERPAGES && Lookup(dir, tab, pg, v).Present?
      modifies `free, `tab, `mem, `owner
      ensures Valid() && Lookup(dir, tab, pg, v) == Absent && SameBut(dir, old(tab), dir, tab, pg, v, v + 1)
      ensures owner == old(owner) - {Lookup(dir, old(tab), pg, v).pa}
      ensures mem == old(mem)[Lookup(dir, old(tab), pg, v).pa := JUNK]
    {
      var pa := tab[t][v % ENTRIES].pa;
      UnmapSound(dir, tab, owner, pg, v, t);
      forall p: nat, w: nat
        ensures Lookup(dir, SetPte(tab, t, v % ENTRIES, Absent), p, w) ==
          if p == pg && w == v then Absent else Lookup(dir, tab, p, w)
      {
        SetLookup(dir, tab, owner, pg, v, t, Absent, p, w);
      }
      RenamedConserved(free, owner, pool, owner[pa := Held]);
      tab := SetPte(tab, t, v % ENTRIES, Absent);
      owner := owner[pa := Held];
      Kfree(pa);
    }

    /** One turn of deallocuvm's loop at page a, with the page it goes on at. */
    method DeallocTurn(pg: nat, a: nat, ghost was: Owner, ghost lo: nat, ghost hi: nat) returns (next: nat)
      requires Valid() && pg in dir && lo <= a < hi <= USERPAGES && owner == Released(was, pg, lo, a)
      modifies `free, `dir, `tab, `mem, `owner
      ensures Valid() && dir == old(dir) && a < next
      ensures forall v: nat | a <= v < Min(next, hi) :: Lookup(dir, tab, pg, v) == Absent
      ensures SameBut(dir, old(tab), dir, tab, pg, a, Min(next, hi))
      ensures owner == Released(was, pg, lo, Min(next, hi))
      ensures forall f | f in owner :: f in old(owner) && f in mem && f in old(mem) && mem[f] == old(mem)[f]
    {
      var t := Walk(pg, a, false);
      next := a + 1;
      if t.None? {
        JumpSkipsNothing(dir, tab, pg, a);
        next := (a / ENTRIES + 1) * ENTRIES;
        ReleasedNone(dir, tab, was, owner, pg, lo, a, Min(next, hi));
      } else if tab[t.value][a % ENTRIES].Present? {
        ReleasedOne(dir, tab, was, owner, pg, lo, a, Lookup(dir, tab, pg, a).pa);
        Unmap(pg, a, t.value);
      } else {
        ReleasedNone(dir, tab, was, owner, pg, lo, a, next);
      }
    }

    /** Gives back every page between the sizes, jumping over missing tables. */
    method DeallocUvm(pg: nat, oldsz: nat, newsz: nat) returns (sz: nat)
      requires Valid() && pg in dir && oldsz <= KERNBASE
      modifies `free, `dir, `tab, `mem, `owner
      ensures Valid() && dir == old(dir) && sz == if newsz >= oldsz then oldsz else newsz
      ensures forall v: nat | PagesUp(newsz) <= v < PagesUp(oldsz) :: Lookup(dir, tab, pg, v) == Absent
      ensures SameBut(dir, old(tab), dir, tab, pg, PagesUp(newsz), PagesUp(oldsz))
      ensures owner == Released(old(owner), pg, PagesUp(newsz), PagesUp(oldsz))
      ensures SameBytes(owner, old(mem), mem)
    {
      PagesOrder(newsz, oldsz);
      ghost var lo, hi := PagesUp(newsz), PagesUp(oldsz);
      if newsz >= oldsz {
        assert owner == Released(owner, pg, lo, hi);
        return oldsz;
      }
      assert owner == Released(owner, pg, lo, lo);
      var a := PagesUp(newsz);
      BelowUp(a, oldsz);
      while a * PGSIZE < oldsz
        invariant Valid() && dir == old(dir) && lo <= a && (a * PGSIZE < oldsz <==> a < hi)
        invariant forall v: nat | lo <= v < Min(a, hi) :: Lookup(dir, tab, pg, v) == Absent
        invariant SameBut(dir, old(tab), dir, tab, pg, lo, Min(a, hi))
        invariant owner == Released(old(owner), pg, lo, Min(a, hi))
        invariant forall f | f in owner :: f in old(mem) && f in mem && mem[f] == old(mem)[f]
        decreases hi - a
      {
        var next := DeallocTurn(pg, a, old(owner), lo, hi);
        BelowUp(next, oldsz);
        a := next;
      }
      return newsz;
    }

    // -------------------------------------------------------------- freevm

    /** Gives back every frame of the address space: user pages, tables and the directory, each once. */
    method FreeVm(pg: nat)
      requires Valid() && pg in dir
      modifies `free, `dir, `tab, `mem, `owner
      ensures Valid() && dir == old(dir) - {pg} && owner == Others(old(owner), pg)
      ensures forall p: nat, v: nat | p != pg :: Lookup(dir, tab, p, v) == Lookup(old(dir), old(tab), p, v)
      ensures SameBytes(owner, old(mem), mem)
    {
      var _ := DeallocUvm(pg, KERNBASE, 0);
      assert DirOk(dir, owner, pg);
      var entries := dir[pg];
      ghost var o1 := owner;
      EntriesOwned(dir, tab, owner, pg);
      UsersBelow(old(dir), old(tab), old(owner));
      Retire(pg);
      DropsAll(o1, old(owner), entries, pg);
      FreeTables(pg, entries);
      Kfree(pg);
    }

    /** freevm of a directory made since d0, t0 and o0 were the state leaves that state's frames. */
    method Undo(pg: nat, ghost d0: Dirs, ghost t0: Tabs, ghost o0: Owner)
      requires Valid() && pg in dir && Sound(d0, t0, o0) && pg !in d0 && pg !in o0 && Grown(o0, owner, pg)
      requires dir.Keys == d0.Keys + {pg}
      modifies `free, `dir, `tab, `mem, `owner
      ensures Valid() && dir.Keys == d0.Keys && owner == o0
      ensures forall p: nat, v: nat | p != pg :: Lookup(dir, tab, p, v) == Lookup(old(dir), old(tab), p, v)
      ensures SameBytes(owner, old(mem), mem)
    {
      GrownBack(d0, t0, o0, owner, pg);
      FreeVm(pg);
      assert dir.Keys == d0.Keys;
    }

    method Retire(pg: nat)
      requires Valid() && pg in dir && forall v: nat | v < USERPAGES :: Lookup(dir, tab, pg, v) == Absent
      modifies `dir, `owner
      ensures Valid() && dir == old(dir) - {pg} && owner == Retired(old(owner), pg)
      ensures forall p: nat, v: nat | p != pg :: Lookup(dir, tab, p, v) == Lookup(old(dir), tab, p, v)
    {
      RetireSound(dir, tab, owner, pg);
      RenamedConserved(free, owner, pool, Retired(owner, pg));
      dir := dir - {pg};
      owner := Retired(owner, pg);
    }

    method FreeTables(pg: nat, entries: seq<Option<nat>>)
      requires Valid() && |entries| == ENTRIES && EntriesHeld(owner, entries)
      modifies `free, `mem, `owner
      ensures Valid() && owner == Dropped(old(owner), entries, ENTRIES)
      ensures SameBytes(owner, old(mem), mem)
    {
      var i := 0;
      assert owner == Dropped(owner, entries, 0);
      while i < ENTRIES
        invariant i <= ENTRIES && Valid() && owner == Dropped(old(owner), entries, i)
        invariant forall f | f in owner :: f in old(mem) && f in mem && mem[f] == old(mem)[f]
      {
        DroppedStep(old(owner), entries, i);
        if entries[i].Some? { Kfree(entries[i].value); }
        i := i + 1;
      }
    }

    // -------------------------------------------------------------- mappages

    /** mappages for one user page, with a frame just allocated. */
    method MapUser(pg: nat, v: nat, pa: nat, perm: nat) returns (r: MapResult)
      requires Valid() && pg in dir && v < USERPAGES && pa in owner && owner[pa] == Held
      modifies `free, `dir, `tab, `owner
      ensures Valid() && dir.Keys == old(dir).Keys
      ensures r.Remap? <==> Lookup(old(dir), old(tab), pg, v).Present?
      ensures r.Mapped? ==>
        Lookup(dir, tab, pg, v) == Present(pa, perm) && SameBut(old(dir), old(tab), dir, tab, pg, v, v + 1)
      ensures r.Mapped? ==> SameUse(old(owner)[pa := User(pg, v)], owner, pg)
      ensures !r.Mapped? ==> SameBut(old(dir), old(tab), dir, tab, pg, 0, 0) && SameUse(old(owner), owner, pg)
      ensures r.NoTableLeft? <==> old(free) == [] && NoTable(old(dir), pg, v / ENTRIES)
      ensures r.Mapped? ==> OneTable(old(dir), dir, pg, v) && |old(free)| == |free| + TableCost(old(dir), pg, v)
    {
      var t := Walk(pg, v, true);
      assert Lookup(dir, tab, pg, v) == Lookup(old(dir), old(tab), pg, v);
      if t.None? { return NoTableLeft; }
      if tab[t.value][v % ENTRIES].Present? { return Remap; }
      MapSound(dir, tab, owner, pg, v, t.value, pa, perm);
      forall p: nat, w: nat
        ensures Lookup(dir, SetPte(tab, t.value, v % ENTRIES, Present(pa, perm)), p, w) ==
          if p == pg && w == v then Present(pa, perm) else Lookup(dir, tab, p, w)
      {
        SetLookup(dir, tab, owner, pg, v, t.value, Present(pa, perm), p, w);
      }
      RenamedConserved(free, owner, pool, owner[pa := User(pg, v)]);
      tab := SetPte(tab, t.value, v % ENTRIES, Present(pa, perm));
      owner := owner[pa := User(pg, v)];
      return Mapped;
    }

    /** One page of the kernel's part. */
    method MapKernelPage(pg: nat, v: nat, pa: nat, perm: nat) returns (r: MapResult)
      requires Valid() && pg in dir && USERPAGES <= v < ALLPAGES
      modifies `free, `dir, `tab, `owner
      ensures Valid() && dir.Keys == old(dir).Keys && SameUse(old(owner), owner, pg)
      ensures r.Remap? <==> Lookup(old(dir), old(tab), pg, v).Present?
      ensures r.Mapped? ==>
        Lookup(dir, tab, pg, v) == Present(pa, perm) && SameBut(old(dir), old(tab), dir, tab, pg, v, v + 1)
      ensures !r.Mapped? ==> SameBut(old(dir), old(tab), dir, tab, pg, 0, 0)
    {
      var t := Walk(pg, v, true);
      assert Lookup(dir, tab, pg, v) == Lookup(old(dir), old(tab), pg, v);
      if t.None? { return NoTableLeft; }
      if tab[t.value][v % ENTRIES].Present? { return Remap; }
      MapKernelSound(dir, tab, owner, pg, v, t.value, pa, perm);
      forall p: nat, w: nat
        ensures Lookup(dir, SetPte(tab, t.value, v % ENTRIES, Present(pa, perm)), p, w) ==
          if p == pg && w == v then Present(pa, perm) else Lookup(dir, tab, p, w)
      {
        SetLookup(dir, tab, owner, pg, v, t.value, Present(pa, perm), p, w);
      }
      tab := SetPte(tab, t.value, v % ENTRIES, Present(pa, perm));
      return Mapped;
    }

    /** mappages for one range of the kernel's mappings. */
    method MapKernel(pg: nat, k: Kmap) returns (r: MapResult)
      requires Valid() && pg in dir && KmapOk(k)
      modifies `free, `dir, `tab, `owner
      ensures Valid() && dir.Keys == old(dir).Keys && SameUse(old(owner), owner, pg)
      ensures SameBut(old(dir), old(tab), dir, tab, pg, k.v, k.v + k.n)
      ensures r.Mapped? ==>
        forall v: nat | k.v <= v < k.v + k.n :: Lookup(dir, tab, pg, v) == Present(k.pa + (v - k.v), k.perm)
      ensures r.Remap? ==> exists v: nat | InKmap(k, v) :: Lookup(old(dir), old(tab), pg, v).Present?
    {
      var a, pa := k.v, k.pa;
      var last := k.v + k.n - 1;
      while true
        invariant k.v <= a <= last && pa == k.pa + (a - k.v) && Valid() && dir.Keys == old(dir).Keys
        invariant SameUse(old(owner), owner, pg)
        invariant SameBut(old(dir), old(tab), dir, tab, pg, k.v, a)
        invariant forall v: nat | k.v <= v < a :: Lookup(dir, tab, pg, v) == Present(k.pa + (v - k.v), k.perm)
        decreases last - a
      {
        assert InKmap(k, a) && Lookup(dir, tab, pg, a) == Lookup(old(dir), old(tab), pg, a);
        r := MapKernelPage(pg, a, pa, k.perm);
        if !r.Mapped? { return; }
        if a == last { return; }
        a, pa := a + 1, pa + 1;
      }
    }

    // -------------------------------------------------------------- setupkvm

    /** A new directory with the kernel's mappings and no user page, or nothing taken. */
    method SetupKvm() returns (r: Made)
      requires Valid()
      modifies `free, `dir, `tab, `mem, `owner
      ensures Valid() && !r.Panic?
      ensures r.Space? ==>
        r.pg !in old(dir) && r.pg !in old(owner) && dir.Keys == old(dir).Keys + {r.pg} && Grown(old(owner), owner, r.pg)
      ensures r.Space? ==> Mapping(dir, tab, r.pg, kmap, |kmap|)
      ensures r.NoMemory? ==> dir.Keys == old(dir).Keys && owner == old(owner)
      ensures forall p: nat, v: nat | p in old(dir) :: Lookup(dir, tab, p, v) == Lookup(old(dir), old(tab), p, v)
      ensures SameBytes(old(owner), old(mem), mem)
    {
      var f := Kalloc();
      if f.None? { return NoMemory; }
      var pg := f.value;
      NewDir(pg);
      ghost var o1 := owner;
      var ok := MapKernelAll(pg);
      GrownMore(old(owner), o1, owner, pg);
      if !ok {
        Undo(pg, old(dir), old(tab), old(owner));
        return NoMemory;
      }
      return Space(pg);
    }

    /** setupkvm's loop over kmap. */
    method MapKernelAll(pg: nat) returns (ok: bool)
      requires Valid() && pg in dir && forall v: nat :: Lookup(dir, tab, pg, v) == Absent
      modifies `free, `dir, `tab, `owner
      ensures Valid() && dir.Keys == old(dir).Keys && SameUse(old(owner), owner, pg)
      ensures ok ==> Mapping(dir, tab, pg, kmap, |kmap|)
      ensures forall p: nat, v: nat | p != pg :: Lookup(dir, tab, p, v) == Lookup(old(dir), old(tab), p, v)
    {
      var i := 0;
      while i < |kmap|
        invariant i <= |kmap| && Valid() && dir.Keys == old(dir).Keys && SameUse(old(owner), owner, pg)
        invariant Mapping(dir, tab, pg, kmap, i)
        invariant forall p: nat, v: nat | p != pg :: Lookup(dir, tab, p, v) == Lookup(old(dir), old(tab), p, v)
      {
        ghost var d1, t1 := dir, tab;
        MappingFresh(d1, t1, pg, kmap, i);
        var m := MapKernel(pg, kmap[i]);
        assert m != Remap;
        if m != Mapped { return false; }
        MappingMore(d1, t1, dir, tab, pg, kmap, i);
        i := i + 1;
      }
      return true;
    }

    method NewDir(pg: nat)
      requires Valid() && pg in owner && owner[pg] == Held
      modifies `dir, `owner
      ensures Valid() && pg !in old(dir) && dir == old(dir)[pg := NoTables()] && owner == old(owner)[pg := Dir]
      ensures forall p: nat, v: nat :: Lookup(dir, tab, p, v) == if p == pg then Absent else Lookup(old(dir), tab, p, v)
    {
      NewDirSound(dir, tab, owner, pg);
      RenamedConserved(free, owner, pool, owner[pg := Dir]);
      dir := dir[pg := NoTables()];
      owner := owner[pg := Dir];
    }

    // -------------------------------------------------------------- allocuvm

    /** A new zeroed page at a.  If it cannot be mapped, m is the frame that is still held. */
    method AllocPage(pg: nat, a: nat) returns (r: MapResult, m: Option<nat>)
      requires Valid() && pg in dir && a < USERPAGES
      modifies `free, `dir, `tab, `mem, `owner
      ensures Valid() && dir.Keys == old(dir).Keys
      ensures r.Remap? <==> Lookup(old(dir), old(tab), pg, a).Present? && old(free) != []
      ensures r.NoTableLeft? && old(free) != [] ==>
        Lookup(old(dir), old(tab), pg, a) == Absent && |old(free)| < 1 + TableCost(old(dir), pg, a)
      ensures r.Mapped? ==> GrewOne(old(Now()), Now(), pg, a)
      ensures !r.Mapped? ==> SameBut(old(dir), old(tab), dir, tab, pg, 0, 0) && HeldBesides(old(owner), owner, pg, m)
      ensures SameBytes(old(owner), old(mem), mem)
    {
      m := Kalloc();
      if m.None? { return NoTableLeft, m; }
      ghost var o1 := owner;
      mem := mem[m.value := ZERO];
      r := MapUser(pg, a, m.value, WRITE_USER);
      UseAfterMap(old(owner), o1, owner, pg, a, m.value);
    }

    /** allocuvm's way out at page a: give back the pages between the sizes, then the frame that could not be mapped.
        m0 is the state at the start, m1 the one before page a. */
    method AllocFails(pg: nat, oldsz: nat, newsz: nat, m: Option<nat>, ghost a: nat, ghost m0: Frames, ghost m1: Frames)
      requires Valid() && pg in dir && newsz <= KERNBASE && oldsz <= newsz && PagesUp(oldsz) <= a <= PagesUp(newsz)
      requires Growing(m0, m1, pg, PagesUp(oldsz), a) && HeldBesides(m1.owner, owner, pg, m)
      requires SameBut(m1.dir, m1.tab, dir, tab, pg, 0, 0) && SameBytes(m1.owner, m1.mem, mem)
      modifies `free, `dir, `tab, `mem, `owner
      ensures Valid() && dir == old(dir) && GaveUp(m0, Now(), pg, PagesUp(oldsz), PagesUp(newsz))
    {
      ghost var lo, hi := PagesUp(oldsz), PagesUp(newsz);
      GrewHolds(m0.owner, m1.owner, owner, pg, lo, a, hi, m);
      ReleasedHolding(m0.owner, owner, pg, lo, hi, m);
      var _ := DeallocUvm(pg, newsz, oldsz);
      if m.Some? { Kfree(m.value); }
    }

    /** One turn of allocuvm's loop, with its answer if it is the last. */
    method AllocTurn(pg: nat, oldsz: nat, newsz: nat, a: nat, ghost m0: Frames) returns (r: Option<Grow>)
      requires Valid() && pg in dir && newsz <= KERNBASE && oldsz <= newsz
      requires PagesUp(oldsz) <= a < PagesUp(newsz) && Growing(m0, Now(), pg, PagesUp(oldsz), a)
      modifies `free, `dir, `tab, `mem, `owner
      ensures Valid() && dir.Keys == old(dir).Keys
      ensures r.None? ==> Growing(m0, Now(), pg, PagesUp(oldsz), a + 1)
      ensures r.Some? ==>
        !r.value.Size? && Outcome(m0.dir, m0.tab, pg, PagesUp(oldsz), PagesUp(newsz), m0.free, newsz, r.value)
      ensures r == Some(Failed) ==> GaveUp(m0, Now(), pg, PagesUp(oldsz), PagesUp(newsz))
      ensures r == Some(Remapped) ==>
        SameBut(m0.dir, m0.tab, dir, tab, pg, PagesUp(oldsz), PagesUp(newsz)) && SameBytes(m0.owner, m0.mem, mem)
    {
      ghost var lo, hi, m1 := PagesUp(oldsz), PagesUp(newsz), Now();
      BelowUp(a, newsz);
      TableMissing(m0.dir, dir, pg, lo, a);
      var m, held := AllocPage(pg, a);
      if m.NoTableLeft? {
        OutcomeFailed(m0.dir, m0.tab, pg, lo, hi, m0.free, newsz, a);
        AllocFails(pg, oldsz, newsz, held, a, m0, m1);
        return Some(Failed);
      }
      if m.Remap? {
        OutcomeRemapped(m0.dir, m0.tab, pg, lo, hi, m0.free, newsz, a);
        return Some(Remapped);
      }
      GrowingMore(m0, m1, Now(), pg, lo, a);
      return None;
    }

    /** Grows the address space.  Whether it succeeds, runs out of frames or meets a mapped page is decided by the
        mappings and the number of free frames at the start. */
    method AllocUvm(pg: nat, oldsz: nat, newsz: nat) returns (r: Grow)
      requires Valid() && pg in dir
      modifies `free, `dir, `tab, `mem, `owner
      ensures Valid() && dir.Keys == old(dir).Keys
      ensures newsz >= KERNBASE ==> r == Failed && Now() == old(Now())
      ensures newsz < KERNBASE && newsz < oldsz ==> r == Size(oldsz) && Now() == old(Now())
      ensures var lo, hi := PagesUp(oldsz), PagesUp(newsz); oldsz <= newsz < KERNBASE ==>
        && Outcome(old(dir), old(tab), pg, lo, hi, |old(free)|, newsz, r)
        && (r.Size? ==> Growing(old(Now()), Now(), pg, lo, hi))
        && (r.Failed? ==> GaveUp(old(Now()), Now(), pg, lo, hi))
        && (r.Remapped? ==> SameBut(old(dir), old(tab), dir, tab, pg, lo, hi) && SameBytes(old(owner), old(mem), mem))
    {
      if newsz >= KERNBASE { return Failed; }
      if newsz < oldsz { return Size(oldsz); }
      ghost var lo, hi, m0 := PagesUp(oldsz), PagesUp(newsz), Now();
      var a := PagesUp(oldsz);
      BelowUp(a, newsz);
      PagesOrder(oldsz, newsz);
      while a * PGSIZE < newsz
        invariant lo <= a <= hi && (a * PGSIZE < newsz <==> a < hi) && Valid() && dir.Keys == old(dir).Keys
        invariant Growing(m0, Now(), pg, lo, a)
      {
        var end := AllocTurn(pg, oldsz, newsz, a, m0);
        if end.Some? { return end.value; }
        var next := a + 1;
        BelowUp(next, newsz);
        a := next;
      }
      OutcomeSize(m0.dir, m0.tab, pg, lo, hi, m0.free, newsz);
      return Size(newsz);
    }

    // -------------------------------------------------------------- copyuvm

    /** One turn of copyuvm's loop: page v of pg into d. */
    method CopyPage(pg: nat, d: nat, v: nat) returns (r: Turn)
      requires Valid() && pg in dir && d in dir && pg != d && v < USERPAGES && Lookup(dir, tab, d, v) == Absent
      modifies `free, `dir, `tab, `mem, `owner
      ensures Valid() && dir.Keys == old(dir).Keys
      ensures r.NotMapped? <==> Lookup(old(dir), old(tab), pg, v) == Absent
      ensures r.Done? ==>
        && CopyAt(Lookup(dir, tab, pg, v), Lookup(dir, tab, d, v), mem)
        && SameBut(old(dir), old(tab), dir, tab, d, v, v + 1)
      ensures !r.Done? ==> SameBut(old(dir), old(tab), dir, tab, d, 0, 0)
      ensures GrewBy(old(owner), owner, d, v, v + 1)
      ensures SameBytes(old(owner), old(mem), mem)
    {
      var t := Walk(pg, v, false);
      if t.None? { return NotMapped; }
      var pte := tab[t.value][v % ENTRIES];
      if pte.Absent? { return NotMapped; }
      assert PageOk(dir, tab, owner, pg, v);
      var m := Kalloc();
      if m.None? { return OutOfMemory; }
      ghost var o1 := owner;
      mem := mem[m.value := mem[pte.pa]];
      var mapped := MapUser(d, v, m.value, pte.flags);
      UseAfterMap(old(owner), o1, owner, d, v, m.value);
      if !mapped.Mapped? {
        Kfree(m.value);
        return OutOfMemory;
      }
      return Done;
    }

    /** A copy of the first sz bytes of an address space, with frames of its own; out of memory, nothing is taken.
        Panic stands for the panics on a page that is not mapped. */
    method CopyUvm(pg: nat, sz: nat) returns (r: Made)
      requires Valid() && pg in dir && sz <= KERNBASE
      modifies `free, `dir, `tab, `mem, `owner
      ensures Valid()
      ensures r.Space? ==> r.pg !in old(dir) && dir.Keys == old(dir).Keys + {r.pg} && Grown(old(owner), owner, r.pg)
      ensures r.Space? ==> Copied(dir, tab, mem, pg, r.pg, PagesUp(sz))
      ensures r.Space? ==> forall v: nat | PagesUp(sz) <= v < USERPAGES :: Lookup(dir, tab, r.pg, v) == Absent
      ensures r.NoMemory? ==> dir.Keys == old(dir).Keys && owner == old(owner)
      ensures r.Panic? ==> exists v: nat | v < PagesUp(sz) :: Lookup(old(dir), old(tab), pg, v) == Absent
      ensures forall p: nat, v: nat | p in old(dir) :: Lookup(dir, tab, p, v) == Lookup(old(dir), old(tab), p, v)
      ensures SameBytes(old(owner), old(mem), mem)
    {
      r := SetupKvm();
      if !r.Space? { return; }
      var d := r.pg;
      NoUserMapping(dir, tab, d, kmap);
      ghost var o1 := owner;
      var end := CopyPages(pg, d, sz);
      GrownBy(old(owner), o1, owner, d, 0, PagesUp(sz));
      if end.NotMapped? { return Panic; }
      if end.OutOfMemory? {
        Undo(d, old(dir), old(tab), old(owner));
        return NoMemory;
      }
    }

    /** copyuvm's loop. */
    method CopyPages(pg: nat, d: nat, sz: nat) returns (r: Turn)
      requires Valid() && pg in dir && d in dir && pg != d && sz <= KERNBASE
      requires forall v: nat | v < USERPAGES :: Lookup(dir, tab, d, v) == Absent
      modifies `free, `dir, `tab, `mem, `owner
      ensures Valid() && dir.Keys == old(dir).Keys && GrewBy(old(owner), owner, d, 0, PagesUp(sz))
      ensures r.Done? ==> Copied(dir, tab, mem, pg, d, PagesUp(sz))
      ensures r.NotMapped? ==> exists v: nat | v < PagesUp(sz) :: Lookup(old(dir), old(tab), pg, v) == Absent
      ensures SameBut(old(dir), old(tab), dir, tab, d, 0, PagesUp(sz))
      ensures SameBytes(old(owner), old(mem), mem)
    {
      var i := 0;
      BelowUp(i, sz);
      while i * PGSIZE < sz
        invariant i <= PagesUp(sz) <= USERPAGES && (i * PGSIZE < sz <==> i < PagesUp(sz))
        invariant Valid() && dir.Keys == old(dir).Keys && GrewBy(old(owner), owner, d, 0, i)
        invariant Copied(dir, tab, mem, pg, d, i) && SameBut(old(dir), old(tab), dir, tab, d, 0, i)
        invariant SameBytes(old(owner), old(mem), mem)
      {
        ghost var d1, t1, o1, m1 := dir, tab, owner, mem;
        r := CopyPage(pg, d, i);
        GrewMore(old(owner), o1, owner, d, 0, i);
        if !r.Done? { return; }
        CopiedMore(d1, t1, o1, m1, dir, tab, mem, pg, d, i);
        var next := i + 1;
        BelowUp(next, sz);
        i := next;
      }
      return Done;
    }
  }
}

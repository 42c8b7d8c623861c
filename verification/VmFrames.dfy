/** Which frames and mappings the operations on address spaces change. */
module VmFrames {
  import opened Common
  import opened PageTables

  const PGSIZE: nat := 4096
  const KERNBASE: nat := 0x8000_0000

  /** PGROUNDUP(x), in pages. */
  function PagesUp(x: nat): nat { (x + PGSIZE - 1) / PGSIZE }

  /** The contents of a page.  kfree fills it with junk. */
  type Page = seq<nat>
  const ZERO: Page := []
  const JUNK: Page := [1]

  /** PTE_W | PTE_U */
  const WRITE_USER: nat := 6

  /** One range of the kernel's mappings: n pages at v, to frame pa. */
  datatype Kmap = Kmap(v: nat, n: nat, pa: nat, perm: nat)

  predicate KmapOk(k: Kmap) { USERPAGES <= k.v && 0 < k.n && k.v + k.n <= ALLPAGES }

  predicate InKmap(k: Kmap, v: nat) { k.v <= v < k.v + k.n }

  predicate KmapsOk(kmap: seq<Kmap>) {
    && (forall i | 0 <= i < |kmap| :: KmapOk(kmap[i]))
    && (forall i, j | 0 <= i < j < |kmap| :: kmap[i].v + kmap[i].n <= kmap[j].v || kmap[j].v + kmap[j].n <= kmap[i].v)
  }

  /** Mappings of all directories agree, except those of pg at lo..hi. */
  ghost predicate SameBut(dir: Dirs, tab: Tabs, dir': Dirs, tab': Tabs, pg: nat, lo: nat, hi: nat) {
    forall p: nat, v: nat | !(p == pg && lo <= v < hi) :: Lookup(dir', tab', p, v) == Lookup(dir, tab, p, v)
  }

  /** Frames are used as they were, and new ones are tables of pg. */
  predicate SameUse(owner: Owner, owner': Owner, pg: nat) {
    && (forall f | f in owner :: f in owner' && owner'[f] == owner[f])
    && (forall f | f in owner' && f !in owner :: owner'[f].Tab? && owner'[f].pg == pg)
  }

  predicate NoTable(dir: Dirs, pg: nat, d: nat) { pg in dir && d < |dir[pg]| && dir[pg][d].None? }

  function TableCost(dir: Dirs, pg: nat, v: nat): nat { if NoTable(dir, pg, v / ENTRIES) then 1 else 0 }

  /** The frames of owner hold what they held. */
  predicate SameBytes(owner: Owner, mem: map<nat, Page>, mem': map<nat, Page>) {
    forall f | f in owner :: f in mem && f in mem' && mem'[f] == mem[f]
  }

  /** The frames that stay in use when pages lo..hi of pg are given back. */
  function Released(owner: Owner, pg: nat, lo: nat, hi: nat): Owner {
    map f | f in owner && !IsUser(owner[f], pg, lo, hi) :: owner[f]
  }

  predicate IsUser(u: Use, pg: nat, lo: nat, hi: nat) { u.User? && u.pg == pg && lo <= u.v < hi }

  /** Page v had frame pa. */
  lemma ReleasedOne(dir: Dirs, tab: Tabs, was: Owner, owner: Owner, pg: nat, lo: nat, v: nat, pa: nat)
    requires Sound(dir, tab, owner) && owner == Released(was, pg, lo, v) && lo <= v < USERPAGES
    requires Lookup(dir, tab, pg, v).Present? && Lookup(dir, tab, pg, v).pa == pa
    ensures owner - {pa} == Released(was, pg, lo, v + 1)
  {
    assert PageOk(dir, tab, owner, pg, v);
    forall f | f in owner && owner[f].User? && owner[f].pg == pg && owner[f].v == v
      ensures f == pa
    {
      assert UseOk(dir, tab, owner, f);
    }
  }

  /** Pages v..w were not mapped. */
  lemma ReleasedNone(dir: Dirs, tab: Tabs, was: Owner, owner: Owner, pg: nat, lo: nat, v: nat, w: nat)
    requires Sound(dir, tab, owner) && owner == Released(was, pg, lo, v) && lo <= v <= w
    requires forall x: nat | v <= x < w :: Lookup(dir, tab, pg, x) == Absent
    ensures owner == Released(was, pg, lo, w)
  {
    forall f | f in owner ensures !IsUser(owner[f], pg, v, w) {
      assert UseOk(dir, tab, owner, f);
    }
  }

  /** A page without a table: none of the pages up to the next table is mapped. */
  lemma JumpSkipsNothing(dir: Dirs, tab: Tabs, pg: nat, a: nat)
    requires NoTable(dir, pg, a / ENTRIES)
    ensures forall x: nat | a <= x < (a / ENTRIES + 1) * ENTRIES :: Lookup(dir, tab, pg, x) == Absent
    ensures a < (a / ENTRIES + 1) * ENTRIES
  {
    forall x: nat | a <= x < (a / ENTRIES + 1) * ENTRIES ensures Lookup(dir, tab, pg, x) == Absent {
      assert x / ENTRIES == a / ENTRIES;
    }
  }

  lemma BelowUp(a: nat, sz: nat)
    ensures a * PGSIZE < sz <==> a < PagesUp(sz)
    ensures sz <= KERNBASE ==> PagesUp(sz) <= USERPAGES
  {}

  lemma PagesOrder(x: nat, y: nat)
    ensures x >= y ==> PagesUp(x) >= PagesUp(y)
    ensures x < y ==> PagesUp(x) <= PagesUp(y)
  {}

  // ---------------------------------------------------------------- the frames of one address space

  predicate Of(u: Use, f: nat, pg: nat) { f == pg || (u.Tab? && u.pg == pg) || (u.User? && u.pg == pg) }

  function Others(owner: Owner, pg: nat): Owner { map f | f in owner && !Of(owner[f], f, pg) :: owner[f] }

  /** The tables a directory lists are distinct and held. */
  predicate EntriesHeld(owner: Owner, entries: seq<Option<nat>>) {
    && (forall d | 0 <= d < |entries| && entries[d].Some? ::
          entries[d].value in owner && owner[entries[d].value] == Held)
    && (forall d, e | 0 <= d < e < |entries| && entries[d].Some? && entries[e].Some? :: entries[d] != entries[e])
  }

  /** The first i tables listed are given back. */
  function Dropped(owner: Owner, entries: seq<Option<nat>>, i: nat): Owner
    requires i <= |entries|
  {
    map f | f in owner && Some(f) !in entries[..i] :: owner[f]
  }

  lemma DroppedStep(owner: Owner, entries: seq<Option<nat>>, i: nat)
    requires i < |entries| && EntriesHeld(owner, entries)
    ensures entries[i].None? ==> Dropped(owner, entries, i + 1) == Dropped(owner, entries, i)
    ensures entries[i].Some? ==>
      entries[i].value in Dropped(owner, entries, i) && Dropped(owner, entries, i)[entries[i].value] == Held
    ensures entries[i].Some? ==> Dropped(owner, entries, i + 1) == Dropped(owner, entries, i) - {entries[i].value}
  {
    assert entries[..i + 1] == entries[..i] + [entries[i]];
  }

  lemma EntriesOwned(dir: Dirs, tab: Tabs, owner: Owner, pg: nat)
    requires Sound(dir, tab, owner) && pg in dir
    ensures |dir[pg]| == ENTRIES && pg in owner && EntriesHeld(Retired(owner, pg), dir[pg])
    ensures Some(pg) !in dir[pg]
    ensures forall f | f in owner && owner[f].Tab? && owner[f].pg == pg :: Some(f) in dir[pg]
    ensures forall f | f in owner && Some(f) in dir[pg] :: owner[f].Tab? && owner[f].pg == pg
  {
    assert DirOk(dir, owner, pg);
    forall d | 0 <= d < ENTRIES && dir[pg][d].Some?
      ensures dir[pg][d].value in owner && owner[dir[pg][d].value] == Tab(pg, d)
    {
      assert TabOk(dir, tab, owner, pg, d);
    }
    forall f | f in owner && owner[f].Tab? && owner[f].pg == pg
      ensures Some(f) in dir[pg]
    {
      assert UseOk(dir, tab, owner, f);
    }
  }

  lemma UsersBelow(dir: Dirs, tab: Tabs, owner: Owner)
    requires Sound(dir, tab, owner)
    ensures forall f | f in owner && owner[f].User? :: owner[f].v < USERPAGES
  {
    forall f | f in owner && owner[f].User? ensures owner[f].v < USERPAGES { assert UseOk(dir, tab, owner, f); }
  }

  lemma DropsAll(owner: Owner, was: Owner, entries: seq<Option<nat>>, pg: nat)
    requires |entries| == ENTRIES && pg in owner && Some(pg) !in entries && owner == Released(was, pg, 0, USERPAGES)
    requires forall f | f in owner && owner[f].Tab? && owner[f].pg == pg :: Some(f) in entries
    requires forall f | f in owner && Some(f) in entries :: owner[f].Tab? && owner[f].pg == pg
    requires forall f | f in was && was[f].User? :: was[f].v < USERPAGES
    ensures pg in Dropped(Retired(owner, pg), entries, ENTRIES)
    ensures Dropped(Retired(owner, pg), entries, ENTRIES)[pg] == Held
    ensures Dropped(Retired(owner, pg), entries, ENTRIES) - {pg} == Others(was, pg)
  {
    assert entries[..ENTRIES] == entries;
  }

  /** How mappages ends: done, out of memory, or the "remap" panic. */
  datatype MapResult = Mapped | NoTableLeft | Remap

  /** How setupkvm and copyuvm end. */
  datatype Made = Space(pg: nat) | NoMemory | Panic

  /** How allocuvm ends; Remapped stands for the panic "remap". */
  datatype Grow = Size(sz: nat) | Failed | Remapped

  /** owner' has the frames of owner, used as before, and besides only frames of pg. */
  predicate Grown(owner: Owner, owner': Owner, pg: nat) {
    && (forall f | f in owner :: f in owner' && owner'[f] == owner[f])
    && (forall f | f in owner' && f !in owner :: Of(owner'[f], f, pg))
  }

  /** Undoing a growth leaves what was there. */
  lemma GrownBack(dir: Dirs, tab: Tabs, owner: Owner, owner': Owner, pg: nat)
    requires Sound(dir, tab, owner) && pg !in dir && pg !in owner && Grown(owner, owner', pg)
    ensures Others(owner', pg) == owner
  {
    forall f | f in owner ensures !Of(owner[f], f, pg) { assert UseOk(dir, tab, owner, f); }
  }

  /** The first i ranges are mapped in pg, and nothing else. */
  ghost predicate Mapping(dir: Dirs, tab: Tabs, pg: nat, kmap: seq<Kmap>, i: nat)
    requires i <= |kmap|
  {
    && (forall j, v: nat | 0 <= j < i && InKmap(kmap[j], v) ::
          Lookup(dir, tab, pg, v) == Present(kmap[j].pa + (v - kmap[j].v), kmap[j].perm))
    && (forall v: nat | Lookup(dir, tab, pg, v).Present? :: exists j | 0 <= j < i :: InKmap(kmap[j], v))
  }

  /** Ranges do not overlap, so the next one is unmapped and the remap panic stays away. */
  lemma MappingFresh(dir: Dirs, tab: Tabs, pg: nat, kmap: seq<Kmap>, i: nat)
    requires KmapsOk(kmap) && i < |kmap| && Mapping(dir, tab, pg, kmap, i)
    ensures forall v: nat | InKmap(kmap[i], v) :: Lookup(dir, tab, pg, v) == Absent
  {}

  lemma MappingMore(dir: Dirs, tab: Tabs, dir': Dirs, tab': Tabs, pg: nat, kmap: seq<Kmap>, i: nat)
    requires KmapsOk(kmap) && i < |kmap| && Mapping(dir, tab, pg, kmap, i)
    requires SameBut(dir, tab, dir', tab', pg, kmap[i].v, kmap[i].v + kmap[i].n)
    requires forall v: nat | kmap[i].v <= v < kmap[i].v + kmap[i].n ::
      Lookup(dir', tab', pg, v) == Present(kmap[i].pa + (v - kmap[i].v), kmap[i].perm)
    ensures Mapping(dir', tab', pg, kmap, i + 1)
  {
    forall v: nat | Lookup(dir', tab', pg, v).Present? ensures exists j | 0 <= j < i + 1 :: InKmap(kmap[j], v) {
      if InKmap(kmap[i], v) {
        assert InKmap(kmap[i], v);
      } else {
        var j :| 0 <= j < i && InKmap(kmap[j], v);
      }
    }
  }

  lemma GrownMore(o0: Owner, o1: Owner, o2: Owner, pg: nat)
    requires Grown(o0, o1, pg) && SameUse(o1, o2, pg)
    ensures Grown(o0, o2, pg)
  {}

  lemma NoUserMapping(dir: Dirs, tab: Tabs, pg: nat, kmap: seq<Kmap>)
    requires KmapsOk(kmap) && Mapping(dir, tab, pg, kmap, |kmap|)
    ensures forall v: nat | v < USERPAGES :: Lookup(dir, tab, pg, v) == Absent
  {}

  // ---------------------------------------------------------------- growing

  /** Pages lo..hi of pg are mapped to zeroed frames, writable by the user. */
  ghost predicate ZeroMapped(dir: Dirs, tab: Tabs, mem: map<nat, Page>, pg: nat, lo: nat, hi: nat) {
    forall v: nat | lo <= v < hi :: ZeroAt(Lookup(dir, tab, pg, v), mem)
  }

  predicate ZeroAt(e: Pte, mem: map<nat, Page>) {
    e.Present? && e.flags == WRITE_USER && e.pa in mem && mem[e.pa] == ZERO
  }

  /** Besides the frames of owner there are tables of pg, and user pages of pg at lo..hi. */
  predicate GrewBy(owner: Owner, owner': Owner, pg: nat, lo: nat, hi: nat) {
    && (forall f | f in owner :: f in owner' && owner'[f] == owner[f])
    && (forall f | f in owner' && f !in owner ::
          (owner'[f].Tab? && owner'[f].pg == pg) || IsUser(owner'[f], pg, lo, hi))
  }

  /** The same, and perhaps one frame that is held. */
  predicate GrewHolding(owner: Owner, owner': Owner, pg: nat, lo: nat, hi: nat, m: Option<nat>) {
    && (forall f | f in owner :: f in owner' && owner'[f] == owner[f])
    && (m.Some? ==> m.value in owner' && m.value !in owner && owner'[m.value] == Held)
    && (forall f | f in owner' && f !in owner && Some(f) != m ::
          (owner'[f].Tab? && owner'[f].pg == pg) || IsUser(owner'[f], pg, lo, hi))
  }

  predicate HeldBesides(owner: Owner, owner': Owner, pg: nat, m: Option<nat>) {
    GrewHolding(owner, owner', pg, 0, 0, m)
  }

  lemma UseAfterMap(o0: Owner, o1: Owner, o2: Owner, pg: nat, a: nat, m: nat)
    requires m !in o0 && o1 == o0[m := Held]
    ensures SameUse(o1[m := User(pg, a)], o2, pg) ==> GrewBy(o0, o2, pg, a, a + 1)
    ensures SameUse(o1, o2, pg) ==> HeldBesides(o0, o2, pg, Some(m))
  {}

  lemma GrewMore(o0: Owner, o1: Owner, o2: Owner, pg: nat, lo: nat, a: nat)
    requires GrewBy(o0, o1, pg, lo, a) && GrewBy(o1, o2, pg, a, a + 1) && lo <= a
    ensures GrewBy(o0, o2, pg, lo, a + 1)
  {}

  lemma GrewHolds(o0: Owner, o1: Owner, o2: Owner, pg: nat, lo: nat, a: nat, hi: nat, m: Option<nat>)
    requires GrewBy(o0, o1, pg, lo, a) && HeldBesides(o1, o2, pg, m) && a <= hi
    ensures GrewHolding(o0, o2, pg, lo, hi, m)
  {}

  /** Giving back all pages at lo..hi and the frame leaves tables as the only new frames. */
  lemma ReleasedHolding(owner: Owner, owner': Owner, pg: nat, lo: nat, hi: nat, m: Option<nat>)
    requires GrewHolding(owner, owner', pg, lo, hi, m)
    ensures m.Some? ==> m.value in Released(owner', pg, lo, hi) && Released(owner', pg, lo, hi)[m.value] == Held
    ensures SameUse(Released(owner, pg, lo, hi),
      if m.Some? then Released(owner', pg, lo, hi) - {m.value} else Released(owner', pg, lo, hi), pg)
  {
  }

  /** Pages lo..hi are not mapped. */
  ghost predicate Clear(dir: Dirs, tab: Tabs, pg: nat, lo: nat, hi: nat) {
    forall v: nat | lo <= v < hi :: Lookup(dir, tab, pg, v) == Absent
  }

  lemma ClearReleased(dir: Dirs, tab: Tabs, owner: Owner, pg: nat, lo: nat, hi: nat)
    requires Sound(dir, tab, owner) && Clear(dir, tab, pg, lo, hi)
    ensures Released(owner, pg, lo, hi) == owner
  {
    forall f | f in owner ensures !IsUser(owner[f], pg, lo, hi) { assert UseOk(dir, tab, owner, f); }
  }

  // ---------------------------------------------------------------- how far the free frames reach

  /** Page v is the first at or after lo to need a table that is missing. */
  predicate NewTable(dir: Dirs, pg: nat, lo: nat, v: nat) {
    NoTable(dir, pg, v / ENTRIES) && (v == lo || v % ENTRIES == 0)
  }

  /** Frames it takes to map pages lo..v: one each, and one for each missing table. */
  function Cost(dir: Dirs, pg: nat, lo: nat, v: nat): nat {
    if v <= lo then 0 else Cost(dir, pg, lo, v - 1) + 1 + if NewTable(dir, pg, lo, v - 1) then 1 else 0
  }

  lemma {:induction false} CostGrows(dir: Dirs, pg: nat, lo: nat, v: nat, w: nat)
    requires lo <= v <= w
    ensures Cost(dir, pg, lo, v) <= Cost(dir, pg, lo, w)
    decreases w
  {
    if v < w { CostGrows(dir, pg, lo, v, w - 1); }
  }

  /** Page v is the first mapped one of lo..hi. */
  ghost predicate FirstMapped(dir: Dirs, tab: Tabs, pg: nat, lo: nat, hi: nat, v: nat) {
    lo <= v < hi && Lookup(dir, tab, pg, v).Present? && Clear(dir, tab, pg, lo, v)
  }

  /** n frames are enough to come to a mapped page and to have one in hand there. */
  ghost predicate MeetsMapped(dir: Dirs, tab: Tabs, pg: nat, lo: nat, hi: nat, n: nat) {
    exists v: nat | v < hi :: FirstMapped(dir, tab, pg, lo, hi, v) && Cost(dir, pg, lo, v) < n
  }

  /** How growing by the pages lo..hi goes with n free frames. */
  ghost predicate Outcome(dir: Dirs, tab: Tabs, pg: nat, lo: nat, hi: nat, n: nat, newsz: nat, r: Grow) {
    && (r == Size(newsz) <==> Clear(dir, tab, pg, lo, hi) && Cost(dir, pg, lo, hi) <= n)
    && (r == Remapped <==> MeetsMapped(dir, tab, pg, lo, hi, n))
    && (r == Size(newsz) || r == Remapped || r == Failed)
  }

  lemma OutcomeSize(dir: Dirs, tab: Tabs, pg: nat, lo: nat, hi: nat, n: nat, newsz: nat)
    requires Clear(dir, tab, pg, lo, hi) && Cost(dir, pg, lo, hi) <= n
    ensures Outcome(dir, tab, pg, lo, hi, n, newsz, Size(newsz))
  {
  }

  lemma OutcomeRemapped(dir: Dirs, tab: Tabs, pg: nat, lo: nat, hi: nat, n: nat, newsz: nat, a: nat)
    requires FirstMapped(dir, tab, pg, lo, hi, a) && Cost(dir, pg, lo, a) < n
    ensures Outcome(dir, tab, pg, lo, hi, n, newsz, Remapped)
  {
  }

  /** The frames run out at page a. */
  lemma OutcomeFailed(dir: Dirs, tab: Tabs, pg: nat, lo: nat, hi: nat, n: nat, newsz: nat, a: nat)
    requires lo <= a < hi && Clear(dir, tab, pg, lo, a)
    requires n <= Cost(dir, pg, lo, a) || (Lookup(dir, tab, pg, a) == Absent && n < Cost(dir, pg, lo, a + 1))
    ensures Outcome(dir, tab, pg, lo, hi, n, newsz, Failed)
  {
    CostGrows(dir, pg, lo, a + 1, hi);
    forall v: nat | v < hi && FirstMapped(dir, tab, pg, lo, hi, v) ensures Cost(dir, pg, lo, v) >= n {
      assert v >= a;
      CostGrows(dir, pg, lo, a, v);
      if v > a { CostGrows(dir, pg, lo, a + 1, v); }
    }
  }

  /** Which tables of d0 are still missing when pages lo..a have been mapped. */
  ghost predicate TablesFrom(d0: Dirs, dir: Dirs, pg: nat, lo: nat, a: nat) {
    && (forall d: nat | a == lo || (a > 0 && (a - 1) / ENTRIES < d) :: NoTable(dir, pg, d) == NoTable(d0, pg, d))
    && (a > lo ==> !NoTable(dir, pg, (a - 1) / ENTRIES))
  }

  lemma TableMissing(d0: Dirs, dir: Dirs, pg: nat, lo: nat, a: nat)
    requires TablesFrom(d0, dir, pg, lo, a) && lo <= a
    ensures NoTable(dir, pg, a / ENTRIES) == NewTable(d0, pg, lo, a)
  {
    if a > lo {
      if a % 1024 == 0 { assert (a - 1) / 1024 < a / 1024; } else { assert (a - 1) / 1024 == a / 1024; }
    }
  }

  /** Only the table of page a is new. */
  ghost predicate OneTable(dir: Dirs, dir': Dirs, pg: nat, a: nat) {
    && !NoTable(dir', pg, a / ENTRIES)
    && forall d: nat | d != a / ENTRIES :: NoTable(dir', pg, d) == NoTable(dir, pg, d)
  }

  lemma TablesMore(d0: Dirs, dir: Dirs, dir': Dirs, pg: nat, lo: nat, a: nat)
    requires TablesFrom(d0, dir, pg, lo, a) && lo <= a && OneTable(dir, dir', pg, a)
    ensures TablesFrom(d0, dir', pg, lo, a + 1)
  {
    if a > 0 { assert (a - 1) / 1024 <= a / 1024; }
  }

  lemma ZeroKept(dir: Dirs, tab: Tabs, owner: Owner, mem: map<nat, Page>, dir': Dirs, tab': Tabs,
      mem': map<nat, Page>, pg: nat, lo: nat, a: nat)
    requires Sound(dir, tab, owner) && ZeroMapped(dir, tab, mem, pg, lo, a)
    requires SameBut(dir, tab, dir', tab', pg, a, a + 1) && a < USERPAGES
    requires SameBytes(owner, mem, mem')
    requires ZeroAt(Lookup(dir', tab', pg, a), mem')
    ensures ZeroMapped(dir', tab', mem', pg, lo, a + 1)
  {
    forall v: nat | lo <= v < a + 1 ensures ZeroAt(Lookup(dir', tab', pg, v), mem') {
      if v < a {
        assert ZeroAt(Lookup(dir, tab, pg, v), mem);
        assert PageOk(dir, tab, owner, pg, v);
      }
    }
  }

  // ---------------------------------------------------------------- copying

  /** e' maps a frame of its own with the same flags and the same bytes. */
  predicate CopyAt(e: Pte, e': Pte, mem: map<nat, Page>) {
    e.Present? && e'.Present? && e'.flags == e.flags && e'.pa != e.pa && e.pa in mem && e'.pa in mem
      && mem[e'.pa] == mem[e.pa]
  }

  ghost predicate Copied(dir: Dirs, tab: Tabs, mem: map<nat, Page>, pg: nat, d: nat, n: nat) {
    forall v: nat | v < n :: CopyAt(Lookup(dir, tab, pg, v), Lookup(dir, tab, d, v), mem)
  }

  lemma CopiedMore(dir: Dirs, tab: Tabs, owner: Owner, mem: map<nat, Page>, dir': Dirs, tab': Tabs,
      mem': map<nat, Page>, pg: nat, d: nat, n: nat)
    requires Sound(dir, tab, owner) && Copied(dir, tab, mem, pg, d, n) && pg != d && n < USERPAGES
    requires SameBut(dir, tab, dir', tab', d, n, n + 1)
    requires SameBytes(owner, mem, mem')
    requires CopyAt(Lookup(dir', tab', pg, n), Lookup(dir', tab', d, n), mem')
    ensures Copied(dir', tab', mem', pg, d, n + 1)
  {
    forall v: nat | v < n + 1 ensures CopyAt(Lookup(dir', tab', pg, v), Lookup(dir', tab', d, v), mem') {
      if v < n {
        assert CopyAt(Lookup(dir, tab, pg, v), Lookup(dir, tab, d, v), mem);
        assert PageOk(dir, tab, owner, pg, v) && PageOk(dir, tab, owner, d, v);
      }
    }
  }

  /** How one turn of copyuvm's loop ends. */
  datatype Turn = Done | OutOfMemory | NotMapped

  lemma GrownBy(o0: Owner, o1: Owner, o2: Owner, d: nat, lo: nat, hi: nat)
    requires Grown(o0, o1, d) && GrewBy(o1, o2, d, lo, hi)
    ensures Grown(o0, o2, d)
  {}

  // ---------------------------------------------------------------- allocuvm's loop

  /** The page tables, the frames and their contents, and the number of free frames. */
  datatype Frames = Frames(dir: Dirs, tab: Tabs, owner: Owner, mem: map<nat, Page>, free: nat)

  /** From m on, pages lo..a of pg have been mapped to zeroed frames; none of them was mapped before. */
  ghost predicate Growing(m: Frames, m': Frames, pg: nat, lo: nat, a: nat) {
    && ZeroMapped(m'.dir, m'.tab, m'.mem, pg, lo, a) && SameBut(m.dir, m.tab, m'.dir, m'.tab, pg, lo, a)
    && GrewBy(m.owner, m'.owner, pg, lo, a) && SameBytes(m.owner, m.mem, m'.mem)
    && Clear(m.dir, m.tab, pg, lo, a) && TablesFrom(m.dir, m'.dir, pg, lo, a)
    && m.free == m'.free + Cost(m.dir, pg, lo, a)
  }

  /** Page a alone, from m to m'. */
  ghost predicate GrewOne(m: Frames, m': Frames, pg: nat, a: nat) {
    && ZeroAt(Lookup(m'.dir, m'.tab, pg, a), m'.mem) && SameBut(m.dir, m.tab, m'.dir, m'.tab, pg, a, a + 1)
    && GrewBy(m.owner, m'.owner, pg, a, a + 1) && SameBytes(m.owner, m.mem, m'.mem)
    && Lookup(m.dir, m.tab, pg, a) == Absent && OneTable(m.dir, m'.dir, pg, a)
    && m.free == m'.free + 1 + TableCost(m.dir, pg, a)
  }

  lemma GrowingMore(m0: Frames, m: Frames, m': Frames, pg: nat, lo: nat, a: nat)
    requires Sound(m.dir, m.tab, m.owner) && lo <= a < USERPAGES && Growing(m0, m, pg, lo, a) && GrewOne(m, m', pg, a)
    ensures Growing(m0, m', pg, lo, a + 1)
  {
    TableMissing(m0.dir, m.dir, pg, lo, a);
    ZeroKept(m.dir, m.tab, m.owner, m.mem, m'.dir, m'.tab, m'.mem, pg, lo, a);
    GrewMore(m0.owner, m.owner, m'.owner, pg, lo, a);
    TablesMore(m0.dir, m.dir, m'.dir, pg, lo, a);
  }

  /** What running out of frames leaves: all pages at lo..hi unmapped, and new frames only as tables.  Pages that were
      mapped there before are gone as well. */
  ghost predicate GaveUp(m: Frames, m': Frames, pg: nat, lo: nat, hi: nat) {
    && SameBut(m.dir, m.tab, m'.dir, m'.tab, pg, lo, hi) && Clear(m'.dir, m'.tab, pg, lo, hi)
    && SameUse(Released(m.owner, pg, lo, hi), m'.owner, pg) && SameBytes(Released(m.owner, pg, lo, hi), m.mem, m'.mem)
  }

  /** If nothing was mapped there before, nothing has changed but for tables. */
  lemma GaveUpClean(m: Frames, m': Frames, pg: nat, lo: nat, hi: nat)
    requires Sound(m.dir, m.tab, m.owner) && Clear(m.dir, m.tab, pg, lo, hi) && GaveUp(m, m', pg, lo, hi)
    ensures SameBut(m.dir, m.tab, m'.dir, m'.tab, pg, 0, 0) && SameUse(m.owner, m'.owner, pg)
    ensures SameBytes(m.owner, m.mem, m'.mem)
  {
    ClearReleased(m.dir, m.tab, m.owner, pg, lo, hi);
  }
}

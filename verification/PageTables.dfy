/** Two-level page tables and the frames they are made of.  Addresses count pages. */
module PageTables {
  import opened Common

  const ENTRIES: nat := 1024
  /** KERNBASE and the end of the address space, in pages. */
  const USERPAGES: nat := 0x80000
  const ALLPAGES: nat := 0x100000

  datatype Pte = Absent | Present(pa: nat, flags: nat)

  /** What a frame taken from the allocator is used for: a directory, table d of a directory, the user page at v,
      or nothing yet. */
  datatype Use = Dir | Tab(pg: nat, d: nat) | User(pg: nat, v: nat) | Held

  type Dirs = map<nat, seq<Option<nat>>>
  type Tabs = map<nat, seq<Pte>>
  type Owner = map<nat, Use>

  /** The entry for page v, Absent if there is no table for it. */
  function Lookup(dir: Dirs, tab: Tabs, pg: nat, v: nat): Pte {
    if pg !in dir || v / ENTRIES >= |dir[pg]| then Absent
    else
      var t := dir[pg][v / ENTRIES];
      if t.None? || t.value !in tab || |tab[t.value]| != ENTRIES then Absent else tab[t.value][v % ENTRIES]
  }

  /** An address goes through the directory entry of its top ten bits and the table entry of the next ten. */
  lemma WalkIs(dir: Dirs, tab: Tabs, pg: nat, va: nat)
    requires pg in dir && |dir[pg]| == ENTRIES && va < 0x1_0000_0000
    ensures Lookup(dir, tab, pg, va / 0x1000) ==
      match dir[pg][va / 0x40_0000]
      case None => Absent
      case Some(t) => if t in tab && |tab[t]| == ENTRIES then tab[t][va / 0x1000 % 0x400] else Absent
  {
    assert va / 0x1000 / 0x400 == va / 0x40_0000;
  }

  // ---------------------------------------------------------------- invariant

  /** Directory pg is a frame of its own with a slot for every table. */
  predicate DirOk(dir: Dirs, owner: Owner, pg: nat) {
    pg in dir ==> |dir[pg]| == ENTRIES && pg in owner && owner[pg] == Dir
  }

  predicate TabOk(dir: Dirs, tab: Tabs, owner: Owner, pg: nat, d: nat) {
    pg in dir && d < |dir[pg]| && dir[pg][d].Some? ==>
      var t := dir[pg][d].value;
      t in tab && |tab[t]| == ENTRIES && t in owner && owner[t] == Tab(pg, d)
  }

  predicate PageOk(dir: Dirs, tab: Tabs, owner: Owner, pg: nat, v: nat) {
    v < USERPAGES && Lookup(dir, tab, pg, v).Present? ==>
      var pa := Lookup(dir, tab, pg, v).pa;
      pa in owner && owner[pa] == User(pg, v)
  }

  /** Every frame in use can be found from what it is used for: none is lost. */
  predicate UseOk(dir: Dirs, tab: Tabs, owner: Owner, f: nat) {
    f in owner ==>
      match owner[f]
      case Dir => f in dir
      case Tab(pg, d) => pg in dir && d < |dir[pg]| && dir[pg][d] == Some(f)
      case User(pg, v) => v < USERPAGES && Lookup(dir, tab, pg, v).Present? && Lookup(dir, tab, pg, v).pa == f
      case Held => true
  }

  ghost predicate Sound(dir: Dirs, tab: Tabs, owner: Owner) {
    && (forall pg :: DirOk(dir, owner, pg))
    && (forall pg, d :: TabOk(dir, tab, owner, pg, d))
    && (forall pg, v :: PageOk(dir, tab, owner, pg, v))
    && (forall f :: UseOk(dir, tab, owner, f))
  }

  /** The free list and the frames in use make up the pool, and nothing is in both or twice in the list. */
  predicate Conserved(free: seq<nat>, owner: Owner, pool: set<nat>) {
    && 0 !in pool && pool == (set f | f in free) + owner.Keys
    && (forall f | f in free :: f !in owner)
    && (forall i, j | 0 <= i < j < |free| :: free[i] != free[j])
  }

  lemma TakenConserved(free: seq<nat>, owner: Owner, pool: set<nat>)
    requires Conserved(free, owner, pool) && free != []
    ensures free[0] !in owner && Conserved(free[1..], owner[free[0] := Held], pool)
  {
    var f := free[0];
    assert forall x | x in free[1..] :: x in free && x != f;
    assert forall x | x in free && x != f :: x in free[1..];
  }

  lemma GivenConserved(free: seq<nat>, owner: Owner, pool: set<nat>, f: nat)
    requires Conserved(free, owner, pool) && f in owner
    ensures Conserved([f] + free, owner - {f}, pool)
  {
    assert forall x | x in [f] + free :: x == f || x in free;
  }

  /** Only what a frame is used for changes. */
  lemma RenamedConserved(free: seq<nat>, owner: Owner, pool: set<nat>, owner': Owner)
    requires Conserved(free, owner, pool) && owner'.Keys == owner.Keys
    ensures Conserved(free, owner', pool)
  {}

  // ---------------------------------------------------------------- one frame

  lemma HoldSound(dir: Dirs, tab: Tabs, owner: Owner, f: nat)
    requires Sound(dir, tab, owner) && f !in owner
    ensures Sound(dir, tab, owner[f := Held])
  {
    var o := owner[f := Held];
    forall pg ensures DirOk(dir, o, pg) { assert DirOk(dir, owner, pg); }
    forall pg, d ensures TabOk(dir, tab, o, pg, d) { assert TabOk(dir, tab, owner, pg, d); }
    forall pg, v ensures PageOk(dir, tab, o, pg, v) { assert PageOk(dir, tab, owner, pg, v); }
    forall g ensures UseOk(dir, tab, o, g) { assert UseOk(dir, tab, owner, g); }
  }

  lemma DropSound(dir: Dirs, tab: Tabs, owner: Owner, f: nat)
    requires Sound(dir, tab, owner) && f in owner && owner[f] == Held
    ensures Sound(dir, tab, owner - {f})
  {
    var o := owner - {f};
    forall pg ensures DirOk(dir, o, pg) { assert DirOk(dir, owner, pg); }
    forall pg, d ensures TabOk(dir, tab, o, pg, d) { assert TabOk(dir, tab, owner, pg, d); }
    forall pg, v ensures PageOk(dir, tab, o, pg, v) { assert PageOk(dir, tab, owner, pg, v); }
    forall g ensures UseOk(dir, tab, o, g) { assert UseOk(dir, tab, owner, g); }
  }

  // ---------------------------------------------------------------- a new table

  function NoPtes(): seq<Pte> { seq(ENTRIES, _ => Absent) }

  function NoTables(): seq<Option<nat>> { seq(ENTRIES, _ => None) }

  function SetDir(dir: Dirs, pg: nat, d: nat, t: nat): Dirs
    requires pg in dir && d < |dir[pg]|
  {
    dir[pg := dir[pg][d := Some(t)]]
  }

  /** An empty table changes no mapping. */
  lemma NewTableLookup(dir: Dirs, tab: Tabs, owner: Owner, pg: nat, d: nat, t: nat, p: nat, v: nat)
    requires Sound(dir, tab, owner) && pg in dir && d < ENTRIES && |dir[pg]| == ENTRIES && dir[pg][d].None?
    requires t in owner && owner[t] == Held
    ensures Lookup(SetDir(dir, pg, d, t), tab[t := NoPtes()], p, v) == Lookup(dir, tab, p, v)
  {
    assert TabOk(dir, tab, owner, p, v / ENTRIES);
  }

  lemma NewTableSound(dir: Dirs, tab: Tabs, owner: Owner, pg: nat, d: nat, t: nat)
    requires Sound(dir, tab, owner) && pg in dir && d < ENTRIES && |dir[pg]| == ENTRIES && dir[pg][d].None?
    requires t in owner && owner[t] == Held
    ensures Sound(SetDir(dir, pg, d, t), tab[t := NoPtes()], owner[t := Tab(pg, d)])
  {
    var dir', tab', o := SetDir(dir, pg, d, t), tab[t := NoPtes()], owner[t := Tab(pg, d)];
    forall p ensures DirOk(dir', o, p) { assert DirOk(dir, owner, p); }
    forall p, e ensures TabOk(dir', tab', o, p, e) { assert TabOk(dir, tab, owner, p, e); }
    forall p, v ensures PageOk(dir', tab', o, p, v) {
      NewTableLookup(dir, tab, owner, pg, d, t, p, v);
      assert PageOk(dir, tab, owner, p, v);
    }
    forall f ensures UseOk(dir', tab', o, f) {
      assert UseOk(dir, tab, owner, f);
      if f in owner && owner[f].User? { NewTableLookup(dir, tab, owner, pg, d, t, owner[f].pg, owner[f].v); }
    }
  }

  // ---------------------------------------------------------------- one entry

  function SetPte(tab: Tabs, t: nat, i: nat, e: Pte): Tabs
    requires t in tab && i < |tab[t]|
  {
    tab[t := tab[t][i := e]]
  }

  /** Table t serves page v of directory pg. */
  predicate Serves(dir: Dirs, tab: Tabs, pg: nat, v: nat, t: nat) {
    pg in dir && |dir[pg]| == ENTRIES && v < ALLPAGES && dir[pg][v / ENTRIES] == Some(t) && t in tab
      && |tab[t]| == ENTRIES
  }

  /** Writing an entry changes the mapping of that page alone, in all directories. */
  lemma SetLookup(dir: Dirs, tab: Tabs, owner: Owner, pg: nat, v: nat, t: nat, e: Pte, p: nat, w: nat)
    requires Sound(dir, tab, owner) && Serves(dir, tab, pg, v, t)
    ensures Lookup(dir, SetPte(tab, t, v % ENTRIES, e), p, w) == if p == pg && w == v then e else Lookup(dir, tab, p, w)
  {
    assert TabOk(dir, tab, owner, pg, v / ENTRIES) && TabOk(dir, tab, owner, p, w / ENTRIES);
    if p == pg && w / ENTRIES == v / ENTRIES && w % ENTRIES == v % ENTRIES { SamePage(v, w); }
  }

  lemma SamePage(v: nat, w: nat)
    requires v / ENTRIES == w / ENTRIES && v % ENTRIES == w % ENTRIES
    ensures v == w
  {
    assert v == ENTRIES * (v / ENTRIES) + v % ENTRIES && w == ENTRIES * (w / ENTRIES) + w % ENTRIES;
  }

  /** Mapping a held frame as a user page. */
  lemma MapSound(dir: Dirs, tab: Tabs, owner: Owner, pg: nat, v: nat, t: nat, pa: nat, flags: nat)
    requires Sound(dir, tab, owner) && Serves(dir, tab, pg, v, t) && v < USERPAGES && Lookup(dir, tab, pg, v) == Absent
    requires pa in owner && owner[pa] == Held
    ensures Sound(dir, SetPte(tab, t, v % ENTRIES, Present(pa, flags)), owner[pa := User(pg, v)])
  {
    var tab', o := SetPte(tab, t, v % ENTRIES, Present(pa, flags)), owner[pa := User(pg, v)];
    forall p ensures DirOk(dir, o, p) { assert DirOk(dir, owner, p); }
    forall p, d ensures TabOk(dir, tab', o, p, d) { assert TabOk(dir, tab, owner, p, d); }
    forall p, w ensures PageOk(dir, tab', o, p, w) {
      SetLookup(dir, tab, owner, pg, v, t, Present(pa, flags), p, w);
      assert PageOk(dir, tab, owner, p, w);
    }
    forall f ensures UseOk(dir, tab', o, f) {
      assert UseOk(dir, tab, owner, f);
      if f in owner && owner[f].User? {
        SetLookup(dir, tab, owner, pg, v, t, Present(pa, flags), owner[f].pg, owner[f].v);
      }
      SetLookup(dir, tab, owner, pg, v, t, Present(pa, flags), pg, v);
    }
  }

  /** Mapping anything at all in the kernel's part. */
  lemma MapKernelSound(dir: Dirs, tab: Tabs, owner: Owner, pg: nat, v: nat, t: nat, pa: nat, flags: nat)
    requires Sound(dir, tab, owner) && Serves(dir, tab, pg, v, t) && USERPAGES <= v
    ensures Sound(dir, SetPte(tab, t, v % ENTRIES, Present(pa, flags)), owner)
  {
    var tab' := SetPte(tab, t, v % ENTRIES, Present(pa, flags));
    forall p, d ensures TabOk(dir, tab', owner, p, d) { assert TabOk(dir, tab, owner, p, d); }
    forall p, w ensures PageOk(dir, tab', owner, p, w) {
      SetLookup(dir, tab, owner, pg, v, t, Present(pa, flags), p, w);
      assert PageOk(dir, tab, owner, p, w);
    }
    forall f ensures UseOk(dir, tab', owner, f) {
      assert UseOk(dir, tab, owner, f);
      if f in owner && owner[f].User? {
        SetLookup(dir, tab, owner, pg, v, t, Present(pa, flags), owner[f].pg, owner[f].v);
      }
    }
  }

  /** Unmapping a user page leaves its frame held. */
  lemma UnmapSound(dir: Dirs, tab: Tabs, owner: Owner, pg: nat, v: nat, t: nat)
    requires Sound(dir, tab, owner) && Serves(dir, tab, pg, v, t) && v < USERPAGES && Lookup(dir, tab, pg, v).Present?
    ensures Lookup(dir, tab, pg, v).pa in owner
    ensures Sound(dir, SetPte(tab, t, v % ENTRIES, Absent), owner[Lookup(dir, tab, pg, v).pa := Held])
  {
    var pa := Lookup(dir, tab, pg, v).pa;
    assert PageOk(dir, tab, owner, pg, v);
    var tab', o := SetPte(tab, t, v % ENTRIES, Absent), owner[pa := Held];
    forall p ensures DirOk(dir, o, p) { assert DirOk(dir, owner, p); }
    forall p, d ensures TabOk(dir, tab', o, p, d) { assert TabOk(dir, tab, owner, p, d); }
    forall p, w ensures PageOk(dir, tab', o, p, w) {
      SetLookup(dir, tab, owner, pg, v, t, Absent, p, w);
      assert PageOk(dir, tab, owner, p, w);
    }
    forall f ensures UseOk(dir, tab', o, f) {
      assert UseOk(dir, tab, owner, f);
      if f in owner && owner[f].User? { SetLookup(dir, tab, owner, pg, v, t, Absent, owner[f].pg, owner[f].v); }
    }
  }

  // ---------------------------------------------------------------- directories

  lemma NewDirSound(dir: Dirs, tab: Tabs, owner: Owner, f: nat)
    requires Sound(dir, tab, owner) && f in owner && owner[f] == Held
    ensures f !in dir && Sound(dir[f := NoTables()], tab, owner[f := Dir])
    ensures forall p: nat, v: nat ::
      Lookup(dir[f := NoTables()], tab, p, v) == if p == f then Absent else Lookup(dir, tab, p, v)
  {
    var dir', o := dir[f := NoTables()], owner[f := Dir];
    assert DirOk(dir, owner, f);
    forall p: nat, v: nat ensures Lookup(dir', tab, p, v) == if p == f then Absent else Lookup(dir, tab, p, v) {
      if p == f && v / ENTRIES < ENTRIES { assert dir'[p][v / ENTRIES].None?; }
    }
    forall p ensures DirOk(dir', o, p) { assert DirOk(dir, owner, p); }
    forall p, d ensures TabOk(dir', tab, o, p, d) { assert TabOk(dir, tab, owner, p, d); }
    forall p, v ensures PageOk(dir', tab, o, p, v) { assert PageOk(dir, tab, owner, p, v); }
    forall g ensures UseOk(dir', tab, o, g) { assert UseOk(dir, tab, owner, g); }
  }

  /** The directory and the tables of pg, no longer in use as such. */
  function Retired(owner: Owner, pg: nat): Owner {
    map f | f in owner :: if f == pg || (owner[f].Tab? && owner[f].pg == pg) then Held else owner[f]
  }

  lemma RetireSound(dir: Dirs, tab: Tabs, owner: Owner, pg: nat)
    requires Sound(dir, tab, owner) && pg in dir && forall v: nat | v < USERPAGES :: Lookup(dir, tab, pg, v) == Absent
    ensures Sound(dir - {pg}, tab, Retired(owner, pg))
    ensures forall p: nat, v: nat :: Lookup(dir - {pg}, tab, p, v) == if p == pg then Absent else Lookup(dir, tab, p, v)
  {
    var dir', o := dir - {pg}, Retired(owner, pg);
    forall p ensures DirOk(dir', o, p) { assert DirOk(dir, owner, p); }
    forall p, d ensures TabOk(dir', tab, o, p, d) { assert TabOk(dir, tab, owner, p, d); assert DirOk(dir, owner, pg); }
    forall p, v
      ensures PageOk(dir', tab, o, p, v)
    {
      assert PageOk(dir, tab, owner, p, v);
      assert DirOk(dir, owner, pg);
    }
    forall g ensures UseOk(dir', tab, o, g) { assert UseOk(dir, tab, owner, g); }
  }
}

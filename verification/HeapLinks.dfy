/** Headers linked in memory as a circular free list, and the chunks in use beside it. */
module HeapLinks {
  import opened Bytes
  import opened Common
  import opened FreeList

  datatype Header = Header(ptr: nat, size: nat)

  type Memory = map<nat, Header>

  function NextOf(i: nat, n: nat): nat { if i + 1 == n then 0 else i + 1 }

  /** The headers in memory form the circular list fl. */
  predicate Links(mem: Memory, fl: seq<Chunk>) { forall i: nat | i < |fl| :: LinkAt(mem, fl, i) }

  predicate LinkAt(mem: Memory, fl: seq<Chunk>, i: nat)
    requires i < |fl|
  {
    fl[i].addr in mem && mem[fl[i].addr] == Header(fl[NextOf(i, |fl|)].addr, fl[i].size)
  }

  /** Memory agrees on the chunks lo..hi. */
  predicate SameOn(mem: Memory, mem': Memory, fl: seq<Chunk>, lo: nat, hi: nat)
    requires hi <= |fl|
  {
    forall i | lo <= i < hi :: fl[i].addr in mem && fl[i].addr in mem' && mem'[fl[i].addr] == mem[fl[i].addr]
  }

  /** The address after chunk n - 1. */
  function AddrAt(fl: seq<Chunk>, n: nat): nat
    requires fl != [] && n <= |fl|
  {
    if n < |fl| then fl[n].addr else fl[0].addr
  }

  lemma LinksReplace(mem: Memory, mem': Memory, fl: seq<Chunk>, m: nat, n: nat, x: Chunk)
    requires Links(mem, fl) && 0 < m <= n <= |fl| && SameOn(mem, mem', fl, 0, m - 1) && SameOn(mem, mem', fl, n, |fl|)
    requires fl[m - 1].addr in mem' && mem'[fl[m - 1].addr] == Header(x.addr, fl[m - 1].size)
    requires x.addr in mem' && mem'[x.addr] == Header(AddrAt(fl, n), x.size)
    ensures Links(mem', Replace(fl, m, n, [x]))
  {
    var r := Replace(fl, m, n, [x]);
    forall i: nat | i < |r| ensures LinkAt(mem', r, i) {
      if i < m {
        assert r[i] == fl[i];
        if i + 1 < m { assert r[i + 1] == fl[i + 1] && LinkAt(mem, fl, i) && mem'[fl[i].addr] == mem[fl[i].addr]; }
      } else if i == m {
        if n < |fl| { assert r[i + 1] == fl[n]; }
      } else {
        var j := i - m - 1 + n;
        assert r[i] == fl[j] && LinkAt(mem, fl, j) && mem'[fl[j].addr] == mem[fl[j].addr];
        if j + 1 < |fl| { assert r[i + 1] == fl[j + 1]; }
      }
    }
  }

  lemma LinksDrop(mem: Memory, mem': Memory, fl: seq<Chunk>, k: nat)
    requires Links(mem, fl) && 0 < k < |fl| && SameOn(mem, mem', fl, 0, k - 1) && SameOn(mem, mem', fl, k + 1, |fl|)
    requires fl[k - 1].addr in mem' && mem'[fl[k - 1].addr] == Header(AddrAt(fl, k + 1), fl[k - 1].size)
    ensures Links(mem', Replace(fl, k, k + 1, []))
  {
    var r := Replace(fl, k, k + 1, []);
    forall i: nat | i < |r| ensures LinkAt(mem', r, i) {
      if i < k {
        assert r[i] == fl[i];
        if i + 1 < k { assert r[i + 1] == fl[i + 1] && LinkAt(mem, fl, i) && mem'[fl[i].addr] == mem[fl[i].addr]; }
        else if k + 1 < |fl| { assert r[i + 1] == fl[k + 1]; }
      } else {
        assert r[i] == fl[i + 1] && LinkAt(mem, fl, i + 1) && mem'[fl[i + 1].addr] == mem[fl[i + 1].addr];
        if i + 2 < |fl| { assert r[i + 1] == fl[i + 2]; }
      }
    }
  }

  lemma Untouched(mem: Memory, mem': Memory, fl: seq<Chunk>, lo: nat, hi: nat, a: nat, b: nat)
    requires Links(mem, fl) && hi <= |fl| && mem.Keys <= mem'.Keys
    requires (forall x | x in mem && x != a && x != b :: mem'[x] == mem[x])
    requires forall i | lo <= i < hi :: fl[i].addr != a && fl[i].addr != b
    ensures SameOn(mem, mem', fl, lo, hi)
  {
    forall i | lo <= i < hi
      ensures fl[i].addr in mem && fl[i].addr in mem' && mem'[fl[i].addr] == mem[fl[i].addr]
    {
      assert LinkAt(mem, fl, i);
    }
  }

  // ---------------------------------------------------------------- who has which unit

  /** Chunks in use: address to size. */
  type Live = map<nat, nat>

  /** The chunk in use at a is apart from the free ones and its header is intact. */
  predicate UseOk(fl: seq<Chunk>, live: Live, mem: Memory, base: nat, a: nat) {
    a in live ==> base < a && live[a] > 0 && Apart(fl, Chunk(a, live[a])) && a in mem && mem[a].size == live[a]
  }

  predicate PairOk(live: Live, a: nat, b: nat) {
    a in live && b in live && a != b ==> TwoApart(Chunk(a, live[a]), Chunk(b, live[b]))
  }

  /** Chunks in use are apart from each other and from the free ones, and their headers are intact. */
  ghost predicate LiveOk(fl: seq<Chunk>, live: Live, mem: Memory, base: nat) {
    (forall a :: UseOk(fl, live, mem, base, a)) && (forall a, b :: PairOk(live, a, b))
  }

  function Range(c: Chunk): set<nat> { set u: nat | u < End(c) && Holds(c, u) }

  function FreeUnits(fl: seq<Chunk>): set<nat> { set i: nat, u: nat | i < |fl| && u in Range(fl[i]) :: u }

  function LiveUnits(live: Live): set<nat> { set a: nat, u: nat | a in live && u in Range(Chunk(a, live[a])) :: u }

  /** Free and used chunks make up the memory obtained so far. */
  predicate Partition(fl: seq<Chunk>, live: Live, core: set<nat>) { core == FreeUnits(fl) + LiveUnits(live) }

  lemma FreeUnit(fl: seq<Chunk>, u: nat)
    ensures u in FreeUnits(fl) <==> InFree(fl, u)
  {
    if InFree(fl, u) {
      var i: nat :| i < |fl| && Holds(fl[i], u);
      assert u in Range(fl[i]);
    }
    if u in FreeUnits(fl) {
      var i: nat :| i < |fl| && u in Range(fl[i]);
      assert Holds(fl[i], u);
    }
  }

  lemma InsertedSet(fl: seq<Chunk>, k: nat, c: Chunk)
    requires Ordered(fl) && Between(fl, k, c) && Apart(fl, c) && c.size > 0
    ensures FreeUnits(Inserted(fl, k, c)) == FreeUnits(fl) + Range(c)
  {
    forall u: nat ensures u in FreeUnits(Inserted(fl, k, c)) <==> u in FreeUnits(fl) + Range(c) {
      InsertedUnits(fl, k, c, u);
      FreeUnit(fl, u);
      FreeUnit(Inserted(fl, k, c), u);
    }
  }

  lemma WithoutSet(fl: seq<Chunk>, k: nat, n: nat)
    requires Ordered(fl) && 0 < k < |fl| && 0 < n <= fl[k].size
    ensures FreeUnits(fl) == FreeUnits(Without(fl, k, n)) + Range(Cut(fl, k, n))
  {
    forall u: nat ensures u in FreeUnits(fl) <==> u in FreeUnits(Without(fl, k, n)) + Range(Cut(fl, k, n)) {
      WithoutUnits(fl, k, n, u);
      FreeUnit(fl, u);
      FreeUnit(Without(fl, k, n), u);
    }
  }

  lemma LiveLess(live: Live, bp: nat)
    requires bp in live
    ensures LiveUnits(live) == LiveUnits(live - {bp}) + Range(Chunk(bp, live[bp]))
  {
    var less := live - {bp};
    forall u: nat | u in LiveUnits(live) ensures u in LiveUnits(less) + Range(Chunk(bp, live[bp])) {
      var a: nat :| a in live && u in Range(Chunk(a, live[a]));
      if a != bp { assert a in less && less[a] == live[a]; }
    }
    forall u: nat | u in LiveUnits(less) ensures u in LiveUnits(live) {
      var a: nat :| a in less && u in Range(Chunk(a, less[a]));
      assert a in live && less[a] == live[a];
    }
  }

  lemma LiveMore(live: Live, a: nat, n: nat)
    requires a !in live
    ensures LiveUnits(live[a := n]) == LiveUnits(live) + Range(Chunk(a, n))
  {
    var more := live[a := n];
    assert more - {a} == live;
    LiveLess(more, a);
  }

  lemma FreeingLive(fl: seq<Chunk>, live: Live, mem: Memory, mem': Memory, base: nat, bp: nat, k: nat)
    requires Ordered(fl) && LiveOk(fl, live, mem, base) && bp in live && Between(fl, k, Chunk(bp, live[bp]))
    requires forall a | a in live && a != bp :: a in mem' && mem'[a].size == live[a]
    ensures LiveOk(Inserted(fl, k, Chunk(bp, live[bp])), live - {bp}, mem', base)
  {
    var c := Chunk(bp, live[bp]);
    assert UseOk(fl, live, mem, base, bp);
    forall a ensures UseOk(Inserted(fl, k, c), live - {bp}, mem', base, a) {
      assert UseOk(fl, live, mem, base, a) && PairOk(live, bp, a);
      if a in live && a != bp { ApartInserted(fl, k, c, Chunk(a, live[a])); }
    }
    forall a, b ensures PairOk(live - {bp}, a, b) { assert PairOk(live, a, b); }
  }

  lemma FreeingKeeps(fl: seq<Chunk>, live: Live, mem: Memory, mem': Memory, base: nat, core: set<nat>, bp: nat, k: nat)
    requires Ordered(fl) && LiveOk(fl, live, mem, base) && Partition(fl, live, core) && bp in live
    requires Between(fl, k, Chunk(bp, live[bp]))
    requires forall a | a in live && a != bp :: a in mem' && mem'[a].size == live[a]
    ensures LiveOk(Inserted(fl, k, Chunk(bp, live[bp])), live - {bp}, mem', base)
    ensures Partition(Inserted(fl, k, Chunk(bp, live[bp])), live - {bp}, core)
  {
    FreeingLive(fl, live, mem, mem', base, bp, k);
    assert UseOk(fl, live, mem, base, bp);
    InsertedSet(fl, k, Chunk(bp, live[bp]));
    LiveLess(live, bp);
  }

  lemma TakingKeeps(fl: seq<Chunk>, live: Live, mem: Memory, mem': Memory, base: nat, core: set<nat>, k: nat, n: nat)
    requires Ordered(fl) && fl[0].addr == base && LiveOk(fl, live, mem, base) && Partition(fl, live, core)
    requires 0 < k < |fl| && 0 < n <= fl[k].size
    requires forall a | a in live :: a in mem' && mem'[a].size == live[a]
    requires Cut(fl, k, n).addr in mem' && mem'[Cut(fl, k, n).addr].size == n
    ensures Cut(fl, k, n).addr !in live
    ensures LiveOk(Without(fl, k, n), live[Cut(fl, k, n).addr := n], mem', base)
    ensures Partition(Without(fl, k, n), live[Cut(fl, k, n).addr := n], core)
  {
    var c := Cut(fl, k, n);
    assert UseOk(fl, live, mem, base, c.addr);
    if c.addr in live { ApartWithout(fl, k, n, Chunk(c.addr, live[c.addr])); }
    TakingLive(fl, live, mem, mem', base, k, n);
    WithoutSet(fl, k, n);
    LiveMore(live, c.addr, n);
  }

  lemma TakingLive(fl: seq<Chunk>, live: Live, mem: Memory, mem': Memory, base: nat, k: nat, n: nat)
    requires Ordered(fl) && fl[0].addr == base && LiveOk(fl, live, mem, base) && 0 < k < |fl| && 0 < n <= fl[k].size
    requires forall a | a in live :: a in mem' && mem'[a].size == live[a]
    requires Cut(fl, k, n).addr in mem' && mem'[Cut(fl, k, n).addr].size == n && Cut(fl, k, n).addr !in live
    ensures LiveOk(Without(fl, k, n), live[Cut(fl, k, n).addr := n], mem', base)
  {
    var c := Cut(fl, k, n);
    var more := live[c.addr := n];
    CutApart(fl, k, n);
    assert Before(fl[0], fl[k]);
    forall a ensures UseOk(Without(fl, k, n), more, mem', base, a) {
      assert UseOk(fl, live, mem, base, a);
      if a in live { ApartWithout(fl, k, n, Chunk(a, live[a])); }
    }
    forall a, b ensures PairOk(more, a, b) {
      assert PairOk(live, a, b) && UseOk(fl, live, mem, base, a) && UseOk(fl, live, mem, base, b);
      if a in live { ApartWithout(fl, k, n, Chunk(a, live[a])); }
      if b in live { ApartWithout(fl, k, n, Chunk(b, live[b])); }
    }
  }

  /** New memory lies above all chunks. */
  lemma GrowingAbove(fl: seq<Chunk>, live: Live, mem: Memory, base: nat, core: set<nat>, hp: nat)
    requires Ordered(fl) && LiveOk(fl, live, mem, base) && Partition(fl, live, core) && fl[0].addr < hp
    requires forall u | u in core :: u < hp
    ensures forall i | 0 <= i < |fl| :: End(fl[i]) <= hp && fl[i].addr < hp
    ensures forall a | a in live :: a + live[a] <= hp && a < hp
  {
    forall i: nat | i < |fl| ensures End(fl[i]) <= hp && fl[i].addr < hp {
      if i > 0 { assert End(fl[i]) - 1 in Range(fl[i]); assert End(fl[i]) - 1 in FreeUnits(fl); }
    }
    forall a: nat | a in live ensures a + live[a] <= hp && a < hp {
      assert UseOk(fl, live, mem, base, a);
      assert Holds(Chunk(a, live[a]), a + live[a] - 1);
      assert a + live[a] - 1 in Range(Chunk(a, live[a]));
      assert a + live[a] - 1 in LiveUnits(live);
    }
  }

  lemma GrowingKeeps(fl: seq<Chunk>, live: Live, mem: Memory, mem': Memory, base: nat, core: set<nat>, hp: nat, n: nat)
    requires Ordered(fl) && LiveOk(fl, live, mem, base) && Partition(fl, live, core) && base < hp && n > 0
    requires fl[0].addr == base
    requires forall u | u in core :: u < hp
    requires hp in mem' && mem'[hp].size == n && mem.Keys <= mem'.Keys
    requires forall a | a in mem && a != hp :: mem'[a] == mem[a]
    ensures hp !in live && LiveOk(fl, live[hp := n], mem', base)
    ensures Partition(fl, live[hp := n], core + Range(Chunk(hp, n)))
  {
    GrowingAbove(fl, live, mem, base, core, hp);
    var more := live[hp := n];
    forall a ensures UseOk(fl, more, mem', base, a) { assert UseOk(fl, live, mem, base, a); }
    forall a, b ensures PairOk(more, a, b) { assert PairOk(live, a, b); }
    LiveMore(live, hp, n);
  }

  /** What free writes: first the header of bp, then that of p. */
  function Merge(mem: Memory, p: nat, bp: nat): Memory
    requires p in mem && bp in mem && mem[p].ptr in mem
  {
    var next := mem[p].ptr;
    var right := if bp + mem[bp].size == next then Header(mem[next].ptr, mem[bp].size + mem[next].size)
      else Header(next, mem[bp].size);
    var mid := mem[bp := right];
    mid[p := if p + mid[p].size == bp then Header(right.ptr, mid[p].size + right.size) else Header(bp, mid[p].size)]
  }

  lemma LinksInserted(mem: Memory, mem': Memory, fl: seq<Chunk>, k: nat, c: Chunk)
    requires Ordered(fl) && Links(mem, fl) && Between(fl, k, c) && Apart(fl, c) && c.size > 0 && c.addr in mem
    requires mem[c.addr].size == c.size
    requires fl[k].addr in mem && mem[fl[k].addr].ptr in mem && mem' == Merge(mem, fl[k].addr, c.addr)
    ensures Links(mem', Inserted(fl, k, c))
  {
    GapAround(fl, k, c);
    assert LinkAt(mem, fl, k);
    if k > 0 { assert LinkAt(mem, fl, k - 1); }
    if k + 1 < |fl| { assert LinkAt(mem, fl, k + 1); }
    var m, n, x := First(fl, k, c), Last(fl, k, c), Merged(fl, k, c);
    forall i | 0 <= i < |fl| && i != k ensures fl[i].addr != fl[k].addr && fl[i].addr != c.addr {
      if i < k {
        assert Before(fl[i], fl[k]);
      } else {
        assert Before(fl[k], fl[i]);
        assert TwoApart(fl[i], c);
        assert k + 1 < i ==> Before(fl[k + 1], fl[i]);
      }
    }
    Untouched(mem, mem', fl, 0, k, fl[k].addr, c.addr);
    Untouched(mem, mem', fl, k + 1, |fl|, fl[k].addr, c.addr);
    LinksReplace(mem, mem', fl, m, n, x);
  }

  lemma LiveHeaders(fl: seq<Chunk>, live: Live, mem: Memory, mem': Memory, base: nat, bp: nat, k: nat)
    requires LiveOk(fl, live, mem, base) && bp in live && bp in mem && k < |fl| && fl[k].addr in mem
    requires mem[fl[k].addr].ptr in mem
    requires mem' == Merge(mem, fl[k].addr, bp) && Ordered(fl) && fl[0].addr == base
    ensures forall a | a in live && a != bp :: a in mem' && mem'[a].size == live[a]
  {
    forall a | a in live && a != bp ensures a in mem' && mem'[a].size == live[a] {
      assert UseOk(fl, live, mem, base, a);
      assert TwoApart(fl[k], Chunk(a, live[a]));
    }
  }

  lemma InsertedAt(fl: seq<Chunk>, k: nat, c: Chunk)
    requires k < |fl|
    ensures k < |Inserted(fl, k, c)| && Inserted(fl, k, c)[k].addr == fl[k].addr
  {}

  /** How many headers morecore asks sbrk for: what is needed, but never less than 32 kilobytes. */
  function Asked(nu: nat): (n: nat)
    ensures n >= nu && 8 * n >= 32768 && (n == nu || 8 * n == 32768)
  {
    if nu < MINCORE then MINCORE else nu
  }

  lemma GrowingLinks(fl: seq<Chunk>, mem: Memory, mem': Memory, hp: nat)
    requires Links(mem, fl) && forall i | 0 <= i < |fl| :: fl[i].addr < hp
    requires hp in mem' && mem.Keys <= mem'.Keys && forall x | x in mem && x != hp :: mem'[x] == mem[x]
    ensures Links(mem', fl)
  {
    forall i: nat | i < |fl| ensures LinkAt(mem', fl, i) { assert LinkAt(mem, fl, i); }
  }

  lemma MergedBig(fl: seq<Chunk>, k: nat, c: Chunk)
    requires k < |fl|
    ensures exists g | 0 <= g < |Inserted(fl, k, c)| :: Inserted(fl, k, c)[g].size >= c.size
  {
    var m := First(fl, k, c);
    assert Inserted(fl, k, c)[m] == Merged(fl, k, c);
  }

  /** What malloc writes when it cuts n headers off chunk k. */
  predicate TakenWrites(mem: Memory, mem': Memory, fl: seq<Chunk>, k: nat, n: nat)
    requires 0 < k < |fl| && n <= fl[k].size
  {
    var p, prevp := fl[k].addr, fl[k - 1].addr;
    p in mem && prevp in mem &&
    if fl[k].size == n then mem' == mem[prevp := Header(mem[p].ptr, mem[prevp].size)]
    else
      var a := p + (fl[k].size - n);
      var mid := mem[p := Header(mem[p].ptr, fl[k].size - n)];
      a in mem' && mem'[a].size == n && mem' == mid[a := mem'[a]]
  }

  lemma OneAddr(fl: seq<Chunk>, i: nat, j: nat)
    requires Ordered(fl) && i < |fl| && j < |fl| && i != j
    ensures fl[i].addr != fl[j].addr && !Holds(fl[i], fl[j].addr)
  {
    if i < j { assert Before(fl[i], fl[j]); } else { assert Before(fl[j], fl[i]); }
  }

  lemma LinksWhole(mem: Memory, mem': Memory, fl: seq<Chunk>, k: nat)
    requires Ordered(fl) && Links(mem, fl) && 0 < k < |fl| && TakenWrites(mem, mem', fl, k, fl[k].size)
    ensures Links(mem', Replace(fl, k, k + 1, []))
  {
    assert LinkAt(mem, fl, k) && LinkAt(mem, fl, k - 1);
    assert mem[fl[k].addr].ptr == AddrAt(fl, k + 1) && mem[fl[k - 1].addr] == Header(fl[k].addr, fl[k - 1].size);
    forall i | 0 <= i < |fl| && i != k - 1 ensures fl[i].addr != fl[k - 1].addr { OneAddr(fl, i, k - 1); }
    Untouched(mem, mem', fl, 0, k - 1, fl[k - 1].addr, fl[k - 1].addr);
    Untouched(mem, mem', fl, k + 1, |fl|, fl[k - 1].addr, fl[k - 1].addr);
    LinksDrop(mem, mem', fl, k);
  }

  lemma LinksTail(mem: Memory, mem': Memory, fl: seq<Chunk>, k: nat, n: nat)
    requires Ordered(fl) && Links(mem, fl) && 0 < k < |fl| && 0 < n < fl[k].size && TakenWrites(mem, mem', fl, k, n)
    ensures Links(mem', Replace(fl, k, k + 1, [Chunk(fl[k].addr, fl[k].size - n)]))
  {
    assert LinkAt(mem, fl, k) && LinkAt(mem, fl, k - 1);
    assert mem[fl[k].addr].ptr == AddrAt(fl, k + 1) && mem[fl[k - 1].addr] == Header(fl[k].addr, fl[k - 1].size);
    var a := fl[k].addr + (fl[k].size - n);
    assert Holds(fl[k], a);
    forall i | 0 <= i < |fl| && i != k ensures fl[i].addr != fl[k].addr && fl[i].addr != a { OneAddr(fl, k, i); }
    Untouched(mem, mem', fl, 0, k, fl[k].addr, a);
    Untouched(mem, mem', fl, k + 1, |fl|, fl[k].addr, a);
    LinksReplace(mem, mem', fl, k, k + 1, Chunk(fl[k].addr, fl[k].size - n));
  }

  lemma LinksTaken(mem: Memory, mem': Memory, fl: seq<Chunk>, k: nat, n: nat)
    requires Ordered(fl) && Links(mem, fl) && 0 < k < |fl| && 0 < n <= fl[k].size && TakenWrites(mem, mem', fl, k, n)
    ensures Links(mem', Without(fl, k, n))
  {
    if n == fl[k].size { LinksWhole(mem, mem', fl, k); } else { LinksTail(mem, mem', fl, k, n); }
  }

  lemma TakenHeaders(fl: seq<Chunk>, live: Live, mem: Memory, mem': Memory, base: nat, k: nat, n: nat)
    requires Ordered(fl) && fl[0].addr == base && Links(mem, fl) && LiveOk(fl, live, mem, base) && 0 < k < |fl|
    requires 0 < n <= fl[k].size && TakenWrites(mem, mem', fl, k, n)
    ensures forall a | a in live :: a in mem' && mem'[a].size == live[a]
    ensures Cut(fl, k, n).addr in mem' && mem'[Cut(fl, k, n).addr].size == n
  {
    assert LinkAt(mem, fl, k) && LinkAt(mem, fl, k - 1);
    OneAddr(fl, 0, k);
    forall a | a in live ensures a in mem' && mem'[a].size == live[a] {
      assert UseOk(fl, live, mem, base, a);
      assert TwoApart(fl[k], Chunk(a, live[a])) && TwoApart(fl[k - 1], Chunk(a, live[a]));
    }
  }

  lemma WithoutAt(fl: seq<Chunk>, k: nat, n: nat)
    requires 0 < k < |fl| && n <= fl[k].size
    ensures k - 1 < |Without(fl, k, n)| && Without(fl, k, n)[k - 1] == fl[k - 1]
  {}

  // ---------------------------------------------------------------- walking the ring

  /** Where c belongs: after the last chunk below it. */
  function Place(fl: seq<Chunk>, a: nat, k: nat): (r: nat)
    requires k < |fl| && fl[k].addr < a
    ensures k <= r < |fl| && fl[r].addr < a && (r + 1 < |fl| ==> a <= fl[r + 1].addr)
    decreases |fl| - k
  {
    if k + 1 < |fl| && fl[k + 1].addr < a then Place(fl, a, k + 1) else k
  }

  /** Steps along the ring of n from i to f. */
  function Steps(i: nat, f: nat, n: nat): nat
    requires i < n && f < n
  {
    if i <= f then f - i else n - i + f
  }

  lemma StepsDown(i: nat, f: nat, n: nat)
    requires i < n && f < n
    ensures i != f ==> Steps(NextOf(i, n), f, n) == Steps(i, f, n) - 1
    ensures Steps(NextOf(f, n), f, n) == n - 1 && Steps(i, f, n) <= n - 1
    ensures Steps(i, f, n) == 0 <==> i == f
  {}

  lemma StepsDistinct(i: nat, j: nat, f: nat, n: nat)
    requires i < n && j < n && f < n && Steps(i, f, n) == Steps(j, f, n)
    ensures i == j
  {}

  /** The ends of free's loop are met at the goal and nowhere else. */
  lemma SeekTurn(fl: seq<Chunk>, bp: nat, k: nat, goal: nat)
    requires Ordered(fl) && k < |fl| && fl[0].addr < bp && goal == Place(fl, bp, 0)
    requires forall i | 0 <= i < |fl| :: fl[i].addr != bp
    ensures var p, q := fl[k].addr, fl[NextOf(k, |fl|)].addr;
      (bp > p && bp < q) || (p >= q && (bp > p || bp < q)) <==> k == goal
  {
    if k < goal { assert Before(fl[k], fl[goal]); assert k + 1 < goal ==> Before(fl[k + 1], fl[goal]); }
    if goal < k { assert goal + 1 < k ==> Before(fl[goal + 1], fl[k]); assert Before(fl[0], fl[k]); }
    if k + 1 < |fl| { assert Before(fl[k], fl[k + 1]); }
    if 0 < k { assert Before(fl[0], fl[k]); }
  }

  lemma SeekDone(fl: seq<Chunk>, bp: nat, k: nat)
    requires Ordered(fl) && k < |fl| && fl[0].addr < bp && forall i | 0 <= i < |fl| :: fl[i].addr != bp
    requires var p, q := fl[k].addr, fl[NextOf(k, |fl|)].addr; (bp > p && bp < q) || (p >= q && (bp > p || bp < q))
    ensures fl[k].addr < bp && (k + 1 < |fl| ==> bp < fl[k + 1].addr)
  {
    if k + 1 < |fl| { assert Before(fl[k], fl[k + 1]); }
  }

  /** The chunks the search has passed on its way to k are too small. */
  predicate Tried(fl: seq<Chunk>, at: nat, k: nat, n: nat)
    requires at < |fl| && k < |fl|
  {
    forall j: nat | j < |fl| && Steps(j, at, |fl|) > Steps(k, at, |fl|) :: fl[j].size < n
  }

  /** Some chunk still ahead is large enough. */
  predicate Ahead(fl: seq<Chunk>, at: nat, k: nat, n: nat)
    requires at < |fl| && k < |fl|
  {
    exists j: nat | j < |fl| :: Steps(j, at, |fl|) <= Steps(k, at, |fl|) && fl[j].size >= n
  }

  predicate AllSmall(fl: seq<Chunk>, n: nat) { forall j | 0 <= j < |fl| :: fl[j].size < n }

  lemma TriedNone(fl: seq<Chunk>, at: nat, n: nat)
    requires at < |fl|
    ensures Tried(fl, at, NextOf(at, |fl|), n)
  {
    forall j: nat | j < |fl| ensures Steps(j, at, |fl|) <= Steps(NextOf(at, |fl|), at, |fl|) { StepsDown(j, at, |fl|); }
  }

  lemma TriedMore(fl: seq<Chunk>, at: nat, k: nat, n: nat)
    requires at < |fl| && k < |fl| && k != at && Tried(fl, at, k, n) && fl[k].size < n
    ensures Tried(fl, at, NextOf(k, |fl|), n)
  {
    StepsDown(k, at, |fl|);
    forall j: nat | j < |fl| && Steps(j, at, |fl|) > Steps(NextOf(k, |fl|), at, |fl|) ensures fl[j].size < n {
      if Steps(j, at, |fl|) == Steps(k, at, |fl|) { StepsDistinct(j, k, at, |fl|); }
    }
  }

  lemma TriedAll(fl: seq<Chunk>, at: nat, n: nat)
    requires at < |fl| && Tried(fl, at, at, n) && fl[at].size < n
    ensures AllSmall(fl, n)
  {
    forall j: nat | j < |fl| && j != at ensures fl[j].size < n { StepsDown(j, at, |fl|); }
  }

  lemma AheadAll(fl: seq<Chunk>, at: nat, n: nat)
    requires at < |fl| && exists g | 0 <= g < |fl| :: fl[g].size >= n
    ensures Ahead(fl, at, NextOf(at, |fl|), n)
  {
    var g: nat :| g < |fl| && fl[g].size >= n;
    StepsDown(g, at, |fl|);
  }

  lemma AheadMore(fl: seq<Chunk>, at: nat, k: nat, n: nat)
    requires at < |fl| && k < |fl| && Ahead(fl, at, k, n) && fl[k].size < n
    ensures k != at && Ahead(fl, at, NextOf(k, |fl|), n)
  {
    var j: nat :| j < |fl| && Steps(j, at, |fl|) <= Steps(k, at, |fl|) && fl[j].size >= n;
    if Steps(j, at, |fl|) == Steps(k, at, |fl|) { StepsDistinct(j, k, at, |fl|); }
    StepsDown(k, at, |fl|);
  }

  lemma AtFreep(fl: seq<Chunk>, at: nat, k: nat)
    requires Ordered(fl) && at < |fl| && k < |fl| && fl[k].addr == fl[at].addr
    ensures k == at
  {
    if k != at { OneAddr(fl, k, at); }
  }

  lemma BeginKeeps(live: Live, mem: Memory, base: nat, core: set<nat>)
    requires LiveOk([], live, mem, base) && Partition([], live, core)
    ensures LiveOk([Chunk(base, 0)], live, mem[base := Header(base, 0)], base)
    ensures Partition([Chunk(base, 0)], live, core)
  {
    var fl, mem' := [Chunk(base, 0)], mem[base := Header(base, 0)];
    forall a ensures UseOk(fl, live, mem', base, a) { assert UseOk([], live, mem, base, a); }
    assert FreeUnits(fl) == {} && FreeUnits([]) == {};
  }

  const MINCORE: nat := 4096

  /** Headers for nbytes bytes and the chunk's own header, in unsigned 32-bit arithmetic. */
  function Units(nbytes: Word): nat { Wrap(nbytes + 8 - 1) / 8 + 1 }

  /** That is room for the bytes, and no header more than needed, exactly up to 2^32 - 8 bytes; a larger
      request is taken for an empty one. */
  lemma UnitsFit(nbytes: Word)
    ensures 8 * (Units(nbytes) - 1) >= nbytes <==> nbytes <= 0xffff_fff8
    ensures nbytes <= 0xffff_fff8 ==> 8 * (Units(nbytes) - 2) < nbytes
    ensures nbytes > 0xffff_fff8 ==> Units(nbytes) == 1
  {
    if nbytes + 7 < 0x1_0000_0000 { assert Wrap(nbytes + 7) == nbytes + 7; }
    else { assert Wrap(nbytes + 7) == nbytes + 7 - 0x1_0000_0000; }
  }

  /** fl' is fl with n headers cut off the end of the first chunk behind position at that has as many; a is where they
      start. */
  ghost predicate NextFit(fl: seq<Chunk>, at: nat, n: nat, fl': seq<Chunk>, a: nat) {
    exists k | 0 < k < |fl| ::
      at < |fl| && Tried(fl, at, k, n) && n <= fl[k].size && a == End(fl[k]) - n && fl' == Without(fl, k, n)
  }
}

/** The free list of the user-space allocator as a sequence of chunks.  Addresses count headers. */
module FreeList {
  /** A chunk of size headers that starts at addr, its own header included. */
  datatype Chunk = Chunk(addr: nat, size: nat)

  function End(c: Chunk): nat { c.addr + c.size }

  predicate Holds(c: Chunk, u: nat) { c.addr <= u < End(c) }

  /** c ends below d, and they do not touch. */
  predicate Before(c: Chunk, d: Chunk) { End(c) < d.addr }

  /** The list starts with the empty chunk base, addresses go up, and no two chunks touch. */
  predicate Ordered(fl: seq<Chunk>) {
    && fl != [] && fl[0].size == 0
    && (forall i | 0 < i < |fl| :: fl[i].size > 0)
    && (forall i, j | 0 <= i < j < |fl| :: Before(fl[i], fl[j]))
  }

  /** Unit u is in one of the chunks lo..hi. */
  predicate InPart(fl: seq<Chunk>, lo: nat, hi: nat, u: nat)
    requires hi <= |fl|
  {
    exists i | lo <= i < hi :: Holds(fl[i], u)
  }

  /** Unit u is free. */
  predicate InFree(fl: seq<Chunk>, u: nat) { InPart(fl, 0, |fl|, u) }

  predicate TwoApart(c: Chunk, d: Chunk) { End(c) <= d.addr || End(d) <= c.addr }

  /** c lies apart from every chunk of the list. */
  predicate Apart(fl: seq<Chunk>, c: Chunk) { forall i | 0 <= i < |fl| :: TwoApart(fl[i], c) }

  lemma PartSplit(fl: seq<Chunk>, lo: nat, mid: nat, hi: nat, u: nat)
    requires lo <= mid <= hi <= |fl|
    ensures InPart(fl, lo, hi, u) <==> InPart(fl, lo, mid, u) || InPart(fl, mid, hi, u)
  {}

  lemma PartOne(fl: seq<Chunk>, k: nat, u: nat)
    requires k < |fl|
    ensures InPart(fl, k, k + 1, u) <==> Holds(fl[k], u)
  {}

  /** Chunks m..n replaced by x. */
  function Replace(fl: seq<Chunk>, m: nat, n: nat, x: seq<Chunk>): seq<Chunk>
    requires m <= n <= |fl|
  {
    fl[..m] + x + fl[n..]
  }

  lemma ReplaceOrdered(fl: seq<Chunk>, m: nat, n: nat, x: Chunk)
    requires Ordered(fl) && 0 < m <= n <= |fl| && x.size > 0 && End(fl[m - 1]) < x.addr
    requires (n < |fl| ==> End(x) < fl[n].addr)
    ensures Ordered(Replace(fl, m, n, [x])) && Replace(fl, m, n, [x])[0] == fl[0]
  {
    var r := Replace(fl, m, n, [x]);
    forall i, j | 0 <= i < j < |r| ensures Before(r[i], r[j]) {
      if j < m { assert r[i] == fl[i] && r[j] == fl[j]; }
      else if i < m && j == m { assert r[i] == fl[i] && r[j] == x; assert i < m - 1 ==> Before(fl[i], fl[m - 1]); }
      else if i < m { assert r[i] == fl[i] && r[j] == fl[j - m - 1 + n]; assert Before(fl[i], fl[j - m - 1 + n]); }
      else if i == m {
        assert r[i] == x && r[j] == fl[j - m - 1 + n];
        assert j - m - 1 > 0 ==> Before(fl[n], fl[j - m - 1 + n]);
      }
      else { assert r[i] == fl[i - m - 1 + n] && r[j] == fl[j - m - 1 + n]; }
    }
    forall i | 0 < i < |r| ensures r[i].size > 0 { assert r[i] ==
      if i < m then fl[i] else if i == m then x else fl[i - m - 1 + n]; }
  }

  lemma ReplaceUnits(fl: seq<Chunk>, m: nat, n: nat, x: seq<Chunk>, u: nat)
    requires m <= n <= |fl|
    ensures InFree(Replace(fl, m, n, x), u) <==> InPart(fl, 0, m, u) || InFree(x, u) || InPart(fl, n, |fl|, u)
  {
    var r := Replace(fl, m, n, x);
    var e := m + |x|;
    assert forall i | 0 <= i < m :: r[i] == fl[i];
    assert forall i | 0 <= i < |x| :: r[m + i] == x[i];
    assert forall i | n <= i < |fl| :: r[e + (i - n)] == fl[i];
    PartSplit(r, 0, m, |r|, u);
    PartSplit(r, m, e, |r|, u);
    MiddleUnits(r, m, x, u);
    TailUnits(r, e, fl, n, u);
  }

  lemma MiddleUnits(r: seq<Chunk>, m: nat, x: seq<Chunk>, u: nat)
    requires m + |x| <= |r| && forall i | 0 <= i < |x| :: r[m + i] == x[i]
    ensures InPart(r, m, m + |x|, u) <==> InFree(x, u)
  {
    if InPart(r, m, m + |x|, u) {
      var i :| m <= i < m + |x| && Holds(r[i], u);
      assert r[m + (i - m)] == x[i - m];
      assert Holds(x[i - m], u);
    }
    if InFree(x, u) {
      var i :| 0 <= i < |x| && Holds(x[i], u);
      assert Holds(r[m + i], u);
    }
  }

  lemma TailUnits(r: seq<Chunk>, e: nat, fl: seq<Chunk>, n: nat, u: nat)
    requires e <= |r| && n <= |fl| && |r| - e == |fl| - n && forall i | n <= i < |fl| :: r[e + (i - n)] == fl[i]
    ensures InPart(r, e, |r|, u) <==> InPart(fl, n, |fl|, u)
  {
    if InPart(r, e, |r|, u) {
      var i :| e <= i < |r| && Holds(r[i], u);
      assert r[e + (n + (i - e) - n)] == fl[n + (i - e)];
      assert Holds(fl[n + (i - e)], u);
    }
    if InPart(fl, n, |fl|, u) {
      var i :| n <= i < |fl| && Holds(fl[i], u);
      assert Holds(r[e + (i - n)], u);
    }
  }

  // ---------------------------------------------------------------- giving a chunk back

  /** c goes between position k and the next. */
  predicate Between(fl: seq<Chunk>, k: nat, c: Chunk) {
    k < |fl| && fl[k].addr < c.addr && (k + 1 < |fl| ==> c.addr < fl[k + 1].addr)
  }

  predicate JoinsRight(fl: seq<Chunk>, k: nat, c: Chunk) { k + 1 < |fl| && End(c) == fl[k + 1].addr }

  predicate JoinsLeft(fl: seq<Chunk>, k: nat, c: Chunk)
    requires k < |fl|
  {
    End(fl[k]) == c.addr
  }

  /** The chunk that c becomes, merged with the neighbours it touches. */
  function Merged(fl: seq<Chunk>, k: nat, c: Chunk): Chunk
    requires k < |fl|
  {
    var d := if JoinsRight(fl, k, c) then Chunk(c.addr, c.size + fl[k + 1].size) else c;
    if JoinsLeft(fl, k, c) then Chunk(fl[k].addr, fl[k].size + d.size) else d
  }

  function First(fl: seq<Chunk>, k: nat, c: Chunk): nat
    requires k < |fl|
  {
    if JoinsLeft(fl, k, c) then k else k + 1
  }

  function Last(fl: seq<Chunk>, k: nat, c: Chunk): (n: nat)
    requires k < |fl|
    ensures n <= |fl|
  {
    if JoinsRight(fl, k, c) then k + 2 else k + 1
  }

  function Inserted(fl: seq<Chunk>, k: nat, c: Chunk): seq<Chunk>
    requires k < |fl|
  {
    Replace(fl, First(fl, k, c), Last(fl, k, c), [Merged(fl, k, c)])
  }

  /** c lies after chunk k and before the next. */
  lemma GapAround(fl: seq<Chunk>, k: nat, c: Chunk)
    requires Ordered(fl) && Between(fl, k, c) && Apart(fl, c) && c.size > 0
    ensures End(fl[k]) <= c.addr && (k + 1 < |fl| ==> End(c) <= fl[k + 1].addr)
    ensures JoinsLeft(fl, k, c) ==> k > 0
  {
    assert TwoApart(fl[k], c);
    if k + 1 < |fl| { assert TwoApart(fl[k + 1], c); }
  }

  lemma InsertedOrdered(fl: seq<Chunk>, k: nat, c: Chunk)
    requires Ordered(fl) && Between(fl, k, c) && Apart(fl, c) && c.size > 0
    ensures Ordered(Inserted(fl, k, c)) && Inserted(fl, k, c)[0] == fl[0]
  {
    GapAround(fl, k, c);
    if k > 0 { assert Before(fl[k - 1], fl[k]); }
    if k + 1 < |fl| { assert Before(fl[k], fl[k + 1]); }
    if k + 2 < |fl| { assert Before(fl[k + 1], fl[k + 2]); }
    ReplaceOrdered(fl, First(fl, k, c), Last(fl, k, c), Merged(fl, k, c));
  }

  /** Exactly the units of c become free. */
  lemma InsertedUnits(fl: seq<Chunk>, k: nat, c: Chunk, u: nat)
    requires Ordered(fl) && Between(fl, k, c) && Apart(fl, c) && c.size > 0
    ensures InFree(Inserted(fl, k, c), u) <==> InFree(fl, u) || Holds(c, u)
  {
    GapAround(fl, k, c);
    var m, n, x := First(fl, k, c), Last(fl, k, c), Merged(fl, k, c);
    ReplaceUnits(fl, m, n, [x], u);
    PartOne([x], 0, u);
    PartSplit(fl, 0, m, |fl|, u);
    PartSplit(fl, m, n, |fl|, u);
    PartOne(fl, k, u);
    if k + 1 < |fl| { PartOne(fl, k + 1, u); }
    if m < k + 1 < n { PartSplit(fl, m, k + 1, n, u); }
  }

  // ---------------------------------------------------------------- taking a chunk out

  /** n headers from chunk k: all of it, or its tail. */
  function Without(fl: seq<Chunk>, k: nat, n: nat): seq<Chunk>
    requires k < |fl| && n <= fl[k].size
  {
    Replace(fl, k, k + 1, if fl[k].size == n then [] else [Chunk(fl[k].addr, fl[k].size - n)])
  }

  function Cut(fl: seq<Chunk>, k: nat, n: nat): Chunk
    requires k < |fl| && n <= fl[k].size
  {
    Chunk(End(fl[k]) - n, n)
  }

  lemma DropOrdered(fl: seq<Chunk>, k: nat)
    requires Ordered(fl) && 0 < k < |fl|
    ensures Ordered(Replace(fl, k, k + 1, [])) && Replace(fl, k, k + 1, [])[0] == fl[0]
  {
    var r := Replace(fl, k, k + 1, []);
    forall i, j | 0 <= i < j < |r| ensures Before(r[i], r[j]) {
      assert r[i] == (if i < k then fl[i] else fl[i + 1]) && r[j] == if j < k then fl[j] else fl[j + 1];
      assert Before(fl[if i < k then i else i + 1], fl[if j < k then j else j + 1]);
    }
  }

  lemma WithoutOrdered(fl: seq<Chunk>, k: nat, n: nat)
    requires Ordered(fl) && 0 < k < |fl| && 0 < n <= fl[k].size
    ensures Ordered(Without(fl, k, n)) && Without(fl, k, n)[0] == fl[0]
  {
    assert Before(fl[k - 1], fl[k]);
    if k + 1 < |fl| { assert Before(fl[k], fl[k + 1]); }
    if n < fl[k].size { ReplaceOrdered(fl, k, k + 1, Chunk(fl[k].addr, fl[k].size - n)); } else { DropOrdered(fl, k); }
  }

  /** Exactly the units that were cut off are free no more. */
  lemma WithoutUnits(fl: seq<Chunk>, k: nat, n: nat, u: nat)
    requires Ordered(fl) && 0 < k < |fl| && 0 < n <= fl[k].size
    ensures InFree(fl, u) <==> InFree(Without(fl, k, n), u) || Holds(Cut(fl, k, n), u)
    ensures Holds(Cut(fl, k, n), u) ==> !InFree(Without(fl, k, n), u)
  {
    var x := if fl[k].size == n then [] else [Chunk(fl[k].addr, fl[k].size - n)];
    ReplaceUnits(fl, k, k + 1, x, u);
    if x != [] { PartOne(x, 0, u); }
    PartSplit(fl, 0, k, |fl|, u);
    PartSplit(fl, k, k + 1, |fl|, u);
    PartOne(fl, k, u);
  }

  // ---------------------------------------------------------------- chunks in use

  lemma ApartReplace(fl: seq<Chunk>, m: nat, n: nat, x: seq<Chunk>, d: Chunk)
    requires m <= n <= |fl| && Apart(fl, d) && forall i | 0 <= i < |x| :: TwoApart(x[i], d)
    ensures Apart(Replace(fl, m, n, x), d)
  {
    var r := Replace(fl, m, n, x);
    forall i | 0 <= i < |r| ensures TwoApart(r[i], d) {
      if i < m { assert r[i] == fl[i]; } else if i < m + |x| { assert r[i] == x[i - m]; } else { assert r[i] == fl[i
      - m - |x| + n]; }
    }
  }

  /** A chunk in use stays apart from the list when another is given back. */
  lemma ApartInserted(fl: seq<Chunk>, k: nat, c: Chunk, d: Chunk)
    requires Ordered(fl) && Between(fl, k, c) && Apart(fl, c) && c.size > 0 && Apart(fl, d) && TwoApart(c, d)
    requires d.size > 0
    ensures Apart(Inserted(fl, k, c), d)
  {
    GapAround(fl, k, c);
    assert TwoApart(fl[k], d);
    if k + 1 < |fl| { assert TwoApart(fl[k + 1], d); }
    ApartReplace(fl, First(fl, k, c), Last(fl, k, c), [Merged(fl, k, c)], d);
  }

  lemma ApartWithout(fl: seq<Chunk>, k: nat, n: nat, d: Chunk)
    requires Ordered(fl) && 0 < k < |fl| && 0 < n <= fl[k].size && Apart(fl, d)
    ensures Apart(Without(fl, k, n), d) && TwoApart(Cut(fl, k, n), d)
  {
    assert TwoApart(fl[k], d);
    ApartReplace(fl, k, k + 1, if fl[k].size == n then [] else [Chunk(fl[k].addr, fl[k].size - n)], d);
  }

  lemma CutApart(fl: seq<Chunk>, k: nat, n: nat)
    requires Ordered(fl) && 0 < k < |fl| && 0 < n <= fl[k].size
    ensures Apart(Without(fl, k, n), Cut(fl, k, n))
  {
    var r, c := Without(fl, k, n), Cut(fl, k, n);
    forall i | 0 <= i < |r| ensures TwoApart(r[i], c) {
      if i < k { assert r[i] == fl[i]; assert Before(fl[i], fl[k]); }
      else if fl[k].size == n { assert r[i] == fl[i + 1]; assert Before(fl[k], fl[i + 1]); }
      else if i > k { assert r[i] == fl[i]; assert Before(fl[k], fl[i]); }
    }
  }
}

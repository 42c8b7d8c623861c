/** malloc, free and morecore. */
module Malloc {
  import opened Bytes
  import opened Common
  import opened FreeList
  import opened HeapLinks

  class Heap {
    const base: nat
    var mem: Memory
    var freep: Option<nat>
    /** The free list, the chunks in use, and all units sbrk has given. */
    ghost var fl: seq<Chunk>
    ghost var live: Live
    ghost var core: set<nat>
    /** freep is the address of chunk at. */
    ghost var at: nat

    ghost predicate Valid()
      reads this
    {
      && LiveOk(fl, live, mem, base) && Partition(fl, live, core)
      && (freep.None? ==> fl == [] && live == map[])
      && (freep.Some? ==>
            Ordered(fl) && fl[0].addr == base && Links(mem, fl) && at < |fl| && freep.value == fl[at].addr)
    }

    constructor (base: nat)
      ensures Valid() && fl == [] && live == map[] && core == {}
    {
      this.base := base;
      mem, freep, fl, live, core, at := map[], None, [], map[], {}, 0;
    }

    /** free's search loop: the chunk after which bp belongs. */
    method Seek(bp: nat) returns (p: nat, ghost k: nat)
      requires Valid() && freep.Some? && base < bp && forall i | 0 <= i < |fl| :: fl[i].addr != bp
      ensures k < |fl| && p == fl[k].addr < bp && (k + 1 < |fl| ==> bp < fl[k + 1].addr)
    {
      p := freep.value;
      k := at;
      ghost var goal := Place(fl, bp, 0);
      assert LinkAt(mem, fl, k);
      while !(bp > p && bp < mem[p].ptr)
        invariant k < |fl| && p == fl[k].addr && LinkAt(mem, fl, k)
        decreases Steps(k, goal, |fl|)
      {
        SeekTurn(fl, bp, k, goal);
        if p >= mem[p].ptr && (bp > p || bp < mem[p].ptr) { break; }
        StepsDown(k, goal, |fl|);
        p := mem[p].ptr;
        k := NextOf(k, |fl|);
        assert LinkAt(mem, fl, k);
      }
      SeekDone(fl, bp, k);
    }

    /** Gives back a chunk in use, merged with the free chunks it touches. */
    method Free(bp: nat)
      requires Valid() && bp in live
      modifies `mem, `freep, `fl, `live, `at
      ensures Valid() && freep.Some? && live == old(live) - {bp}
      ensures exists k | 0 <= k < |old(fl)| ::
          Between(old(fl), k, Chunk(bp, old(live)[bp])) && fl == Inserted(old(fl), k, Chunk(bp, old(live)[bp]))
    {
      ghost var c := Chunk(bp, live[bp]);
      assert UseOk(fl, live, mem, base, bp);
      forall i | 0 <= i < |fl| ensures fl[i].addr != bp { assert TwoApart(fl[i], c); }
      var p, k := Seek(bp);
      Unlink(p, bp, k);
      freep := Some(p);
    }

    /** The two merges of free. */
    method WriteLinks(p: nat, bp: nat)
      requires p in mem && bp in mem && mem[p].ptr in mem && p != bp
      modifies `mem
      ensures mem == Merge(old(mem), p, bp)
    {
      var next := mem[p].ptr;
      if bp + mem[bp].size == next {
        mem := mem[bp := Header(mem[next].ptr, mem[bp].size + mem[next].size)];
      } else {
        mem := mem[bp := Header(next, mem[bp].size)];
      }
      if p + mem[p].size == bp {
        mem := mem[p := Header(mem[bp].ptr, mem[p].size + mem[bp].size)];
      } else {
        mem := mem[p := Header(bp, mem[p].size)];
      }
    }

    method Unlink(p: nat, bp: nat, ghost k: nat)
      requires Valid() && freep.Some? && bp in live && k < |fl| && p == fl[k].addr
      requires Between(fl, k, Chunk(bp, live[bp]))
      modifies `mem, `fl, `live, `at
      ensures Ordered(fl) && fl[0].addr == base && Links(mem, fl) && at < |fl| && p == fl[at].addr
      ensures LiveOk(fl, live, mem, base) && Partition(fl, live, core)
      ensures live == old(live) - {bp} && fl == Inserted(old(fl), k, Chunk(bp, old(live)[bp]))
    {
      ghost var c := Chunk(bp, live[bp]);
      assert UseOk(fl, live, mem, base, bp);
      assert LinkAt(mem, fl, k) && LinkAt(mem, fl, NextOf(k, |fl|));
      WriteLinks(p, bp);
      LinksInserted(old(mem), mem, fl, k, c);
      InsertedOrdered(fl, k, c);
      LiveHeaders(fl, live, old(mem), mem, base, bp, k);
      FreeingKeeps(fl, live, old(mem), mem, base, core, bp, k);
      InsertedAt(fl, k, c);
      fl := Inserted(fl, k, c);
      live := live - {bp};
      at := k;
    }

    /** Asks sbrk for nu headers, at least MINCORE, and gives them to the free list; hp is sbrk's answer. */
    method Morecore(nu: nat, hp: Option<nat>) returns (p: Option<nat>)
      requires Valid() && freep.Some? && nu > 0
      requires (hp.Some? ==> base < hp.value && forall u | u in core :: u < hp.value)
      modifies `mem, `freep, `fl, `live, `core, `at
      ensures Valid() && freep.Some? && live == old(live)
      ensures hp.None? ==> p.None? && fl == old(fl) && core == old(core)
      ensures hp.Some? ==>
        && p == freep && core == old(core) + Range(Chunk(hp.value, Asked(nu)))
        && exists g | 0 <= g < |fl| :: fl[g].size >= nu
    {
      if hp.None? { return None; }
      var n := if nu < MINCORE then MINCORE else nu;
      AddCore(hp.value, n);
      ghost var fl0 := fl;
      Free(hp.value);
      assert live == old(live);
      ghost var k :| 0 <= k < |fl0| && Between(fl0, k, Chunk(hp.value, n))
        && fl == Inserted(fl0, k, Chunk(hp.value, n));
      MergedBig(fl0, k, Chunk(hp.value, n));
      return freep;
    }

    /** The new memory becomes one chunk in use. */
    method AddCore(hp: nat, n: nat)
      requires Valid() && freep.Some? && n > 0 && base < hp && forall u | u in core :: u < hp
      modifies `mem, `live, `core
      ensures Valid() && hp !in old(live) && live == old(live)[hp := n] && core == old(core) + Range(Chunk(hp, n))
    {
      mem := mem[hp := Header(0, n)];
      GrowingKeeps(fl, live, old(mem), mem, base, core, hp, n);
      GrowingAbove(fl, live, old(mem), base, core, hp);
      GrowingLinks(fl, old(mem), mem, hp);
      core := core + Range(Chunk(hp, n));
      live := live[hp := n];
    }

    method WriteTaken(prevp: nat, p: nat, n: nat, ghost k: nat) returns (a: nat)
      requires 0 < k < |fl| && p == fl[k].addr && prevp == fl[k - 1].addr && n <= fl[k].size && p != prevp
      requires p in mem && prevp in mem && mem[p].size == fl[k].size
      modifies `mem
      ensures TakenWrites(old(mem), mem, fl, k, n) && a == Cut(fl, k, n).addr
    {
      if mem[p].size == n {
        mem := mem[prevp := Header(mem[p].ptr, mem[prevp].size)];
        a := p;
      } else {
        mem := mem[p := Header(mem[p].ptr, mem[p].size - n)];
        a := p + mem[p].size;
        mem := mem[a := Header(if a in mem then mem[a].ptr else 0, n)];
      }
    }

    /** Cuts n headers off the chunk at p, which follows the one at prevp. */
    method Take(prevp: nat, p: nat, n: nat, ghost k: nat) returns (a: nat)
      requires Valid() && freep.Some? && 0 < k < |fl| && p == fl[k].addr && prevp == fl[k - 1].addr
      requires 0 < n <= fl[k].size
      modifies `mem, `freep, `fl, `live, `at
      ensures Valid() && freep.Some? && a == Cut(old(fl), k, n).addr && a !in old(live)
      ensures live == old(live)[a := n] && fl == Without(old(fl), k, n)
    {
      OneAddr(fl, k - 1, k);
      assert LinkAt(mem, fl, k) && LinkAt(mem, fl, k - 1);
      a := WriteTaken(prevp, p, n, k);
      LinksTaken(old(mem), mem, fl, k, n);
      WithoutOrdered(fl, k, n);
      TakenHeaders(fl, live, old(mem), mem, base, k, n);
      TakingKeeps(fl, live, old(mem), mem, base, core, k, n);
      WithoutAt(fl, k, n);
      freep := Some(prevp);
      at := k - 1;
      fl := Without(fl, k, n);
      live := live[a := n];
    }

    /** The first chunk from freep on that is large enough, cut or taken whole; if there is none, sbrk is asked once.
        hp is the answer sbrk would give. */
    method Malloc(nbytes: Word, hp: Option<nat>) returns (r: Option<nat>, ghost calls: nat)
      requires Valid() && (hp.Some? ==> base < hp.value && forall u | u in core :: u < hp.value)
      modifies `mem, `freep, `fl, `live, `core, `at
      ensures Valid() && calls <= 1
      ensures r.Some? ==> r.value > 0 && r.value - 1 !in old(live) && live == old(live)[r.value - 1 := Units(nbytes)]
      ensures r.Some? ==>
        && (8 * (live[r.value - 1] - 1) >= nbytes <==> nbytes <= 0xffff_fff8)
        && (nbytes <= 0xffff_fff8 ==> 8 * (live[r.value - 1] - 2) < nbytes)
      ensures r.None? ==> hp.None? && calls == 1 && live == old(live)
      ensures calls == 0 ==>
        core == old(core) && r.Some? && NextFit(old(fl), old(at), Units(nbytes), fl, r.value - 1)
      ensures calls == 1 ==> AllSmall(old(fl), Units(nbytes))
      ensures calls == 1 ==>
        core == if hp.Some? then old(core) + Range(Chunk(hp.value, Asked(Units(nbytes)))) else old(core)
    {
      var nunits := Units(nbytes);
      UnitsFit(nbytes);
      if freep.None? { Begin(); }
      var a;
      a, calls := Search(nunits, hp);
      if a.None? { return None, calls; }
      return Some(a.value + 1), calls;
    }

    /** malloc's loop; the result is the address of the chunk's header. */
    method Search(nunits: nat, hp: Option<nat>) returns (r: Option<nat>, ghost calls: nat)
      requires Valid() && freep.Some? && nunits > 0
      requires (hp.Some? ==> base < hp.value && forall u | u in core :: u < hp.value)
      modifies `mem, `freep, `fl, `live, `core, `at
      ensures Valid() && freep.Some? && calls <= 1
      ensures r.Some? ==> r.value !in old(live) && live == old(live)[r.value := nunits]
      ensures r.None? ==> hp.None? && calls == 1 && live == old(live)
      ensures calls == 0 ==> core == old(core) && r.Some? && NextFit(old(fl), old(at), nunits, fl, r.value)
      ensures calls == 1 ==>
        AllSmall(old(fl), nunits) && core == if hp.Some? then old(core) + Range(Chunk(hp.value, Asked(nunits)))
          else old(core)
    {
      calls := 0;
      ghost var fl0 := fl;
      var prevp := freep.value;
      assert LinkAt(mem, fl, at);
      var p := mem[prevp].ptr;
      ghost var pk: nat := at;
      ghost var k: nat := NextOf(at, |fl|);
      TriedNone(fl, at, nunits);
      while true
        invariant Valid() && freep.Some? && live == old(live) && calls <= 1
        invariant pk < |fl| && prevp == fl[pk].addr && k == NextOf(pk, |fl|) && p == fl[k].addr
        invariant calls == 0 ==> fl == fl0 && at == old(at) && core == old(core) && Tried(fl, at, k, nunits)
        invariant calls == 1 ==>
          && AllSmall(fl0, nunits) && Ahead(fl, at, k, nunits) && hp.Some?
          && core == old(core) + Range(Chunk(hp.value, Asked(nunits)))
        decreases 1 - calls, Steps(k, at, |fl|)
      {
        assert LinkAt(mem, fl, k);
        if mem[p].size >= nunits {
          var a := Take(prevp, p, nunits, k);
          return Some(a), calls;
        }
        if p == freep.value {
          AtFreep(fl, at, k);
          assert calls == 0 by { if calls == 1 { AheadMore(fl, at, k, nunits); } }
          TriedAll(fl, at, nunits);
          var more := Morecore(nunits, hp);
          calls := 1;
          if more.None? { return None, calls; }
          p := more.value;
          k := at;
          assert LinkAt(mem, fl, k);
          AheadAll(fl, at, nunits);
        } else {
          StepsDown(k, at, |fl|);
          if calls == 0 { TriedMore(fl, at, k, nunits); } else { AheadMore(fl, at, k, nunits); }
        }
        prevp, pk := p, k;
        p := mem[p].ptr;
        k := NextOf(k, |fl|);
      }
    }

    /** The first call: base is the whole list. */
    method Begin()
      requires Valid() && freep.None?
      modifies `mem, `freep, `fl, `at
      ensures Valid() && freep.Some? && fl == [Chunk(base, 0)]
    {
      BeginKeeps(live, mem, base, core);
      mem := mem[base := Header(base, 0)];
      freep := Some(base);
      fl := [Chunk(base, 0)];
      at := 0;
    }
  }
}

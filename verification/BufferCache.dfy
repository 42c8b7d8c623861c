/** The buffer cache: NBUF buffers on one doubly linked list, most recently released first. */
module BufferCache {
  import opened Common
  import opened Bytes
  import opened RedoLog

  const NBUF: nat := 30

  /** One buffer: its identity, reference count and B_VALID flag; buf holds the data, B_DIRTY and the state of
      the sleep lock. */
  datatype Slot = Slot(dev: nat, blockno: nat, refcnt: nat, valid: bool, buf: Buf)

  /** order lists the buffers from head.next to head.prev. */
  datatype Cache = Cache(order: seq<nat>, slots: seq<Slot>)

  predicate IsOrder(order: seq<nat>) {
    && |order| == NBUF && Distinct(order)
    && (forall i | 0 <= i < |order| :: order[i] < NBUF)
    && forall b | 0 <= b < NBUF :: b in order
  }

  predicate WellFormed(c: Cache) { IsOrder(c.order) && |c.slots| == NBUF }

  predicate Matches(s: Slot, dev: nat, bno: nat) { s.dev == dev && s.blockno == bno }

  /** Neither referenced nor pinned by the log. */
  predicate Recyclable(s: Slot) { s.refcnt == 0 && !s.buf.dirty }

  /** The first buffer from the head that caches the block. */
  function Find(order: seq<nat>, slots: seq<Slot>, dev: nat, bno: nat): (r: Option<nat>)
    requires forall i | 0 <= i < |order| :: order[i] < |slots|
    ensures r.Some? ==> r.value in order && Matches(slots[r.value], dev, bno)
    ensures r.None? ==> forall i | 0 <= i < |order| :: !Matches(slots[order[i]], dev, bno)
  {
    if order == [] then None
    else if Matches(slots[order[0]], dev, bno) then Some(order[0])
    else Find(order[1..], slots, dev, bno)
  }

  /** The first recyclable buffer from the tail. */
  function Victim(order: seq<nat>, slots: seq<Slot>): (r: Option<nat>)
    requires forall i | 0 <= i < |order| :: order[i] < |slots|
    ensures r.Some? ==> exists k :: IsVictim(order, slots, r.value, k)
    ensures r.None? ==> forall i | 0 <= i < |order| :: !Recyclable(slots[order[i]])
  {
    if order == [] then None
    else if Recyclable(slots[order[|order| - 1]]) then
      assert IsVictim(order, slots, order[|order| - 1], |order| - 1);
      Some(order[|order| - 1])
    else
      var r := Victim(order[..|order| - 1], slots);
      assert r.Some? ==> exists k :: IsVictim(order, slots, r.value, k) by {
        if r.Some? {
          var k :| IsVictim(order[..|order| - 1], slots, r.value, k);
          assert IsVictim(order, slots, r.value, k);
        }
      }
      r
  }

  /** Buffer v stands at position k, is recyclable, and nothing nearer the tail is. */
  predicate IsVictim(order: seq<nat>, slots: seq<Slot>, v: nat, k: nat) {
    && k < |order| && order[k] == v && v < |slots| && Recyclable(slots[v])
    && forall i | k < i < |order| :: order[i] < |slots| && !Recyclable(slots[order[i]])
  }

  datatype Got = Hit(i: nat) | Recycled(i: nat) | NoBuffers

  function Look(c: Cache, dev: nat, bno: nat): Got
    requires WellFormed(c)
  {
    var hit := Find(c.order, c.slots, dev, bno);
    if hit.Some? then Hit(hit.value)
    else
      var v := Victim(c.order, c.slots);
      if v.Some? then Recycled(v.value) else NoBuffers
  }

  /** bget's critical section. */
  function Get(c: Cache, dev: nat, bno: nat): Cache
    requires WellFormed(c)
  {
    match Look(c, dev, bno)
    case Hit(i) => c.(slots := c.slots[i := c.slots[i].(refcnt := c.slots[i].refcnt + 1)])
    case Recycled(i) =>
      c.(slots := c.slots[i := c.slots[i].(dev := dev, blockno := bno, valid := false, refcnt := 1,
                                           buf := c.slots[i].buf.(dirty := false))])
    case NoBuffers => c
  }

  function ToFront(order: seq<nat>, i: nat): seq<nat> {
    [i] + Without(order, i)
  }

  function Without(order: seq<nat>, i: nat): seq<nat> {
    if order == [] then [] else if order[0] == i then order[1..] else [order[0]] + Without(order[1..], i)
  }

  /** brelse's critical section. */
  function Put(c: Cache, i: nat): Cache
    requires WellFormed(c) && i < NBUF && c.slots[i].refcnt > 0
  {
    var slots := c.slots[i := c.slots[i].(refcnt := c.slots[i].refcnt - 1)];
    Cache(if slots[i].refcnt == 0 then ToFront(c.order, i) else c.order, slots)
  }

  lemma {:induction false} WithoutAt(order: seq<nat>, k: nat)
    requires Distinct(order) && k < |order|
    ensures Without(order, order[k]) == order[..k] + order[k + 1..]
  {
    if k == 0 {
      assert order[..0] + order[1..] == order[1..];
    } else {
      WithoutAt(order[1..], k - 1);
      assert order[1..][..k - 1] == order[1..k] && order[1..][k..] == order[k + 1..];
      assert [order[0]] + order[1..k] == order[..k];
    }
  }

  lemma ToFrontKeepsOrder(order: seq<nat>, i: nat)
    requires IsOrder(order) && i < NBUF
    ensures IsOrder(ToFront(order, i))
  {
    assert i in order;
    var k :| 0 <= k < |order| && order[k] == i;
    WithoutAt(order, k);
    var r := [i] + (order[..k] + order[k + 1..]);
    assert ToFront(order, i) == r;
    forall b | 0 <= b < NBUF ensures b in r {
      assert b in order;
      var j :| 0 <= j < |order| && order[j] == b;
      assert if j < k then r[j + 1] == b else if j == k then r[0] == b else r[j] == b;
    }
  }

  // ---------------------------------------------------------------- least recently used

  /** released[b] is the time of buffer b's last release; the list is sorted by it, latest first. */
  predicate MostRecentFirst(order: seq<nat>, released: seq<int>) {
    && |released| == NBUF && (forall i | 0 <= i < |order| :: order[i] < NBUF)
    && forall i, j | 0 <= i < j < |order| :: released[order[i]] > released[order[j]]
  }

  /** The release of a buffer at a later time than all others keeps the list sorted. */
  lemma PutKeepsRecency(c: Cache, i: nat, released: seq<int>, now: int)
    requires WellFormed(c) && MostRecentFirst(c.order, released) && i < NBUF && c.slots[i].refcnt > 0
    requires forall b | 0 <= b < NBUF :: released[b] < now
    ensures MostRecentFirst(Put(c, i).order, if c.slots[i].refcnt == 1 then released[i := now] else released)
  {
    if c.slots[i].refcnt == 1 {
      assert i in c.order;
      var k :| 0 <= k < |c.order| && c.order[k] == i;
      WithoutAt(c.order, k);
      var rest := c.order[..k] + c.order[k + 1..];
      SkipKeepsRecency(c.order, k, released);
      forall a | 0 <= a < |rest| ensures rest[a] != i {
        assert rest[a] == c.order[if a < k then a else a + 1];
      }
      ConsKeepsRecency(i, rest, released, now);
    }
  }

  lemma ConsKeepsRecency(i: nat, rest: seq<nat>, released: seq<int>, now: int)
    requires MostRecentFirst(rest, released) && i < NBUF && forall a | 0 <= a < |rest| :: rest[a] != i
    requires forall b | 0 <= b < NBUF :: released[b] < now
    ensures MostRecentFirst([i] + rest, released[i := now])
  {
    var order := [i] + rest;
    forall a, b | 0 <= a < b < |order| ensures released[i := now][order[a]] > released[i := now][order[b]] {
      assert order[b] == rest[b - 1];
      if a > 0 { assert order[a] == rest[a - 1]; }
    }
  }

  lemma SkipKeepsRecency(order: seq<nat>, k: nat, released: seq<int>)
    requires MostRecentFirst(order, released) && k < |order|
    ensures MostRecentFirst(order[..k] + order[k + 1..], released)
  {
    var rest := order[..k] + order[k + 1..];
    forall a, b | 0 <= a < b < |rest| ensures released[rest[a]] > released[rest[b]] {
      assert rest[a] == order[if a < k then a else a + 1] && rest[b] == order[if b < k then b else b + 1];
    }
  }

  /** The buffer bget recycles was released before every other buffer it could have recycled. */
  lemma VictimIsLeastRecent(c: Cache, released: seq<int>, b: nat)
    requires WellFormed(c) && MostRecentFirst(c.order, released)
    requires Victim(c.order, c.slots).Some? && b < NBUF && Recyclable(c.slots[b])
    ensures var v := Victim(c.order, c.slots).value;
      v < NBUF && Recyclable(c.slots[v]) && (b == v || released[v] < released[b])
  {
    var v := Victim(c.order, c.slots).value;
    var k :| IsVictim(c.order, c.slots, v, k);
    assert b in c.order;
    var j :| 0 <= j < |c.order| && c.order[j] == b;
    assert j <= k;
  }

  // ---------------------------------------------------------------- the linked list

  const HEAD: nat := NBUF

  /** Position k of the circular list: the head stands before the first and after the last buffer. */
  function At(order: seq<nat>, k: int): nat {
    if 0 <= k < |order| then order[k] else HEAD
  }

  /** next and prev describe the circular list through all of order and the head. */
  predicate Linked(order: seq<nat>, next: seq<nat>, prev: seq<nat>) {
    && |next| == |prev| == NBUF + 1
    && (forall i | 0 <= i < |order| :: order[i] < NBUF)
    && forall k | 0 <= k <= |order| :: Joined(order, next, prev, k)
  }

  predicate Joined(order: seq<nat>, next: seq<nat>, prev: seq<nat>, k: int)
    requires |next| == |prev| == NBUF + 1 && forall i | 0 <= i < |order| :: order[i] < NBUF
  {
    next[At(order, k - 1)] == At(order, k) && prev[At(order, k)] == At(order, k - 1)
  }

  /** Taking out the buffer at position k by joining its neighbours. */
  lemma UnlinkJoins(o: seq<nat>, nx: seq<nat>, pv: seq<nat>, k: nat)
    requires Linked(o, nx, pv) && Distinct(o) && k < |o|
    ensures nx[o[k]] <= NBUF && pv[o[k]] <= NBUF
    ensures Linked(o[..k] + o[k + 1..], nx[pv[o[k]] := nx[o[k]]], pv[nx[o[k]] := pv[o[k]]])
  {
    assert Joined(o, nx, pv, k) && Joined(o, nx, pv, k + 1);
    var r := o[..k] + o[k + 1..];
    var nx', pv' := nx[pv[o[k]] := nx[o[k]]], pv[nx[o[k]] := pv[o[k]]];
    forall i | 0 <= i < |r| ensures r[i] < NBUF {
      assert r[i] == o[if i < k then i else i + 1];
    }
    forall j | 0 <= j <= |r| ensures Joined(r, nx', pv', j) {
      assert Joined(o, nx, pv, if j <= k then j else j + 1);
      assert At(r, j) == At(o, if j < k then j else j + 1);
      assert At(r, j - 1) == At(o, if j - 1 < k then j - 1 else j);
    }
  }

  /** Putting a new buffer in behind the head. */
  lemma PushJoins(o: seq<nat>, nx: seq<nat>, pv: seq<nat>, b: nat)
    requires Linked(o, nx, pv) && b < NBUF && b !in o
    ensures nx[HEAD] <= NBUF
    ensures Linked([b] + o, nx[b := nx[HEAD]][HEAD := b], pv[b := HEAD][nx[HEAD] := b])
  {
    assert Joined(o, nx, pv, 0);
    var r := [b] + o;
    var nx', pv' := nx[b := nx[HEAD]][HEAD := b], pv[b := HEAD][nx[HEAD] := b];
    forall j | 0 <= j <= |r| ensures Joined(r, nx', pv', j) {
      if j >= 1 { assert Joined(o, nx, pv, j - 1); }
    }
  }

  class Bcache {
    const next: array<nat>
    const prev: array<nat>
    const slots: array<Slot>
    ghost var order: seq<nat>

    ghost predicate Valid()
      reads this, next, prev, slots
    {
      && next.Length == prev.Length == NBUF + 1 && slots.Length == NBUF && next != prev
      && IsOrder(order) && Linked(order, next[..], prev[..])
    }

    ghost function Value(): (c: Cache)
      requires Valid()
      reads this, next, prev, slots
      ensures WellFormed(c)
    {
      Cache(order, slots[..])
    }

    /** The first loop of bget: from the most recently used buffer on. */
    method Search(dev: nat, bno: nat) returns (r: Option<nat>)
      requires Valid()
      ensures r == Find(order, slots[..], dev, bno)
    {
      assert Joined(order, next[..], prev[..], 0);
      var b := next[HEAD];
      ghost var k := 0;
      while b != HEAD
        invariant 0 <= k <= NBUF && b == At(order, k)
        invariant Find(order[k..], slots[..], dev, bno) == Find(order, slots[..], dev, bno)
        decreases NBUF - k
      {
        assert order[k..][0] == b && order[k..][1..] == order[k + 1..];
        if slots[b].dev == dev && slots[b].blockno == bno { return Some(b); }
        assert Joined(order, next[..], prev[..], k + 1);
        b := next[b];
        k := k + 1;
      }
      return None;
    }

    /** The second loop of bget: from the least recently used buffer on. */
    method SearchVictim() returns (r: Option<nat>)
      requires Valid()
      ensures r == Victim(order, slots[..])
    {
      assert Joined(order, next[..], prev[..], NBUF);
      var b := prev[HEAD];
      ghost var k := NBUF;
      assert order[..NBUF] == order;
      while b != HEAD
        invariant 0 <= k <= NBUF && b == At(order, k - 1)
        invariant Victim(order[..k], slots[..]) == Victim(order, slots[..])
        decreases k
      {
        assert order[..k][k - 1] == b && order[..k][..k - 1] == order[..k - 1];
        if slots[b].refcnt == 0 && !slots[b].buf.dirty { return Some(b); }
        assert Joined(order, next[..], prev[..], k - 1);
        b := prev[b];
        k := k - 1;
      }
      return None;
    }

    /** bget's critical section. */
    method Bget(dev: nat, bno: nat) returns (r: Got)
      requires Valid()
      modifies slots
      ensures Valid() && r == Look(old(Value()), dev, bno) && Value() == Get(old(Value()), dev, bno)
    {
      var hit := Search(dev, bno);
      if hit.Some? {
        var b := hit.value;
        slots[b] := slots[b].(refcnt := slots[b].refcnt + 1);
        return Hit(b);
      }
      var v := SearchVictim();
      if v.Some? {
        var b := v.value;
        slots[b] := slots[b].(dev := dev, blockno := bno, valid := false, refcnt := 1,
            buf := slots[b].buf.(dirty := false));
        return Recycled(b);
      }
      return NoBuffers;
    }

    /** Links buffer b in behind the head. */
    method PushFront(b: nat)
      requires next.Length == prev.Length == NBUF + 1 && next != prev
      requires Linked(order, next[..], prev[..]) && b < NBUF && b !in order
      modifies next, prev, this`order
      ensures order == [b] + old(order) && Linked(order, next[..], prev[..])
    {
      ghost var nx: seq<nat>, pv: seq<nat> := next[..], prev[..];
      PushJoins(order, nx, pv, b);
      next[b] := next[HEAD];
      prev[b] := HEAD;
      prev[next[HEAD]] := b;
      next[HEAD] := b;
      order := [b] + order;
      ghost var nx1: seq<nat>, pv1: seq<nat> := nx[b := nx[HEAD]], pv[b := HEAD];
      assert next[..] == nx1[HEAD := b] && prev[..] == pv1[nx[HEAD] := b];
    }

    /** Unlinks the buffer at position k. */
    method Unlink(b: nat, ghost k: nat)
      requires next.Length == prev.Length == NBUF + 1 && next != prev
      requires Linked(order, next[..], prev[..]) && Distinct(order) && k < |order| && order[k] == b
      modifies next, prev, this`order
      ensures order == old(order)[..k] + old(order)[k + 1..] && Linked(order, next[..], prev[..])
    {
      ghost var nx: seq<nat>, pv: seq<nat> := next[..], prev[..];
      UnlinkJoins(order, nx, pv, k);
      prev[next[b]] := prev[b];
      next[prev[b]] := next[b];
      order := order[..k] + order[k + 1..];
      assert next[..] == nx[pv[b] := nx[b]] && prev[..] == pv[nx[b] := pv[b]];
    }

    /** Moves buffer b to the front of the list. */
    method MoveToFront(b: nat)
      requires Valid() && b < NBUF
      modifies this`order, next, prev
      ensures Valid() && order == ToFront(old(order), b)
    {
      ghost var o := order;
      assert b in o;
      ghost var k :| 0 <= k < |o| && o[k] == b;
      WithoutAt(o, k);
      ToFrontKeepsOrder(o, b);
      Unlink(b, k);
      assert order == Without(o, b);
      assert b !in order by {
        forall a | 0 <= a < |order| ensures order[a] != b { assert order[a] == o[if a < k then a else a + 1]; }
      }
      PushFront(b);
    }

    /** brelse's critical section. */
    method Brelse(b: nat)
      requires Valid() && b < NBUF && slots[b].refcnt > 0
      modifies this`order, next, prev, slots
      ensures Valid() && Value() == Put(old(Value()), b)
    {
      slots[b] := slots[b].(refcnt := slots[b].refcnt - 1);
      if slots[b].refcnt == 0 {
        MoveToFront(b);
      }
    }

    /** binit: zeroed buffers, each pushed in behind the head. */
    constructor (zero: Block)
      ensures Valid() && fresh(next) && fresh(prev) && fresh(slots)
      ensures Value() == Initial(zero)
    {
      next := new nat[NBUF + 1](_ => HEAD);
      prev := new nat[NBUF + 1](_ => HEAD);
      slots := new Slot[NBUF](_ => EmptySlot(zero));
      order := [];
      new;
      assert Joined(order, next[..], prev[..], 0);
      for b := 0 to NBUF
        invariant order == Downward(b) && Linked(order, next[..], prev[..])
        invariant slots[..] == seq(NBUF, _ => EmptySlot(zero))
      {
        DownwardElems(b, b);
        PushFront(b);
      }
      DownwardIsOrder();
    }
  }

  function EmptySlot(zero: Block): Slot { Slot(0, 0, 0, false, Buf(zero, false, None, false, false)) }

  function Downward(n: nat): seq<nat> { if n == 0 then [] else [n - 1] + Downward(n - 1) }

  lemma {:induction false} DownwardElems(n: nat, b: nat)
    ensures b in Downward(n) <==> b < n
    ensures |Downward(n)| == n && forall i | 0 <= i < n :: Downward(n)[i] == n - 1 - i
  {
    if n > 0 { DownwardElems(n - 1, b); }
  }

  lemma DownwardIsOrder()
    ensures IsOrder(Downward(NBUF))
  {
    forall b: nat ensures b in Downward(NBUF) <==> b < NBUF { DownwardElems(NBUF, b); }
    DownwardElems(NBUF, 0);
  }

  function Initial(zero: Block): (c: Cache)
    ensures WellFormed(c)
  {
    DownwardIsOrder();
    Cache(Downward(NBUF), seq(NBUF, _ => EmptySlot(zero)))
  }
}

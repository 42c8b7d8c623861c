/** The kernel with its real buffer cache refines the log system with an ideal one.

    LogSystem treats the cache as a partial map from blocks to buffers.  Here the cache is bio.c's: thirty
    buffers with reference counts, a least-recently-used list and sleep locks.  Every step of this kernel is
    matched by steps of LogSystem, so what is proved there holds here. */
module CacheRefinement {
  import opened Common
  import opened Bytes
  import opened RedoLog
  import opened LogSystem
  import BC = BufferCache
  import Runs

  /** The only disk iderw serves. */
  const DEV: nat := 1

  // ---------------------------------------------------------------- the cache as a map

  predicate Holds(s: BC.Slot, b: nat) { s.valid && s.dev == DEV && s.blockno == b }

  function Cached(c: BC.Cache): set<nat> {
    set i | 0 <= i < |c.slots| && c.slots[i].valid && c.slots[i].dev == DEV :: c.slots[i].blockno
  }

  lemma CachedSomewhere(c: BC.Cache, b: nat)
    requires b in Cached(c)
    ensures exists i: nat :: i < |c.slots| && Holds(c.slots[i], b)
  {
    var i :| 0 <= i < |c.slots| && c.slots[i].valid && c.slots[i].dev == DEV && c.slots[i].blockno == b;
    assert Holds(c.slots[i], b);
  }

  ghost function BufOf(c: BC.Cache, b: nat): Buf
    requires b in Cached(c)
  {
    CachedSomewhere(c, b);
    var i: nat :| i < |c.slots| && Holds(c.slots[i], b);
    c.slots[i].buf
  }

  ghost function AbsCache(c: BC.Cache): map<nat, Buf> {
    map b | b in Cached(c) :: BufOf(c, b)
  }

  /** No two buffers stand for the same block of a real device. */
  predicate Unique(c: BC.Cache) {
    forall i, j | 0 <= i < |c.slots| && 0 <= j < |c.slots| && i != j && c.slots[i].dev != 0 ::
      !(c.slots[i].dev == c.slots[j].dev && c.slots[i].blockno == c.slots[j].blockno)
  }

  lemma OnlyOne(c: BC.Cache, i: nat, j: nat, b: nat)
    requires Unique(c) && i < |c.slots| && j < |c.slots| && Holds(c.slots[i], b) && Holds(c.slots[j], b)
    ensures i == j
  {
  }

  lemma AbsAt(c: BC.Cache, i: nat, b: nat)
    requires Unique(c) && i < |c.slots| && Holds(c.slots[i], b)
    ensures b in AbsCache(c) && AbsCache(c)[b] == c.slots[i].buf
  {
    assert c.slots[i].blockno in Cached(c);
    CachedSomewhere(c, b);
    var j: nat :| j < |c.slots| && Holds(c.slots[j], b) && BufOf(c, b) == c.slots[j].buf;
    assert i == j;
  }

  lemma AbsNot(c: BC.Cache, b: nat)
    requires forall i | 0 <= i < |c.slots| :: !Holds(c.slots[i], b)
    ensures b !in AbsCache(c)
  {
    if b in Cached(c) { CachedSomewhere(c, b); }
  }

  function BlockIn(s: BC.Slot): set<nat> { if s.valid && s.dev == DEV then {s.blockno} else {} }

  /** The map after a buffer that held the blocks `gone` has become s. */
  function Replaced(m: map<nat, Buf>, gone: set<nat>, s: BC.Slot): map<nat, Buf> {
    if s.valid && s.dev == DEV then (m - gone)[s.blockno := s.buf] else m - gone
  }

  /** Replacing one buffer changes the map exactly at the blocks involved. */
  lemma AbsReplace(c: BC.Cache, i: nat, s: BC.Slot)
    requires Unique(c) && i < |c.slots| && Unique(c.(slots := c.slots[i := s]))
    ensures AbsCache(c.(slots := c.slots[i := s])) == Replaced(AbsCache(c), BlockIn(c.slots[i]), s)
  {
    var c' := c.(slots := c.slots[i := s]);
    var expected := Replaced(AbsCache(c), BlockIn(c.slots[i]), s);
    forall b: nat ensures b in AbsCache(c') <==> b in expected
                  ensures b in AbsCache(c') && b in expected ==> AbsCache(c')[b] == expected[b]
    {
      AbsReplaceAt(c, i, s, b);
    }
  }

  lemma AbsReplaceAt(c: BC.Cache, i: nat, s: BC.Slot, b: nat)
    requires Unique(c) && i < |c.slots| && Unique(c.(slots := c.slots[i := s]))
    ensures var c' := c.(slots := c.slots[i := s]);
      var expected := Replaced(AbsCache(c), BlockIn(c.slots[i]), s);
      (b in AbsCache(c') <==> b in expected) && (b in AbsCache(c') && b in expected ==> AbsCache(c')[b] == expected[b])
  {
    var c' := c.(slots := c.slots[i := s]);
    var m := AbsCache(c);
    if Holds(s, b) {
      AbsAt(c', i, b);
    } else if j: nat :| j < |c.slots| && j != i && Holds(c.slots[j], b) {
      AbsAt(c, j, b);
      assert c'.slots[j] == c.slots[j];
      AbsAt(c', j, b);
      if Holds(c.slots[i], b) { OnlyOne(c, i, j, b); }
    } else {
      forall j | 0 <= j < |c.slots| ensures !Holds(c'.slots[j], b) {
        assert j != i ==> c'.slots[j] == c.slots[j] && !Holds(c.slots[j], b);
      }
      AbsNot(c', b);
      if !Holds(c.slots[i], b) { AbsNot(c, b); }
    }
  }

  // ---------------------------------------------------------------- the kernel

  /** The cache, which processes hold a pointer to each buffer, and the rest of the system (whose own cache
      field is not used). */
  datatype Kernel = Kernel(c: BC.Cache, refs: seq<multiset<nat>>, rest: Sys)

  datatype KAct =
    | KBegin(p: nat)
    | KEnd(p: nat)
    | KGet(p: nat, b: nat)               // bget's critical section
    | KLock(p: nat, i: nat)              // acquiresleep in bget
    | KFill(p: nat, i: nat)              // iderw in bread
    | KModify(p: nat, i: nat, x: Block)
    | KCheck(p: nat, i: nat)
    | KAppend(p: nat, i: nat)
    | KUnlock(p: nat, i: nat)            // releasesleep in brelse
    | KPut(p: nat, i: nat)               // brelse's critical section
    | KWrite(p: nat, i: nat, j: nat)     // memmove from buffer i to buffer j and bwrite, in commit() or recovery
    | KDone
    | KCrash(zero: Block)

  ghost function Abs(k: Kernel): Sys { k.rest.(e := k.rest.e.(cache := AbsCache(k.c))) }

  predicate HoldsSlot(k: Kernel, p: nat, i: nat) {
    i < |k.c.slots| && k.c.slots[i].valid && k.c.slots[i].dev == DEV && k.c.slots[i].buf.holder == Some(p)
  }

  predicate KEnabled(lay: Layout, k: Kernel, a: KAct) {
    && BC.WellFormed(k.c) && |k.refs| == BC.NBUF
    && match a
       case KBegin(p) => Enabled(lay, k.rest, Begin(p))
       case KEnd(p) =>
         InOp(k.rest, p) && !k.rest.committing
         && forall i | 0 <= i < BC.NBUF :: k.c.slots[i].buf.holder != Some(p)
       case KGet(p, b) => b < |k.rest.e.disk| && !BC.Look(k.c, DEV, b).NoBuffers?
       case KLock(p, i) => i < BC.NBUF && p in k.refs[i] && k.c.slots[i].buf.holder.None?
       case KFill(p, i) =>
         i < BC.NBUF && !k.c.slots[i].valid && k.c.slots[i].dev == DEV
         && k.c.slots[i].blockno < |k.rest.e.disk| && k.c.slots[i].buf.holder == Some(p)
       case KModify(p, i, x) => HoldsSlot(k, p, i) && InOp(k.rest, p) && Home(lay, k.rest.e.disk, k.c.slots[i].blockno)
       case KCheck(p, i) =>
         HoldsSlot(k, p, i) && InOp(k.rest, p) && Home(lay, k.rest.e.disk, k.c.slots[i].blockno)
         && InBudget(k.rest, p, k.c.slots[i].blockno) && PassesCheck(lay, k.rest.e)
       case KAppend(p, i) =>
         HoldsSlot(k, p, i) && InOp(k.rest, p) && k.c.slots[i].buf.checked && InBudget(k.rest, p, k.c.slots[i].blockno)
       case KUnlock(p, i) => HoldsSlot(k, p, i) && !k.c.slots[i].buf.touched
       case KPut(p, i) =>
         i < BC.NBUF && p in k.refs[i] && k.c.slots[i].buf.holder != Some(p) && k.c.slots[i].refcnt > 0
       case KWrite(p, i, j) =>
         !k.rest.e.phase.Idle? && LogFits(lay, k.rest.e) && HoldsSlot(k, p, i) && HoldsSlot(k, p, j)
         && k.c.slots[i].blockno == Origin(lay, k.rest.e) && k.c.slots[j].blockno == Target(lay, k.rest.e)
       case KDone => Enabled(lay, k.rest, Done)
       case KCrash(_) => HeaderFits(lay, k.rest.e.disk)
  }

  function SetSlot(k: Kernel, i: nat, s: BC.Slot): Kernel
    requires i < |k.c.slots|
  {
    k.(c := k.c.(slots := k.c.slots[i := s]))
  }

  function SetBuf(k: Kernel, i: nat, f: Buf): Kernel
    requires i < |k.c.slots|
  {
    SetSlot(k, i, k.c.slots[i].(buf := f))
  }

  /** The block that commit() or recovery reads next, and the one it writes. */
  function Origin(lay: Layout, e: Engine): nat
    requires LogFits(lay, e) && !e.phase.Idle?
  {
    match e.phase
    case Logging(i) => e.lh[i]
    case Installing(i) => lay.start + 1 + i
    case _ => lay.start
  }

  function Target(lay: Layout, e: Engine): nat
    requires LogFits(lay, e) && !e.phase.Idle?
  {
    match e.phase
    case Logging(i) => lay.start + 1 + i
    case Installing(i) => e.lh[i]
    case _ => lay.start
  }

  /** What is written when x was read. */
  function Payload(e: Engine, x: Block): Block
    requires Recordable(e.lh)
  {
    match e.phase
    case Heading => PutHead(x, e.lh)
    case Erasing => PutHead(x, [])
    case _ => x
  }

  /** The phase and the in-memory header after the write. */
  function Advance(e: Engine): Engine {
    match e.phase
    case Logging(i) => e.(phase := if i + 1 < |e.lh| then Logging(i + 1) else Heading)
    case Heading => e.(phase := if |e.lh| > 0 then Installing(0) else Erasing)
    case Installing(i) => e.(phase := if i + 1 < |e.lh| then Installing(i + 1) else Erasing)
    case Erasing => e.(lh := [], phase := Idle)
    case Idle => e
  }

  lemma StepWrites(lay: Layout, e: Engine)
    requires LogFits(lay, e) && !e.phase.Idle?
    ensures Origin(lay, e) < |e.disk| && Target(lay, e) < |e.disk|
    ensures EngineStep(lay, e) == BWrite(Advance(e), Target(lay, e), Payload(e, View(e, Origin(lay, e))))
  {
  }

  function KDo(lay: Layout, k: Kernel, a: KAct): Kernel
    requires KEnabled(lay, k, a)
  {
    match a
    case KBegin(p) => k.(rest := Do(lay, k.rest, Begin(p)))
    case KEnd(p) =>
      var ops := k.rest.ops[p := None];
      if Outstanding(ops) == 0 then k.(rest := k.rest.(ops := ops, e := StartCommit(k.rest.e), committing := true))
      else k.(rest := k.rest.(ops := ops))
    case KGet(p, b) =>
      var i := BC.Look(k.c, DEV, b).i;
      k.(c := BC.Get(k.c, DEV, b), refs := k.refs[i := k.refs[i] + multiset{p}])
    case KLock(p, i) => SetBuf(k, i, k.c.slots[i].buf.(holder := Some(p)))
    case KFill(p, i) =>
      var f := Buf(k.rest.e.disk[k.c.slots[i].blockno], false, Some(p), false, false);
      SetSlot(k, i, k.c.slots[i].(valid := true, buf := f))
    case KModify(p, i, x) => SetBuf(k, i, k.c.slots[i].buf.(data := x, touched := true))
    case KCheck(p, i) => SetBuf(k, i, k.c.slots[i].buf.(checked := true))
    case KAppend(p, i) =>
      var b := k.c.slots[i].blockno;
      SetBuf(k, i, k.c.slots[i].buf.(dirty := true, touched := false, checked := false)).(
        rest := Sys(k.rest.e.(lh := Logged(k.rest.e.lh, b)), k.rest.ops[p := Some(k.rest.ops[p].value + {b})],
                    k.rest.booting, k.rest.committing))
    case KUnlock(p, i) => SetBuf(k, i, k.c.slots[i].buf.(holder := None, checked := false))
    case KPut(p, i) => k.(c := BC.Put(k.c, i), refs := k.refs[i := k.refs[i] - multiset{p}])
    case KWrite(p, i, j) =>
      var x := Payload(k.rest.e, k.c.slots[i].buf.data);
      var e := Advance(k.rest.e).(disk := k.rest.e.disk[Target(lay, k.rest.e) := x]);
      SetBuf(k, j, k.c.slots[j].buf.(data := x, dirty := false)).(
        rest := k.rest.(e := e, booting := k.rest.booting && !e.phase.Idle?))
    case KDone => k.(rest := Do(lay, k.rest, Done))
    case KCrash(zero) => KBooted(lay, k.rest.e.disk, |k.rest.ops|, zero)
  }

  /** A kernel that has just come up: binit's cache, nothing referenced. */
  function KBooted(lay: Layout, d: Disk, n: nat, zero: Block): Kernel
    requires HeaderFits(lay, d)
  {
    Kernel(BC.Initial(zero), seq(BC.NBUF, _ => multiset{}), Booted(lay, d, n))
  }

  /** The steps of the log system that one step of the kernel stands for. */
  function Steps(lay: Layout, k: Kernel, a: KAct): seq<Act>
    requires KEnabled(lay, k, a)
  {
    match a
    case KBegin(p) => [Begin(p)]
    case KEnd(p) => [End(p)]
    case KGet(p, b) =>
      var got := BC.Look(k.c, DEV, b);
      if got.Recycled? && k.c.slots[got.i].valid && k.c.slots[got.i].dev == DEV then
        [Evict(k.c.slots[got.i].blockno)] else []
    case KLock(p, i) => if k.c.slots[i].valid && k.c.slots[i].dev == DEV then [Hold(p, k.c.slots[i].blockno)] else []
    case KFill(p, i) => [Load(k.c.slots[i].blockno), Hold(p, k.c.slots[i].blockno)]
    case KModify(p, i, x) => [Modify(p, k.c.slots[i].blockno, x)]
    case KCheck(p, i) => [Check(p, k.c.slots[i].blockno)]
    case KAppend(p, i) => [Append(p, k.c.slots[i].blockno)]
    case KUnlock(p, i) => [Release(p, k.c.slots[i].blockno)]
    case KPut(p, i) => []
    case KWrite(_, _, _) => [Write]
    case KDone => [Done]
    case KCrash(_) => [Crash]
  }

  // ---------------------------------------------------------------- the invariant of the cache

  predicate GoodSlot(k: Kernel, i: nat)
    requires i < |k.c.slots| && i < |k.refs|
  {
    var s := k.c.slots[i];
    && |k.refs[i]| == s.refcnt
    && (s.buf.holder.Some? ==> s.buf.holder.value in k.refs[i])
    && (s.buf.touched || s.buf.checked ==> s.buf.holder.Some?)
    && (!s.valid ==> !s.buf.dirty && !s.buf.touched && !s.buf.checked)
    && (s.dev == DEV ==> s.blockno < |k.rest.e.disk|)
    && (s.dev != DEV ==> s.dev == 0 && !s.valid && s.refcnt == 0)
  }

  predicate KInv(k: Kernel) {
    && BC.WellFormed(k.c) && |k.refs| == BC.NBUF && Unique(k.c) && k.rest.e.cache == map[]
    && forall i | 0 <= i < BC.NBUF :: GoodSlot(k, i)
  }

  /** Changing the buffer part of one slot, its identity staying the same. */
  lemma SetKeepsInv(k: Kernel, i: nat, s: BC.Slot)
    requires KInv(k) && i < BC.NBUF && s.dev == k.c.slots[i].dev && s.blockno == k.c.slots[i].blockno
    requires GoodSlot(SetSlot(k, i, s), i)
    ensures KInv(SetSlot(k, i, s))
  {
    var k' := SetSlot(k, i, s);
    forall j | 0 <= j < BC.NBUF ensures GoodSlot(k', j) {
      assert GoodSlot(k, j);
    }
  }

  /** A block that bget does not find is cached nowhere. */
  lemma NotFound(c: BC.Cache, b: nat, j: nat)
    requires BC.WellFormed(c) && BC.Find(c.order, c.slots, DEV, b).None? && j < BC.NBUF
    ensures !(c.slots[j].dev == DEV && c.slots[j].blockno == b)
  {
    assert j in c.order;
    var n :| 0 <= n < |c.order| && c.order[n] == j;
    assert !BC.Matches(c.slots[c.order[n]], DEV, b);
  }

  lemma GetKeepsInv(lay: Layout, k: Kernel, p: nat, b: nat)
    requires KInv(k) && KEnabled(lay, k, KGet(p, b))
    ensures KInv(KDo(lay, k, KGet(p, b)))
  {
    var k' := KDo(lay, k, KGet(p, b));
    var got := BC.Look(k.c, DEV, b);
    if got.Recycled? {
      forall j | 0 <= j < BC.NBUF
        ensures !(k.c.slots[j].dev == DEV && k.c.slots[j].blockno == b)
      {
        NotFound(k.c, b, j);
      }
    }
    forall j | 0 <= j < BC.NBUF ensures GoodSlot(k', j) {
      assert GoodSlot(k, j);
    }
  }

  lemma PutKeepsInv(lay: Layout, k: Kernel, p: nat, i: nat)
    requires KInv(k) && KEnabled(lay, k, KPut(p, i))
    ensures KInv(KDo(lay, k, KPut(p, i)))
  {
    var k' := KDo(lay, k, KPut(p, i));
    BC.ToFrontKeepsOrder(k.c.order, i);
    forall j | 0 <= j < BC.NBUF ensures GoodSlot(k', j) {
      assert GoodSlot(k, j);
    }
  }

  lemma WriteKeepsKInv(lay: Layout, k: Kernel, p: nat, i: nat, j: nat)
    requires KInv(k) && KEnabled(lay, k, KWrite(p, i, j))
    ensures KInv(KDo(lay, k, KWrite(p, i, j)))
  {
    var k' := KDo(lay, k, KWrite(p, i, j));
    StepWrites(lay, k.rest.e);
    assert GoodSlot(k, j);
    SetKeepsInv(k, j, k'.c.slots[j]);
    SameCacheKeepsInv(SetSlot(k, j, k'.c.slots[j]), k');
  }

  lemma KStepKeepsInv(lay: Layout, k: Kernel, a: KAct)
    requires KInv(k) && KEnabled(lay, k, a)
    ensures KInv(KDo(lay, k, a))
  {
    match a
    case KGet(p, b) => GetKeepsInv(lay, k, p, b);
    case KPut(p, i) => PutKeepsInv(lay, k, p, i);
    case KWrite(p, i, j) => WriteKeepsKInv(lay, k, p, i, j);
    case KDone => SameCacheKeepsInv(k, KDo(lay, k, a));
    case KLock(p, i) => assert GoodSlot(k, i); SetKeepsInv(k, i, KDo(lay, k, a).c.slots[i]);
    case KFill(p, i) => assert GoodSlot(k, i); SetKeepsInv(k, i, KDo(lay, k, a).c.slots[i]);
    case KModify(p, i, _) => assert GoodSlot(k, i); SetKeepsInv(k, i, KDo(lay, k, a).c.slots[i]);
    case KCheck(p, i) => assert GoodSlot(k, i); SetKeepsInv(k, i, KDo(lay, k, a).c.slots[i]);
    case KUnlock(p, i) => assert GoodSlot(k, i); SetKeepsInv(k, i, KDo(lay, k, a).c.slots[i]);
    case KAppend(p, i) => AppendKeepsKInv(lay, k, p, i);
    case KBegin(p) => SameCacheKeepsInv(k, KDo(lay, k, a));
    case KEnd(p) => SameCacheKeepsInv(k, KDo(lay, k, a));
    case KCrash(zero) =>
  }

  lemma AppendKeepsKInv(lay: Layout, k: Kernel, p: nat, i: nat)
    requires KInv(k) && KEnabled(lay, k, KAppend(p, i))
    ensures KInv(KDo(lay, k, KAppend(p, i)))
  {
    var k' := KDo(lay, k, KAppend(p, i));
    assert GoodSlot(k, i);
    SetKeepsInv(k, i, k'.c.slots[i]);
    SameCacheKeepsInv(SetSlot(k, i, k'.c.slots[i]), k');
  }

  lemma SameCacheKeepsInv(k: Kernel, k': Kernel)
    requires KInv(k) && k'.c == k.c && k'.refs == k.refs && k'.rest.e.cache == map[]
    requires |k'.rest.e.disk| == |k.rest.e.disk|
    ensures KInv(k')
  {
    forall j | 0 <= j < BC.NBUF ensures GoodSlot(k', j) {
      assert GoodSlot(k, j);
    }
  }

  // ---------------------------------------------------------------- each kernel step is matched

  lemma AbsSetBuf(k: Kernel, i: nat, f: Buf)
    requires KInv(k) && i < BC.NBUF && k.c.slots[i].valid && k.c.slots[i].dev == DEV
    ensures var b := k.c.slots[i].blockno;
      && b in Abs(k).e.cache && Abs(k).e.cache[b] == k.c.slots[i].buf
      && Abs(SetBuf(k, i, f)) == Abs(k).(e := WithBuf(Abs(k).e, b, f))
  {
    var b := k.c.slots[i].blockno;
    AbsAt(k.c, i, b);
    AbsReplace(k.c, i, k.c.slots[i].(buf := f));
    assert (AbsCache(k.c) - {b})[b := f] == AbsCache(k.c)[b := f];
  }

  lemma BufferStepMatched(lay: Layout, k: Kernel, a: KAct)
    requires KInv(k) && KEnabled(lay, k, a)
    requires a.KModify? || a.KCheck? || a.KUnlock? || (a.KLock? && k.c.slots[a.i].valid && k.c.slots[a.i].dev == DEV)
    ensures After(lay, Abs(k), Steps(lay, k, a)) == Some(Abs(KDo(lay, k, a)))
  {
    AbsSetBuf(k, a.i, KDo(lay, k, a).c.slots[a.i].buf);
    Runs.AfterOne(Next(lay), Abs(k), Steps(lay, k, a)[0]);
  }

  lemma AppendMatched(lay: Layout, k: Kernel, a: KAct)
    requires KInv(k) && KEnabled(lay, k, a) && a.KAppend?
    ensures After(lay, Abs(k), Steps(lay, k, a)) == Some(Abs(KDo(lay, k, a)))
  {
    AbsSetBuf(k, a.i, KDo(lay, k, a).c.slots[a.i].buf);
    Runs.AfterOne(Next(lay), Abs(k), Steps(lay, k, a)[0]);
  }

  /** Locking a buffer that has not been read yet shows nowhere. */
  lemma LockUnreadMatched(lay: Layout, k: Kernel, p: nat, i: nat)
    requires KInv(k) && KEnabled(lay, k, KLock(p, i)) && !(k.c.slots[i].valid && k.c.slots[i].dev == DEV)
    ensures Abs(KDo(lay, k, KLock(p, i))) == Abs(k)
  {
    AbsReplace(k.c, i, KDo(lay, k, KLock(p, i)).c.slots[i]);
    assert AbsCache(k.c) - {} == AbsCache(k.c);
  }

  /** An unread buffer becomes an unlocked block of the map. */
  lemma FillAbs(k: Kernel, i: nat, f: Buf)
    requires KInv(k) && i < BC.NBUF && !k.c.slots[i].valid && k.c.slots[i].dev == DEV
    ensures k.c.slots[i].blockno !in AbsCache(k.c)
    ensures AbsCache(SetSlot(k, i, k.c.slots[i].(valid := true, buf := f)).c) ==
      AbsCache(k.c)[k.c.slots[i].blockno := f]
  {
    var b := k.c.slots[i].blockno;
    AbsReplace(k.c, i, k.c.slots[i].(valid := true, buf := f));
    assert AbsCache(k.c) - {} == AbsCache(k.c);
    AbsNot(k.c, b);
  }

  lemma LoadAndHold(lay: Layout, s: Sys, p: nat, b: nat)
    requires Enabled(lay, s, Load(b))
    ensures After(lay, s, [Load(b), Hold(p, b)])
         == Some(s.(e := WithBuf(s.e, b, Buf(s.e.disk[b], false, Some(p), false, false))))
  {
    Runs.AfterTwo(Next(lay), s, Load(b), Hold(p, b));
    var f := Buf(s.e.disk[b], false, Some(p), false, false);
    var m: map<nat, Buf> := s.e.cache[b := f.(holder := None)];
    assert m[b := f] == s.e.cache[b := f];
  }

  lemma FillMatched(lay: Layout, k: Kernel, p: nat, i: nat)
    requires KInv(k) && KEnabled(lay, k, KFill(p, i))
    ensures After(lay, Abs(k), Steps(lay, k, KFill(p, i))) == Some(Abs(KDo(lay, k, KFill(p, i))))
  {
    var b := k.c.slots[i].blockno;
    FillAbs(k, i, Buf(k.rest.e.disk[b], false, Some(p), false, false));
    LoadAndHold(lay, Abs(k), p, b);
  }

  /** Reference counts and the order of the list do not show in the map. */
  lemma CountUnseen(c: BC.Cache, i: nat, n: nat, order: seq<nat>)
    requires Unique(c) && i < |c.slots|
    ensures AbsCache(BC.Cache(order, c.slots[i := c.slots[i].(refcnt := n)])) == AbsCache(c)
  {
    var s := c.slots[i];
    var c' := c.(slots := c.slots[i := s.(refcnt := n)]);
    AbsReplace(c, i, s.(refcnt := n));
    if s.valid && s.dev == DEV {
      AbsAt(c, i, s.blockno);
      assert (AbsCache(c) - {s.blockno})[s.blockno := s.buf] == AbsCache(c);
    } else {
      assert AbsCache(c) - {} == AbsCache(c);
    }
    OrderUnseen(c', c'.(order := order));
  }

  lemma OrderUnseen(c: BC.Cache, c': BC.Cache)
    requires c.slots == c'.slots && Unique(c)
    ensures AbsCache(c) == AbsCache(c')
  {
    assert Cached(c) == Cached(c');
    forall b | b in Cached(c) ensures BufOf(c, b) == BufOf(c', b) {
      CachedSomewhere(c, b);
      var i: nat :| i < |c.slots| && Holds(c.slots[i], b);
      AbsAt(c, i, b);
      AbsAt(c', i, b);
    }
  }

  /** Recycling a buffer evicts the block it held; nobody holds or has pinned that block. */
  lemma RecycleMatched(lay: Layout, k: Kernel, p: nat, b: nat)
    requires KInv(k) && KEnabled(lay, k, KGet(p, b)) && BC.Look(k.c, DEV, b).Recycled?
    requires Unique(BC.Get(k.c, DEV, b))
    ensures After(lay, Abs(k), Steps(lay, k, KGet(p, b))) == Some(Abs(KDo(lay, k, KGet(p, b))))
  {
    var i := BC.Look(k.c, DEV, b).i;
    var s := k.c.slots[i];
    AbsReplace(k.c, i, BC.Get(k.c, DEV, b).slots[i]);
    assert GoodSlot(k, i) && |k.refs[i]| == 0;
    if s.valid && s.dev == DEV {
      AbsAt(k.c, i, s.blockno);
      Runs.AfterOne(Next(lay), Abs(k), Evict(s.blockno));
    } else {
      assert AbsCache(k.c) - {} == AbsCache(k.c);
    }
  }

  lemma GetMatched(lay: Layout, k: Kernel, p: nat, b: nat)
    requires KInv(k) && KEnabled(lay, k, KGet(p, b))
    ensures After(lay, Abs(k), Steps(lay, k, KGet(p, b))) == Some(Abs(KDo(lay, k, KGet(p, b))))
  {
    KStepKeepsInv(lay, k, KGet(p, b));
    var got := BC.Look(k.c, DEV, b);
    if got.Recycled? {
      RecycleMatched(lay, k, p, b);
    } else {
      CountUnseen(k.c, got.i, k.c.slots[got.i].refcnt + 1, k.c.order);
    }
  }

  lemma PutMatched(lay: Layout, k: Kernel, p: nat, i: nat)
    requires KInv(k) && KEnabled(lay, k, KPut(p, i))
    ensures Abs(KDo(lay, k, KPut(p, i))) == Abs(k)
  {
    CountUnseen(k.c, i, k.c.slots[i].refcnt - 1, BC.Put(k.c, i).order);
  }

  lemma WriteMatched(lay: Layout, k: Kernel, p: nat, i: nat, j: nat)
    requires KInv(k) && KEnabled(lay, k, KWrite(p, i, j))
    ensures After(lay, Abs(k), Steps(lay, k, KWrite(p, i, j))) == Some(Abs(KDo(lay, k, KWrite(p, i, j))))
  {
    WriteAbs(lay, k, p, i, j);
    Runs.AfterOne(Next(lay), Abs(k), Write);
  }

  /** The two buffers the committer holds show the log system's write. */
  lemma WriteAbs(lay: Layout, k: Kernel, p: nat, i: nat, j: nat)
    requires KInv(k) && KEnabled(lay, k, KWrite(p, i, j))
    ensures Abs(KDo(lay, k, KWrite(p, i, j))).e == EngineStep(lay, Abs(k).e)
  {
    var e := Abs(k).e;
    StepWrites(lay, e);
    AbsAt(k.c, i, Origin(lay, e));
    var x := Payload(e, k.c.slots[i].buf.data);
    AbsSetBuf(k, j, k.c.slots[j].buf.(data := x, dirty := false));
  }

  lemma NothingCached(zero: Block)
    ensures AbsCache(BC.Initial(zero)) == map[]
  {
    assert Cached(BC.Initial(zero)) == {};
  }

  lemma CrashMatched(lay: Layout, k: Kernel, zero: Block)
    requires KInv(k) && KEnabled(lay, k, KCrash(zero))
    ensures After(lay, Abs(k), Steps(lay, k, KCrash(zero))) == Some(Abs(KDo(lay, k, KCrash(zero))))
  {
    NothingCached(zero);
    Runs.AfterOne(Next(lay), Abs(k), Crash);
  }

  lemma EndMatched(lay: Layout, k: Kernel, p: nat)
    requires KInv(k) && KEnabled(lay, k, KEnd(p))
    ensures After(lay, Abs(k), Steps(lay, k, KEnd(p))) == Some(Abs(KDo(lay, k, KEnd(p))))
  {
    forall b | b in AbsCache(k.c) ensures AbsCache(k.c)[b].holder != Some(p) {
      CachedSomewhere(k.c, b);
      var i: nat :| i < |k.c.slots| && Holds(k.c.slots[i], b);
      AbsAt(k.c, i, b);
    }
    Runs.AfterOne(Next(lay), Abs(k), End(p));
  }

  lemma BeginMatched(lay: Layout, k: Kernel, p: nat)
    requires KInv(k) && KEnabled(lay, k, KBegin(p))
    ensures After(lay, Abs(k), Steps(lay, k, KBegin(p))) == Some(Abs(KDo(lay, k, KBegin(p))))
  {
    Runs.AfterOne(Next(lay), Abs(k), Begin(p));
  }

  /** Every step of the kernel is matched by steps of the log system. */
  lemma KernelStepMatched(lay: Layout, k: Kernel, a: KAct)
    requires KInv(k) && KEnabled(lay, k, a)
    ensures After(lay, Abs(k), Steps(lay, k, a)) == Some(Abs(KDo(lay, k, a)))
  {
    match a
    case KBegin(p) => BeginMatched(lay, k, p);
    case KEnd(p) => EndMatched(lay, k, p);
    case KGet(p, b) => GetMatched(lay, k, p, b);
    case KLock(p, i) =>
      if k.c.slots[i].valid && k.c.slots[i].dev == DEV {
        BufferStepMatched(lay, k, a);
      } else {
        LockUnreadMatched(lay, k, p, i);
      }
    case KFill(p, i) => FillMatched(lay, k, p, i);
    case KPut(p, i) => PutMatched(lay, k, p, i);
    case KAppend(p, i) => AppendMatched(lay, k, a);
    case KWrite(p, i, j) => WriteMatched(lay, k, p, i, j);
    case KDone => Runs.AfterOne(Next(lay), Abs(k), Done);
    case KCrash(zero) => CrashMatched(lay, k, zero);
    case _ => BufferStepMatched(lay, k, a);
  }

  // ---------------------------------------------------------------- runs of the kernel

  ghost function KNext(lay: Layout): (Kernel, KAct) -> Option<Kernel> {
    (k, a) => if KEnabled(lay, k, a) then Some(KDo(lay, k, a)) else None
  }

  ghost function KAfter(lay: Layout, k: Kernel, acts: seq<KAct>): Option<Kernel> { Runs.After(KNext(lay), k, acts) }

  /** Every run of the kernel is matched by a run of the log system: whatever holds of all runs there, crash
      recovery in particular, holds of the kernel with its real cache. */
  lemma KernelRefines(lay: Layout, k: Kernel, acts: seq<KAct>)
    requires KInv(k) && KAfter(lay, k, acts).Some?
    ensures KInv(KAfter(lay, k, acts).value)
    ensures Runs.Reaches(Next(lay), Abs(k), Abs(KAfter(lay, k, acts).value))
  {
    ghost var s := Abs(k);
    var inv := (x: Kernel) => KInv(x) && Runs.Reaches(Next(lay), s, Abs(x));
    forall x: Kernel, a: KAct | inv(x) && KNext(lay)(x, a).Some? ensures inv(KNext(lay)(x, a).value) {
      KStepKeepsInv(lay, x, a);
      KernelStepMatched(lay, x, a);
      Runs.ReachesTrans(Next(lay), s, Abs(x), Steps(lay, x, a), Abs(KDo(lay, x, a)));
    }
    Runs.ReachesItself(Next(lay), s);
    Runs.RunKeeps(KNext(lay), inv, k, acts);
  }

  /** In every reachable state, what a process reads through a locked, filled and unmodified buffer is the
      contents of its block as the log system sees them. */
  lemma BufferShowsBlock(lay: Layout, k: Kernel, acts: seq<KAct>, i: nat)
    requires KInv(k) && KAfter(lay, k, acts).Some?
    requires i < BC.NBUF && KAfter(lay, k, acts).value.c.slots[i].valid
    ensures var r := KAfter(lay, k, acts).value;
      && r.c.slots[i].blockno < |Abs(r).e.disk|
      && View(Abs(r).e, r.c.slots[i].blockno) == r.c.slots[i].buf.data
  {
    KernelRefines(lay, k, acts);
    var r := KAfter(lay, k, acts).value;
    assert GoodSlot(r, i);
    AbsAt(r.c, i, r.c.slots[i].blockno);
  }

  /** bget never gives away a buffer that is referenced, locked or pinned by the log. */
  lemma NeverRecyclesInUse(k: Kernel, b: nat)
    requires KInv(k) && BC.Look(k.c, DEV, b).Recycled?
    ensures var i := BC.Look(k.c, DEV, b).i;
      k.refs[i] == multiset{} && k.c.slots[i].buf.holder.None? && !k.c.slots[i].buf.dirty && !k.c.slots[i].buf.touched
  {
    assert GoodSlot(k, BC.Look(k.c, DEV, b).i);
  }

  ghost predicate SafeKernel(lay: Layout, k: Kernel) { KInv(k) && Inv(lay, Abs(k)) }

  /** Runs of the kernel may start from any disk recovery can start from. */
  lemma BootedSafe(lay: Layout, d: Disk, n: nat, zero: Block)
    requires Bootable(lay, d)
    ensures SafeKernel(lay, KBooted(lay, d, n, zero))
  {
    BootedInv(lay, d, n);
    NothingCached(zero);
  }

  /** A block is added to the log only where log_write's size test still holds. */
  predicate KGuarded(lay: Layout, k: Kernel, a: KAct) {
    a.KAppend? && a.i < |k.c.slots| ==> Guarded(lay, k.rest, Append(a.p, k.c.slots[a.i].blockno))
  }

  lemma StepsFit(lay: Layout, k: Kernel, a: KAct)
    requires KInv(k) && KEnabled(lay, k, a) && KGuarded(lay, k, a)
    ensures FitAfter(lay, Abs(k), Steps(lay, k, a)) == After(lay, Abs(k), Steps(lay, k, a))
  {
    if a.KAppend? {
      Runs.AfterOne(Next(lay), Abs(k), Steps(lay, k, a)[0]);
      Runs.AfterOne(Fitting(lay), Abs(k), Steps(lay, k, a)[0]);
    } else {
      NoAppendFits(lay, Abs(k), Steps(lay, k, a));
    }
  }

  lemma SafeKernelKept(lay: Layout, k: Kernel, a: KAct)
    requires SafeKernel(lay, k) && KEnabled(lay, k, a) && KGuarded(lay, k, a)
    ensures SafeKernel(lay, KDo(lay, k, a))
  {
    KStepKeepsInv(lay, k, a);
    KernelStepMatched(lay, k, a);
    StepsFit(lay, k, a);
    RunKeepsInv(lay, Abs(k), Steps(lay, k, a));
  }

  ghost function KFitting(lay: Layout): (Kernel, KAct) -> Option<Kernel> {
    (k, a) => if KEnabled(lay, k, a) && KGuarded(lay, k, a) then Some(KDo(lay, k, a)) else None
  }

  ghost function KFitAfter(lay: Layout, k: Kernel, acts: seq<KAct>): Option<Kernel> {
    Runs.After(KFitting(lay), k, acts)
  }

  lemma RoomIsGuarded(lay: Layout, k: Kernel, a: KAct)
    requires lay.size > LOGSIZE && SafeKernel(lay, k) && KEnabled(lay, k, a)
    ensures KGuarded(lay, k, a)
  {
    if a.KAppend? {
      assert OpsInv(k.rest) by { assert OpsInv(Abs(k)); }
      RoomToAppend(k.rest, a.p, k.c.slots[a.i].blockno);
    }
  }

  /** With more than LOGSIZE log blocks every run of the kernel is one of these. */
  lemma {:induction false} KernelAlwaysFits(lay: Layout, k: Kernel, acts: seq<KAct>)
    requires lay.size > LOGSIZE && SafeKernel(lay, k) && KAfter(lay, k, acts).Some?
    ensures KFitAfter(lay, k, acts) == KAfter(lay, k, acts) && SafeKernel(lay, KAfter(lay, k, acts).value)
  {
    if acts != [] {
      var before, a := acts[..|acts| - 1], acts[|acts| - 1];
      KernelAlwaysFits(lay, k, before);
      var r := KAfter(lay, k, before).value;
      RoomIsGuarded(lay, r, a);
      SafeKernelKept(lay, r, a);
    }
  }

  predicate IsKernelCommit(k: Kernel, a: KAct) { a.KWrite? && k.rest.e.phase.Heading? }

  lemma KernelStepRecovers(lay: Layout, k: Kernel, a: KAct)
    requires SafeKernel(lay, k) && KEnabled(lay, k, a)
    ensures Survives(lay, Abs(KDo(lay, k, a))) ==
      if IsKernelCommit(k, a) then ViewOf(lay, Abs(k).e) else Survives(lay, Abs(k))
    ensures IsKernelCommit(k, a) ==> NoOps(Abs(k))
  {
    if a.KWrite? {
      ActRecovers(lay, Abs(k), Write);
      WriteMatched(lay, k, a.p, a.i, a.j);
      Runs.AfterOne(Next(lay), Abs(k), Write);
    } else {
      assert KDo(lay, k, a).rest.e.disk == k.rest.e.disk;
    }
  }

  /** The contents process p gives to block c in this step, if any. */
  function Given(k: Kernel, a: KAct, c: nat, x: Block): Block {
    if a.KModify? && a.i < |k.c.slots| && k.c.slots[a.i].blockno == c then a.x else x
  }

  /** The contents last given to block c in a run of the kernel, x if it was given none. */
  ghost function KLastGiven(lay: Layout, k: Kernel, acts: seq<KAct>, c: nat, x: Block): Block
    requires KFitAfter(lay, k, acts).Some?
  {
    if acts == [] then x
    else
      var before := acts[..|acts| - 1];
      Given(KFitAfter(lay, k, before).value, acts[|acts| - 1], c, KLastGiven(lay, k, before, c, x))
  }

  lemma StepsGive(lay: Layout, k: Kernel, a: KAct, c: nat, x: Block)
    requires KEnabled(lay, k, a) && !a.KCrash?
    ensures NoCrash(Steps(lay, k, a)) && LastGiven(Steps(lay, k, a), c, x) == Given(k, a, c, x)
  {
    var steps := Steps(lay, k, a);
    if a.KFill? {
      assert LastGiven([], c, x) == LastGiven([steps[0]], c, x) == LastGiven(steps, c, x) by {
        assert [steps[0]][..0] == [] && steps[..1] == [steps[0]];
      }
    }
  }

  lemma KernelStepGives(lay: Layout, k: Kernel, a: KAct, c: nat)
    requires SafeKernel(lay, k) && KEnabled(lay, k, a) && KGuarded(lay, k, a) && !a.KCrash?
    requires !k.rest.booting && Home(lay, k.rest.e.disk, c)
    ensures var r := KDo(lay, k, a);
      !r.rest.booting && Home(lay, r.rest.e.disk, c) && View(Abs(r).e, c) == Given(k, a, c, View(Abs(k).e, c))
  {
    KernelStepMatched(lay, k, a);
    StepsFit(lay, k, a);
    StepsGive(lay, k, a, c, View(Abs(k).e, c));
    ghost var steps, r := Steps(lay, k, a), Abs(KDo(lay, k, a));
    ReadsLastGiven(lay, Abs(k), steps, c);
    assert FitAfter(lay, Abs(k), steps).value == r;
  }

  /** Between crashes, a buffer that bread returns holds the contents last given to its block, x being what the
      block showed at the start: the thirty buffers behave like the plain blocks. */
  lemma {:induction false} BreadReturnsLastGiven(lay: Layout, k: Kernel, acts: seq<KAct>, c: nat)
    requires SafeKernel(lay, k) && !k.rest.booting && Home(lay, k.rest.e.disk, c) && KFitAfter(lay, k, acts).Some?
    requires forall i | 0 <= i < |acts| :: !acts[i].KCrash?
    ensures var r := KFitAfter(lay, k, acts).value;
      && SafeKernel(lay, r) && !r.rest.booting && Home(lay, r.rest.e.disk, c)
      && View(Abs(r).e, c) == KLastGiven(lay, k, acts, c, View(Abs(k).e, c))
      && forall i | 0 <= i < BC.NBUF && Holds(r.c.slots[i], c) :: r.c.slots[i].buf.data == View(Abs(r).e, c)
  {
    if acts != [] {
      var before, a := acts[..|acts| - 1], acts[|acts| - 1];
      BreadReturnsLastGiven(lay, k, before, c);
      var m := KFitAfter(lay, k, before).value;
      KernelStepGives(lay, m, a, c);
      SafeKernelKept(lay, m, a);
    }
    var r := KFitAfter(lay, k, acts).value;
    forall i | 0 <= i < BC.NBUF && Holds(r.c.slots[i], c) ensures r.c.slots[i].buf.data == View(Abs(r).e, c) {
      AbsAt(r.c, i, c);
    }
  }

  /** Crash safety of the kernel with its real cache: after any run that fits the log, recovery, however often cut
      off, restores
      what processes saw just before the last committed header write, when no operation was open. */
  lemma KernelCrashSafe(lay: Layout, k: Kernel, acts: seq<KAct>, cuts: seq<nat>)
    requires SafeKernel(lay, k) && NoOps(k.rest) && k.rest.e.phase.Idle? && KFitAfter(lay, k, acts).Some?
    ensures Bootable(lay, KFitAfter(lay, k, acts).value.rest.e.disk)
    ensures var n := Runs.LastMark(KFitting(lay), IsKernelCommit, k, acts);
      && n <= |acts| && KFitAfter(lay, k, acts[..n]).Some? && NoOps(KFitAfter(lay, k, acts[..n]).value.rest)
      && HomeOf(lay, Recover(lay, KFitAfter(lay, k, acts).value.rest.e.disk, cuts)) ==
        ViewOf(lay, Abs(KFitAfter(lay, k, acts[..n]).value).e)
  {
    QuietView(lay, Abs(k));
    var inv := (x: Kernel) => SafeKernel(lay, x);
    var quiet := (x: Kernel) => NoOps(x.rest);
    var f, g := (x: Kernel) => Survives(lay, Abs(x)), (x: Kernel) => ViewOf(lay, Abs(x).e);
    forall x: Kernel, a: KAct | inv(x) && KFitting(lay)(x, a).Some?
      ensures inv(KFitting(lay)(x, a).value)
      ensures f(KFitting(lay)(x, a).value) == if IsKernelCommit(x, a) then g(x) else f(x)
      ensures IsKernelCommit(x, a) ==> quiet(x)
    {
      SafeKernelKept(lay, x, a);
      KernelStepRecovers(lay, x, a);
    }
    Runs.RunKeeps(KFitting(lay), inv, k, acts);
    Runs.ShowsLastMark(KFitting(lay), inv, IsKernelCommit, quiet, f, g, k, acts);
    var r := KFitAfter(lay, k, acts).value;
    EngineBootable(lay, Abs(r).e);
    RecoverIsAfterCrash(lay, r.rest.e.disk, cuts);
  }
}

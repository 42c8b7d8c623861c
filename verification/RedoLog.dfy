/** The redo log: commit and recovery as sequences of single-block writes, over a write-back cache.

    `Engine` is what the log works on: the disk, the cached blocks, the in-memory header and the next
    block write that commit() or recovery is going to issue.  A crash may come between any two writes. */
module RedoLog {
  import opened Common
  import opened Bytes
  import opened Iteration

  const LOGSIZE: nat := 3 * MAXOPBLOCKS

  type Disk = seq<Block>

  /** log.start and log.size: the header is block start, the slots follow it. */
  datatype Layout = Layout(start: nat, size: nat)

  predicate InLog(lay: Layout, b: nat) { lay.start <= b < lay.start + lay.size }

  /** A block of the file system proper. */
  predicate Home(lay: Layout, d: Disk, b: nat) { b < |d| && !InLog(lay, b) }

  predicate DiskOk(lay: Layout, d: Disk) { 1 <= lay.size && lay.start + lay.size <= |d| <= 0x1_0000_0000 }

  // ---------------------------------------------------------------- the header block

  predicate HeaderOk(b: Block) { WordAt(b, 0) <= LOGSIZE }

  /** The block numbers recorded in a header block. */
  function HeadOf(b: Block): seq<nat>
    requires HeaderOk(b)
  {
    seq(WordAt(b, 0), i requires 0 <= i < WordAt(b, 0) => WordAt(b, i + 1))
  }

  predicate Recordable(blocks: seq<nat>) {
    |blocks| <= LOGSIZE && forall i | 0 <= i < |blocks| :: blocks[i] < 0x1_0000_0000
  }

  function PutBlocks(b: Block, blocks: seq<nat>, n: nat): Block
    requires Recordable(blocks) && n <= |blocks|
  {
    if n == 0 then b else PutWord(PutBlocks(b, blocks, n - 1), n, blocks[n - 1])
  }

  /** write_head overwrites the count and the first entries and leaves the rest of the block alone. */
  function PutHead(b: Block, blocks: seq<nat>): Block
    requires Recordable(blocks)
  {
    PutBlocks(PutWord(b, 0, |blocks|), blocks, |blocks|)
  }

  lemma {:induction false} PutBlocksAt(b: Block, blocks: seq<nat>, n: nat, j: nat)
    requires Recordable(blocks) && n <= |blocks| && j < BSIZE / 4
    ensures WordAt(PutBlocks(b, blocks, n), j) == if 1 <= j <= n then blocks[j - 1] else WordAt(b, j)
  {
    if n > 0 {
      WordAfterPut(PutBlocks(b, blocks, n - 1), n, blocks[n - 1], j);
      PutBlocksAt(b, blocks, n - 1, j);
    }
  }

  /** Whatever the block held before, the header written is the header read back. */
  lemma HeadRoundTrip(b: Block, blocks: seq<nat>)
    requires Recordable(blocks)
    ensures HeaderOk(PutHead(b, blocks)) && HeadOf(PutHead(b, blocks)) == blocks
  {
    var b0 := PutWord(b, 0, |blocks|);
    WordAfterPut(b, 0, |blocks|, 0);
    PutBlocksAt(b0, blocks, |blocks|, 0);
    forall i | 0 <= i < |blocks| ensures WordAt(PutHead(b, blocks), i + 1) == blocks[i] {
      PutBlocksAt(b0, blocks, |blocks|, i + 1);
    }
  }

  // ---------------------------------------------------------------- the engine

  /** A cached block.  dirty is B_DIRTY: the log pins the block in the cache.  The holder of the sleep lock
      may have changed the data without having logged it yet (touched), and may have passed the size test
      of log_write without having taken log.lock yet (checked). */
  datatype Buf = Buf(data: Block, dirty: bool, holder: Option<nat>, touched: bool, checked: bool)

  /** The next block write of commit() or of recovery. */
  datatype Phase =
    | Idle
    | Logging(i: nat)     // write_log, slot i
    | Heading             // the first write_head: the commit point
    | Installing(i: nat)  // install_trans, entry i
    | Erasing             // the second write_head

  datatype Engine = Engine(disk: Disk, cache: map<nat, Buf>, lh: seq<nat>, phase: Phase)

  /** What bread returns. */
  function View(e: Engine, b: nat): Block
    requires b < |e.disk|
  {
    if b in e.cache then e.cache[b].data else e.disk[b]
  }

  /** bwrite through iderw: the disk gets the data and the buffer loses B_DIRTY. */
  function BWrite(e: Engine, b: nat, x: Block): Engine
    requires b < |e.disk|
  {
    e.(disk := e.disk[b := x],
       cache := if b in e.cache then e.cache[b := e.cache[b].(data := x, dirty := false)] else e.cache)
  }

  predicate LogFits(lay: Layout, e: Engine) {
    && DiskOk(lay, e.disk)
    && Recordable(e.lh) && |e.lh| < lay.size
    && (forall i | 0 <= i < |e.lh| :: e.lh[i] < |e.disk|)
    && (e.phase.Logging? ==> e.phase.i < |e.lh|)
    && (e.phase.Installing? ==> e.phase.i < |e.lh|)
  }

  /** One block write of commit() or recovery. */
  function EngineStep(lay: Layout, e: Engine): Engine
    requires LogFits(lay, e) && !e.phase.Idle?
  {
    match e.phase
    case Logging(i) =>
      BWrite(e, lay.start + 1 + i, View(e, e.lh[i])).(phase := if i + 1 < |e.lh| then Logging(i + 1) else Heading)
    case Heading =>
      BWrite(e, lay.start, PutHead(View(e, lay.start), e.lh)).(phase := if |e.lh| > 0 then Installing(0) else Erasing)
    case Installing(i) =>
      BWrite(e, e.lh[i], View(e, lay.start + 1 + i)).(phase := if i + 1 < |e.lh| then Installing(i + 1) else Erasing)
    case Erasing =>
      BWrite(e, lay.start, PutHead(View(e, lay.start), [])).(lh := [], phase := Idle)
  }

  /** commit() does nothing when no block was logged. */
  function StartCommit(e: Engine): Engine { e.(phase := if |e.lh| > 0 then Logging(0) else Idle) }

  /** read_head after a crash: the cache is gone, the in-memory header comes from the disk. */
  function Boot(lay: Layout, d: Disk): Engine
    requires DiskOk(lay, d) && HeaderOk(d[lay.start])
  {
    var lh := HeadOf(d[lay.start]);
    Engine(d, map[], lh, if |lh| > 0 then Installing(0) else Erasing)
  }

  // ---------------------------------------------------------------- what a crash would leave

  predicate Names(blocks: seq<nat>, k: nat, b: nat) { k < |blocks| && blocks[k] == b }

  predicate HeaderFits(lay: Layout, d: Disk) {
    DiskOk(lay, d) && HeaderOk(d[lay.start]) && |HeadOf(d[lay.start])| < lay.size
  }

  /** The contents block b would have after an undisturbed recovery from disk d. */
  ghost function RecoveredAt(lay: Layout, d: Disk, b: nat): Block
    requires HeaderFits(lay, d) && b < |d|
  {
    var lh := HeadOf(d[lay.start]);
    if k: nat :| Names(lh, k, b) then d[lay.start + 1 + k] else d[b]
  }

  /** The contents of the file system: all blocks outside the log. */
  type Contents = map<nat, Block>

  function HomeOf(lay: Layout, d: Disk): Contents {
    map b: nat | 0 <= b < |d| && !InLog(lay, b) :: d[b]
  }

  function ViewOf(lay: Layout, e: Engine): Contents {
    map b: nat | 0 <= b < |e.disk| && !InLog(lay, b) :: View(e, b)
  }

  /** The file system an undisturbed recovery from disk d would produce. */
  ghost function AfterCrash(lay: Layout, d: Disk): Contents
    requires HeaderFits(lay, d)
  {
    map b: nat | 0 <= b < |d| && !InLog(lay, b) :: RecoveredAt(lay, d, b)
  }

  predicate Distinct(blocks: seq<nat>) { forall i, j | 0 <= i < j < |blocks| :: blocks[i] != blocks[j] }

  // ---------------------------------------------------------------- the engine's invariant

  predicate Before(p: Phase) { p.Idle? || p.Logging? || p.Heading? }

  /** How many entries of the header have their data in the log slots. */
  function Slots(e: Engine): nat {
    match e.phase
    case Idle => 0
    case Logging(i) => i
    case _ => |e.lh|
  }

  /** How many entries have been installed. */
  function Installed(e: Engine): nat {
    match e.phase
    case Installing(i) => i
    case Erasing => |e.lh|
    case _ => 0
  }

  predicate ShapeInv(lay: Layout, e: Engine) {
    && LogFits(lay, e)
    && Distinct(e.lh)
    && (forall i | 0 <= i < |e.lh| :: !InLog(lay, e.lh[i]))
    && (e.phase.Heading? ==> |e.lh| > 0)
  }

  /** The header on disk names the logged blocks from the commit point on, and nothing before it. */
  predicate HeaderInv(lay: Layout, e: Engine) {
    && HeaderFits(lay, e.disk)
    && HeadOf(e.disk[lay.start]) == if Before(e.phase) then [] else e.lh
  }

  /** A cached block that is neither pinned nor being changed agrees with the disk. */
  predicate CleanInv(lay: Layout, e: Engine) {
    && (forall b | b in e.cache :: b < |e.disk|)
    && (forall b | b in e.cache && !e.cache[b].dirty && !e.cache[b].touched :: e.cache[b].data == e.disk[b])
    && (forall b | b in e.cache && (e.cache[b].dirty || e.cache[b].touched) :: Home(lay, e.disk, b))
    && (!e.phase.Idle? ==> forall b | b in e.cache :: !e.cache[b].touched)
  }

  /** Exactly the logged and not yet installed blocks are pinned, and their log slots hold their data. */
  predicate PinInv(lay: Layout, e: Engine) {
    && (forall b | b in e.cache && e.cache[b].dirty :: b in e.lh)
    && (Before(e.phase) ==> forall i | 0 <= i < |e.lh| :: e.lh[i] in e.cache && e.cache[e.lh[i]].dirty)
    && (forall i | 0 <= i < Installed(e) && i < |e.lh| && e.lh[i] in e.cache :: !e.cache[e.lh[i]].dirty)
  }

  /** Log slot k holds the data of the block it stands for, from the moment it is written. */
  predicate SlotAt(lay: Layout, e: Engine, k: nat)
    requires LogFits(lay, e) && k < |e.lh|
  {
    && (k < Slots(e) && e.lh[k] in e.cache && e.cache[e.lh[k]].dirty ==>
          e.cache[e.lh[k]].data == e.disk[lay.start + 1 + k])
    && (k < Installed(e) ==> e.disk[e.lh[k]] == e.disk[lay.start + 1 + k])
  }

  predicate SlotInv(lay: Layout, e: Engine)
    requires LogFits(lay, e)
  {
    forall k | 0 <= k < |e.lh| :: SlotAt(lay, e, k)
  }

  predicate EngineOk(lay: Layout, e: Engine) {
    ShapeInv(lay, e) && HeaderInv(lay, e) && CleanInv(lay, e) && PinInv(lay, e) && SlotInv(lay, e)
  }

  lemma LogBlocksAreClean(lay: Layout, e: Engine, b: nat)
    requires CleanInv(lay, e) && b < |e.disk| && InLog(lay, b)
    ensures View(e, b) == e.disk[b]
    ensures b in e.cache ==> !e.cache[b].dirty && !e.cache[b].touched
  {
  }

  lemma StepKeepsShape(lay: Layout, e: Engine)
    requires ShapeInv(lay, e) && !e.phase.Idle?
    ensures ShapeInv(lay, EngineStep(lay, e))
  {
  }

  lemma StepKeepsHeader(lay: Layout, e: Engine)
    requires ShapeInv(lay, e) && HeaderInv(lay, e) && !e.phase.Idle?
    ensures HeaderInv(lay, EngineStep(lay, e))
  {
    if e.phase.Heading? { HeadRoundTrip(View(e, lay.start), e.lh); }
    if e.phase.Erasing? { HeadRoundTrip(View(e, lay.start), []); }
  }

  /** Writing a block that is not being changed leaves the cache clean. */
  lemma WriteKeepsClean(lay: Layout, e: Engine, b: nat, x: Block)
    requires CleanInv(lay, e) && b < |e.disk| && !e.phase.Idle?
    ensures CleanInv(lay, BWrite(e, b, x))
  {
  }

  lemma StepKeepsClean(lay: Layout, e: Engine)
    requires ShapeInv(lay, e) && CleanInv(lay, e) && !e.phase.Idle?
    ensures CleanInv(lay, EngineStep(lay, e))
  {
    match e.phase
    case Logging(i) => WriteKeepsClean(lay, e, lay.start + 1 + i, View(e, e.lh[i]));
    case Heading => WriteKeepsClean(lay, e, lay.start, PutHead(View(e, lay.start), e.lh));
    case Installing(i) => WriteKeepsClean(lay, e, e.lh[i], View(e, lay.start + 1 + i));
    case Erasing => WriteKeepsClean(lay, e, lay.start, PutHead(View(e, lay.start), []));
  }

  lemma InstallKeepsPins(lay: Layout, e: Engine)
    requires ShapeInv(lay, e) && PinInv(lay, e) && e.phase.Installing?
    ensures PinInv(lay, EngineStep(lay, e))
  {
    var b := e.lh[e.phase.i];
    assert forall j | 0 <= j < |e.lh| && j != e.phase.i :: e.lh[j] != b;
  }

  lemma StepKeepsPins(lay: Layout, e: Engine)
    requires ShapeInv(lay, e) && CleanInv(lay, e) && PinInv(lay, e) && !e.phase.Idle?
    ensures PinInv(lay, EngineStep(lay, e))
  {
    match e.phase
    case Logging(i) => LogBlocksAreClean(lay, e, lay.start + 1 + i);
    case Heading => LogBlocksAreClean(lay, e, lay.start);
    case Installing(i) => InstallKeepsPins(lay, e);
    case Erasing => LogBlocksAreClean(lay, e, lay.start);
  }

  lemma SlotKept(lay: Layout, e: Engine, k: nat)
    requires ShapeInv(lay, e) && CleanInv(lay, e) && !e.phase.Idle? && !e.phase.Erasing?
    requires k < |e.lh| && SlotAt(lay, e, k)
    requires Before(e.phase) ==> e.lh[k] in e.cache
    requires ShapeInv(lay, EngineStep(lay, e))
    ensures SlotAt(lay, EngineStep(lay, e), k)
  {
    match e.phase
    case Logging(i) =>
      LogBlocksAreClean(lay, e, lay.start + 1 + i);
    case Heading => LogBlocksAreClean(lay, e, lay.start);
    case Installing(i) =>
      LogBlocksAreClean(lay, e, lay.start + 1 + i);
      assert k != i ==> e.lh[k] != e.lh[i];
  }

  lemma StepKeepsSlots(lay: Layout, e: Engine)
    requires ShapeInv(lay, e) && CleanInv(lay, e) && PinInv(lay, e) && SlotInv(lay, e) && !e.phase.Idle?
    ensures LogFits(lay, EngineStep(lay, e)) && SlotInv(lay, EngineStep(lay, e))
  {
    StepKeepsShape(lay, e);
    if !e.phase.Erasing? {
      forall k | 0 <= k < |e.lh| ensures SlotAt(lay, EngineStep(lay, e), k) {
        SlotKept(lay, e, k);
      }
    }
  }

  lemma StepKeepsEngine(lay: Layout, e: Engine)
    requires EngineOk(lay, e) && !e.phase.Idle?
    ensures EngineOk(lay, EngineStep(lay, e))
  {
    StepKeepsShape(lay, e);
    StepKeepsHeader(lay, e);
    StepKeepsClean(lay, e);
    StepKeepsPins(lay, e);
    StepKeepsSlots(lay, e);
  }

  /** A block the header does not name is left as it is. */
  lemma RecoveredUnlisted(lay: Layout, e: Engine, b: nat)
    requires HeaderInv(lay, e) && b < |e.disk| && (Before(e.phase) || b !in e.lh)
    ensures RecoveredAt(lay, e.disk, b) == e.disk[b]
  {
  }

  /** A block the header names gets the contents of its slot. */
  lemma RecoveredListed(lay: Layout, e: Engine, k: nat)
    requires ShapeInv(lay, e) && HeaderInv(lay, e) && !Before(e.phase) && k < |e.lh|
    ensures RecoveredAt(lay, e.disk, e.lh[k]) == e.disk[lay.start + 1 + k]
  {
    assert Names(e.lh, k, e.lh[k]);
  }

  lemma StepRecoversUnlisted(lay: Layout, e: Engine, b: nat)
    requires EngineOk(lay, e) && !e.phase.Idle? && Home(lay, e.disk, b) && b !in e.lh
    requires HeaderInv(lay, EngineStep(lay, e))
    ensures RecoveredAt(lay, EngineStep(lay, e).disk, b) == View(e, b) == RecoveredAt(lay, e.disk, b)
  {
    RecoveredUnlisted(lay, e, b);
    RecoveredUnlisted(lay, EngineStep(lay, e), b);
    assert View(e, b) == e.disk[b];
  }

  lemma DiskAfter(lay: Layout, e: Engine, k: nat)
    requires ShapeInv(lay, e) && !e.phase.Idle? && k < |e.lh|
    ensures |EngineStep(lay, e).disk| == |e.disk|
    ensures !e.phase.Logging? ==> EngineStep(lay, e).disk[lay.start + 1 + k] == e.disk[lay.start + 1 + k]
    ensures !e.phase.Installing? ==> EngineStep(lay, e).disk[e.lh[k]] == e.disk[e.lh[k]]
  {
    assert !InLog(lay, e.lh[k]);
  }

  lemma RecoveredBefore(lay: Layout, e: Engine, k: nat)
    requires ShapeInv(lay, e) && HeaderInv(lay, e) && SlotInv(lay, e) && k < |e.lh|
    ensures RecoveredAt(lay, e.disk, e.lh[k]) == if Before(e.phase) then e.disk[e.lh[k]] else e.disk[lay.start + 1 + k]
    ensures e.phase.Heading? && e.lh[k] in e.cache && e.cache[e.lh[k]].dirty ==>
      View(e, e.lh[k]) == e.disk[lay.start + 1 + k]
    ensures e.phase.Erasing? ==> e.disk[e.lh[k]] == e.disk[lay.start + 1 + k]
  {
    assert SlotAt(lay, e, k);
    if Before(e.phase) { RecoveredUnlisted(lay, e, e.lh[k]); } else { RecoveredListed(lay, e, k); }
  }

  lemma RecoveredNext(lay: Layout, e: Engine, k: nat)
    requires ShapeInv(lay, e) && !e.phase.Idle? && k < |e.lh|
    requires ShapeInv(lay, EngineStep(lay, e)) && HeaderInv(lay, EngineStep(lay, e))
    ensures var d' := EngineStep(lay, e).disk;
      RecoveredAt(lay, d', e.lh[k]) == if e.phase.Logging? || e.phase.Erasing? then d'[e.lh[k]]
        else d'[lay.start + 1 + k]
  {
    var e' := EngineStep(lay, e);
    if e.phase.Logging? || e.phase.Erasing? {
      RecoveredUnlisted(lay, e', e.lh[k]);
    } else {
      RecoveredListed(lay, e', k);
    }
  }

  lemma StepRecoversListed(lay: Layout, e: Engine, k: nat)
    requires ShapeInv(lay, e) && HeaderInv(lay, e) && SlotInv(lay, e) && !e.phase.Idle? && k < |e.lh|
    requires Before(e.phase) ==> e.lh[k] in e.cache && e.cache[e.lh[k]].dirty
    requires ShapeInv(lay, EngineStep(lay, e)) && HeaderInv(lay, EngineStep(lay, e))
    ensures RecoveredAt(lay, EngineStep(lay, e).disk, e.lh[k])
         == if e.phase.Heading? then View(e, e.lh[k]) else RecoveredAt(lay, e.disk, e.lh[k])
  {
    RecoveredBefore(lay, e, k);
    RecoveredNext(lay, e, k);
    DiskAfter(lay, e, k);
  }

  lemma StepRecoversAt(lay: Layout, e: Engine, b: nat)
    requires EngineOk(lay, e) && !e.phase.Idle? && Home(lay, e.disk, b)
    ensures HeaderFits(lay, EngineStep(lay, e).disk) && |EngineStep(lay, e).disk| == |e.disk|
    ensures RecoveredAt(lay, EngineStep(lay, e).disk, b) ==
      if e.phase.Heading? then View(e, b) else RecoveredAt(lay, e.disk, b)
  {
    StepKeepsShape(lay, e);
    StepKeepsHeader(lay, e);
    if b in e.lh {
      var k :| 0 <= k < |e.lh| && e.lh[k] == b;
      StepRecoversListed(lay, e, k);
    } else {
      StepRecoversUnlisted(lay, e, b);
    }
  }

  lemma SameAfterCrash(lay: Layout, d: Disk, d': Disk)
    requires HeaderFits(lay, d) && HeaderFits(lay, d') && |d| == |d'|
    requires forall b: nat | Home(lay, d, b) :: RecoveredAt(lay, d', b) == RecoveredAt(lay, d, b)
    ensures AfterCrash(lay, d') == AfterCrash(lay, d)
  {
  }

  lemma ViewAfterCrash(lay: Layout, e: Engine, d': Disk)
    requires HeaderFits(lay, d') && |e.disk| == |d'|
    requires forall b: nat | Home(lay, d', b) :: RecoveredAt(lay, d', b) == View(e, b)
    ensures AfterCrash(lay, d') == ViewOf(lay, e)
  {
  }

  /** A block write of commit() or recovery changes what a crash would leave only at the commit point, where
      it becomes what the cache shows. */
  lemma StepRecovers(lay: Layout, e: Engine)
    requires EngineOk(lay, e) && !e.phase.Idle?
    ensures HeaderFits(lay, EngineStep(lay, e).disk)
    ensures AfterCrash(lay, EngineStep(lay, e).disk) ==
      if e.phase.Heading? then ViewOf(lay, e) else AfterCrash(lay, e.disk)
  {
    StepKeepsHeader(lay, e);
    var d' := EngineStep(lay, e).disk;
    if e.phase.Heading? {
      forall b: nat | Home(lay, d', b) ensures RecoveredAt(lay, d', b) == View(e, b) { StepRecoversAt(lay, e, b); }
      ViewAfterCrash(lay, e, d');
    } else {
      forall b: nat | Home(lay, e.disk, b) ensures RecoveredAt(lay, d', b) == RecoveredAt(lay, e.disk, b) {
        StepRecoversAt(lay, e, b);
      }
      SameAfterCrash(lay, e.disk, d');
    }
  }

  lemma CleanAfterCrash(lay: Layout, e: Engine)
    requires EngineOk(lay, e) && Before(e.phase)
    ensures AfterCrash(lay, e.disk) == HomeOf(lay, e.disk)
  {
    forall b: nat | Home(lay, e.disk, b) ensures RecoveredAt(lay, e.disk, b) == e.disk[b] {
      RecoveredUnlisted(lay, e, b);
    }
  }

  // ---------------------------------------------------------------- crashes

  /** Block writes left until the engine is idle again. */
  function WritesLeft(e: Engine): nat {
    match e.phase
    case Idle => 0
    case Logging(i) => (if i < |e.lh| then |e.lh| - i else 0) + |e.lh| + 2
    case Heading => |e.lh| + 2
    case Installing(i) => (if i < |e.lh| then |e.lh| - i else 0) + 1
    case Erasing => 1
  }

  function NextOf(lay: Layout): Engine -> Engine {
    e => if LogFits(lay, e) && !e.phase.Idle? then EngineStep(lay, e) else e
  }

  /** The engine after n of its block writes (fewer if it becomes idle). */
  function Writes(lay: Layout, e: Engine, n: nat): Engine {
    Iterate(NextOf(lay), e, n)
  }

  /** What recovery demands of the disk it finds. */
  predicate Bootable(lay: Layout, d: Disk) {
    && HeaderFits(lay, d)
    && var lh := HeadOf(d[lay.start]);
      Distinct(lh) && forall i | 0 <= i < |lh| :: Home(lay, d, lh[i])
  }

  lemma BootOk(lay: Layout, d: Disk)
    requires Bootable(lay, d)
    ensures EngineOk(lay, Boot(lay, d))
  {
  }

  lemma EngineBootable(lay: Layout, e: Engine)
    requires EngineOk(lay, e)
    ensures Bootable(lay, e.disk)
  {
  }

  lemma WritesKeepEngine(lay: Layout, e: Engine, n: nat)
    requires EngineOk(lay, e)
    ensures EngineOk(lay, Writes(lay, e, n)) && Bootable(lay, Writes(lay, e, n).disk)
  {
    var ok := (y: Engine) => EngineOk(lay, y);
    forall y: Engine | ok(y) ensures ok(NextOf(lay)(y)) {
      if !y.phase.Idle? { StepKeepsEngine(lay, y); }
    }
    IterateKeeps(NextOf(lay), ok, e, n);
    EngineBootable(lay, Writes(lay, e, n));
  }

  /** Recovery started on disk d, cut off by a crash after cuts[0] block writes, started again, and so on; the
      last recovery is left to finish. */
  ghost function Recover(lay: Layout, d: Disk, cuts: seq<nat>): (r: Disk)
    requires Bootable(lay, d)
    decreases |cuts|
  {
    BootOk(lay, d);
    if cuts == [] then Writes(lay, Boot(lay, d), WritesLeft(Boot(lay, d))).disk
    else
      WritesKeepEngine(lay, Boot(lay, d), cuts[0]);
      Recover(lay, Writes(lay, Boot(lay, d), cuts[0]).disk, cuts[1..])
  }

  /** One write, as far as crashes are concerned. */
  lemma WriteFacts(lay: Layout, e: Engine)
    requires EngineOk(lay, e)
    ensures var e' := NextOf(lay)(e);
      && EngineOk(lay, e')
      && WritesLeft(e') == (if WritesLeft(e) == 0 then 0 else WritesLeft(e) - 1)
      && (WritesLeft(e) == 0 <==> e.phase.Idle?)
      && AfterCrash(lay, e'.disk) == (if e.phase.Heading? then ViewOf(lay, e) else AfterCrash(lay, e.disk))
      && (e.phase.Logging? ==> ViewOf(lay, e') == ViewOf(lay, e) && (e'.phase.Logging? || e'.phase.Heading?))
      && (e.phase.Logging? || e.phase.Heading? ==> e'.lh == e.lh)
      && (!Before(e.phase) || e.phase.Idle? || e.phase.Heading? ==> !Before(e'.phase) || e'.phase.Idle?)
  {
    if !e.phase.Idle? {
      StepKeepsEngine(lay, e);
      StepRecovers(lay, e);
      if e.phase.Logging? { LoggingHidden(lay, e); }
    }
  }

  /** Copying a block to its log slot shows in no home block. */
  lemma LoggingHidden(lay: Layout, e: Engine)
    requires ShapeInv(lay, e) && e.phase.Logging?
    ensures ViewOf(lay, EngineStep(lay, e)) == ViewOf(lay, e)
  {
    forall b: nat | Home(lay, e.disk, b) ensures View(EngineStep(lay, e), b) == View(e, b) {
    }
  }

  lemma OneLess(lay: Layout, e: Engine)
    requires EngineOk(lay, e)
    ensures EngineOk(lay, NextOf(lay)(e))
    ensures WritesLeft(NextOf(lay)(e)) == if WritesLeft(e) == 0 then 0 else WritesLeft(e) - 1
  {
    WriteFacts(lay, e);
  }

  lemma WritesCount(lay: Layout, e: Engine, n: nat)
    requires EngineOk(lay, e)
    ensures WritesLeft(Writes(lay, e, n)) == if n <= WritesLeft(e) then WritesLeft(e) - n else 0
  {
    forall y: Engine | EngineOk(lay, y)
      ensures EngineOk(lay, NextOf(lay)(y))
           && WritesLeft(NextOf(lay)(y)) == if WritesLeft(y) == 0 then 0 else WritesLeft(y) - 1
    {
      OneLess(lay, y);
    }
    IterateCounts(NextOf(lay), y => EngineOk(lay, y), WritesLeft, e, n);
  }

  predicate Replaying(p: Phase) { p.Installing? || p.Erasing? || p.Idle? }

  /** Recovery, however far it gets, does not change what a crash would leave. */
  lemma WritesRecover(lay: Layout, e: Engine, n: nat)
    requires EngineOk(lay, e) && Replaying(e.phase)
    ensures HeaderFits(lay, Writes(lay, e, n).disk)
    ensures AfterCrash(lay, Writes(lay, e, n).disk) == AfterCrash(lay, e.disk)
  {
    ghost var c := AfterCrash(lay, e.disk);
    var ok := (y: Engine) => EngineOk(lay, y) && Replaying(y.phase) && AfterCrash(lay, y.disk) == c;
    forall y: Engine | ok(y) ensures ok(NextOf(lay)(y)) { WriteFacts(lay, y); }
    IterateKeeps(NextOf(lay), ok, e, n);
  }

  /** Any number of interrupted recoveries end with the contents AfterCrash foretells. */
  lemma {:induction false} RecoverIsAfterCrash(lay: Layout, d: Disk, cuts: seq<nat>)
    requires Bootable(lay, d)
    ensures HomeOf(lay, Recover(lay, d, cuts)) == AfterCrash(lay, d)
    decreases |cuts|
  {
    BootOk(lay, d);
    var e := Boot(lay, d);
    if cuts == [] {
      var n := WritesLeft(e);
      WritesKeepEngine(lay, e, n);
      WritesRecover(lay, e, n);
      WritesCount(lay, e, n);
      WriteFacts(lay, Writes(lay, e, n));
      CleanAfterCrash(lay, Writes(lay, e, n));
    } else {
      WritesKeepEngine(lay, e, cuts[0]);
      WritesRecover(lay, e, cuts[0]);
      RecoverIsAfterCrash(lay, Writes(lay, e, cuts[0]).disk, cuts[1..]);
    }
  }

  /** Before the header write the old contents survive a crash, after it the new ones. */
  ghost predicate Straddles(lay: Layout, e: Engine, lh: seq<nat>, was: Contents, now: Contents) {
    && EngineOk(lay, e)
    && (if Replaying(e.phase) then AfterCrash(lay, e.disk) == now && WritesLeft(e) <= |lh| + 1
        else AfterCrash(lay, e.disk) == was && ViewOf(lay, e) == now && e.lh == lh && WritesLeft(e) >= |lh| + 2)
  }

  lemma CommitPoint(lay: Layout, e: Engine, n: nat)
    requires EngineOk(lay, e) && e.phase.Logging? && e.phase.i == 0
    ensures EngineOk(lay, Writes(lay, e, n))
    ensures AfterCrash(lay, Writes(lay, e, n).disk) == if n <= |e.lh| then AfterCrash(lay, e.disk) else ViewOf(lay, e)
  {
    ghost var lh, was, now := e.lh, AfterCrash(lay, e.disk), ViewOf(lay, e);
    var ok := (y: Engine) => Straddles(lay, y, lh, was, now);
    forall y: Engine | ok(y) ensures ok(NextOf(lay)(y)) { WriteFacts(lay, y); }
    IterateKeeps(NextOf(lay), ok, e, n);
    WritesCount(lay, e, n);
  }

  /** Crash atomicity: stop commit() after any number n of its block writes and recover, however often the
      recovery itself is cut off: the file system ends with exactly its old contents if the header was not yet
      written, and with exactly the contents the cache showed, the whole transaction, otherwise. */
  lemma CrashAtomic(lay: Layout, e: Engine, n: nat, cuts: seq<nat>)
    requires EngineOk(lay, e) && e.phase.Logging? && e.phase.i == 0
    ensures Bootable(lay, Writes(lay, e, n).disk)
    ensures HomeOf(lay, Recover(lay, Writes(lay, e, n).disk, cuts))
         == if n <= |e.lh| then HomeOf(lay, e.disk) else ViewOf(lay, e)
  {
    WritesKeepEngine(lay, e, n);
    RecoverIsAfterCrash(lay, Writes(lay, e, n).disk, cuts);
    CommitPoint(lay, e, n);
    CleanAfterCrash(lay, e);
  }
}

/** log.c's routines in place: the loops of write_log, write_head, install_trans and read_head, and the
    critical sections of begin_op, end_op and log_write.  Each is proved to perform exactly the block writes
    and header changes of the engine that the crash theorems are about. */
module LogDevice {
  import opened Common
  import opened Bytes
  import opened Iteration
  import opened RedoLog
  import opened LogSystem

  /** The disk after each of the engine's first m writes. */
  ghost function History(lay: Layout, e: Engine, m: nat): seq<Disk> {
    seq(m, i requires 0 <= i < m => Writes(lay, e, i + 1).disk)
  }

  /** One more write of the engine. */
  lemma WritesSnoc(lay: Layout, e: Engine, m: nat)
    requires LogFits(lay, Writes(lay, e, m)) && !Writes(lay, e, m).phase.Idle?
    ensures Writes(lay, e, m + 1) == EngineStep(lay, Writes(lay, e, m))
  {
    IterateSnoc(NextOf(lay), e, m);
  }

  lemma HistorySnoc(lay: Layout, e: Engine, m: nat)
    ensures History(lay, e, m + 1) == History(lay, e, m) + [Writes(lay, e, m + 1).disk]
  {
  }

  /** The engine never leaves the log area, however many writes it makes. */
  ghost predicate AlwaysFits(lay: Layout, e: Engine) { forall m: nat :: LogFits(lay, Writes(lay, e, m)) }

  lemma OkAlwaysFits(lay: Layout, e: Engine)
    requires EngineOk(lay, e)
    ensures AlwaysFits(lay, e)
  {
    forall m: nat ensures LogFits(lay, Writes(lay, e, m)) {
      WritesKeepEngine(lay, e, m);
    }
  }

  class Log {
    const lay: Layout
    var disk: Disk
    var cache: map<nat, Buf>
    const block: array<nat>        // log.lh.block
    var n: nat                     // log.lh.n
    var outstanding: int
    var committing: bool
    ghost var trace: seq<Disk>     // the disk after each block write

    ghost predicate Valid()
      reads this, block
    {
      block.Length == LOGSIZE && n <= LOGSIZE
    }

    /** The log as the engine sees it, about to perform the given write. */
    ghost function Value(p: Phase): Engine
      requires Valid()
      reads this, block
    {
      Engine(disk, cache, block[..n], p)
    }

    /** initlog: an empty cache, then recovery from whatever the disk holds. */
    constructor (lay: Layout, disk: Disk)
      requires Bootable(lay, disk)
      ensures Valid() && this.lay == lay && n == 0 && outstanding == 0 && !committing
      ensures var e := Boot(lay, disk);
        this.disk == Recover(lay, disk, []) && Value(Idle) == Writes(lay, e, WritesLeft(e))
    {
      this.lay, this.disk, cache, block, n := lay, disk, map[], new nat[LOGSIZE], 0;
      outstanding, committing, trace := 0, false, [];
      new;
      RecoverFromLog();
    }

    method BRead(b: nat) returns (x: Block)
      requires Valid() && b < |disk|
      ensures x == View(Value(Idle), b)
    {
      x := if b in cache then cache[b].data else disk[b];
    }

    method BWriteBlock(b: nat, x: Block)
      requires Valid() && b < |disk|
      modifies this`disk, this`cache, this`trace
      ensures Valid()
      ensures forall p :: Value(p) == BWrite(old(Value(p)), b, x)
      ensures trace == old(trace) + [disk]
    {
      disk := disk[b := x];
      if b in cache { cache := cache[b := cache[b].(data := x, dirty := false)]; }
      trace := trace + [disk];
    }

    /** write_head: the header block with the in-memory header written over it. */
    method WriteHead()
      requires Valid() && LogFits(lay, Value(Idle))
      modifies this`disk, this`cache, this`trace
      ensures Valid() && trace == old(trace) + [disk]
      ensures forall p ::
        Value(p) == BWrite(old(Value(p)), lay.start, PutHead(View(old(Value(p)), lay.start), block[..n]))
    {
      var hb := BRead(lay.start);
      ghost var base := PutWord(hb, 0, n);
      hb := PutWord(hb, 0, n);
      for i := 0 to n
        invariant hb == PutBlocks(base, block[..n], i)
      {
        hb := PutWord(hb, i + 1, block[i]);
      }
      BWriteBlock(lay.start, hb);
    }

    /** The body of write_log's loop. */
    method LogOne(tail: nat, ghost e: Engine)
      requires Valid() && LogFits(lay, Value(Logging(tail))) && Value(Logging(tail)) == Writes(lay, e, tail)
      modifies this`disk, this`cache, this`trace
      ensures Valid() && Value(if tail + 1 < n then Logging(tail + 1) else Heading) == Writes(lay, e, tail + 1)
      ensures trace == old(trace) + [disk]
    {
      WritesSnoc(lay, e, tail);
      var data := BRead(block[tail]);
      BWriteBlock(lay.start + tail + 1, data);
    }

    method WriteLog(ghost e: Engine)
      requires Valid() && AlwaysFits(lay, e) && e.phase == Logging(0) && Value(e.phase) == e
      modifies this`disk, this`cache, this`trace
      ensures Valid() && Value(Heading) == Writes(lay, e, n) && trace == old(trace) + History(lay, e, n)
    {
      var tail := 0;
      while tail < n
        invariant Valid() && tail <= n
        invariant Value(if tail < n then Logging(tail) else Heading) == Writes(lay, e, tail)
        invariant trace == old(trace) + History(lay, e, tail)
      {
        LogOne(tail, e);
        HistorySnoc(lay, e, tail);
        tail := tail + 1;
      }
    }

    /** The body of install_trans's loop, as the engine's write number k. */
    method InstallOne(tail: nat, ghost e: Engine, ghost k: nat)
      requires Valid() && LogFits(lay, Value(Installing(tail))) && Value(Installing(tail)) == Writes(lay, e, k)
      modifies this`disk, this`cache, this`trace
      ensures Valid() && Value(if tail + 1 < n then Installing(tail + 1) else Erasing) == Writes(lay, e, k + 1)
      ensures trace == old(trace) + [disk]
    {
      WritesSnoc(lay, e, k);
      var data := BRead(lay.start + tail + 1);
      BWriteBlock(block[tail], data);
    }

    /** install_trans, begun when the engine e has made k writes. */
    method InstallTrans(ghost e: Engine, ghost k: nat, ghost base: seq<Disk>)
      requires Valid() && AlwaysFits(lay, e) && Value(if n > 0 then Installing(0) else Erasing) == Writes(lay, e, k)
      requires trace == base + History(lay, e, k)
      modifies this`disk, this`cache, this`trace
      ensures Valid() && Value(Erasing) == Writes(lay, e, k + n) && trace == base + History(lay, e, k + n)
    {
      var tail := 0;
      while tail < n
        invariant Valid() && tail <= n
        invariant Value(if tail < n then Installing(tail) else Erasing) == Writes(lay, e, k + tail)
        invariant trace == base + History(lay, e, k + tail)
      {
        InstallOne(tail, e, k + tail);
        HistorySnoc(lay, e, k + tail);
        tail := tail + 1;
      }
    }

    /** The first write_head of commit(): the engine's write number k. */
    method CommitHead(ghost e: Engine, ghost k: nat)
      requires Valid() && LogFits(lay, Value(Heading)) && n > 0 && Value(Heading) == Writes(lay, e, k)
      modifies this`disk, this`cache, this`trace
      ensures Valid() && Value(Installing(0)) == Writes(lay, e, k + 1) && trace == old(trace) + [disk]
    {
      WritesSnoc(lay, e, k);
      WriteHead();
    }

    /** log.lh.n = 0 and the second write_head. */
    method EraseHead(ghost e: Engine, ghost k: nat)
      requires Valid() && LogFits(lay, Value(Erasing)) && Value(Erasing) == Writes(lay, e, k)
      modifies this`disk, this`cache, this`trace, this`n
      ensures Valid() && n == 0 && Value(Idle) == Writes(lay, e, k + 1) && trace == old(trace) + [disk]
    {
      WritesSnoc(lay, e, k);
      n := 0;
      assert block[..n] == [];
      WriteHead();
    }

    /** install_trans and the second write_head, shared by commit() and recover_from_log. */
    method InstallAndErase(ghost e: Engine, ghost k: nat, ghost base: seq<Disk>)
      requires Valid() && AlwaysFits(lay, e) && Value(if n > 0 then Installing(0) else Erasing) == Writes(lay, e, k)
      requires trace == base + History(lay, e, k)
      modifies this`disk, this`cache, this`trace, this`n
      ensures Valid() && n == 0 && Value(Idle) == Writes(lay, e, k + old(n) + 1)
      ensures trace == base + History(lay, e, k + old(n) + 1)
    {
      InstallTrans(e, k, base);
      EraseHead(e, k + n);
      HistorySnoc(lay, e, k + old(n));
    }

    /** write_log and the first write_head. */
    method LogAndCommit(ghost e: Engine, ghost m: nat)
      requires Valid() && AlwaysFits(lay, e) && n == m > 0 && Value(Logging(0)) == e
      modifies this`disk, this`cache, this`trace
      ensures Valid() && Value(Installing(0)) == Writes(lay, e, m + 1) && trace == old(trace) + History(lay, e, m + 1)
    {
      WriteLog(e);
      CommitHead(e, m);
      HistorySnoc(lay, e, m);
    }

    /** commit() performs exactly the engine's writes, in order, and ends idle. */
    method Commit(ghost e: Engine)
      requires Valid() && e == StartCommit(Value(Idle)) && AlwaysFits(lay, e)
      modifies this`disk, this`cache, this`trace, this`n
      ensures Valid() && Value(Idle) == Writes(lay, e, WritesLeft(e)) && n == 0
      ensures trace == old(trace) + History(lay, e, WritesLeft(e))
    {
      if n > 0 {
        LogAndCommit(e, n);
        InstallAndErase(e, n + 1, old(trace));
      }
    }

    /** read_head: the in-memory header becomes the one on disk. */
    method ReadHead()
      requires Valid() && HeaderFits(lay, disk) && cache == map[]
      modifies this`n, block
      ensures Valid() && block[..n] == HeadOf(disk[lay.start])
    {
      var hb := BRead(lay.start);
      n := WordAt(hb, 0);
      for i := 0 to n
        modifies block
        invariant forall j | 0 <= j < i :: block[j] == WordAt(hb, j + 1)
      {
        block[i] := WordAt(hb, i + 1);
      }
    }

    /** recover_from_log on a disk found after a crash. */
    method RecoverFromLog()
      requires Valid() && cache == map[] && Bootable(lay, disk)
      modifies this`disk, this`cache, this`trace, this`n, block
      ensures Valid() && n == 0
      ensures var e := Boot(lay, old(disk));
        && Value(Idle) == Writes(lay, e, WritesLeft(e))
        && disk == Recover(lay, old(disk), [])
        && trace == old(trace) + History(lay, e, WritesLeft(e))
    {
      ghost var e := Boot(lay, disk);
      BootOk(lay, disk);
      OkAlwaysFits(lay, e);
      ReadHead();
      assert Value(e.phase) == e && Writes(lay, e, 0) == e;
      assert trace == old(trace) + History(lay, e, 0);
      InstallAndErase(e, 0, old(trace));
    }

    /** The fields are those of the log system in state s. */
    ghost predicate Shows(s: Sys)
      requires Valid()
      reads this, block
    {
      Value(s.e.phase) == s.e && outstanding == Outstanding(s.ops) && committing == s.committing
    }

    /** begin_op's loop body: process p is admitted exactly when its operation may begin, and sleeps otherwise. */
    method TryBegin(ghost s: Sys, ghost p: nat) returns (admitted: bool)
      requires Valid() && Shows(s) && !s.booting && p < |s.ops| && s.ops[p].None?
      modifies this`outstanding
      ensures Valid() && (admitted <==> Enabled(lay, s, Begin(p)))
      ensures Shows(if admitted then Do(lay, s, Begin(p)) else s)
    {
      ReservedUpdate(s.ops, p, Some({}));
      admitted := false;
      if committing {
      } else if n + (outstanding + 1) * MAXOPBLOCKS > LOGSIZE {
      } else {
        outstanding := outstanding + 1;
        admitted := true;
      }
    }

    /** end_op's first critical section.  In the states of a run there is no panic, and the caller is to commit exactly
        when no operation is left open. */
    method TryEnd(ghost s: Sys, ghost p: nat) returns (panics: bool, doCommit: bool)
      requires Valid() && Shows(s) && InOp(s, p) && forall b | b in s.e.cache :: s.e.cache[b].holder != Some(p)
      modifies this`outstanding, this`committing
      ensures Valid() && (panics <==> !Enabled(lay, s, End(p))) && (LooseInv(lay, s) ==> !panics)
      ensures !panics ==> Shows(Do(lay, s, End(p))) && doCommit == Do(lay, s, End(p)).committing
      ensures doCommit ==> !panics && NoOps(Do(lay, s, End(p)))
    {
      ReservedUpdate(s.ops, p, None);
      ReservedBounds(s.ops[p := None]);
      doCommit := false;
      outstanding := outstanding - 1;
      if committing { return true, false; }
      panics := false;
      if outstanding == 0 {
        doCommit := true;
        committing := true;
      }
    }

    /** end_op's last critical section. */
    method EndCommit(ghost s: Sys)
      requires Valid() && Shows(s) && Enabled(lay, s, Done)
      modifies this`committing
      ensures Valid() && Shows(Do(lay, s, Done))
    {
      committing := false;
    }

    /** end_op: the operation is closed and, if it was the last, its transaction has been written. */
    method EndOp(ghost s: Sys, ghost p: nat) returns (panics: bool)
      requires Valid() && Shows(s) && Inv(lay, s) && InOp(s, p)
      requires forall b | b in s.e.cache :: s.e.cache[b].holder != Some(p)
      modifies this`outstanding, this`committing, this`disk, this`cache, this`trace, this`n
      ensures Valid() && !panics && Enabled(lay, s, End(p))
      ensures var t := Do(lay, s, End(p));
        Shows(if t.committing then t.(e := Writes(lay, t.e, WritesLeft(t.e)), committing := false) else t)
    {
      var doCommit;
      panics, doCommit := TryEnd(s, p);
      ghost var t := Do(lay, s, End(p));
      if doCommit {
        StepKeepsInv(lay, s, End(p));
        OkAlwaysFits(lay, t.e);
        Commit(t.e);
        WritesCount(lay, t.e, WritesLeft(t.e));
        EndCommit(t.(e := Writes(lay, t.e, WritesLeft(t.e))));
      }
    }

    /** log_write's critical section: absorb the block or append it. */
    method LogWrite(b: nat)
      requires Valid() && b in cache && |Logged(block[..n], b)| <= LOGSIZE
      modifies this`n, this`cache, block
      ensures Valid() && block[..n] == Logged(old(block[..n]), b)
      ensures cache == old(cache)[b := old(cache)[b].(dirty := true)]
    {
      ghost var lh := block[..n];
      var i := 0;
      while i < n && block[i] != b
        invariant i <= n && b !in lh[..i]
      {
        i := i + 1;
      }
      assert i < n ==> b in lh;
      assert i == n ==> lh[..i] == lh;
      block[i] := b;
      if i == n { n := n + 1; }
      assert block[..n] == Logged(lh, b);
      cache := cache[b := cache[b].(dirty := true)];
    }
  }
}

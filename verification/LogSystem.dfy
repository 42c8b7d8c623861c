/** Concurrent file-system operations over the redo log and the buffer cache.

    Every critical section of begin_op, end_op and log_write, every use of a locked buffer, every block
    write of commit() and of recovery, and a crash at any moment, is one step. */
module LogSystem {
  import opened Common
  import opened Bytes
  import opened RedoLog
  import Runs

  /** ops[p] is the set of blocks process p has logged in its current operation; committing is log.committing, set from
      the end of the last operation until commit() has returned; booting holds from a crash
      until recovery has erased the header. */
  datatype Sys = Sys(e: Engine, ops: seq<Option<set<nat>>>, booting: bool, committing: bool)

  datatype Act =
    | Begin(p: nat)
    | End(p: nat)
    | Load(b: nat)                         // bget recycles a buffer and iderw reads the block
    | Evict(b: nat)                        // bget gives the buffer to another block
    | Hold(p: nat, b: nat)                 // acquiresleep in bget
    | Modify(p: nat, b: nat, x: Block)
    | Check(p: nat, b: nat)                // log_write's size test, made without log.lock
    | Append(p: nat, b: nat)               // the rest of log_write, under log.lock
    | Release(p: nat, b: nat)              // brelse
    | Write                                // the next block write of commit() or recovery
    | Done                                 // end_op's last critical section: committing = 0
    | Crash

  function Outstanding(ops: seq<Option<set<nat>>>): nat {
    if ops == [] then 0 else Outstanding(ops[..|ops| - 1]) + if ops[|ops| - 1].Some? then 1 else 0
  }

  predicate InOp(s: Sys, p: nat) { p < |s.ops| && s.ops[p].Some? }

  predicate HeldBy(s: Sys, p: nat, b: nat) { b in s.e.cache && s.e.cache[b].holder == Some(p) }

  /** An operation logs at most MAXOPBLOCKS distinct blocks. */
  predicate InBudget(s: Sys, p: nat, b: nat)
    requires InOp(s, p)
  {
    |s.ops[p].value + {b}| <= MAXOPBLOCKS
  }

  /** The test of line 218: false means the panic "too big a transaction". */
  predicate PassesCheck(lay: Layout, e: Engine) { |e.lh| < LOGSIZE && |e.lh| < lay.size - 1 }

  predicate Enabled(lay: Layout, s: Sys, a: Act) {
    match a
    case Begin(p) =>
      && !s.booting && p < |s.ops| && s.ops[p].None?
      && !s.committing && |s.e.lh| + (Outstanding(s.ops) + 1) * MAXOPBLOCKS <= LOGSIZE
    case End(p) => InOp(s, p) && !s.committing && forall b | b in s.e.cache :: s.e.cache[b].holder != Some(p)
    case Load(b) => b < |s.e.disk| && b !in s.e.cache
    case Evict(b) => b in s.e.cache && !s.e.cache[b].dirty && s.e.cache[b].holder.None?
    case Hold(p, b) => b in s.e.cache && s.e.cache[b].holder.None?
    case Modify(p, b, x) => InOp(s, p) && HeldBy(s, p, b) && Home(lay, s.e.disk, b)
    case Check(p, b) => InOp(s, p) && HeldBy(s, p, b) && Home(lay, s.e.disk, b) && InBudget(s, p, b)
      && PassesCheck(lay, s.e)
    case Append(p, b) => InOp(s, p) && HeldBy(s, p, b) && s.e.cache[b].checked && InBudget(s, p, b)
    case Release(p, b) => HeldBy(s, p, b) && !s.e.cache[b].touched
    case Write => !s.e.phase.Idle? && LogFits(lay, s.e)
    case Done => s.committing && s.e.phase.Idle?
    case Crash => HeaderFits(lay, s.e.disk)
  }

  function WithBuf(e: Engine, b: nat, f: Buf): Engine { e.(cache := e.cache[b := f]) }

  function Logged(lh: seq<nat>, b: nat): seq<nat> { if b in lh then lh else lh + [b] }

  function Do(lay: Layout, s: Sys, a: Act): Sys
    requires Enabled(lay, s, a)
  {
    match a
    case Begin(p) => s.(ops := s.ops[p := Some({})])
    case End(p) =>
      var ops := s.ops[p := None];
      if Outstanding(ops) == 0 then s.(ops := ops, e := StartCommit(s.e), committing := true) else s.(ops := ops)
    case Load(b) => s.(e := WithBuf(s.e, b, Buf(s.e.disk[b], false, None, false, false)))
    case Evict(b) => s.(e := s.e.(cache := s.e.cache - {b}))
    case Hold(p, b) => s.(e := WithBuf(s.e, b, s.e.cache[b].(holder := Some(p))))
    case Modify(p, b, x) => s.(e := WithBuf(s.e, b, s.e.cache[b].(data := x, touched := true)))
    case Check(p, b) => s.(e := WithBuf(s.e, b, s.e.cache[b].(checked := true)))
    case Append(p, b) =>
      Sys(WithBuf(s.e, b, s.e.cache[b].(dirty := true, touched := false, checked := false)).(lh := Logged(s.e.lh, b)),
          s.ops[p := Some(s.ops[p].value + {b})], s.booting, s.committing)
    case Release(p, b) => s.(e := WithBuf(s.e, b, s.e.cache[b].(holder := None, checked := false)))
    case Write =>
      var e := EngineStep(lay, s.e);
      s.(e := e, booting := s.booting && !e.phase.Idle?)
    case Done => s.(committing := false)
    case Crash => Booted(lay, s.e.disk, |s.ops|)
  }

  function NoneOpen(n: nat): seq<Option<set<nat>>> { seq(n, _ => None) }

  /** A machine that has just come up, with n processes to be. */
  function Booted(lay: Layout, d: Disk, n: nat): Sys
    requires HeaderFits(lay, d)
  {
    Sys(Boot(lay, d), NoneOpen(n), true, false)
  }

  // ---------------------------------------------------------------- the invariant

  /** Log space the open operations may still claim. */
  function Reserved(ops: seq<Option<set<nat>>>): int {
    if ops == [] then 0
    else Reserved(ops[..|ops| - 1]) + if ops[|ops| - 1].Some? then MAXOPBLOCKS - |ops[|ops| - 1].value| else 0
  }

  predicate NoOps(s: Sys) { forall p | 0 <= p < |s.ops| :: s.ops[p].None? }

  predicate OpsInv(s: Sys) {
    && (!s.e.phase.Idle? || s.committing ==> NoOps(s))
    && (!s.e.phase.Idle? ==> s.committing || s.booting)
    && (s.booting ==> NoOps(s) && !s.e.phase.Idle? && !s.committing)
    && (forall p | 0 <= p < |s.ops| && s.ops[p].Some? ::
          |s.ops[p].value| <= MAXOPBLOCKS && forall b | b in s.ops[p].value :: b in s.e.lh)
    && (s.e.phase.Idle? ==> |s.e.lh| + Reserved(s.ops) <= LOGSIZE)
    && (s.e.phase.Idle? && NoOps(s) ==> s.e.lh == [])
  }

  /** Only the holder of a buffer, inside an operation, changes it or passes log_write's test with it. */
  predicate HolderInv(lay: Layout, s: Sys) {
    forall b | b in s.e.cache && (s.e.cache[b].touched || s.e.cache[b].checked) ::
      HeldInOp(s, b) && Home(lay, s.e.disk, b)
  }

  predicate HeldInOp(s: Sys, b: nat)
    requires b in s.e.cache
  {
    s.e.cache[b].holder.Some? && InOp(s, s.e.cache[b].holder.value)
  }

  predicate BootInv(s: Sys) {
    !s.booting ==> forall i | Installed(s.e) <= i < |s.e.lh| :: s.e.lh[i] in s.e.cache && s.e.cache[s.e.lh[i]].dirty
  }

  predicate Inv(lay: Layout, s: Sys) {
    && EngineOk(lay, s.e)
    && OpsInv(s) && HolderInv(lay, s) && BootInv(s)
  }

  /** The size test of log_write still holds when, under log.lock, the block is added. */
  predicate Guarded(lay: Layout, s: Sys, a: Act) { a.Append? ==> a.b in s.e.lh || |s.e.lh| < lay.size - 1 }

  // ---------------------------------------------------------------- steps that keep the engine's invariant

  /** When a buffer may take the value f without disturbing the log. */
  predicate FairBuf(lay: Layout, e: Engine, b: nat, f: Buf) {
    && b < |e.disk|
    && (if b in e.cache then f.dirty == e.cache[b].dirty && (f.data != e.cache[b].data ==> e.phase.Idle?) else !f.dirty)
    && (!f.dirty && !f.touched ==> f.data == e.disk[b])
    && (f.touched ==> e.phase.Idle? && Home(lay, e.disk, b))
  }

  lemma SetBufKeepsClean(lay: Layout, e: Engine, b: nat, f: Buf)
    requires CleanInv(lay, e) && FairBuf(lay, e, b, f)
    ensures CleanInv(lay, WithBuf(e, b, f))
  {
  }

  lemma SetBufKeepsPins(lay: Layout, e: Engine, b: nat, f: Buf)
    requires PinInv(lay, e) && FairBuf(lay, e, b, f)
    ensures PinInv(lay, WithBuf(e, b, f))
  {
  }

  lemma SetBufKeepsSlots(lay: Layout, e: Engine, b: nat, f: Buf)
    requires LogFits(lay, e) && SlotInv(lay, e) && FairBuf(lay, e, b, f)
    ensures SlotInv(lay, WithBuf(e, b, f))
  {
    forall k | 0 <= k < |e.lh| ensures SlotAt(lay, WithBuf(e, b, f), k) {
      assert SlotAt(lay, e, k);
    }
  }

  lemma SetBufKeepsEngine(lay: Layout, e: Engine, b: nat, f: Buf)
    requires EngineOk(lay, e) && FairBuf(lay, e, b, f)
    ensures EngineOk(lay, WithBuf(e, b, f))
  {
    SetBufKeepsClean(lay, e, b, f);
    SetBufKeepsPins(lay, e, b, f);
    SetBufKeepsSlots(lay, e, b, f);
  }

  lemma EvictKeepsEngine(lay: Layout, e: Engine, b: nat)
    requires EngineOk(lay, e) && b in e.cache && !e.cache[b].dirty
    ensures EngineOk(lay, e.(cache := e.cache - {b}))
  {
    EvictKeepsPins(lay, e, b);
    var e' := e.(cache := e.cache - {b});
    forall k | 0 <= k < |e.lh| ensures SlotAt(lay, e', k) {
      assert SlotAt(lay, e, k);
    }
  }

  lemma EvictKeepsPins(lay: Layout, e: Engine, b: nat)
    requires PinInv(lay, e) && b in e.cache && !e.cache[b].dirty
    ensures PinInv(lay, e.(cache := e.cache - {b}))
  {
  }

  lemma AppendKeepsShape(lay: Layout, e: Engine, b: nat)
    requires ShapeInv(lay, e) && e.phase.Idle? && Home(lay, e.disk, b) && |Logged(e.lh, b)| <= LOGSIZE
    requires |Logged(e.lh, b)| < lay.size
    ensures ShapeInv(lay, e.(lh := Logged(e.lh, b)))
  {
  }

  lemma AppendKeepsPins(lay: Layout, e: Engine, b: nat, f: Buf)
    requires PinInv(lay, e) && e.phase.Idle? && b in e.cache && f.dirty
    ensures PinInv(lay, WithBuf(e, b, f).(lh := Logged(e.lh, b)))
  {
    var lh := Logged(e.lh, b);
    assert b in lh by { if b !in e.lh { assert lh[|e.lh|] == b; } }
    forall c | c in e.lh ensures c in lh {
      var i :| 0 <= i < |e.lh| && e.lh[i] == c;
      assert lh[i] == c;
    }
  }

  lemma AppendKeepsEngine(lay: Layout, e: Engine, b: nat, f: Buf)
    requires EngineOk(lay, e) && e.phase.Idle? && b in e.cache && Home(lay, e.disk, b) && f.dirty && !f.touched
    requires |Logged(e.lh, b)| <= LOGSIZE && |Logged(e.lh, b)| < lay.size
    ensures EngineOk(lay, WithBuf(e, b, f).(lh := Logged(e.lh, b)))
  {
    AppendKeepsShape(lay, e, b);
    AppendKeepsPins(lay, e, b, f);
    var e' := WithBuf(e, b, f).(lh := Logged(e.lh, b));
    assert CleanInv(lay, e');
    forall k | 0 <= k < |e'.lh| ensures SlotAt(lay, e', k) {
    }
  }

  lemma StartKeepsEngine(lay: Layout, e: Engine)
    requires EngineOk(lay, e) && e.phase.Idle? && forall b | b in e.cache :: !e.cache[b].touched
    ensures EngineOk(lay, StartCommit(e))
  {
    forall k | 0 <= k < |e.lh| ensures SlotAt(lay, StartCommit(e), k) {
    }
  }

  // ---------------------------------------------------------------- counting operations

  function Claim(o: Option<set<nat>>): int { if o.Some? then MAXOPBLOCKS - |o.value| else 0 }

  lemma {:induction false} ReservedUpdate(ops: seq<Option<set<nat>>>, p: nat, o: Option<set<nat>>)
    requires p < |ops|
    ensures Reserved(ops[p := o]) == Reserved(ops) - Claim(ops[p]) + Claim(o)
    ensures Outstanding(ops[p := o]) == Outstanding(ops) - (if ops[p].Some? then 1 else 0) + if o.Some? then 1 else 0
  {
    var n := |ops| - 1;
    if p == n {
      assert ops[p := o][..n] == ops[..n];
    } else {
      assert ops[p := o][..n] == ops[..n][p := o];
      ReservedUpdate(ops[..n], p, o);
    }
  }

  lemma {:induction false} ReservedBounds(ops: seq<Option<set<nat>>>)
    ensures Reserved(ops) <= MAXOPBLOCKS * Outstanding(ops)
    ensures Outstanding(ops) == 0 <==> forall p | 0 <= p < |ops| :: ops[p].None?
    ensures (forall p | 0 <= p < |ops| && ops[p].Some? :: |ops[p].value| <= MAXOPBLOCKS) ==>
      Reserved(ops) >= 0 && forall p | 0 <= p < |ops| && ops[p].Some? :: Reserved(ops) >= MAXOPBLOCKS - |ops[p].value|
  {
    if ops != [] {
      ReservedBounds(ops[..|ops| - 1]);
    }
  }

  /** The log always has room for a block that an operation within its budget adds, so that the array index
      used by log_write is in bounds whatever happened since its size test. */
  lemma RoomToAppend(s: Sys, p: nat, b: nat)
    requires OpsInv(s) && s.e.phase.Idle? && InOp(s, p) && InBudget(s, p, b)
    ensures |Logged(s.e.lh, b)| <= LOGSIZE
  {
    ReservedBounds(s.ops);
    if b !in s.e.lh {
      assert b !in s.ops[p].value;
      assert |s.ops[p].value + {b}| == |s.ops[p].value| + 1;
    }
  }

  /** With more than LOGSIZE log blocks, log_write's size test turns an operation within its budget away exactly when
      the log is full, and then only from a block that is in the log already. */
  lemma TooBigExactly(lay: Layout, s: Sys, p: nat, b: nat)
    requires OpsInv(s) && s.e.phase.Idle? && InOp(s, p) && InBudget(s, p, b) && lay.size > LOGSIZE
    ensures !PassesCheck(lay, s.e) <==> |s.e.lh| == LOGSIZE
    ensures !PassesCheck(lay, s.e) ==> b in s.e.lh
  {
    RoomToAppend(s, p, b);
    ReservedBounds(s.ops);
  }

  /** The processes with an open operation. */
  function Open(ops: seq<Option<set<nat>>>): set<nat> { set p: nat | p < |ops| && ops[p].Some? }

  lemma {:induction false} OutstandingIsOpen(ops: seq<Option<set<nat>>>)
    ensures Outstanding(ops) == |Open(ops)|
  {
    if ops != [] {
      var n := |ops| - 1;
      OutstandingIsOpen(ops[..n]);
      assert Open(ops) == Open(ops[..n]) + if ops[n].Some? then {n} else {};
    }
  }

  /** begin_op keeps process p waiting exactly while a commit runs, or while the log could not take MAXOPBLOCKS more
      blocks from each operation that would then be open; so it admits p when nobody else is in an operation. */
  lemma BeginWaitsExactly(lay: Layout, s: Sys, p: nat)
    requires !s.booting && p < |s.ops| && s.ops[p].None?
    ensures !Enabled(lay, s, Begin(p)) <==>
      s.committing || |s.e.lh| + MAXOPBLOCKS * |Open(s.ops) + {p}| > LOGSIZE
    ensures OpsInv(s) && !s.committing && NoOps(s) ==> Enabled(lay, s, Begin(p))
  {
    OutstandingIsOpen(s.ops);
    assert |Open(s.ops) + {p}| == |Open(s.ops)| + 1;
    if NoOps(s) { assert Open(s.ops) == {}; }
  }

  // ---------------------------------------------------------------- every step keeps the invariant

  lemma LastOpTouchesNothing(lay: Layout, s: Sys, p: nat)
    requires HolderInv(lay, s) && Enabled(lay, s, End(p)) && Outstanding(s.ops[p := None]) == 0
    ensures forall b | b in s.e.cache :: !s.e.cache[b].touched
  {
    ReservedBounds(s.ops[p := None]);
    forall b | b in s.e.cache ensures !s.e.cache[b].touched {
      var h := s.e.cache[b].holder;
      if h.Some? && h.value < |s.ops| { assert s.ops[p := None][h.value].None?; }
    }
  }

  lemma EngineKept(lay: Layout, s: Sys, a: Act)
    requires Inv(lay, s) && Enabled(lay, s, a) && Guarded(lay, s, a)
    ensures EngineOk(lay, Do(lay, s, a).e)
  {
    match a
    case Begin(p) =>
    case End(p) =>
      ReservedBounds(s.ops[p := None]);
      if Outstanding(s.ops[p := None]) == 0 {
        LastOpTouchesNothing(lay, s, p);
        StartKeepsEngine(lay, s.e);
      }
    case Load(b) => SetBufKeepsEngine(lay, s.e, b, Buf(s.e.disk[b], false, None, false, false));
    case Evict(b) => EvictKeepsEngine(lay, s.e, b);
    case Hold(p, b) => SetBufKeepsEngine(lay, s.e, b, s.e.cache[b].(holder := Some(p)));
    case Modify(p, b, x) => SetBufKeepsEngine(lay, s.e, b, s.e.cache[b].(data := x, touched := true));
    case Check(p, b) => SetBufKeepsEngine(lay, s.e, b, s.e.cache[b].(checked := true));
    case Append(p, b) =>
      RoomToAppend(s, p, b);
      AppendKeepsEngine(lay, s.e, b, s.e.cache[b].(dirty := true, touched := false, checked := false));
    case Release(p, b) => SetBufKeepsEngine(lay, s.e, b, s.e.cache[b].(holder := None, checked := false));
    case Write => StepKeepsEngine(lay, s.e);
    case Done =>
    case Crash =>
      EngineBootable(lay, s.e);
      BootOk(lay, s.e.disk);
  }

  lemma HolderKept(lay: Layout, s: Sys, a: Act)
    requires HolderInv(lay, s) && Enabled(lay, s, a)
    ensures HolderInv(lay, Do(lay, s, a))
  {
    if a.Write? { WriteKeepsHolders(lay, s); } else { ActKeepsHolders(lay, s, a); }
  }

  lemma WriteKeepsHolders(lay: Layout, s: Sys)
    requires HolderInv(lay, s) && Enabled(lay, s, Write)
    ensures HolderInv(lay, Do(lay, s, Write))
  {
    var s' := Do(lay, s, Write);
    forall b | b in s'.e.cache && (s'.e.cache[b].touched || s'.e.cache[b].checked)
      ensures HeldInOp(s', b) && Home(lay, s'.e.disk, b)
    {
      assert HeldInOp(s, b);
    }
  }

  lemma ActKeepsHolders(lay: Layout, s: Sys, a: Act)
    requires HolderInv(lay, s) && Enabled(lay, s, a) && !a.Write?
    ensures HolderInv(lay, Do(lay, s, a))
  {
    var s' := Do(lay, s, a);
    forall b | b in s'.e.cache && (s'.e.cache[b].touched || s'.e.cache[b].checked)
      ensures HeldInOp(s', b) && Home(lay, s'.e.disk, b)
    {
      if b in s.e.cache && (s.e.cache[b].touched || s.e.cache[b].checked) { assert HeldInOp(s, b); }
    }
  }

  lemma BootKept(lay: Layout, s: Sys, a: Act)
    requires ShapeInv(lay, s.e) && BootInv(s) && OpsInv(s) && Enabled(lay, s, a)
    ensures BootInv(Do(lay, s, a))
  {
    match a
    case Append(p, b) => AppendKeepsBoot(lay, s, p, b);
    case Write => WriteKeepsBoot(lay, s);
    case _ =>
  }

  lemma AppendKeepsBoot(lay: Layout, s: Sys, p: nat, b: nat)
    requires BootInv(s) && OpsInv(s) && Enabled(lay, s, Append(p, b))
    ensures BootInv(Do(lay, s, Append(p, b)))
  {
  }

  lemma WriteKeepsBoot(lay: Layout, s: Sys)
    requires ShapeInv(lay, s.e) && BootInv(s) && OpsInv(s) && Enabled(lay, s, Write)
    ensures BootInv(Do(lay, s, Write))
  {
  }

  lemma BeginKeepsOps(lay: Layout, s: Sys, p: nat)
    requires OpsInv(s) && Enabled(lay, s, Begin(p))
    ensures OpsInv(Do(lay, s, Begin(p)))
  {
    ReservedBounds(s.ops);
    ReservedUpdate(s.ops, p, Some({}));
    assert Do(lay, s, Begin(p)).ops[p].Some?;
  }

  lemma EndKeepsOps(lay: Layout, s: Sys, p: nat)
    requires OpsInv(s) && Enabled(lay, s, End(p))
    ensures OpsInv(Do(lay, s, End(p)))
  {
    ReservedUpdate(s.ops, p, None);
    ReservedBounds(s.ops[p := None]);
  }

  lemma AppendKeepsOps(lay: Layout, s: Sys, p: nat, b: nat)
    requires OpsInv(s) && Enabled(lay, s, Append(p, b))
    ensures OpsInv(Do(lay, s, Append(p, b)))
  {
    var s' := Do(lay, s, Append(p, b));
    ReservedUpdate(s.ops, p, s'.ops[p]);
    assert s'.ops[p].Some?;
    assert forall i | 0 <= i < |s.e.lh| :: s'.e.lh[i] == s.e.lh[i];
    assert b in s'.e.lh by { if b !in s.e.lh { assert s'.e.lh[|s.e.lh|] == b; } }
    if b !in s.e.lh {
      assert b !in s.ops[p].value;
      assert |s.ops[p].value + {b}| == |s.ops[p].value| + 1;
    } else {
      assert s.ops[p].value <= s.ops[p].value + {b};
      GrowsByOne(s.ops[p].value, b);
    }
  }

  lemma GrowsByOne(x: set<nat>, b: nat)
    ensures |x| <= |x + {b}| <= |x| + 1
  {
    if b in x { assert x + {b} == x; }
  }

  lemma OpsKept(lay: Layout, s: Sys, a: Act)
    requires OpsInv(s) && Enabled(lay, s, a)
    ensures OpsInv(Do(lay, s, a))
  {
    match a
    case Begin(p) => BeginKeepsOps(lay, s, p);
    case End(p) => EndKeepsOps(lay, s, p);
    case Append(p, b) => AppendKeepsOps(lay, s, p, b);
    case Write => ReservedBounds(s.ops);
    case _ =>
  }

  lemma StepKeepsInv(lay: Layout, s: Sys, a: Act)
    requires Inv(lay, s) && Enabled(lay, s, a) && Guarded(lay, s, a)
    ensures Inv(lay, Do(lay, s, a))
  {
    EngineKept(lay, s, a);
    HolderKept(lay, s, a);
    BootKept(lay, s, a);
    OpsKept(lay, s, a);
  }

  // ---------------------------------------------------------------- where runs start

  lemma {:induction false} NothingReserved(n: nat)
    ensures Reserved(NoneOpen(n)) == 0
  {
    if n > 0 {
      assert NoneOpen(n)[..n - 1] == NoneOpen(n - 1);
      NothingReserved(n - 1);
    }
  }

  /** A machine that comes up with a disk recovery can start from. */
  lemma BootedInv(lay: Layout, d: Disk, n: nat)
    requires Bootable(lay, d)
    ensures Inv(lay, Booted(lay, d, n)) && LooseInv(lay, Booted(lay, d, n))
  {
    BootOk(lay, d);
  }

  /** The log is empty, no block is cached and no operation open. */
  function Fresh(d: Disk, n: nat): Sys { Sys(Engine(d, map[], [], Idle), NoneOpen(n), false, false) }

  lemma FreshInv(lay: Layout, d: Disk, n: nat)
    requires Bootable(lay, d) && HeadOf(d[lay.start]) == []
    ensures Inv(lay, Fresh(d, n)) && LooseInv(lay, Fresh(d, n))
  {
    NothingReserved(n);
  }

  // ---------------------------------------------------------------- every step, fitting or not

  /** What holds even of a transaction that has outgrown the log area. */
  predicate LooseInv(lay: Layout, s: Sys) {
    && OpsInv(s) && HolderInv(lay, s) && Bootable(lay, s.e.disk)
    && |s.e.lh| <= LOGSIZE && Distinct(s.e.lh) && forall i | 0 <= i < |s.e.lh| :: Home(lay, s.e.disk, s.e.lh[i])
  }

  lemma WriteKeepsBootable(lay: Layout, s: Sys)
    requires LooseInv(lay, s) && Enabled(lay, s, Write)
    ensures Bootable(lay, EngineStep(lay, s.e).disk) && |EngineStep(lay, s.e).disk| == |s.e.disk|
  {
    if s.e.phase.Heading? { HeadRoundTrip(View(s.e, lay.start), s.e.lh); }
    if s.e.phase.Erasing? { HeadRoundTrip(View(s.e, lay.start), []); }
  }

  lemma StepKeepsLoose(lay: Layout, s: Sys, a: Act)
    requires LooseInv(lay, s) && Enabled(lay, s, a)
    ensures LooseInv(lay, Do(lay, s, a))
  {
    OpsKept(lay, s, a);
    HolderKept(lay, s, a);
    match a
    case Append(p, b) => RoomToAppend(s, p, b);
    case Write => WriteKeepsBootable(lay, s);
    case _ =>
  }

  /** In every run, whatever the size of the log: the header array never overflows and names no block twice,
      recovery could start, and no operation is open from the end of the last one until commit() has returned, nor
      during
      recovery, so that end_op's panic
      "log.committing" is unreachable. */
  lemma LogBounded(lay: Layout, s: Sys, acts: seq<Act>)
    requires LooseInv(lay, s) && After(lay, s, acts).Some?
    ensures var r := After(lay, s, acts).value;
      && |r.e.lh| <= LOGSIZE && Distinct(r.e.lh) && Bootable(lay, r.e.disk)
      && forall p: nat | InOp(r, p) :: r.e.phase.Idle? && !r.booting && !r.committing
  {
    var inv := (x: Sys) => LooseInv(lay, x);
    forall x: Sys, a: Act | inv(x) && Next(lay)(x, a).Some? ensures inv(Next(lay)(x, a).value) {
      StepKeepsLoose(lay, x, a);
    }
    Runs.RunKeeps(Next(lay), inv, s, acts);
  }

  // ---------------------------------------------------------------- the cache behaves like the plain blocks

  lemma InstallHidden(lay: Layout, s: Sys, c: nat)
    requires ShapeInv(lay, s.e) && CleanInv(lay, s.e) && BootInv(s) && !s.booting && s.e.phase.Installing?
    requires SlotAt(lay, s.e, s.e.phase.i) && Home(lay, s.e.disk, c)
    ensures View(EngineStep(lay, s.e), c) == View(s.e, c)
  {
    LogBlocksAreClean(lay, s.e, lay.start + 1 + s.e.phase.i);
  }

  lemma WriteHidden(lay: Layout, s: Sys, c: nat)
    requires ShapeInv(lay, s.e) && CleanInv(lay, s.e) && SlotInv(lay, s.e) && BootInv(s) && !s.booting
    requires !s.e.phase.Idle? && Home(lay, s.e.disk, c)
    ensures View(EngineStep(lay, s.e), c) == View(s.e, c)
  {
    if s.e.phase.Installing? { InstallHidden(lay, s, c); }
  }

  lemma UnheldIsUntouched(lay: Layout, s: Sys, b: nat)
    requires HolderInv(lay, s) && b in s.e.cache && s.e.cache[b].holder.None?
    ensures !s.e.cache[b].touched
  {
  }

  lemma ViewAfterAt(lay: Layout, s: Sys, a: Act, c: nat)
    requires Inv(lay, s) && Enabled(lay, s, a) && !a.Crash? && !s.booting && Home(lay, s.e.disk, c)
    ensures c < |Do(lay, s, a).e.disk|
    ensures View(Do(lay, s, a).e, c) == if a.Modify? && c == a.b then a.x else View(s.e, c)
  {
    match a
    case Write => WriteHidden(lay, s, c);
    case Evict(b) => UnheldIsUntouched(lay, s, b);
    case _ =>
  }

  lemma ViewsAgree(lay: Layout, e: Engine, e': Engine, changes: Contents)
    requires |e.disk| == |e'.disk| && forall b | b in changes :: Home(lay, e.disk, b)
    requires forall c: nat | Home(lay, e.disk, c) :: View(e', c) == if c in changes then changes[c] else View(e, c)
    ensures ViewOf(lay, e') == ViewOf(lay, e) + changes
  {
  }

  /** The contents every reader sees change only where an operation changes them: loading, evicting, logging
      and committing are invisible. */
  lemma ViewAfter(lay: Layout, s: Sys, a: Act)
    requires Inv(lay, s) && Enabled(lay, s, a) && !a.Crash? && !s.booting
    ensures ViewOf(lay, Do(lay, s, a).e) == if a.Modify? then ViewOf(lay, s.e)[a.b := a.x] else ViewOf(lay, s.e)
  {
    var e' := Do(lay, s, a).e;
    var changes := if a.Modify? then map[a.b := a.x] else map[];
    SameSize(lay, s, a);
    forall c: nat | Home(lay, s.e.disk, c)
      ensures View(e', c) == if c in changes then changes[c] else View(s.e, c)
    {
      ViewAfterAt(lay, s, a, c);
    }
    ViewsAgree(lay, s.e, e', changes);
    assert ViewOf(lay, s.e) + map[] == ViewOf(lay, s.e);
  }

  lemma SameSize(lay: Layout, s: Sys, a: Act)
    requires Enabled(lay, s, a)
    ensures |Do(lay, s, a).e.disk| == |s.e.disk|
  {
  }

  // ---------------------------------------------------------------- runs

  function Next(lay: Layout): (Sys, Act) -> Option<Sys> {
    (s, a) => if Enabled(lay, s, a) then Some(Do(lay, s, a)) else None
  }

  /** The state after the given steps, if each of them was possible. */
  function After(lay: Layout, s: Sys, acts: seq<Act>): Option<Sys> { Runs.After(Next(lay), s, acts) }

  /** Like Next, but a block is added only where the size test still holds.  LogCapacity says which runs these are. */
  function Fitting(lay: Layout): (Sys, Act) -> Option<Sys> {
    (s, a) => if Enabled(lay, s, a) && Guarded(lay, s, a) then Some(Do(lay, s, a)) else None
  }

  function FitAfter(lay: Layout, s: Sys, acts: seq<Act>): Option<Sys> { Runs.After(Fitting(lay), s, acts) }

  lemma {:induction false} NoAppendFits(lay: Layout, s: Sys, acts: seq<Act>)
    requires forall i | 0 <= i < |acts| :: !acts[i].Append?
    ensures FitAfter(lay, s, acts) == After(lay, s, acts)
  {
    if acts != [] {
      NoAppendFits(lay, s, acts[..|acts| - 1]);
    }
  }

  predicate IsCommitPoint(s: Sys, a: Act) { a.Write? && s.e.phase.Heading? }

  /** How many steps came before the last header write that committed a transaction; 0 if there was none. */
  function LastCommit(lay: Layout, s: Sys, acts: seq<Act>): nat
    requires FitAfter(lay, s, acts).Some?
  {
    Runs.LastMark(Fitting(lay), IsCommitPoint, s, acts)
  }

  lemma RunKeepsInv(lay: Layout, s: Sys, acts: seq<Act>)
    requires Inv(lay, s) && FitAfter(lay, s, acts).Some?
    ensures Inv(lay, FitAfter(lay, s, acts).value)
  {
    FittingPreserves(lay);
    Runs.RunKeeps(Fitting(lay), (x: Sys) => Inv(lay, x), s, acts);
  }

  lemma FittingPreserves(lay: Layout)
    ensures Runs.Preserved(Fitting(lay), (x: Sys) => Inv(lay, x))
  {
    forall x: Sys, a: Act | Inv(lay, x) && Fitting(lay)(x, a).Some? ensures Inv(lay, Fitting(lay)(x, a).value) {
      StepKeepsInv(lay, x, a);
    }
  }

  /** The contents last given to block c, x if it was given none. */
  function LastGiven(acts: seq<Act>, c: nat, x: Block): Block {
    if acts == [] then x
    else
      var a := acts[|acts| - 1];
      if a.Modify? && a.b == c then a.x else LastGiven(acts[..|acts| - 1], c, x)
  }

  predicate NoCrash(acts: seq<Act>) { forall i | 0 <= i < |acts| :: !acts[i].Crash? }

  /** Between crashes, reading a block gives the contents last given to it, whatever was loaded, evicted, logged,
      committed and installed meanwhile. */
  lemma {:induction false} ReadsLastGiven(lay: Layout, s: Sys, acts: seq<Act>, c: nat)
    requires Inv(lay, s) && !s.booting && NoCrash(acts) && FitAfter(lay, s, acts).Some? && Home(lay, s.e.disk, c)
    ensures var r := FitAfter(lay, s, acts).value;
      !r.booting && Home(lay, r.e.disk, c) && View(r.e, c) == LastGiven(acts, c, View(s.e, c))
  {
    if acts != [] {
      var before := acts[..|acts| - 1];
      ReadsLastGiven(lay, s, before, c);
      RunKeepsInv(lay, s, before);
      SameSize(lay, FitAfter(lay, s, before).value, acts[|acts| - 1]);
      ViewAfterAt(lay, FitAfter(lay, s, before).value, acts[|acts| - 1], c);
    }
  }

  lemma ActRecovers(lay: Layout, s: Sys, a: Act)
    requires Inv(lay, s) && Enabled(lay, s, a)
    ensures HeaderFits(lay, Do(lay, s, a).e.disk)
    ensures AfterCrash(lay, Do(lay, s, a).e.disk) ==
      if IsCommitPoint(s, a) then ViewOf(lay, s.e) else AfterCrash(lay, s.e.disk)
  {
    if a.Write? { StepRecovers(lay, s.e); }
  }

  /** Between transactions the disk holds what readers see. */
  lemma QuietView(lay: Layout, s: Sys)
    requires Inv(lay, s) && NoOps(s) && s.e.phase.Idle?
    ensures AfterCrash(lay, s.e.disk) == ViewOf(lay, s.e)
  {
    CleanAfterCrash(lay, s.e);
    forall b: nat | Home(lay, s.e.disk, b) ensures View(s.e, b) == s.e.disk[b] {
    }
  }

  /** What a crash in this state would leave. */
  ghost function Survives(lay: Layout, s: Sys): Contents {
    if HeaderFits(lay, s.e.disk) then AfterCrash(lay, s.e.disk) else map[]
  }

  lemma CommitsPublish(lay: Layout)
    ensures Runs.Publishes(Fitting(lay), (x: Sys) => Inv(lay, x), IsCommitPoint, NoOps,
                           (x: Sys) => Survives(lay, x), (x: Sys) => ViewOf(lay, x.e))
  {
    forall x: Sys, a: Act | Inv(lay, x) && Fitting(lay)(x, a).Some?
      ensures Survives(lay, Fitting(lay)(x, a).value) ==
        if IsCommitPoint(x, a) then ViewOf(lay, x.e) else Survives(lay, x)
      ensures IsCommitPoint(x, a) ==> NoOps(x)
    {
      ActRecovers(lay, x, a);
    }
  }

  /** Durability and atomicity for concurrent operations: at any moment of any run, what a crash would leave is
      exactly what readers saw just before the last committed header write, and no operation was open then. */
  lemma CrashLeavesLastCommit(lay: Layout, s: Sys, acts: seq<Act>)
    requires Inv(lay, s) && NoOps(s) && s.e.phase.Idle? && FitAfter(lay, s, acts).Some?
    ensures var k := LastCommit(lay, s, acts);
      && k <= |acts| && FitAfter(lay, s, acts[..k]).Some? && NoOps(FitAfter(lay, s, acts[..k]).value)
      && Survives(lay, FitAfter(lay, s, acts).value) == ViewOf(lay, FitAfter(lay, s, acts[..k]).value.e)
  {
    QuietView(lay, s);
    FittingPreserves(lay);
    CommitsPublish(lay);
    Runs.ShowsLastMark(Fitting(lay), (x: Sys) => Inv(lay, x), IsCommitPoint, NoOps,
                       (x: Sys) => Survives(lay, x), (x: Sys) => ViewOf(lay, x.e), s, acts);
  }

  /** The same for the machine that comes back: whatever recovery goes through, the file system it ends with is
      the one readers saw at the last commit. */
  lemma RecoveryRestoresLastCommit(lay: Layout, s: Sys, acts: seq<Act>, cuts: seq<nat>)
    requires Inv(lay, s) && NoOps(s) && s.e.phase.Idle? && FitAfter(lay, s, acts).Some?
    ensures Bootable(lay, FitAfter(lay, s, acts).value.e.disk)
    ensures var k := LastCommit(lay, s, acts);
      && k <= |acts| && FitAfter(lay, s, acts[..k]).Some? && NoOps(FitAfter(lay, s, acts[..k]).value)
      && HomeOf(lay, Recover(lay, FitAfter(lay, s, acts).value.e.disk, cuts)) ==
        ViewOf(lay, FitAfter(lay, s, acts[..k]).value.e)
  {
    RunKeepsInv(lay, s, acts);
    var r := FitAfter(lay, s, acts).value;
    EngineBootable(lay, r.e);
    RecoverIsAfterCrash(lay, r.e.disk, cuts);
    CrashLeavesLastCommit(lay, s, acts);
  }
}

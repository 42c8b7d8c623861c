/** All CPUs, the process table and the sleep locks as one machine.  Each step is a critical section of ptable.lock
    or of a
    sleep lock's spinlock, or one hand-over of a lock, by the scheduler or the process on one CPU. */
module Scheduling {
  import opened Common
  import opened ProcTable

  /** A CPU: in the scheduler without the lock, in its scan of the table at k, or switched to process p from scan
      position k. */
  datatype Cpu = Idle | Scan(k: nat) | Run(k: nat, p: nat)

  /** spin is the process that holds the spinlock. */
  datatype SleepLock = SleepLock(spin: Option<nat>, locked: bool, pid: nat)

  /** lock is the CPU that holds ptable.lock; nextdir numbers the page directories; freed lists the arguments of
      freevm. */
  datatype Sys = Sys(procs: Table, cpus: seq<Cpu>, lock: Option<nat>, nextpid: nat,
                     locks: seq<SleepLock>, nextdir: nat, freed: seq<nat>)

  datatype Act =
    // scheduler and sched
    | SchedLock | SchedTurn | Swtch | Resume
    // yield, fork, clone, exec, exit, thread_exit, wait, join, kill
    | Yield | Alloc(thread: bool) | Abandon | Publish | Exec | Exit | ThreadExit | Wait(want: Want) | Look
    | Kill(pid: int)
    // acquiresleep
    | Acquire(lk: nat) | Test | TakeTable | DropSpin | Sleep | Retake
    // releasesleep
    | Release(lk: nat) | Wake

  datatype Step = Step(cpu: nat, act: Act)

  // ---------------------------------------------------------------- steps

  function Cur(s: Sys, c: nat): nat
    requires c < |s.cpus| && s.cpus[c].Run?
  {
    s.cpus[c].p
  }

  function SetProc(s: Sys, p: nat, x: Proc): Sys
    requires p < |s.procs|
  {
    s.(procs := s.procs[p := x])
  }

  function SetPlace(s: Sys, p: nat, pc: Place): Sys
    requires p < |s.procs|
  {
    SetProc(s, p, s.procs[p].(pc := pc))
  }

  function SetCpu(s: Sys, c: nat, x: Cpu): Sys
    requires c < |s.cpus|
  {
    s.(cpus := s.cpus[c := x])
  }

  function SetSpin(s: Sys, lk: nat, spin: Option<nat>): Sys
    requires lk < |s.locks|
  {
    s.(locks := s.locks[lk := s.locks[lk].(spin := spin)])
  }

  /** CPU c is running a process that stands at some place. */
  predicate InProc(s: Sys, c: nat) { c < |s.cpus| && s.cpus[c].Run? && s.cpus[c].p < |s.procs| }

  predicate Enabled(s: Sys, t: Step) {
    var c := t.cpu;
    match t.act
    case SchedLock => c < |s.cpus| && s.cpus[c].Idle? && s.lock.None?
    case SchedTurn => c < |s.cpus| && s.cpus[c].Scan?
    case _ => InProc(s, c) && ProcEnabled(s, s.cpus[c].p, t.act)
  }

  predicate ProcEnabled(s: Sys, p: nat, a: Act)
    requires p < |s.procs|
  {
    var x := s.procs[p];
    match a
    case SchedLock => false
    case SchedTurn => false
    case Swtch => x.pc.ToSched?
    case Resume => x.pc.At? && x.pc.ctx != Gone
    case Yield => x.pc == User && s.lock.None?
    case Alloc(thread) => x.pc == User && s.lock.None?
    case Abandon => x.pc.Making? && x.pc.np < |s.procs|
    case Publish => x.pc.Making? && x.pc.np < |s.procs| && s.lock.None?
    case Exec => x.pc == User
    case Exit => x.pc == User && s.lock.None? && p != INIT
    case ThreadExit => x.pc == User && x.isthread && s.lock.None?
    case Wait(want) => x.pc == User && s.lock.None?
    case Look => x.pc.Looking?
    case Kill(pid) => x.pc == User && s.lock.None?
    case Acquire(lk) => x.pc == User && lk < |s.locks| && s.locks[lk].spin.None?
    case Test => x.pc.Testing? && x.pc.lk < |s.locks|
    case TakeTable => x.pc.WantTable? && x.pc.lk < |s.locks| && s.lock.None?
    case DropSpin => x.pc.Both? && x.pc.lk < |s.locks|
    case Sleep => x.pc.Going?
    case Retake => x.pc.Reacquire? && x.pc.lk < |s.locks| && s.locks[x.pc.lk].spin.None?
    case Release(lk) => x.pc == User && lk < |s.locks| && s.locks[lk].spin.None?
    case Wake => x.pc.Freeing? && x.pc.lk < |s.locks| && s.lock.None?
  }

  const INIT: nat := 0

  function Do(s: Sys, t: Step): Sys
    requires Enabled(s, t)
  {
    var c := t.cpu;
    match t.act
    case SchedLock => SetCpu(s.(lock := Some(c)), c, Scan(0))
    case SchedTurn => DoTurn(s, c)
    case _ => ProcDo(s, c, s.cpus[c].p, t.act)
  }

  /** One turn of the scheduler's scan. */
  function DoTurn(s: Sys, c: nat): Sys
    requires c < |s.cpus| && s.cpus[c].Scan?
  {
    var k := s.cpus[c].k;
    if k >= |s.procs| then SetCpu(s.(lock := None), c, Idle)
    else if s.procs[k].state == Runnable then SetCpu(SetProc(s, k, s.procs[k].(state := Running)), c, Run(k, k))
    else SetCpu(s, c, Scan(k + 1))
  }

  /** Back to user mode with this value. */
  function Return(s: Sys, p: nat, ret: int): Sys
    requires p < |s.procs|
  {
    SetProc(s, p, s.procs[p].(pc := User, ret := ret))
  }

  /** A process just switched to goes on where swtch left it. */
  function DoResume(s: Sys, p: nat, ctx: Saved): Sys
    requires p < |s.procs|
  {
    var x := s.procs[p];
    match ctx
    case Fresh => SetPlace(s.(lock := None), p, User)
    case YieldBack => SetPlace(s.(lock := None), p, User)
    case WaitBack(want) => SetProc(s, p, x.(chan := NoChan, pc := Looking(want)))
    case LockBack(lk) => SetProc(s.(lock := None), p, x.(chan := NoChan, pc := Reacquire(lk)))
    case Gone => s
  }

  /** allocproc's critical section. */
  function DoAlloc(s: Sys, p: nat, thread: bool): Sys
    requires p < |s.procs|
  {
    match FirstUnused(s.procs, 0)
    case None => Return(s, p, -1)
    case Some(np) => SetPlace(SetProc(s.(nextpid := s.nextpid + 1), np,
        s.procs[np].(state := Embryo, pid := s.nextpid, isthread := false)), p, Making(np, thread))
  }

  /** The last critical section of fork and clone, with the writes to the new slot before it. */
  function DoPublish(s: Sys, p: nat, np: nat, thread: bool): Sys
    requires p < |s.procs| && np < |s.procs|
  {
    var dir := if thread then s.procs[p].pgdir else s.nextdir;
    var child := s.procs[np].(parent := Some(p), isthread := thread, pgdir := dir, pc := At(Fresh), state := Runnable);
    Return(SetProc(s.(nextdir := if thread then s.nextdir else s.nextdir + 1), np, child), p, child.pid)
  }

  /** One pass of the loop of wait or join: reap a child, give up, or go to sleep. */
  function DoLook(s: Sys, p: nat, want: Want): Sys
    requires p < |s.procs|
  {
    match FirstReady(s.procs, p, want, 0)
    case Some(q) =>
      var x := s.procs[q];
      var freed := if want.AnyChild? then s.freed + [x.pgdir] else s.freed;
      Return(SetProc(s.(lock := None, freed := freed), q, Reaped(x, want)), p, x.pid)
    case None =>
      if !HaveKids(s.procs, p, want) || s.procs[p].killed then Return(s.(lock := None), p, -1)
      else SetProc(s, p, s.procs[p].(chan := ProcChan(p), state := Sleeping, pc := ToSched(WaitBack(want))))
  }

  function DoKill(s: Sys, p: nat, pid: int): Sys
    requires p < |s.procs|
  {
    match FirstPid(s.procs, pid, 0)
    case None => Return(s, p, -1)
    case Some(q) => Return(SetProc(s, q, Killed(s.procs[q])), p, 0)
  }

  /** while(lk->locked): take it, or go on to sleep. */
  function DoTest(s: Sys, p: nat, lk: nat): Sys
    requires p < |s.procs| && lk < |s.locks|
  {
    if s.locks[lk].locked then SetPlace(s, p, WantTable(lk))
    else SetPlace(s.(locks := s.locks[lk := SleepLock(None, true, s.procs[p].pid)]), p, User)
  }

  function ProcDo(s: Sys, c: nat, p: nat, a: Act): Sys
    requires InProc(s, c) && p == s.cpus[c].p && ProcEnabled(s, p, a)
  {
    var x := s.procs[p];
    match a
    case SchedLock => s
    case SchedTurn => s
    case Swtch => SetCpu(SetPlace(s, p, At(x.pc.ctx)), c, Scan(s.cpus[c].k + 1))
    case Resume => DoResume(s, p, x.pc.ctx)
    case Yield => SetProc(s.(lock := Some(c)), p, x.(state := Runnable, pc := ToSched(YieldBack)))
    case Alloc(thread) => DoAlloc(s, p, thread)
    case Abandon => Return(SetProc(s, x.pc.np, s.procs[x.pc.np].(state := Unused)), p, -1)
    case Publish => DoPublish(s, p, x.pc.np, x.pc.thread)
    case Exec => SetProc(s.(nextdir := s.nextdir + 1, freed := s.freed + [x.pgdir]), p, x.(pgdir := s.nextdir))
    case Exit => s.(lock := Some(c), procs := ExitTable(s.procs, p, INIT))
    case ThreadExit => s.(lock := Some(c), procs := ThreadExitTable(s.procs, p))
    case Wait(want) => SetPlace(s.(lock := Some(c)), p, Looking(want))
    case Look => DoLook(s, p, x.pc.want)
    case Kill(pid) => DoKill(s, p, pid)
    case Acquire(lk) => SetPlace(SetSpin(s, lk, Some(p)), p, Testing(lk))
    case Test => DoTest(s, p, x.pc.lk)
    case TakeTable => SetPlace(s.(lock := Some(c)), p, Both(x.pc.lk))
    case DropSpin => SetPlace(SetSpin(s, x.pc.lk, None), p, Going(x.pc.lk))
    case Sleep => SetProc(s, p, x.(chan := LockChan(x.pc.lk), state := Sleeping, pc := ToSched(LockBack(x.pc.lk))))
    case Retake => SetPlace(SetSpin(s, x.pc.lk, Some(p)), p, Testing(x.pc.lk))
    case Release(lk) => SetPlace(s.(locks := s.locks[lk := SleepLock(Some(p), false, 0)]), p, Freeing(lk))
    case Wake => SetPlace(SetSpin(s.(procs := WakeAll(s.procs, LockChan(x.pc.lk))), x.pc.lk, None), p, User)
  }

  // ---------------------------------------------------------------- invariants

  /** The places of a process that holds ptable.lock. */
  predicate HoldsTable(pc: Place) { pc.At? || pc.ToSched? || pc.Looking? || pc.Both? || pc.Going? }

  predicate OnCpu(s: Sys, p: nat) { exists c | 0 <= c < |s.cpus| :: s.cpus[c].Run? && s.cpus[c].p == p }

  predicate CpuOk(s: Sys, c: nat)
    requires c < |s.cpus|
  {
    match s.cpus[c]
    case Idle => s.lock != Some(c)
    case Scan(k) => s.lock == Some(c)
    case Run(k, p) =>
      && p < |s.procs|
      && (s.lock == Some(c) <==> HoldsTable(s.procs[p].pc))
      && (s.procs[p].state == Running <==> !s.procs[p].pc.ToSched?)
  }

  /** Every CPU runs what it holds, no two the same process, and the lock has its CPU. */
  ghost predicate CpuInv(s: Sys) {
    && INIT < |s.procs| && (s.lock.Some? ==> s.lock.value < |s.cpus|)
    && (forall c | 0 <= c < |s.cpus| :: CpuOk(s, c))
    && (forall c, d | 0 <= c < |s.cpus| && 0 <= d < |s.cpus| && s.cpus[c].Run? && s.cpus[d].Run?
                  && s.cpus[c].p == s.cpus[d].p ::
        c == d)
  }

  /** A process that is running, or stands anywhere but at a saved context, is on a CPU. */
  ghost predicate OnCpuInv(s: Sys) {
    forall p | 0 <= p < |s.procs| :: s.procs[p].state == Running || !s.procs[p].pc.At? ==> OnCpu(s, p)
  }

  /** State, channel and place of slot p agree. */
  predicate SlotOk(p: nat, x: Proc) {
    match x.state
    case Unused => x.pc == At(Gone) && x.parent.None?
    case Embryo => x.pc == At(Gone) && x.parent.None? && x.pid > 0
    case Zombie => x.pc == At(Gone) || x.pc == ToSched(Gone)
    case Running => x.pc != At(Gone) && !x.pc.ToSched?
    case Runnable => (x.pc.At? || x.pc.ToSched?) && x.pc.ctx != Gone
    case Sleeping =>
      && (x.pc.At? || x.pc.ToSched?)
      && (x.pc.ctx.WaitBack? || x.pc.ctx.LockBack?)
      && x.chan == if x.pc.ctx.WaitBack? then ProcChan(p) else LockChan(x.pc.ctx.lk)
  }

  ghost predicate SlotInv(s: Sys) { forall p | 0 <= p < |s.procs| :: SlotOk(p, s.procs[p]) }

  /** A slot under construction belongs to one fork or clone. */
  ghost predicate MakeInv(s: Sys) {
    && (forall p | 0 <= p < |s.procs| && s.procs[p].pc.Making? ::
          s.procs[p].pc.np < |s.procs| && s.procs[s.procs[p].pc.np].state == Embryo)
    && (forall p, q | 0 <= p < |s.procs| && 0 <= q < |s.procs| && s.procs[p].pc.Making? && s.procs[q].pc.Making?
                   && s.procs[p].pc.np == s.procs[q].pc.np :: p == q)
  }

  ghost predicate PidInv(s: Sys) {
    && 0 < s.nextpid
    && (forall p | 0 <= p < |s.procs| :: s.procs[p].pid < s.nextpid)
    && (forall p, q | 0 <= p < |s.procs| && 0 <= q < |s.procs| && s.procs[p].pid == s.procs[q].pid != 0 :: p == q)
  }

  /** Nobody sleeps in wait or join with a child to reap. */
  ghost predicate WaitInv(s: Sys) {
    forall p, q | 0 <= p < |s.procs| && 0 <= q < |s.procs| && InWait(s.procs[p]) ::
      !Ready(s.procs[q], p, s.procs[p].pc.ctx.want)
  }

  predicate InWait(x: Proc) { x.state == Sleeping && (x.pc.At? || x.pc.ToSched?) && x.pc.ctx.WaitBack? }

  /** p sleeps on lock lk, or is past the point where it let go of the spinlock to do so. */
  predicate Dozing(x: Proc, lk: nat) { (x.state == Sleeping && x.chan == LockChan(lk)) || x.pc == Going(lk) }

  predicate HoldsSpin(pc: Place, lk: nat) {
    pc == Testing(lk) || pc == WantTable(lk) || pc == Both(lk) || pc == Freeing(lk)
  }

  /** Some process is between clearing locked and waking the sleepers. */
  predicate Pending(s: Sys, lk: nat)
    requires lk < |s.locks|
  {
    var spin := s.locks[lk].spin;
    spin.Some? && spin.value < |s.procs| && s.procs[spin.value].pc == Freeing(lk)
  }

  /** The spinlock of lk is held by the process that stands where it is held. */
  ghost predicate SpinInv(s: Sys) {
    && (forall p, lk | 0 <= p < |s.procs| && 0 <= lk < |s.locks| ::
          HoldsSpin(s.procs[p].pc, lk) <==> s.locks[lk].spin == Some(p))
    && (forall lk | 0 <= lk < |s.locks| && s.locks[lk].spin.Some? :: s.locks[lk].spin.value < |s.procs|)
  }

  /** An unlocked sleep lock has sleepers only while their wakeup is on its way. */
  ghost predicate LockInv(s: Sys) {
    && (forall p, lk | 0 <= p < |s.procs| && 0 <= lk < |s.locks| && Dozing(s.procs[p], lk) ::
          s.locks[lk].locked || Pending(s, lk))
    && (forall p, lk | 0 <= p < |s.procs| && 0 <= lk < |s.locks|
                   && (s.procs[p].pc == WantTable(lk) || s.procs[p].pc == Both(lk)) ::
        s.locks[lk].locked)
  }

  /** Nobody is their own parent, and init is alive, no thread and has none. */
  ghost predicate ParentInv(s: Sys) {
    && INIT < |s.procs| && s.procs[INIT].parent.None? && !s.procs[INIT].isthread && !s.procs[INIT].state.Unused?
    && !s.procs[INIT].state.Embryo? && !s.procs[INIT].state.Zombie?
    && forall i: nat | i < |s.procs| :: s.procs[i].parent != Some(i)
  }

  ghost predicate Inv(s: Sys) {
    && CpuInv(s) && OnCpuInv(s) && SlotInv(s) && MakeInv(s) && ParentInv(s) && PidInv(s) && WaitInv(s) && SpinInv(s)
    && LockInv(s)
  }
}

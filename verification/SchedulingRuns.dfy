/** What holds in every run of the scheduling machine. */
module SchedulingRuns {
  import opened Common
  import opened ProcTable
  import opened Runs
  import opened Scheduling
  import opened SchedulingSteps

  /** After userinit: one process, every CPU in its scheduler, every lock free. */
  function Start(nproc: nat, ncpu: nat, nlock: nat): Sys
    requires 0 < nproc
  {
    var free := Proc(Unused, 0, None, NoChan, false, false, 0, At(Gone), 0);
    Sys(seq(nproc, i => if i == INIT then free.(state := Runnable, pid := 1, pgdir := 1, pc := At(Fresh)) else free),
        seq(ncpu, _ => Idle), None, 2, seq(nlock, _ => SleepLock(None, false, 0)), 2, [])
  }

  function Next(s: Sys, t: Step): Option<Sys> { if Enabled(s, t) then Some(Do(s, t)) else None }

  lemma StartInv(nproc: nat, ncpu: nat, nlock: nat)
    requires 0 < nproc
    ensures Inv(Start(nproc, ncpu, nlock))
  {
    var s := Start(nproc, ncpu, nlock);
    forall c | 0 <= c < |s.cpus| ensures CpuOk(s, c) {}
    forall p | 0 <= p < |s.procs| ensures SlotOk(p, s.procs[p]) {}
  }

  /** A state some run from the start reaches. */
  ghost predicate Reachable(s: Sys) {
    exists nproc: nat, ncpu: nat, nlock: nat | 0 < nproc :: Reaches(Next, Start(nproc, ncpu, nlock), s)
  }

  lemma ReachableInv(s: Sys)
    requires Reachable(s)
    ensures Inv(s)
  {
    var nproc: nat, ncpu: nat, nlock: nat :| 0 < nproc && Reaches(Next, Start(nproc, ncpu, nlock), s);
    var start := Start(nproc, ncpu, nlock);
    var acts :| After(Next, start, acts) == Some(s);
    StartInv(nproc, ncpu, nlock);
    forall r, t | Inv(r) && Next(r, t).Some? ensures Inv(Next(r, t).value) { StepInv(r, t); }
    RunKeeps(Next, s => Inv(s), start, acts);
  }

  /** While ptable.lock is free, the running processes and the CPUs with a process are matched one to one. */
  lemma RunningMatchesCpus(s: Sys)
    requires Reachable(s) && s.lock.None?
    ensures forall c | 0 <= c < |s.cpus| && s.cpus[c].Run? ::
      s.cpus[c].p < |s.procs| && s.procs[s.cpus[c].p].state == Running
    ensures forall p | 0 <= p < |s.procs| && s.procs[p].state == Running :: OnCpu(s, p)
    ensures forall c, d | 0 <= c < |s.cpus| && 0 <= d < |s.cpus| && s.cpus[c].Run? && s.cpus[d].Run?
                       && s.cpus[c].p == s.cpus[d].p ::
        c == d
  {
    ReachableInv(s);
    forall c | 0 <= c < |s.cpus| && s.cpus[c].Run?
      ensures s.cpus[c].p < |s.procs| && s.procs[s.cpus[c].p].state == Running
    {
      assert CpuOk(s, c);
    }
  }

  lemma PidsDistinct(s: Sys)
    requires Reachable(s)
    ensures forall p | 0 <= p < |s.procs| :: s.procs[p].pid < s.nextpid
    ensures forall p, q | 0 <= p < |s.procs| && 0 <= q < |s.procs| && s.procs[p].pid == s.procs[q].pid != 0 :: p == q
  {
    ReachableInv(s);
  }

  /** Nobody sleeps on a sleep lock that is free and whose spinlock is free. */
  lemma NoLockSleeper(s: Sys, lk: nat)
    requires Reachable(s) && lk < |s.locks| && s.locks[lk].spin.None? && !s.locks[lk].locked
    ensures forall p | 0 <= p < |s.procs| :: !(s.procs[p].state == Sleeping && s.procs[p].chan == LockChan(lk))
  {
    ReachableInv(s);
    FreeLockIsQuiet(s, lk);
  }

  lemma FreeLockIsQuiet(s: Sys, lk: nat)
    requires LockInv(s) && lk < |s.locks| && s.locks[lk].spin.None? && !s.locks[lk].locked
    ensures forall p | 0 <= p < |s.procs| :: !(s.procs[p].state == Sleeping && s.procs[p].chan == LockChan(lk))
  {
    forall p | 0 <= p < |s.procs| ensures !Dozing(s.procs[p], lk) {}
  }

  /** Nobody sleeps in wait or join with a child there to be reaped, however the child came to them. */
  lemma NoWaitSleeper(s: Sys, p: nat, q: nat)
    requires Reachable(s) && p < |s.procs| && q < |s.procs| && s.procs[p].state == Sleeping
    requires s.procs[p].chan == ProcChan(p)
    ensures (s.procs[p].pc.At? || s.procs[p].pc.ToSched?) && s.procs[p].pc.ctx.WaitBack?
    ensures !Ready(s.procs[q], p, s.procs[p].pc.ctx.want)
  {
    ReachableInv(s);
    assert SlotOk(p, s.procs[p]);
  }

  /** No CPU ever comes back into a process that has exited. */
  lemma NoZombieRuns(s: Sys, c: nat)
    requires Reachable(s) && c < |s.cpus| && s.cpus[c].Run?
    ensures s.cpus[c].p < |s.procs| && s.procs[s.cpus[c].p].pc != At(Gone)
  {
    ReachableInv(s);
    assert CpuOk(s, c) && SlotOk(s.cpus[c].p, s.procs[s.cpus[c].p]);
  }

  /** Whoever is reaped, its stack freed, is on no CPU. */
  lemma ReapedIsOff(s: Sys, c: nat, q: nat)
    requires Reachable(s) && Enabled(s, Step(c, Look)) && q < |s.procs| && s.procs[q].state == Zombie
    requires Do(s, Step(c, Look)).procs[q].state == Unused
    ensures !OnCpu(s, q) && q != s.cpus[c].p
  {
    ReachableInv(s);
    var p := s.cpus[c].p;
    assert CpuOk(s, c);
    ZombieIsOff(s, c, p, q);
  }

  // ---------------------------------------------------------------- join

  /** No slot has pid w, and no new process will get it. */
  predicate Spent(s: Sys, w: int) { w < s.nextpid && forall i | 0 <= i < |s.procs| :: s.procs[i].pid != w }

  /** One pass of join(wanted) that returns: -1, or wanted after reaping the one slot with that pid, which then is
      spent.
      The directory of a joined thread is not freed. */
  lemma JoinAnswers(s: Sys, c: nat, wanted: int)
    requires Reachable(s) && Enabled(s, Step(c, Look)) && s.procs[s.cpus[c].p].pc == Looking(ThreadOf(wanted))
    requires wanted > 0
    ensures var p := s.cpus[c].p; var s' := Do(s, Step(c, Look));
      && s'.freed == s.freed
      && (s'.procs[p].pc != User ==>
            s'.procs[p].state == Sleeping && s'.procs[p].chan == ProcChan(p) && s'.lock == s.lock)
      && (s'.procs[p].pc == User ==> JoinReturns(s, s', p, wanted))
  {
    ReachableInv(s);
    JoinPass(s, c, s.cpus[c].p, wanted);
  }

  /** q was a zombie thread of p with this pid, and it and p are the slots that change. */
  predicate JoinedAt(s: Sys, s': Sys, p: nat, q: nat, wanted: int) {
    && p < |s.procs| && q < |s.procs| && |s'.procs| == |s.procs| && q != p
    && s.procs[q].pid == wanted && s.procs[q].state == Zombie && s.procs[q].isthread && s.procs[q].parent == Some(p)
    && s'.procs[q].state == Unused && forall i | 0 <= i < |s.procs| && i != p && i != q :: s'.procs[i] == s.procs[i]
  }

  predicate JoinReturns(s: Sys, s': Sys, p: nat, wanted: int)
    requires p < |s'.procs|
  {
    s'.procs[p].ret == -1
      || (s'.procs[p].ret == wanted && Spent(s', wanted) && exists q | 0 <= q < |s.procs| :: JoinedAt(s, s', p, q,
          wanted))
  }

  lemma JoinPass(s: Sys, c: nat, p: nat, wanted: int)
    requires PidInv(s) && Enabled(s, Step(c, Look)) && p == s.cpus[c].p && s.procs[p].pc == Looking(ThreadOf(wanted))
    requires wanted > 0
    requires s.procs[p].state == Running
    ensures var s' := Do(s, Step(c, Look));
      && s'.freed == s.freed
      && (s'.procs[p].pc != User ==>
            s'.procs[p].state == Sleeping && s'.procs[p].chan == ProcChan(p) && s'.lock == s.lock)
      && (s'.procs[p].pc == User ==> JoinReturns(s, s', p, wanted))
  {
    var s' := Do(s, Step(c, Look));
    var r := FirstReady(s.procs, p, ThreadOf(wanted), 0);
    if r.Some? {
      assert JoinedAt(s, s', p, r.value, wanted);
    }
  }

  /** Every pid stays, becomes 0, or is the next new one. */
  predicate PidsFrom(s: Sys, s': Sys) {
    |s'.procs| == |s.procs| && s.nextpid <= s'.nextpid && forall i | 0 <= i < |s.procs| ::
      s'.procs[i].pid in {s.procs[i].pid, 0, s.nextpid}
  }

  lemma OwnPids(s: Sys, c: nat, p: nat, a: Act)
    requires InProc(s, c) && p == s.cpus[c].p && ProcEnabled(s, p, a)
    requires a.Swtch? || a.Resume? || a.Yield? || a.Exec? || a.Wait? || a.Sleep?
    ensures PidsFrom(s, ProcDo(s, c, p, a))
  {}

  lemma LockPids(s: Sys, c: nat, p: nat, a: Act)
    requires InProc(s, c) && p == s.cpus[c].p && ProcEnabled(s, p, a)
    requires a.Acquire? || a.Test? || a.TakeTable? || a.DropSpin? || a.Retake? || a.Release? || a.Wake?
    ensures PidsFrom(s, ProcDo(s, c, p, a))
  {}

  lemma TablePids(s: Sys, c: nat, p: nat, a: Act)
    requires InProc(s, c) && p == s.cpus[c].p && ProcEnabled(s, p, a)
    requires a.Alloc? || a.Abandon? || a.Publish? || a.Kill? || a.Look?
    ensures PidsFrom(s, ProcDo(s, c, p, a))
  {}

  lemma ExitPids(s: Sys, c: nat, p: nat, a: Act)
    requires InProc(s, c) && p == s.cpus[c].p && ProcEnabled(s, p, a)
    requires a.Exit? || a.ThreadExit?
    ensures PidsFrom(s, ProcDo(s, c, p, a))
  {}

  lemma StepPids(s: Sys, t: Step)
    requires Enabled(s, t)
    ensures PidsFrom(s, Do(s, t))
  {
    var c, a := t.cpu, t.act;
    match a
    case SchedLock =>
    case SchedTurn =>
    case Alloc(_) => TablePids(s, c, s.cpus[c].p, a);
    case Abandon => TablePids(s, c, s.cpus[c].p, a);
    case Publish => TablePids(s, c, s.cpus[c].p, a);
    case Kill(_) => TablePids(s, c, s.cpus[c].p, a);
    case Look => TablePids(s, c, s.cpus[c].p, a);
    case Exit => ExitPids(s, c, s.cpus[c].p, a);
    case ThreadExit => ExitPids(s, c, s.cpus[c].p, a);
    case Swtch => OwnPids(s, c, s.cpus[c].p, a);
    case Resume => OwnPids(s, c, s.cpus[c].p, a);
    case Yield => OwnPids(s, c, s.cpus[c].p, a);
    case Exec => OwnPids(s, c, s.cpus[c].p, a);
    case Wait(_) => OwnPids(s, c, s.cpus[c].p, a);
    case Sleep => OwnPids(s, c, s.cpus[c].p, a);
    case _ => LockPids(s, c, s.cpus[c].p, a);
  }

  /** Pids are not used again: once a thread is joined, no later join can return its pid. */
  lemma JoinedOnce(s: Sys, steps: seq<Step>, r: Sys, wanted: int)
    requires wanted > 0 && Spent(s, wanted) && After(Next, s, steps) == Some(r)
    ensures Spent(r, wanted)
  {
    forall x, t | Spent(x, wanted) && Next(x, t).Some? ensures Spent(Next(x, t).value, wanted) { StepPids(x, t); }
    RunKeeps(Next, x => Spent(x, wanted), s, steps);
  }
}

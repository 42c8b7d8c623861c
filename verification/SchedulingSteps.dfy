/** Every step of the scheduling machine keeps its invariants. */
module SchedulingSteps {
  import opened Common
  import opened ProcTable
  import opened Scheduling

  // ---------------------------------------------------------------- what a step does to one slot

  /** The changes other processes see happen to a slot: it is killed or woken. */
  predicate Calm(x: Proc, x': Proc) {
    && x' == x.(state := x'.state, killed := x'.killed)
    && (x'.state == x.state || (x.state == Sleeping && x'.state == Runnable))
  }

  predicate MakeLess(x: Proc, x': Proc) {
    (x'.pc.Making? ==> x'.pc == x.pc) && (x.state == Embryo ==> x'.state == Embryo)
  }

  predicate WaitLess(x: Proc, x': Proc) {
    && (InWait(x') ==> InWait(x) && x'.pc.ctx == x.pc.ctx)
    && (x'.state == Zombie ==>
          x.state == Zombie && x'.parent == x.parent && x'.isthread == x.isthread && x'.pid == x.pid)
  }

  /** The place as far as the sleep locks are concerned. */
  function LockPlace(pc: Place): Place { if pc.Testing? || pc.WantTable? || pc.Both? || pc.Freeing? then pc else User }

  predicate DozeLess(x: Proc, x': Proc) {
    && (x'.state == Sleeping && x'.chan.LockChan? ==>
          (x.state == Sleeping && x.chan == x'.chan) || x.pc == Going(x'.chan.lk))
    && (x'.pc.Going? ==> x'.pc == x.pc)
  }

  predicate CpuSame(x: Proc, x': Proc) {
    (x'.state == Running <==> x.state == Running) && (x'.pc == x.pc || (x.pc.At? && x'.pc.At?))
  }

  lemma PidKept(s: Sys, s': Sys)
    requires PidInv(s) && |s'.procs| == |s.procs| && s.nextpid <= s'.nextpid
    requires forall i | 0 <= i < |s.procs| :: s'.procs[i].pid == s.procs[i].pid
    ensures PidInv(s')
  {}

  lemma MakeKept(s: Sys, s': Sys)
    requires MakeInv(s) && |s'.procs| == |s.procs|
    requires forall i | 0 <= i < |s.procs| :: MakeLess(s.procs[i], s'.procs[i])
    ensures MakeInv(s')
  {}

  lemma WaitKept(s: Sys, s': Sys)
    requires WaitInv(s) && |s'.procs| == |s.procs|
    requires forall i | 0 <= i < |s.procs| :: WaitLess(s.procs[i], s'.procs[i])
    ensures WaitInv(s')
  {
    forall p, q | 0 <= p < |s'.procs| && 0 <= q < |s'.procs| && InWait(s'.procs[p])
      ensures !Ready(s'.procs[q], p, s'.procs[p].pc.ctx.want)
    {
      assert WaitLess(s.procs[p], s'.procs[p]) && WaitLess(s.procs[q], s'.procs[q]);
    }
  }

  lemma SpinKept(s: Sys, s': Sys)
    requires SpinInv(s) && |s'.procs| == |s.procs| && s'.locks == s.locks
    requires forall i | 0 <= i < |s.procs| :: LockPlace(s'.procs[i].pc) == LockPlace(s.procs[i].pc)
    ensures SpinInv(s')
  {
    forall p, lk | 0 <= p < |s.procs|
      && 0 <= lk < |s.locks| ensures HoldsSpin(s'.procs[p].pc, lk) == HoldsSpin(s.procs[p].pc, lk) {}
  }

  lemma LockKept(s: Sys, s': Sys)
    requires LockInv(s) && |s'.procs| == |s.procs| && s'.locks == s.locks
    requires forall i | 0 <= i < |s.procs| ::
      LockPlace(s'.procs[i].pc) == LockPlace(s.procs[i].pc) && DozeLess(s.procs[i], s'.procs[i])
    ensures LockInv(s')
  {
    forall p, lk | 0 <= p < |s.procs| && 0 <= lk < |s.locks| && Dozing(s'.procs[p], lk)
      ensures s'.locks[lk].locked || Pending(s', lk)
    {
      assert Dozing(s.procs[p], lk);
    }
  }

  lemma SlotsKept(s: Sys, s': Sys, p: nat)
    requires SlotInv(s) && |s'.procs| == |s.procs| && p < |s.procs| && SlotOk(p, s'.procs[p])
    requires forall i | 0 <= i < |s.procs| && i != p :: Calm(s.procs[i], s'.procs[i])
    ensures SlotInv(s')
  {
    forall i | 0 <= i < |s.procs| && i != p ensures SlotOk(i, s'.procs[i]) { assert Calm(s.procs[i], s'.procs[i]); }
  }

  lemma CpuKept(s: Sys, s': Sys, c: nat)
    requires CpuInv(s) && OnCpuInv(s) && InProc(s, c) && |s'.procs| == |s.procs| && s'.cpus == s.cpus
    requires forall i | 0 <= i < |s.procs| && i != s.cpus[c].p :: CpuSame(s.procs[i], s'.procs[i])
    requires LockMove(s, s', c)
    requires CpuOk(s', c)
    ensures CpuInv(s') && OnCpuInv(s')
  {
    forall d | 0 <= d < |s.cpus| && d != c ensures CpuOk(s', d) { assert CpuOk(s, d); }
    forall p | 0 <= p < |s.procs| && (s'.procs[p].state == Running || !s'.procs[p].pc.At?) ensures OnCpu(s', p) {
      if p == s.cpus[c].p { assert s'.cpus[c].Run?; } else { assert OnCpu(s, p); }
    }
  }

  /** Every slot but p keeps what CPUs and sleep locks see of it, and so does p what sleep locks see. */
  predicate Beside(s: Sys, s': Sys, p: nat) {
    && |s'.procs| == |s.procs|
    && (forall i | 0 <= i < |s.procs| && i != p :: CpuSame(s.procs[i], s'.procs[i]))
    && (forall i | 0 <= i < |s.procs| ::
          LockPlace(s'.procs[i].pc) == LockPlace(s.procs[i].pc) && DozeLess(s.procs[i], s'.procs[i]))
  }

  /** Taking or giving back ptable.lock, or neither. */
  predicate LockMove(s: Sys, s': Sys, c: nat) {
    s'.lock == s.lock || (s.lock.None? && s'.lock == Some(c)) || (s.lock == Some(c) && s'.lock.None?)
  }

  /** A step of the process on CPU c that leaves the sleep locks alone. */
  lemma ProcStepKeeps(s: Sys, s': Sys, c: nat, p: nat)
    requires Inv(s) && InProc(s, c) && p == s.cpus[c].p
    requires s'.cpus == s.cpus && s'.locks == s.locks && LockMove(s, s', c) && Beside(s, s', p)
    requires CpuOk(s', c) && SlotInv(s') && MakeInv(s') && ParentInv(s') && PidInv(s') && WaitInv(s')
    ensures Inv(s')
  {
    SpinKept(s, s');
    LockKept(s, s');
    CpuKept(s, s', c);
  }

  /** Such a step that changes only its own slot and kills or wakes others. */
  predicate OwnStep(s: Sys, s': Sys, c: nat, p: nat)
  {
    && InProc(s, c) && p == s.cpus[c].p && |s'.procs| == |s.procs|
    && s'.cpus == s.cpus && s'.locks == s.locks && s'.nextpid == s.nextpid
    && LockMove(s, s', c)
    && (forall i | 0 <= i < |s.procs| && i != p :: Calm(s.procs[i], s'.procs[i]))
    && s'.procs[p].pid == s.procs[p].pid && s'.procs[p].parent == s.procs[p].parent
    && s'.procs[p].isthread == s.procs[p].isthread
    && MakeLess(s.procs[p], s'.procs[p]) && LockPlace(s'.procs[p].pc) == LockPlace(s.procs[p].pc)
    && DozeLess(s.procs[p], s'.procs[p])
    && SlotOk(p, s'.procs[p]) && CpuOk(s', c) && s'.procs[p].state in {Running, Runnable, Sleeping}
  }

  lemma OwnFrames(s: Sys, s': Sys, c: nat, p: nat)
    requires OwnStep(s, s', c, p)
    ensures Beside(s, s', p)
    ensures forall i | 0 <= i < |s.procs| ::
      && s'.procs[i].pid == s.procs[i].pid && s'.procs[i].parent == s.procs[i].parent
      && s'.procs[i].isthread == s.procs[i].isthread
    ensures forall i | 0 <= i < |s.procs| :: MakeLess(s.procs[i], s'.procs[i])
    ensures forall i | 0 <= i < |s.procs| && i != p :: WaitLess(s.procs[i], s'.procs[i])
  {
    forall i | 0 <= i < |s.procs| && i != p
      ensures CpuSame(s.procs[i], s'.procs[i]) && MakeLess(s.procs[i], s'.procs[i]) && WaitLess(s.procs[i], s'.procs[i])
      ensures LockPlace(s'.procs[i].pc) == LockPlace(s.procs[i].pc) && DozeLess(s.procs[i], s'.procs[i])
      ensures s'.procs[i].pid == s.procs[i].pid && s'.procs[i].parent == s.procs[i].parent
    {
      assert Calm(s.procs[i], s'.procs[i]);
    }
  }

  lemma ParentKept(s: Sys, s': Sys)
    requires ParentInv(s) && |s'.procs| == |s.procs|
    requires forall i | 0 <= i < |s.procs| :: s'.procs[i].parent == s.procs[i].parent
    requires s'.procs[INIT].state in {Running, Runnable, Sleeping} && !s'.procs[INIT].isthread
    ensures ParentInv(s')
  {}

  lemma OwnKeeps(s: Sys, s': Sys, c: nat, p: nat)
    requires Inv(s) && OwnStep(s, s', c, p)
    requires WaitLess(s.procs[p], s'.procs[p]) || WaitInv(s')
    ensures Inv(s')
  {
    OwnFrames(s, s', c, p);
    PidKept(s, s');
    MakeKept(s, s');
    assert INIT == p || Calm(s.procs[INIT], s'.procs[INIT]);
    ParentKept(s, s');
    if WaitLess(s.procs[p], s'.procs[p]) { WaitKept(s, s'); }
    SlotsKept(s, s', p);
    ProcStepKeeps(s, s', c, p);
  }

  // ---------------------------------------------------------------- every step keeps them

  /** The process on CPU c is about to do a. */
  predicate Acts(s: Sys, c: nat, p: nat, a: Act) {
    InProc(s, c) && p == s.cpus[c].p && CpuOk(s, c) && SlotOk(p, s.procs[p]) && ProcEnabled(s, p, a)
  }

  lemma OwnActs(s: Sys, c: nat, p: nat, a: Act)
    requires Acts(s, c, p, a) && (a.Yield? || a.Exec? || a.Wait? || a.Sleep?)
    ensures OwnStep(s, ProcDo(s, c, p, a), c, p) && WaitLess(s.procs[p], ProcDo(s, c, p, a).procs[p])
  {}

  lemma ResumeActs(s: Sys, c: nat, p: nat)
    requires Acts(s, c, p, Resume)
    ensures OwnStep(s, ProcDo(s, c, p, Resume), c, p) && WaitLess(s.procs[p], ProcDo(s, c, p, Resume).procs[p])
  {}

  lemma KillActs(s: Sys, c: nat, p: nat, pid: int)
    requires Acts(s, c, p, Kill(pid))
    ensures OwnStep(s, ProcDo(s, c, p, Kill(pid)), c, p) && WaitLess(s.procs[p], ProcDo(s, c, p, Kill(pid)).procs[p])
  {}

  /** Going to sleep in wait or join: there is nothing to reap. */
  lemma LookNoneActs(s: Sys, c: nat, p: nat)
    requires Acts(s, c, p, Look) && FirstReady(s.procs, p, s.procs[p].pc.want, 0).None?
    ensures OwnStep(s, ProcDo(s, c, p, Look), c, p)
  {}

  lemma LookNoneWait(s: Sys, c: nat, p: nat)
    requires Acts(s, c, p, Look) && FirstReady(s.procs, p, s.procs[p].pc.want, 0).None? && WaitInv(s)
    ensures WaitInv(ProcDo(s, c, p, Look))
  {
    var s' := ProcDo(s, c, p, Look);
    forall i, j | 0 <= i < |s'.procs| && 0 <= j < |s'.procs| && InWait(s'.procs[i])
      ensures !Ready(s'.procs[j], i, s'.procs[i].pc.ctx.want)
    {
      if i != p { assert !Ready(s.procs[j], i, s.procs[i].pc.ctx.want); }
    }
  }

  // ---------------------------------------------------------------- steps of the scheduler

  predicate Frame(x: Proc, x': Proc) {
    && x'.pid == x.pid && x'.parent == x.parent && MakeLess(x, x') && WaitLess(x, x')
    && LockPlace(x'.pc) == LockPlace(x.pc) && DozeLess(x, x')
  }

  /** What does not speak of CPUs survives a step that changes CPUs and no more than frames of slots. */
  lemma FramesKeep(s: Sys, s': Sys)
    requires MakeInv(s) && ParentInv(s) && PidInv(s) && WaitInv(s) && SpinInv(s) && LockInv(s)
    requires |s'.procs| == |s.procs| && s'.locks == s.locks && s'.nextpid == s.nextpid
    requires forall i | 0 <= i < |s.procs| :: Frame(s.procs[i], s'.procs[i])
    requires s'.procs[INIT].state in {Running, Runnable, Sleeping} && !s'.procs[INIT].isthread
    ensures MakeInv(s') && ParentInv(s') && PidInv(s') && WaitInv(s') && SpinInv(s') && LockInv(s')
  {
    PidKept(s, s');
    MakeKept(s, s');
    ParentKept(s, s');
    WaitKept(s, s');
    SpinKept(s, s');
    LockKept(s, s');
  }

  lemma SwtchKeeps(s: Sys, c: nat, p: nat)
    requires CpuInv(s) && OnCpuInv(s) && SlotInv(s) && Acts(s, c, p, Swtch)
    ensures CpuInv(ProcDo(s, c, p, Swtch)) && OnCpuInv(ProcDo(s, c, p, Swtch)) && SlotInv(ProcDo(s, c, p, Swtch))
    ensures forall i | 0 <= i < |s.procs| :: Frame(s.procs[i], ProcDo(s, c, p, Swtch).procs[i])
  {
    var s' := ProcDo(s, c, p, Swtch);
    forall d | 0 <= d < |s.cpus| && d != c ensures CpuOk(s', d) { assert CpuOk(s, d); }
    forall i | 0 <= i < |s.procs| && (s'.procs[i].state == Running || !s'.procs[i].pc.At?) ensures OnCpu(s', i) {
      assert OnCpu(s, i);
      var d :| 0 <= d < |s.cpus| && s.cpus[d].Run? && s.cpus[d].p == i;
      assert s'.cpus[d].Run?;
    }
  }

  lemma SchedLockKeeps(s: Sys, c: nat)
    requires CpuInv(s) && OnCpuInv(s) && Enabled(s, Step(c, SchedLock))
    ensures CpuInv(Do(s, Step(c, SchedLock))) && OnCpuInv(Do(s, Step(c, SchedLock)))
  {
    var s' := Do(s, Step(c, SchedLock));
    forall d | 0 <= d < |s.cpus| && d != c ensures CpuOk(s', d) { assert CpuOk(s, d); }
    CpusKept(s, s');
  }

  lemma CpusKept(s: Sys, s': Sys)
    requires OnCpuInv(s) && s'.procs == s.procs && |s'.cpus| == |s.cpus|
    requires forall d | 0 <= d < |s.cpus| && s.cpus[d].Run? :: s'.cpus[d] == s.cpus[d]
    ensures OnCpuInv(s')
  {
    forall i | 0 <= i < |s.procs| && (s'.procs[i].state == Running || !s'.procs[i].pc.At?) ensures OnCpu(s', i) {
      assert OnCpu(s, i);
      var d :| 0 <= d < |s.cpus| && s.cpus[d].Run? && s.cpus[d].p == i;
      assert s'.cpus[d].Run?;
    }
  }

  /** A runnable process is on no CPU while the scheduler of another holds the lock. */
  lemma RunnableIsOff(s: Sys, c: nat, k: nat)
    requires CpuInv(s) && c < |s.cpus| && s.cpus[c].Scan? && k < |s.procs| && s.procs[k].state != Running
    ensures !OnCpu(s, k)
  {
    forall d | 0 <= d < |s.cpus| && s.cpus[d].Run? ensures s.cpus[d].p != k { assert CpuOk(s, c) && CpuOk(s, d); }
  }

  lemma TurnKeeps(s: Sys, c: nat)
    requires CpuInv(s) && OnCpuInv(s) && SlotInv(s) && c < |s.cpus| && s.cpus[c].Scan?
    ensures CpuInv(DoTurn(s, c)) && OnCpuInv(DoTurn(s, c)) && SlotInv(DoTurn(s, c))
    ensures |DoTurn(s, c).procs| == |s.procs|
    ensures forall i | 0 <= i < |s.procs| :: Frame(s.procs[i], DoTurn(s, c).procs[i])
  {
    var s' := DoTurn(s, c);
    var k := s.cpus[c].k;
    assert CpuOk(s, c);
    if k < |s.procs| && s.procs[k].state == Runnable {
      RunnableIsOff(s, c, k);
      assert SlotOk(k, s.procs[k]);
      PickKeeps(s, s', c, k);
    } else {
      forall d | 0 <= d < |s.cpus| && d != c ensures CpuOk(s', d) { assert CpuOk(s, d); }
      CpusKept(s, s');
    }
  }

  lemma PickKeeps(s: Sys, s': Sys, c: nat, k: nat)
    requires CpuInv(s) && OnCpuInv(s) && SlotInv(s) && c < |s.cpus| && s.cpus[c] == Scan(k) && k < |s.procs|
    requires s.procs[k].state == Runnable && !OnCpu(s, k) && s' == DoTurn(s, c)
    ensures CpuInv(s') && OnCpuInv(s') && SlotInv(s')
  {
    assert CpuOk(s, c) && SlotOk(k, s.procs[k]);
    assert s.procs[k].pc.At?;
    forall d | 0 <= d < |s.cpus| && d != c ensures CpuOk(s', d) {
      assert CpuOk(s, d);
      assert !(s.cpus[d].Run? && s.cpus[d].p == k);
    }
    forall i | 0 <= i < |s.procs| && (s'.procs[i].state == Running || !s'.procs[i].pc.At?) ensures OnCpu(s', i) {
      if i == k { assert s'.cpus[c].Run?; }
      else {
        assert OnCpu(s, i);
        var d :| 0 <= d < |s.cpus| && s.cpus[d].Run? && s.cpus[d].p == i;
        assert s'.cpus[d].Run?;
      }
    }
  }

  // ---------------------------------------------------------------- fork and clone

  /** The process at p allocates np. */
  predicate AllocAt(s: Sys, p: nat, np: nat, s': Sys, thread: bool) {
    && p < |s.procs| && np < |s.procs| && s.procs[np].state == Unused && s.procs[p].state == Running
    && s' == s.(nextpid := s.nextpid + 1,
                procs := s.procs[np := s.procs[np].(state := Embryo, pid := s.nextpid,
                    isthread := false)][p := s.procs[p].(pc := Making(np, thread))])
  }

  lemma AllocSlots(s: Sys, p: nat, np: nat, s': Sys, thread: bool)
    requires AllocAt(s, p, np, s', thread) && SlotInv(s) && ParentInv(s) && 0 < s.nextpid
    ensures SlotInv(s') && ParentInv(s')
  {
    assert SlotOk(np, s.procs[np]);
  }

  lemma AllocMake(s: Sys, p: nat, np: nat, s': Sys, thread: bool)
    requires AllocAt(s, p, np, s', thread) && MakeInv(s) && SlotOk(np, s.procs[np])
    ensures MakeInv(s')
  {}

  lemma AllocPid(s: Sys, p: nat, np: nat, s': Sys, thread: bool)
    requires AllocAt(s, p, np, s', thread) && PidInv(s)
    ensures PidInv(s')
  {}

  lemma AllocWait(s: Sys, p: nat, np: nat, s': Sys, thread: bool)
    requires AllocAt(s, p, np, s', thread) && WaitInv(s)
    ensures WaitInv(s')
  {
    WaitKept(s, s');
  }

  lemma AllocKeeps(s: Sys, c: nat, p: nat, thread: bool)
    requires Inv(s) && Acts(s, c, p, Alloc(thread))
    ensures Inv(ProcDo(s, c, p, Alloc(thread)))
  {
    var s' := ProcDo(s, c, p, Alloc(thread));
    match FirstUnused(s.procs, 0)
    case None =>
      AllocNone(s, c, p, thread);
      OwnKeeps(s, s', c, p);
    case Some(np) =>
      AllocBeside(s, c, p, thread, np);
      AllocSlots(s, p, np, s', thread);
      AllocMake(s, p, np, s', thread);
      AllocPid(s, p, np, s', thread);
      AllocWait(s, p, np, s', thread);
      ProcStepKeeps(s, s', c, p);
  }

  lemma AllocNone(s: Sys, c: nat, p: nat, thread: bool)
    requires Acts(s, c, p, Alloc(thread)) && FirstUnused(s.procs, 0).None?
    ensures OwnStep(s, ProcDo(s, c, p, Alloc(thread)), c, p)
    ensures WaitLess(s.procs[p], ProcDo(s, c, p, Alloc(thread)).procs[p])
  {}

  lemma AllocBeside(s: Sys, c: nat, p: nat, thread: bool, np: nat)
    requires Acts(s, c, p, Alloc(thread)) && FirstUnused(s.procs, 0) == Some(np) && SlotOk(np, s.procs[np])
    ensures var s' := ProcDo(s, c, p, Alloc(thread));
      AllocAt(s, p, np, s', thread) && Beside(s, s', p) && CpuOk(s', c) && s'.cpus == s.cpus && s'.locks == s.locks
        && s'.lock == s.lock
  {}

  /** Slot q becomes y and then slot p becomes x. */
  predicate TwoSlots(s: Sys, s': Sys, p: nat, x: Proc, q: nat, y: Proc) {
    p < |s.procs| && q < |s.procs| && p != q && s'.procs == s.procs[q := y][p := x]
  }

  lemma TwoBeside(s: Sys, s': Sys, p: nat, x: Proc, q: nat, y: Proc)
    requires TwoSlots(s, s', p, x, q, y) && CpuSame(s.procs[q], y)
    requires LockPlace(y.pc) == LockPlace(s.procs[q].pc) && DozeLess(s.procs[q], y)
    requires LockPlace(x.pc) == LockPlace(s.procs[p].pc) && DozeLess(s.procs[p], x)
    ensures Beside(s, s', p)
  {}

  lemma TwoSlotInv(s: Sys, s': Sys, p: nat, x: Proc, q: nat, y: Proc)
    requires TwoSlots(s, s', p, x, q, y) && SlotInv(s) && SlotOk(p, x) && SlotOk(q, y)
    ensures SlotInv(s')
  {}

  lemma TwoParentInv(s: Sys, s': Sys, p: nat, x: Proc, q: nat, y: Proc)
    requires TwoSlots(s, s', p, x, q, y) && ParentInv(s) && q != INIT && y.parent != Some(q)
    requires x.parent == s.procs[p].parent && x.state == s.procs[p].state && x.isthread == s.procs[p].isthread
    ensures ParentInv(s')
  {}

  lemma TwoWaitInv(s: Sys, s': Sys, p: nat, x: Proc, q: nat, y: Proc)
    requires TwoSlots(s, s', p, x, q, y) && WaitInv(s) && WaitLess(s.procs[p], x) && WaitLess(s.procs[q], y)
    ensures WaitInv(s')
  {
    WaitKept(s, s');
  }

  /** Process p gives up the embryo q it was making, or has made it a process. */
  lemma TwoMakeInv(s: Sys, s': Sys, p: nat, x: Proc, q: nat, y: Proc)
    requires TwoSlots(s, s', p, x, q, y) && MakeInv(s) && !x.pc.Making? && !y.pc.Making?
    requires x.state == s.procs[p].state != Embryo
    requires s.procs[q].state == Embryo ==> s.procs[p].pc.Making? && s.procs[p].pc.np == q
    ensures MakeInv(s')
  {
    forall i | 0 <= i < |s.procs| && s'.procs[i].pc.Making? ensures s'.procs[s'.procs[i].pc.np].state == Embryo {
      assert s.procs[i].pc == s'.procs[i].pc;
    }
  }

  function Child(s: Sys, p: nat, np: nat, thread: bool): Proc
    requires p < |s.procs| && np < |s.procs|
  {
    s.procs[np].(parent := Some(p), isthread := thread, pgdir := if thread then s.procs[p].pgdir else s.nextdir,
        pc := At(Fresh), state := Runnable)
  }

  /** Abandon and Publish: y is what becomes of the embryo. */
  lemma MadeKeeps(s: Sys, s': Sys, c: nat, p: nat, x: Proc, q: nat, y: Proc)
    requires Inv(s) && InProc(s, c) && p == s.cpus[c].p && s'.cpus == s.cpus && s'.locks == s.locks && s'.lock == s.lock
    requires s'.nextpid == s.nextpid
    requires TwoSlots(s, s', p, x, q, y) && s.procs[p].pc.Making? && s.procs[p].pc.np == q
    requires x == s.procs[p].(pc := User, ret := x.ret) && y.pid == s.procs[q].pid && y.state in {Unused, Runnable}
    requires y.parent != Some(q) && y.pc.At? && SlotOk(q, y) && y.chan == s.procs[q].chan
    ensures Inv(s')
  {
    assert s.procs[q].state == Embryo && SlotOk(q, s.procs[q]) && SlotOk(p, s.procs[p]) && CpuOk(s, c);
    TwoBeside(s, s', p, x, q, y);
    TwoSlotInv(s, s', p, x, q, y);
    TwoParentInv(s, s', p, x, q, y);
    TwoWaitInv(s, s', p, x, q, y);
    TwoMakeInv(s, s', p, x, q, y);
    PidKept(s, s');
    ProcStepKeeps(s, s', c, p);
  }

  lemma AbandonKeeps(s: Sys, c: nat, p: nat)
    requires Inv(s) && Acts(s, c, p, Abandon)
    ensures Inv(ProcDo(s, c, p, Abandon))
  {
    var np := s.procs[p].pc.np;
    assert s.procs[np].state == Embryo && SlotOk(np, s.procs[np]);
    MadeKeeps(s, ProcDo(s, c, p, Abandon), c, p, s.procs[p].(pc := User, ret := -1), np, s.procs[np].(state := Unused));
  }

  lemma PublishKeeps(s: Sys, c: nat, p: nat)
    requires Inv(s) && Acts(s, c, p, Publish)
    ensures Inv(ProcDo(s, c, p, Publish))
  {
    var np, thread := s.procs[p].pc.np, s.procs[p].pc.thread;
    assert s.procs[np].state == Embryo && SlotOk(np, s.procs[np]);
    MadeKeeps(s, ProcDo(s, c, p, Publish), c, p, s.procs[p].(pc := User, ret := s.procs[np].pid), np,
        Child(s, p, np, thread));
  }

  // ---------------------------------------------------------------- reaping

  /** A zombie that someone else can reap has been switched away from. */
  lemma ZombieIsOff(s: Sys, c: nat, p: nat, q: nat)
    requires CpuInv(s) && OnCpuInv(s) && SlotInv(s) && InProc(s, c) && p == s.cpus[c].p && s.lock == Some(c) && q != p
    requires q < |s.procs| && s.procs[q].state == Zombie
    ensures s.procs[q].pc == At(Gone) && !OnCpu(s, q)
  {
    assert SlotOk(q, s.procs[q]);
    forall d | 0 <= d < |s.cpus| && s.cpus[d].Run? ensures s.cpus[d].p != q { assert CpuOk(s, d); }
  }

  lemma ReapKeeps(s: Sys, c: nat, p: nat, q: nat)
    requires Inv(s) && Acts(s, c, p, Look) && FirstReady(s.procs, p, s.procs[p].pc.want, 0) == Some(q)
    ensures Inv(ProcDo(s, c, p, Look))
  {
    var s' := ProcDo(s, c, p, Look);
    var x := s.procs[p].(pc := User, ret := s.procs[q].pid);
    var y := Reaped(s.procs[q], s.procs[p].pc.want);
    ReapFacts(s, c, p, q, x, y);
    ZombieIsOff(s, c, p, q);
    TwoBeside(s, s', p, x, q, y);
    TwoSlotInv(s, s', p, x, q, y);
    TwoParentInv(s, s', p, x, q, y);
    TwoWaitInv(s, s', p, x, q, y);
    TwoMakeInv(s, s', p, x, q, y);
    ProcStepKeeps(s, s', c, p);
  }

  lemma ReapFacts(s: Sys, c: nat, p: nat, q: nat, x: Proc, y: Proc)
    requires Acts(s, c, p, Look) && FirstReady(s.procs, p, s.procs[p].pc.want, 0) == Some(q) && PidInv(s)
    requires ParentInv(s)
    requires x == s.procs[p].(pc := User, ret := s.procs[q].pid) && y == Reaped(s.procs[q], s.procs[p].pc.want)
    ensures var s' := ProcDo(s, c, p, Look);
      && TwoSlots(s, s', p, x, q, y) && CpuOk(s', c) && s.lock == Some(c) && s'.lock == None
      && s'.cpus == s.cpus && s'.locks == s.locks && PidInv(s') && q != INIT
  {}

  // ---------------------------------------------------------------- exit and thread_exit

  /** What exit does to a slot that is not its own: it may be woken and handed to init. */
  predicate ExitSeen(x: Proc, x': Proc, cur: nat) {
    && x' == x.(state := x'.state, parent := x'.parent)
    && (x'.state == x.state || (x.state == Sleeping && x'.state == Runnable))
    && (x'.parent == x.parent || (x.parent == Some(cur) && x'.parent == Some(INIT)))
  }

  /** The table after exit or thread_exit of cur up to sched. */
  predicate Exited(procs: Table, procs': Table, cur: nat) {
    && |procs'| == |procs| && cur < |procs|
    && procs'[cur] == procs[cur].(state := Zombie, pc := ToSched(Gone))
    && (forall i | 0 <= i < |procs| && i != cur :: ExitSeen(procs[i], procs'[i], cur))
    // the parent is awake, and so is init if it was handed a zombie
    && (forall i | 0 <= i < |procs| && procs[cur].parent == Some(i) && i != cur ::
          !(procs'[i].state == Sleeping && procs'[i].chan == ProcChan(i)))
    && (forall i, j | 0 <= i < |procs| && i != cur && 0 <= j < |procs| && j != cur && procs[j].state == Zombie
                  && procs'[j].parent != procs[j].parent
          && procs'[j].parent == Some(i) :: !(procs'[i].state == Sleeping && procs'[i].chan == ProcChan(i)))
  }

  lemma ExitIs(procs: Table, cur: nat)
    requires cur < |procs| && procs[cur].state == Running && procs[cur].parent != Some(cur) && cur != INIT
    ensures Exited(procs, ExitTable(procs, cur, INIT), cur)
  {
    var woken := WakeAll(procs, ParentChan(procs[cur]));
    var handed := Reparent(woken, cur, INIT);
    var r := ExitTable(procs, cur, INIT);
    forall i, j | 0 <= i < |procs| && i != cur && 0 <= j < |procs| && j != cur && procs[j].state == Zombie
      && r[j].parent != procs[j].parent && r[j].parent == Some(i)
      ensures !(r[i].state == Sleeping && r[i].chan == ProcChan(i))
    {
      assert woken[j].parent == Some(cur) && woken[j].state == Zombie;
      assert HasZombie(woken, cur);
    }
  }

  lemma ThreadExitIs(procs: Table, cur: nat)
    requires cur < |procs| && procs[cur].state == Running
    ensures Exited(procs, ThreadExitTable(procs, cur), cur)
  {}

  /** No wakeup is lost when a process exits, nor when it hands zombies to init. */
  lemma ExitWait(s: Sys, s': Sys, cur: nat)
    requires WaitInv(s) && SlotInv(s) && Exited(s.procs, s'.procs, cur) && s.procs[cur].parent != Some(cur)
    ensures WaitInv(s')
  {
    forall p, q | 0 <= p < |s'.procs| && 0 <= q < |s'.procs| && InWait(s'.procs[p])
      ensures !Ready(s'.procs[q], p, s'.procs[p].pc.ctx.want)
    {
      assert p != cur && ExitSeen(s.procs[p], s'.procs[p], cur) && SlotOk(p, s.procs[p]);
      assert !Ready(s.procs[q], p, s.procs[p].pc.ctx.want);
      if q != cur { assert ExitSeen(s.procs[q], s'.procs[q], cur); }
    }
  }

  lemma ExitFrames(s: Sys, s': Sys, p: nat)
    requires Exited(s.procs, s'.procs, p) && LockPlace(s.procs[p].pc) == User
    ensures Beside(s, s', p)
    ensures forall i | 0 <= i < |s.procs| :: s'.procs[i].pid == s.procs[i].pid
  {
    forall i | 0 <= i < |s.procs| && i != p
      ensures CpuSame(s.procs[i], s'.procs[i]) && LockPlace(s'.procs[i].pc) == LockPlace(s.procs[i].pc)
      ensures DozeLess(s.procs[i], s'.procs[i])
    {
      assert ExitSeen(s.procs[i], s'.procs[i], p);
    }
  }

  lemma ExitSlots(s: Sys, s': Sys, p: nat)
    requires Exited(s.procs, s'.procs, p) && SlotInv(s) && MakeInv(s) && ParentInv(s) && p != INIT
    requires s.procs[p].state == Running
    ensures SlotInv(s') && MakeInv(s') && ParentInv(s')
  {
    forall i | 0 <= i < |s.procs| && i != p
      ensures SlotOk(i, s'.procs[i]) && MakeLess(s.procs[i], s'.procs[i]) && s'.procs[i].parent != Some(i)
    {
      assert ExitSeen(s.procs[i], s'.procs[i], p) && SlotOk(i, s.procs[i]);
    }
    assert ExitSeen(s.procs[INIT], s'.procs[INIT], p);
    MakeKept(s, s');
  }

  lemma ExitKeeps(s: Sys, c: nat, p: nat, s': Sys)
    requires Inv(s) && InProc(s, c) && p == s.cpus[c].p && p != INIT && s.procs[p].pc == User && s.lock.None?
    requires Exited(s.procs, s'.procs, p) && s' == s.(lock := Some(c), procs := s'.procs)
    ensures Inv(s')
  {
    assert CpuOk(s, c);
    ExitFrames(s, s', p);
    ExitSlots(s, s', p);
    ExitWait(s, s', p);
    PidKept(s, s');
    ProcStepKeeps(s, s', c, p);
  }

  // ---------------------------------------------------------------- sleep locks

  /** Process p, running on CPU c, changes its place, chan and state, and lock lk becomes l; others are only woken. */
  predicate LockStep(s: Sys, s': Sys, c: nat, p: nat, lk: nat, l: SleepLock) {
    && InProc(s, c) && p == s.cpus[c].p && lk < |s.locks| && |s'.procs| == |s.procs|
    && s'.cpus == s.cpus && s'.locks == s.locks[lk := l] && s'.nextpid == s.nextpid && LockMove(s, s', c)
    && (forall i | 0 <= i < |s.procs| && i != p :: Calm(s.procs[i], s'.procs[i]))
    && s'.procs[p] == s.procs[p].(pc := s'.procs[p].pc, chan := s'.procs[p].chan, state := s'.procs[p].state)
    && !s.procs[p].pc.Making? && !s'.procs[p].pc.Making? && s.procs[p].state == Running
    && SlotOk(p, s'.procs[p]) && CpuOk(s', c) && s'.procs[p].state in {Running, Sleeping} && !InWait(s'.procs[p])
    && (s.locks[lk].spin.None? || s.locks[lk].spin == Some(p)) && (l.spin.None? || l.spin == Some(p))
    && OnLock(s.procs[p].pc, lk) && OnLock(s'.procs[p].pc, lk) && (HoldsSpin(s'.procs[p].pc, lk) <==> l.spin == Some(p))
  }

  /** pc has to do with no sleep lock but lk. */
  predicate OnLock(pc: Place, lk: nat) {
    match pc
    case Testing(l) => l == lk
    case WantTable(l) => l == lk
    case Both(l) => l == lk
    case Going(l) => l == lk
    case Freeing(l) => l == lk
    case _ => true
  }

  lemma LockStepSpin(s: Sys, s': Sys, c: nat, p: nat, lk: nat, l: SleepLock)
    requires LockStep(s, s', c, p, lk, l) && SpinInv(s)
    ensures SpinInv(s')
  {
    forall i, m | 0 <= i < |s.procs| && 0 <= m < |s.locks|
      ensures HoldsSpin(s'.procs[i].pc, m) <==> s'.locks[m].spin == Some(i)
    {
      assert HoldsSpin(s.procs[i].pc, m) <==> s.locks[m].spin == Some(i);
      if i != p { assert Calm(s.procs[i], s'.procs[i]); }
    }
  }

  /** Whoever sleeps on lk, or is about to, has its wakeup still to come. */
  predicate LockFair(s: Sys, lk: nat)
    requires lk < |s.locks|
  {
    && (forall i | 0 <= i < |s.procs| && Dozing(s.procs[i], lk) :: s.locks[lk].locked || Pending(s, lk))
    && (forall i | 0 <= i < |s.procs| && (s.procs[i].pc == WantTable(lk) || s.procs[i].pc == Both(lk)) ::
          s.locks[lk].locked)
  }

  lemma LockStepLock(s: Sys, s': Sys, c: nat, p: nat, lk: nat, l: SleepLock)
    requires LockStep(s, s', c, p, lk, l) && SpinInv(s) && LockInv(s) && LockFair(s', lk)
    requires s'.procs[p].state == Sleeping ==> s'.procs[p].chan == LockChan(lk)
    ensures LockInv(s')
  {
    forall i, m | 0 <= i < |s.procs| && 0 <= m < |s.locks| && Dozing(s'.procs[i], m)
      ensures s'.locks[m].locked || Pending(s', m)
    {
      if m != lk {
        OtherLock(s, s', c, p, lk, l, i, m);
      }
    }
    forall i, m | 0 <= i < |s.procs| && 0 <= m < |s.locks|
      && (s'.procs[i].pc == WantTable(m) || s'.procs[i].pc == Both(m))
      ensures s'.locks[m].locked
    {
      if m != lk {
        assert i != p && Calm(s.procs[i], s'.procs[i]);
        assert s.locks[m].locked;
      }
    }
  }

  lemma OtherLock(s: Sys, s': Sys, c: nat, p: nat, lk: nat, l: SleepLock, i: nat, m: nat)
    requires LockStep(s, s', c, p, lk, l) && SpinInv(s) && LockInv(s) && i < |s.procs| && m < |s.locks| && m != lk
    requires Dozing(s'.procs[i], m)
    requires s'.procs[p].state == Sleeping ==> s'.procs[p].chan == LockChan(lk)
    ensures s'.locks[m].locked || Pending(s', m)
  {
    assert i != p && Calm(s.procs[i], s'.procs[i]);
    assert Dozing(s.procs[i], m);
    if !s.locks[m].locked {
      var h := s.locks[m].spin.value;
      assert HoldsSpin(s.procs[h].pc, m);
      assert h != p && Calm(s.procs[h], s'.procs[h]);
    }
  }

  lemma LockStepFrames(s: Sys, s': Sys, c: nat, p: nat, lk: nat, l: SleepLock)
    requires LockStep(s, s', c, p, lk, l)
    ensures forall i | 0 <= i < |s.procs| && i != p :: CpuSame(s.procs[i], s'.procs[i])
    ensures forall i | 0 <= i < |s.procs| ::
      && s'.procs[i].pid == s.procs[i].pid && s'.procs[i].parent == s.procs[i].parent
      && s'.procs[i].isthread == s.procs[i].isthread
    ensures forall i | 0 <= i < |s.procs| :: MakeLess(s.procs[i], s'.procs[i]) && WaitLess(s.procs[i], s'.procs[i])
  {
    forall i | 0 <= i < |s.procs| && i != p
      ensures CpuSame(s.procs[i], s'.procs[i]) && MakeLess(s.procs[i], s'.procs[i]) && WaitLess(s.procs[i], s'.procs[i])
      ensures s'.procs[i].pid == s.procs[i].pid && s'.procs[i].parent == s.procs[i].parent
      ensures s'.procs[i].isthread == s.procs[i].isthread
    {
      assert Calm(s.procs[i], s'.procs[i]);
    }
  }

  lemma LockStepKeeps(s: Sys, s': Sys, c: nat, p: nat, lk: nat, l: SleepLock)
    requires Inv(s) && LockStep(s, s', c, p, lk, l) && LockFair(s', lk)
    requires s'.procs[p].state == Sleeping ==> s'.procs[p].chan == LockChan(lk)
    ensures Inv(s')
  {
    LockStepSpin(s, s', c, p, lk, l);
    LockStepLock(s, s', c, p, lk, l);
    LockStepFrames(s, s', c, p, lk, l);
    PidKept(s, s');
    MakeKept(s, s');
    assert INIT == p || Calm(s.procs[INIT], s'.procs[INIT]);
    ParentKept(s, s');
    WaitKept(s, s');
    SlotsKept(s, s', p);
    CpuKept(s, s', c);
  }

  /** Acquire and Retake. */
  lemma TakeSpinKeeps(s: Sys, c: nat, p: nat, a: Act, lk: nat)
    requires Inv(s) && Acts(s, c, p, a) && ((a.Acquire? && lk == a.lk) || (a.Retake? && lk == s.procs[p].pc.lk))
    ensures Inv(ProcDo(s, c, p, a))
  {
    var s' := ProcDo(s, c, p, a);
    var l := s.locks[lk].(spin := Some(p));
    TakeSpinStep(s, c, p, a, lk);
    TakeSpinFair(s, s', p, lk);
    LockStepKeeps(s, s', c, p, lk, l);
  }

  lemma TakeSpinStep(s: Sys, c: nat, p: nat, a: Act, lk: nat)
    requires Acts(s, c, p, a) && ((a.Acquire? && lk == a.lk) || (a.Retake? && lk == s.procs[p].pc.lk))
    ensures var s' := ProcDo(s, c, p, a);
      LockStep(s, s', c, p, lk, s.locks[lk].(spin := Some(p)))
        && s'.procs == s.procs[p := s.procs[p].(pc := Testing(lk))]
      && s.locks[lk].spin.None?
  {}

  lemma TakeSpinFair(s: Sys, s': Sys, p: nat, lk: nat)
    requires SpinInv(s) && LockInv(s) && p < |s.procs| && lk < |s.locks| && s.locks[lk].spin.None?
    requires s.procs[p].state == Running
    requires s'.procs == s.procs[p := s.procs[p].(pc := Testing(lk))]
    requires s'.locks == s.locks[lk := s.locks[lk].(spin := Some(p))]
    ensures LockFair(s', lk)
  {
    forall i | 0 <= i < |s.procs| && Dozing(s'.procs[i], lk)
      ensures s'.locks[lk].locked
    {
      assert Dozing(s.procs[i], lk);
    }
    forall i | 0 <= i < |s.procs| && (s'.procs[i].pc == WantTable(lk) || s'.procs[i].pc == Both(lk))
      ensures s'.locks[lk].locked
    {
      assert s.procs[i].pc == s'.procs[i].pc;
    }
  }

  /** Test, TakeTable and DropSpin: the holder of the spinlock moves on, and lk is locked afterwards. */
  lemma HolderKeeps(s: Sys, c: nat, p: nat, a: Act)
    requires Inv(s) && Acts(s, c, p, a) && (a.Test? || a.TakeTable? || a.DropSpin?) && s.procs[p].pc.lk < |s.locks|
    ensures Inv(ProcDo(s, c, p, a))
  {
    var s' := ProcDo(s, c, p, a);
    var lk := s.procs[p].pc.lk;
    assert HoldsSpin(s.procs[p].pc, lk);
    HolderStep(s, c, p, a, lk);
    assert s'.locks[lk].locked;
    LockStepKeeps(s, s', c, p, lk, s'.locks[lk]);
  }

  lemma HolderStep(s: Sys, c: nat, p: nat, a: Act, lk: nat)
    requires Acts(s, c, p, a) && (a.Test? || a.TakeTable? || a.DropSpin?) && s.procs[p].pc.lk == lk < |s.locks|
    requires s.locks[lk].spin == Some(p)
    ensures var s' := ProcDo(s, c, p, a);
      |s'.locks| == |s.locks| && LockStep(s, s', c, p, lk, s'.locks[lk]) && (a.Test? ==> s'.locks[lk].locked)
        && (!a.Test? ==> s'.locks[lk].locked == s.locks[lk].locked)
      && s'.procs[p].state == Running
  {}

  lemma ReleaseKeeps(s: Sys, c: nat, p: nat, lk: nat)
    requires Inv(s) && Acts(s, c, p, Release(lk))
    ensures Inv(ProcDo(s, c, p, Release(lk)))
  {
    var s' := ProcDo(s, c, p, Release(lk));
    ReleaseStep(s, c, p, lk);
    assert Pending(s', lk);
    forall i | 0 <= i < |s'.procs| ensures s'.procs[i].pc != WantTable(lk) && s'.procs[i].pc != Both(lk) {
      assert !HoldsSpin(s.procs[i].pc, lk);
    }
    LockStepKeeps(s, s', c, p, lk, SleepLock(Some(p), false, 0));
  }

  lemma ReleaseStep(s: Sys, c: nat, p: nat, lk: nat)
    requires Acts(s, c, p, Release(lk))
    ensures var s' := ProcDo(s, c, p, Release(lk));
      LockStep(s, s', c, p, lk, SleepLock(Some(p), false, 0))
        && s'.procs == s.procs[p := s.procs[p].(pc := Freeing(lk))]
  {}

  lemma WakeStep(s: Sys, c: nat, p: nat, lk: nat)
    requires Acts(s, c, p, Wake) && lk == s.procs[p].pc.lk && s.locks[lk].spin == Some(p)
    ensures var s' := ProcDo(s, c, p, Wake);
      |s'.locks| == |s.locks| && LockStep(s, s', c, p, lk, s'.locks[lk]) && s'.procs[p].state == Running
    ensures var s' := ProcDo(s, c, p, Wake);
      forall i | 0 <= i < |s.procs| && i != p :: s'.procs[i] == Woken(s.procs[i], LockChan(lk))
  {}

  /** The wakeup of releasesleep misses nobody: whoever is about to sleep holds ptable.lock. */
  lemma WakeFair(s: Sys, c: nat, p: nat, lk: nat)
    requires CpuInv(s) && OnCpuInv(s) && SpinInv(s) && Acts(s, c, p, Wake) && lk == s.procs[p].pc.lk
    ensures LockFair(ProcDo(s, c, p, Wake), lk)
  {
    var s' := ProcDo(s, c, p, Wake);
    assert HoldsSpin(s.procs[p].pc, lk);
    WakeStep(s, c, p, lk);
    forall i | 0 <= i < |s.procs|
      ensures !Dozing(s'.procs[i], lk) && s'.procs[i].pc != WantTable(lk) && s'.procs[i].pc != Both(lk)
    {
      if i != p {
        assert s'.procs[i] == Woken(s.procs[i], LockChan(lk));
        assert !HoldsSpin(s.procs[i].pc, lk);
        GoingHoldsTable(s, i);
      }
    }
  }

  lemma GoingHoldsTable(s: Sys, i: nat)
    requires CpuInv(s) && OnCpuInv(s) && i < |s.procs|
    ensures s.procs[i].pc.Going? ==> s.lock.Some?
  {
    if s.procs[i].pc.Going? {
      assert OnCpu(s, i);
      var d :| 0 <= d < |s.cpus| && s.cpus[d].Run? && s.cpus[d].p == i;
      assert CpuOk(s, d);
    }
  }

  lemma WakeKeeps(s: Sys, c: nat, p: nat)
    requires Inv(s) && Acts(s, c, p, Wake)
    ensures Inv(ProcDo(s, c, p, Wake))
  {
    var s' := ProcDo(s, c, p, Wake);
    var lk := s.procs[p].pc.lk;
    assert HoldsSpin(s.procs[p].pc, lk);
    WakeStep(s, c, p, lk);
    WakeFair(s, c, p, lk);
    LockStepKeeps(s, s', c, p, lk, s'.locks[lk]);
  }

  // ---------------------------------------------------------------- all steps

  lemma SwtchInv(s: Sys, c: nat, p: nat)
    requires Inv(s) && Acts(s, c, p, Swtch)
    ensures Inv(ProcDo(s, c, p, Swtch))
  {
    SwtchKeeps(s, c, p);
    FramesKeep(s, ProcDo(s, c, p, Swtch));
  }

  lemma ResumeInv(s: Sys, c: nat, p: nat)
    requires Inv(s) && Acts(s, c, p, Resume)
    ensures Inv(ProcDo(s, c, p, Resume))
  {
    ResumeActs(s, c, p);
    OwnKeeps(s, ProcDo(s, c, p, Resume), c, p);
  }

  lemma KillInv(s: Sys, c: nat, p: nat, pid: int)
    requires Inv(s) && Acts(s, c, p, Kill(pid))
    ensures Inv(ProcDo(s, c, p, Kill(pid)))
  {
    KillActs(s, c, p, pid);
    OwnKeeps(s, ProcDo(s, c, p, Kill(pid)), c, p);
  }

  lemma OwnInv(s: Sys, c: nat, p: nat, a: Act)
    requires Inv(s) && Acts(s, c, p, a) && (a.Yield? || a.Exec? || a.Wait? || a.Sleep?)
    ensures Inv(ProcDo(s, c, p, a))
  {
    OwnActs(s, c, p, a);
    OwnKeeps(s, ProcDo(s, c, p, a), c, p);
  }

  lemma ExitInv(s: Sys, c: nat, p: nat, a: Act)
    requires Inv(s) && Acts(s, c, p, a) && (a.Exit? || a.ThreadExit?)
    ensures Inv(ProcDo(s, c, p, a))
  {
    if a.Exit? { ExitIs(s.procs, p); } else { ThreadExitIs(s.procs, p); }
    ExitKeeps(s, c, p, ProcDo(s, c, p, a));
  }

  lemma LookInv(s: Sys, c: nat, p: nat)
    requires Inv(s) && Acts(s, c, p, Look)
    ensures Inv(ProcDo(s, c, p, Look))
  {
    match FirstReady(s.procs, p, s.procs[p].pc.want, 0)
    case Some(q) => ReapKeeps(s, c, p, q);
    case None =>
      LookNoneActs(s, c, p);
      LookNoneWait(s, c, p);
      OwnKeeps(s, ProcDo(s, c, p, Look), c, p);
  }

  lemma ProcStepInv(s: Sys, c: nat, p: nat, a: Act)
    requires Inv(s) && Acts(s, c, p, a)
    ensures Inv(ProcDo(s, c, p, a))
  {
    match a
    case Swtch => SwtchInv(s, c, p);
    case Resume => ResumeInv(s, c, p);
    case Kill(pid) => KillInv(s, c, p, pid);
    case Alloc(thread) => AllocKeeps(s, c, p, thread);
    case Abandon => AbandonKeeps(s, c, p);
    case Publish => PublishKeeps(s, c, p);
    case Exit => ExitInv(s, c, p, a);
    case ThreadExit => ExitInv(s, c, p, a);
    case Look => LookInv(s, c, p);
    case Acquire(lk) => TakeSpinKeeps(s, c, p, a, lk);
    case Retake => TakeSpinKeeps(s, c, p, a, s.procs[p].pc.lk);
    case Test => HolderKeeps(s, c, p, a);
    case TakeTable => HolderKeeps(s, c, p, a);
    case DropSpin => HolderKeeps(s, c, p, a);
    case Release(lk) => ReleaseKeeps(s, c, p, lk);
    case Wake => WakeKeeps(s, c, p);
    case _ => OwnInv(s, c, p, a);
  }

  lemma SchedInv(s: Sys, t: Step)
    requires Inv(s) && Enabled(s, t) && (t.act.SchedLock? || t.act.SchedTurn?)
    ensures Inv(Do(s, t))
  {
    if t.act.SchedLock? { SchedLockKeeps(s, t.cpu); } else { TurnKeeps(s, t.cpu); }
    FramesKeep(s, Do(s, t));
  }

  lemma ActorActs(s: Sys, t: Step)
    requires Inv(s) && Enabled(s, t) && !t.act.SchedLock? && !t.act.SchedTurn?
    ensures t.cpu < |s.cpus| && s.cpus[t.cpu].Run? && Acts(s, t.cpu, s.cpus[t.cpu].p, t.act)
  {
    assert CpuOk(s, t.cpu) && SlotOk(s.cpus[t.cpu].p, s.procs[s.cpus[t.cpu].p]);
  }

  lemma StepInv(s: Sys, t: Step)
    requires Inv(s) && Enabled(s, t)
    ensures Inv(Do(s, t))
  {
    if t.act.SchedLock? || t.act.SchedTurn? {
      SchedInv(s, t);
    } else {
      ActorActs(s, t);
      ProcStepInv(s, t.cpu, s.cpus[t.cpu].p, t.act);
    }
  }
}

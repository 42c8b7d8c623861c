/** Programs that join their threads, as the thread documentation asks, never have a directory freed too early. */
module AddressSpaces {
  import opened Common
  import opened ProcTable
  import opened Runs
  import opened Scheduling
  import opened SchedulingSteps
  import opened SchedulingRuns
  import opened Directories

  /** In wait. */
  predicate WaitsAny(x: Proc) {
    x.pc == Looking(AnyChild) || ((x.pc.At? || x.pc.ToSched?) && x.pc.ctx == WaitBack(AnyChild))
  }

  /** Process p has no thread it has yet to join. */
  predicate NoThreads(s: Sys, p: nat) {
    forall i | 0 <= i < |s.procs| && Live(s.procs[i]) && s.procs[i].isthread :: s.procs[i].parent != Some(p)
  }

  /** Threads make no children and do not exec, and a process joins its threads before it waits, exits or execs. */
  predicate Disciplined(s: Sys, t: Step)
    requires Enabled(s, t)
  {
    match t.act
    case Alloc(_) => !s.procs[s.cpus[t.cpu].p].isthread
    case Exec => !s.procs[s.cpus[t.cpu].p].isthread && NoThreads(s, s.cpus[t.cpu].p)
    case Exit => NoThreads(s, s.cpus[t.cpu].p)
    case Wait(want) => want == AnyChild ==> NoThreads(s, s.cpus[t.cpu].p)
    case _ => true
  }

  function DNext(s: Sys, t: Step): Option<Sys> { if Enabled(s, t) && Disciplined(s, t) then Some(Do(s, t)) else None }

  // ---------------------------------------------------------------- invariant

  /** A thread's creator is a process that has not exited, and they share a directory. */
  predicate ThreadOk(procs: Table, i: nat)
    requires i < |procs|
  {
    var x := procs[i];
    Live(x) && x.isthread ==>
      x.parent.Some? && x.parent.value < |procs|
      && var m := procs[x.parent.value]; Live(m) && m.state != Zombie && !m.isthread && m.pgdir == x.pgdir
  }

  predicate Threads(s: Sys) { forall i: nat | i < |s.procs| :: ThreadOk(s.procs, i) }

  predicate Calls(s: Sys) {
    && (forall p: nat | p < |s.procs| && WaitsAny(s.procs[p]) :: NoThreads(s, p))
    && (forall p | 0 <= p < |s.procs| && s.procs[p].pc.Making? :: !s.procs[p].isthread)
  }

  predicate AddrInv(s: Sys) { Threads(s) && Calls(s) }

  // ---------------------------------------------------------------- steps that change nothing here

  predicate AddrSame(x: Proc, x': Proc) {
    && Kept(x, x') && (Live(x) ==> x'.parent == x.parent && (x'.state == Zombie <==> x.state == Zombie))
    && (WaitsAny(x') ==> WaitsAny(x)) && (x'.pc.Making? ==> x.pc.Making?) && x'.isthread == x.isthread
  }

  predicate AllSame(s: Sys, s': Sys) {
    |s'.procs| == |s.procs| && forall i | 0 <= i < |s.procs| :: AddrSame(s.procs[i], s'.procs[i])
  }

  lemma AllSameKeeps(s: Sys, s': Sys)
    requires AddrInv(s) && AllSame(s, s')
    ensures AddrInv(s')
  {
    SameThreads(s, s');
    SameCalls(s, s');
  }

  lemma SameThreads(s: Sys, s': Sys)
    requires Threads(s) && AllSame(s, s')
    ensures Threads(s')
  {
    forall i: nat | i < |s.procs| ensures ThreadOk(s'.procs, i) {
      assert ThreadOk(s.procs, i) && AddrSame(s.procs[i], s'.procs[i]);
    }
  }

  lemma SameCalls(s: Sys, s': Sys)
    requires Calls(s) && AllSame(s, s')
    ensures Calls(s')
  {
    forall p: nat | p < |s'.procs| && WaitsAny(s'.procs[p]) ensures NoThreads(s', p) {
      assert AddrSame(s.procs[p], s'.procs[p]);
      assert NoThreads(s, p);
      forall i | 0 <= i < |s'.procs| && Live(s'.procs[i]) && s'.procs[i].isthread
        ensures s'.procs[i].parent != Some(p)
      {
        assert AddrSame(s.procs[i], s'.procs[i]);
      }
    }
    forall p | 0 <= p < |s'.procs| && s'.procs[p].pc.Making?
      ensures !s'.procs[p].isthread
    {
      assert AddrSame(s.procs[p], s'.procs[p]);
    }
  }

  lemma SchedSame(s: Sys, t: Step)
    requires Enabled(s, t) && (t.act.SchedLock? || t.act.SchedTurn?)
    ensures AllSame(s, Do(s, t))
  {}

  lemma OwnSame(s: Sys, c: nat, p: nat, a: Act)
    requires Acts(s, c, p, a) && (a.Swtch? || a.Resume? || a.Yield? || a.Sleep?)
    ensures AllSame(s, ProcDo(s, c, p, a))
  {
    assert CpuOk(s, c);
  }

  lemma LockSame(s: Sys, c: nat, p: nat, a: Act)
    requires Acts(s, c, p, a) && (a.Acquire? || a.Test? || a.TakeTable? || a.DropSpin? || a.Retake? || a.Release?)
    ensures AllSame(s, ProcDo(s, c, p, a))
  {
    assert CpuOk(s, c);
  }

  lemma WakeSame(s: Sys, c: nat, p: nat)
    requires Acts(s, c, p, Wake)
    ensures AllSame(s, ProcDo(s, c, p, Wake))
  {
    assert CpuOk(s, c);
  }

  lemma TableSame(s: Sys, c: nat, p: nat, a: Act)
    requires Acts(s, c, p, a) && (a.Abandon? || a.Kill?)
    requires a.Abandon? ==> s.procs[s.procs[p].pc.np].state == Embryo && s.procs[s.procs[p].pc.np].pc == At(Gone)
    ensures AllSame(s, ProcDo(s, c, p, a))
  {
    assert CpuOk(s, c);
  }

  lemma LookNoneSame(s: Sys, c: nat, p: nat)
    requires Acts(s, c, p, Look) && FirstReady(s.procs, p, s.procs[p].pc.want, 0).None?
    ensures AllSame(s, ProcDo(s, c, p, Look))
  {
    assert CpuOk(s, c);
  }

  // ---------------------------------------------------------------- wait begins, allocproc

  lemma WaitAddr(s: Sys, c: nat, p: nat, want: Want)
    requires AddrInv(s) && Acts(s, c, p, Wait(want)) && Disciplined(s, Step(c, Wait(want)))
    ensures AddrInv(ProcDo(s, c, p, Wait(want)))
  {
    var s' := ProcDo(s, c, p, Wait(want));
    assert CpuOk(s, c);
    PlaceKeeps(s, s', p, s.procs[p].(pc := Looking(want)));
  }

  /** Only the place of a live process changes, to one where it may be. */
  lemma PlaceKeeps(s: Sys, s': Sys, p: nat, x: Proc)
    requires AddrInv(s) && p < |s.procs| && s'.procs == s.procs[p := x]
    requires x == s.procs[p].(pc := x.pc) && (WaitsAny(x) ==> NoThreads(s, p)) && (x.pc.Making? ==> !x.isthread)
    ensures AddrInv(s')
  {
    forall i: nat | i < |s.procs| ensures ThreadOk(s'.procs, i) { assert ThreadOk(s.procs, i); }
    forall q: nat | q < |s'.procs| && WaitsAny(s'.procs[q]) ensures NoThreads(s', q) { assert NoThreads(s, q); }
  }

  /** A slot that is not live changes and stays so. */
  lemma DeadKeeps(s: Sys, s': Sys, q: nat, y: Proc)
    requires AddrInv(s) && q < |s.procs| && s'.procs == s.procs[q := y]
    requires !Live(s.procs[q]) && !Live(y) && !WaitsAny(y) && !y.pc.Making?
    ensures AddrInv(s')
  {
    forall i: nat | i < |s.procs| ensures ThreadOk(s'.procs, i) { assert ThreadOk(s.procs, i); }
    forall p: nat | p < |s'.procs| && WaitsAny(s'.procs[p]) ensures NoThreads(s', p) { assert NoThreads(s, p); }
  }

  lemma AllocAtAddr(s: Sys, s': Sys, p: nat, np: nat, thread: bool)
    requires AddrInv(s) && AllocAt(s, p, np, s', thread) && SlotOk(np, s.procs[np]) && !s.procs[p].isthread
    ensures AddrInv(s')
  {
    var y := s.procs[np].(state := Embryo, pid := s.nextpid, isthread := false);
    var s1 := s.(procs := s.procs[np := y]);
    DeadKeeps(s, s1, np, y);
    PlaceKeeps(s1, s', p, s.procs[p].(pc := Making(np, thread)));
  }

  lemma AllocNoneSame(s: Sys, c: nat, p: nat, thread: bool)
    requires Acts(s, c, p, Alloc(thread)) && FirstUnused(s.procs, 0).None?
    ensures AllSame(s, ProcDo(s, c, p, Alloc(thread)))
  {}

  lemma AllocAddr(s: Sys, c: nat, p: nat, thread: bool)
    requires AddrInv(s) && SlotInv(s) && Acts(s, c, p, Alloc(thread)) && Disciplined(s, Step(c, Alloc(thread)))
    ensures AddrInv(ProcDo(s, c, p, Alloc(thread)))
  {
    var s' := ProcDo(s, c, p, Alloc(thread));
    match FirstUnused(s.procs, 0)
    case None =>
      AllocNoneSame(s, c, p, thread);
      AllSameKeeps(s, s');
    case Some(np) =>
      assert SlotOk(np, s.procs[np]);
      AllocBeside(s, c, p, thread, np);
      AllocAtAddr(s, s', p, np, thread);
  }

  // ---------------------------------------------------------------- a process is born

  /** np, not live before, becomes a child y of p, with p's directory if it is a thread. */
  predicate ChildOf(s: Sys, s': Sys, p: nat, np: nat, y: Proc) {
    && p < |s.procs| && np < |s.procs| && np != p && s'.procs == s.procs[np := y]
    && !Live(s.procs[np]) && Live(y) && y.parent == Some(p) && !WaitsAny(y) && !y.pc.Making?
    && Live(s.procs[p]) && s.procs[p].state != Zombie && !s.procs[p].isthread && !WaitsAny(s.procs[p])
    && (y.isthread ==> y.pgdir == s.procs[p].pgdir)
  }

  lemma ChildKeeps(s: Sys, s': Sys, p: nat, np: nat, y: Proc)
    requires AddrInv(s) && ChildOf(s, s', p, np, y)
    ensures AddrInv(s')
  {
    forall i: nat | i < |s.procs| ensures ThreadOk(s'.procs, i) { assert ThreadOk(s.procs, i); }
    forall q: nat | q < |s'.procs| && WaitsAny(s'.procs[q]) ensures NoThreads(s', q) { assert NoThreads(s, q); }
  }

  lemma PublishAddr(s: Sys, c: nat, p: nat)
    requires AddrInv(s) && SlotInv(s) && MakeInv(s) && Acts(s, c, p, Publish)
    ensures AddrInv(ProcDo(s, c, p, Publish))
  {
    var s' := ProcDo(s, c, p, Publish);
    var np, thread := s.procs[p].pc.np, s.procs[p].pc.thread;
    assert CpuOk(s, c);
    assert s.procs[np].state == Embryo;
    var y := Child(s, p, np, thread);
    var s1 := s.(procs := s.procs[np := y]);
    ChildKeeps(s, s1, p, np, y);
    ReturnKeeps(s1, s', p, y.pid);
  }

  lemma ReturnKeeps(s: Sys, s': Sys, p: nat, ret: int)
    requires AddrInv(s) && p < |s.procs| && s'.procs == Return(s, p, ret).procs
    ensures AddrInv(s')
  {
    AllSameKeeps(s, s');
  }

  // ---------------------------------------------------------------- a process gets another directory or is reaped

  /** Slot q, a process without threads or a zombie, turns into y: reaped, or the same but for its directory. */
  predicate Leaves(s: Sys, s': Sys, q: nat, y: Proc) {
    && q < |s.procs| && s'.procs == s.procs[q := y] && Live(s.procs[q]) && !s.procs[q].isthread
    && !WaitsAny(y) && !y.pc.Making? && (NoThreads(s, q) || s.procs[q].state == Zombie)
    && (Live(y) ==> !y.isthread && y.parent == s.procs[q].parent && y.state == s.procs[q].state)
  }

  lemma LeavesKeeps(s: Sys, s': Sys, q: nat, y: Proc)
    requires AddrInv(s) && Leaves(s, s', q, y)
    ensures AddrInv(s')
  {
    forall i: nat | i < |s.procs| ensures ThreadOk(s'.procs, i) { assert ThreadOk(s.procs, i); }
    forall p: nat | p < |s'.procs| && WaitsAny(s'.procs[p]) ensures NoThreads(s', p) { assert NoThreads(s, p); }
  }

  lemma ExecAddr(s: Sys, c: nat, p: nat)
    requires AddrInv(s) && Acts(s, c, p, Exec) && Disciplined(s, Step(c, Exec))
    ensures AddrInv(ProcDo(s, c, p, Exec))
  {
    assert CpuOk(s, c);
    LeavesKeeps(s, ProcDo(s, c, p, Exec), p, s.procs[p].(pgdir := s.nextdir));
  }

  /** wait reaps no thread. */
  lemma WaitReapAddr(s: Sys, c: nat, p: nat, q: nat)
    requires AddrInv(s) && Acts(s, c, p, Look) && s.procs[p].pc == Looking(AnyChild)
    requires FirstReady(s.procs, p, AnyChild, 0) == Some(q) && s.procs[q].pc == At(Gone)
    ensures AddrInv(ProcDo(s, c, p, Look))
  {
    assert CpuOk(s, c);
    assert WaitsAny(s.procs[p]) && NoThreads(s, p);
    var y := Reaped(s.procs[q], AnyChild);
    var s1 := s.(procs := s.procs[q := y]);
    LeavesKeeps(s, s1, q, y);
    ReturnKeeps(s1, ProcDo(s, c, p, Look), p, s.procs[q].pid);
  }

  /** join takes a thread out of the table. */
  lemma ThreadGone(s: Sys, s': Sys, q: nat, y: Proc)
    requires AddrInv(s) && q < |s.procs| && s'.procs == s.procs[q := y]
    requires Live(s.procs[q]) && s.procs[q].isthread && !Live(y) && !WaitsAny(y) && !y.pc.Making?
    ensures AddrInv(s')
  {
    forall i: nat | i < |s.procs| ensures ThreadOk(s'.procs, i) { assert ThreadOk(s.procs, i); }
    forall p: nat | p < |s'.procs| && WaitsAny(s'.procs[p]) ensures NoThreads(s', p) { assert NoThreads(s, p); }
  }

  lemma JoinReapAddr(s: Sys, c: nat, p: nat, q: nat, wanted: int)
    requires AddrInv(s) && Acts(s, c, p, Look) && s.procs[p].pc == Looking(ThreadOf(wanted))
    requires FirstReady(s.procs, p, ThreadOf(wanted), 0) == Some(q)
    requires s.procs[q].pc == At(Gone)
    ensures AddrInv(ProcDo(s, c, p, Look))
  {
    var s' := ProcDo(s, c, p, Look);
    assert CpuOk(s, c);
    var y := Reaped(s.procs[q], ThreadOf(wanted));
    var s1 := s.(procs := s.procs[q := y]);
    ThreadGone(s, s1, q, y);
    ReturnKeeps(s1, s', p, s.procs[q].pid);
  }

  // ---------------------------------------------------------------- exit and thread_exit

  lemma ExitAddr(s: Sys, s': Sys, p: nat)
    requires AddrInv(s) && Exited(s.procs, s'.procs, p)
    requires s.procs[p].state == Running && (NoThreads(s, p) || s.procs[p].isthread)
    ensures AddrInv(s')
  {
    forall i: nat | i < |s.procs| ensures ThreadOk(s'.procs, i) { ExitThreadOk(s, s', p, i); }
    ExitCalls(s, s', p);
  }

  /** The creator of thread i does not exit here. */
  lemma ExitThreadOk(s: Sys, s': Sys, p: nat, i: nat)
    requires Threads(s) && Exited(s.procs, s'.procs, p) && s.procs[p].state == Running
    requires (NoThreads(s, p) || s.procs[p].isthread) && i < |s.procs|
    ensures ThreadOk(s'.procs, i)
    ensures Live(s'.procs[i]) && s'.procs[i].isthread ==> s'.procs[i].parent == s.procs[i].parent
  {
    assert ThreadOk(s.procs, i);
    assert i == p || ExitSeen(s.procs[i], s'.procs[i], p);
    if Live(s.procs[i]) && s.procs[i].isthread {
      var m := s.procs[i].parent.value;
      assert m != p;
      assert ExitSeen(s.procs[m], s'.procs[m], p);
    }
  }

  lemma ExitCalls(s: Sys, s': Sys, p: nat)
    requires Threads(s) && Calls(s) && Exited(s.procs, s'.procs, p) && s.procs[p].state == Running
    requires (NoThreads(s, p) || s.procs[p].isthread)
    ensures Calls(s')
  {
    forall q: nat | q < |s'.procs| && WaitsAny(s'.procs[q]) ensures NoThreads(s', q) {
      assert q != p && ExitSeen(s.procs[q], s'.procs[q], p);
      assert NoThreads(s, q);
      forall i | 0 <= i < |s'.procs| && Live(s'.procs[i]) && s'.procs[i].isthread
        ensures s'.procs[i].parent != Some(q)
      {
        assert i == p || ExitSeen(s.procs[i], s'.procs[i], p);
        ExitThreadOk(s, s', p, i);
      }
    }
    forall q | 0 <= q < |s'.procs| && s'.procs[q].pc.Making? ensures !s'.procs[q].isthread {
      assert q == p || ExitSeen(s.procs[q], s'.procs[q], p);
    }
  }

  // ---------------------------------------------------------------- every disciplined run

  lemma LookAddr(s: Sys, c: nat, p: nat)
    requires Inv(s) && AddrInv(s) && Acts(s, c, p, Look)
    ensures AddrInv(ProcDo(s, c, p, Look))
  {
    assert CpuOk(s, c);
    var want := s.procs[p].pc.want;
    match FirstReady(s.procs, p, want, 0)
    case None =>
      LookNoneSame(s, c, p);
      AllSameKeeps(s, ProcDo(s, c, p, Look));
    case Some(q) =>
      ZombieIsOff(s, c, p, q);
      if want.AnyChild? { WaitReapAddr(s, c, p, q); } else { JoinReapAddr(s, c, p, q, want.wanted); }
  }

  lemma SameAddr(s: Sys, c: nat, p: nat, a: Act)
    requires AddrInv(s) && MakeInv(s) && SlotInv(s) && Acts(s, c, p, a)
    requires a.Swtch? || a.Resume? || a.Yield? || a.Sleep? || a.Abandon? || a.Kill? || a.Wake?
          || a.Acquire? || a.Test? || a.TakeTable? || a.DropSpin? || a.Retake? || a.Release?
    ensures AddrInv(ProcDo(s, c, p, a))
  {
    if a.Swtch? || a.Resume? || a.Yield? || a.Sleep? {
      OwnSame(s, c, p, a);
    } else if a.Wake? {
      WakeSame(s, c, p);
    } else if a.Abandon? || a.Kill? {
      if a.Abandon? { assert SlotOk(s.procs[p].pc.np, s.procs[s.procs[p].pc.np]); }
      TableSame(s, c, p, a);
    } else {
      LockSame(s, c, p, a);
    }
    AllSameKeeps(s, ProcDo(s, c, p, a));
  }

  lemma ExitsAddr(s: Sys, c: nat, p: nat, a: Act)
    requires AddrInv(s) && ParentInv(s) && Acts(s, c, p, a) && (a.Exit? || a.ThreadExit?) && Disciplined(s, Step(c, a))
    ensures AddrInv(ProcDo(s, c, p, a))
  {
    assert CpuOk(s, c);
    if a.Exit? { ExitIs(s.procs, p); } else { ThreadExitIs(s.procs, p); }
    ExitAddr(s, ProcDo(s, c, p, a), p);
  }

  lemma ProcAddr(s: Sys, c: nat, p: nat, a: Act)
    requires Inv(s) && AddrInv(s) && Acts(s, c, p, a) && Disciplined(s, Step(c, a))
    ensures AddrInv(ProcDo(s, c, p, a))
  {
    match a
    case Alloc(thread) => AllocAddr(s, c, p, thread);
    case Publish => PublishAddr(s, c, p);
    case Exec => ExecAddr(s, c, p);
    case Exit => ExitsAddr(s, c, p, a);
    case ThreadExit => ExitsAddr(s, c, p, a);
    case Wait(want) => WaitAddr(s, c, p, want);
    case Look => LookAddr(s, c, p);
    case _ => SameAddr(s, c, p, a);
  }

  lemma StepAddr(s: Sys, t: Step)
    requires Inv(s) && AddrInv(s) && Enabled(s, t) && Disciplined(s, t)
    ensures AddrInv(Do(s, t))
  {
    if t.act.SchedLock? || t.act.SchedTurn? {
      SchedSame(s, t);
      AllSameKeeps(s, Do(s, t));
    } else {
      ActorActs(s, t);
      ProcAddr(s, t.cpu, s.cpus[t.cpu].p, t.act);
    }
  }

  // ---------------------------------------------------------------- disciplined runs are safe

  /** Nobody else uses the directory of a process whose threads are joined. */
  lemma SoleUser(s: Sys, p: nat)
    requires Threads(s) && Private(s) && p < |s.procs| && Live(s.procs[p]) && !s.procs[p].isthread
    requires NoThreads(s, p) || s.procs[p].state == Zombie
    ensures !Shared(s, p)
  {
    forall i: nat | i < |s.procs| && i != p ensures !Uses(s.procs[i], s.procs[p].pgdir) {
      assert ThreadOk(s.procs, i);
      if Uses(s.procs[i], s.procs[p].pgdir) {
        var m := if s.procs[i].isthread then s.procs[i].parent.value else i;
        assert Owner(s.procs[m], s.procs[p].pgdir) && Owner(s.procs[p], s.procs[p].pgdir);
        assert false;
      }
    }
  }

  lemma DisciplinedIsSafe(s: Sys, t: Step)
    requires Inv(s) && AddrInv(s) && Private(s) && Enabled(s, t) && Disciplined(s, t)
    ensures !FreesShared(s, t)
  {
    if t.act.Exec? || t.act.Look? {
      var p := s.cpus[t.cpu].p;
      assert CpuOk(s, t.cpu);
      if t.act.Exec? {
        SoleUser(s, p);
      } else if s.procs[p].pc.want.AnyChild? {
        var q := FirstReady(s.procs, p, AnyChild, 0);
        assert WaitsAny(s.procs[p]) && NoThreads(s, p);
        if q.Some? { SoleUser(s, q.value); }
      }
    }
  }

  /** In every disciplined run each directory ever made is used by one process that is there, or was freed: once,
      and with nobody left to use it.  Threads use the directory of a creator that has not exited. */
  lemma DirectoriesAccounted(nproc: nat, ncpu: nat, nlock: nat, steps: seq<Step>, s: Sys)
    requires 0 < nproc && After(DNext, Start(nproc, ncpu, nlock), steps) == Some(s)
    ensures After(SafeNext, Start(nproc, ncpu, nlock), steps) == Some(s)
    ensures Accounted(s) && Threads(s)
  {
    var start := Start(nproc, ncpu, nlock);
    StartInv(nproc, ncpu, nlock);
    StartAccounted(nproc, ncpu, nlock);
    DisciplinedRun(start, steps);
    SafeIsRun(start, steps);
  }

  lemma {:induction false} DisciplinedRun(start: Sys, steps: seq<Step>)
    requires Inv(start) && Accounted(start) && AddrInv(start) && After(DNext, start, steps).Some?
    ensures After(SafeNext, start, steps) == After(DNext, start, steps)
    ensures AddrInv(After(DNext, start, steps).value)
  {
    if steps != [] {
      var before := steps[..|steps| - 1];
      DisciplinedRun(start, before);
      SafeIsRun(start, before);
      var r := After(DNext, start, before).value;
      DisciplinedIsSafe(r, steps[|steps| - 1]);
      StepAddr(r, steps[|steps| - 1]);
    }
  }
}

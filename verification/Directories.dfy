/** When exec and wait may call freevm: exactly which steps leave a page directory freed too early, twice or never. */
module Directories {
  import opened Common
  import opened ProcTable
  import opened Runs
  import opened Scheduling
  import opened SchedulingSteps
  import opened SchedulingRuns

  /** The slot holds a process or thread, perhaps one that has exited. */
  predicate Live(x: Proc) { x.state != Unused && x.state != Embryo }

  predicate Uses(x: Proc, d: nat) { Live(x) && x.pgdir == d }

  /** A process, not a thread, that uses directory d. */
  predicate Owner(x: Proc, d: nat) { Uses(x, d) && !x.isthread }

  predicate HasOwner(procs: Table, d: nat) { exists i | 0 <= i < |procs| :: Owner(procs[i], d) }

  /** Directories in use are not freed, and none is freed twice. */
  predicate NotFreed(s: Sys) {
    && 0 < s.nextdir
    && (forall i | 0 <= i < |s.procs| && Live(s.procs[i]) ::
          0 < s.procs[i].pgdir < s.nextdir && s.procs[i].pgdir !in s.freed)
    && (forall k | 0 <= k < |s.freed| :: s.freed[k] < s.nextdir)
    && (forall k, l | 0 <= k < l < |s.freed| :: s.freed[k] != s.freed[l])
  }

  /** Directories not freed have an owner. */
  predicate NotLost(s: Sys) { forall d: nat | 0 < d < s.nextdir :: d in s.freed || HasOwner(s.procs, d) }

  /** No two processes have the same directory. */
  predicate Private(s: Sys) {
    forall i, j | 0 <= i < |s.procs| && 0 <= j < |s.procs| && Owner(s.procs[i], s.procs[i].pgdir)
               && Owner(s.procs[j], s.procs[i].pgdir) :: i == j
  }

  predicate Accounted(s: Sys) { NotFreed(s) && NotLost(s) && Private(s) }

  // ---------------------------------------------------------------- the steps that go wrong

  /** Somebody other than slot q uses q's directory. */
  predicate Shared(s: Sys, q: nat)
    requires q < |s.procs|
  {
    exists i | 0 <= i < |s.procs| && i != q :: Uses(s.procs[i], s.procs[q].pgdir)
  }

  /** exec, or wait reaping a child, frees a directory that another slot uses. */
  predicate FreesShared(s: Sys, t: Step)
    requires Enabled(s, t)
  {
    match t.act
    case Exec => Shared(s, s.cpus[t.cpu].p)
    case Look =>
      var p := s.cpus[t.cpu].p;
      var q := FirstReady(s.procs, p, s.procs[p].pc.want, 0);
      s.procs[p].pc.want.AnyChild? && q.Some? && Shared(s, q.value)
    case _ => false
  }

  // ---------------------------------------------------------------- steps that change nothing here

  predicate Kept(x: Proc, x': Proc) {
    Live(x') == Live(x) && (Live(x) ==> x'.isthread == x.isthread && x'.pgdir == x.pgdir)
  }

  predicate SameUses(s: Sys, s': Sys) {
    && |s'.procs| == |s.procs| && s'.nextdir == s.nextdir && s'.freed == s.freed
    && forall i | 0 <= i < |s.procs| :: Kept(s.procs[i], s'.procs[i])
  }

  lemma OwnersStay(procs: Table, procs': Table, d: nat)
    requires |procs'| == |procs| && HasOwner(procs, d)
    requires forall i | 0 <= i < |procs| && Owner(procs[i], d) :: Owner(procs'[i], d)
    ensures HasOwner(procs', d)
  {
    var i :| 0 <= i < |procs| && Owner(procs[i], d);
    assert Owner(procs'[i], d);
  }

  lemma UsesKeep(s: Sys, s': Sys)
    requires Accounted(s) && SameUses(s, s')
    ensures Accounted(s')
  {
    forall d: nat | 0 < d < s'.nextdir && d !in s'.freed ensures HasOwner(s'.procs, d) {
      forall i | 0 <= i < |s.procs| && Owner(s.procs[i], d) ensures Owner(s'.procs[i], d) {
        assert Kept(s.procs[i], s'.procs[i]);
      }
      OwnersStay(s.procs, s'.procs, d);
    }
    SamePrivate(s, s');
  }

  lemma SamePrivate(s: Sys, s': Sys)
    requires Private(s) && SameUses(s, s')
    ensures Private(s')
  {
    forall i, j | 0 <= i < |s.procs| && 0 <= j < |s.procs| && Owner(s'.procs[i], s'.procs[i].pgdir)
               && Owner(s'.procs[j], s'.procs[i].pgdir)
      ensures i == j
    {
      assert Kept(s.procs[i], s'.procs[i]) && Kept(s.procs[j], s'.procs[j]);
    }
  }

  lemma SchedUses(s: Sys, t: Step)
    requires Enabled(s, t) && (t.act.SchedLock? || t.act.SchedTurn?)
    ensures SameUses(s, Do(s, t))
  {}

  lemma OwnUses(s: Sys, c: nat, p: nat, a: Act)
    requires Acts(s, c, p, a) && (a.Swtch? || a.Resume? || a.Yield? || a.Sleep? || a.Wait?)
    ensures SameUses(s, ProcDo(s, c, p, a))
  {}

  lemma LockUses(s: Sys, c: nat, p: nat, a: Act)
    requires Acts(s, c, p, a)
    requires a.Acquire? || a.Test? || a.TakeTable? || a.DropSpin? || a.Retake? || a.Release? || a.Wake?
    ensures SameUses(s, ProcDo(s, c, p, a))
  {}

  lemma TableUses(s: Sys, c: nat, p: nat, a: Act)
    requires Acts(s, c, p, a) && MakeInv(s)
    requires a.Abandon? || a.Kill?
    ensures SameUses(s, ProcDo(s, c, p, a))
  {}

  lemma LookNoneUses(s: Sys, c: nat, p: nat)
    requires Acts(s, c, p, Look) && FirstReady(s.procs, p, s.procs[p].pc.want, 0).None?
    ensures SameUses(s, ProcDo(s, c, p, Look))
  {}

  lemma AllocUses(s: Sys, c: nat, p: nat, thread: bool)
    requires Acts(s, c, p, Alloc(thread))
    ensures SameUses(s, ProcDo(s, c, p, Alloc(thread)))
  {
    var s' := ProcDo(s, c, p, Alloc(thread));
    match FirstUnused(s.procs, 0)
    case None =>
    case Some(np) =>
      forall i | 0 <= i < |s.procs| ensures Kept(s.procs[i], s'.procs[i]) {
        assert i == np || i == p || s'.procs[i] == s.procs[i];
      }
  }

  lemma ExitUses(s: Sys, c: nat, p: nat, a: Act)
    requires Acts(s, c, p, a) && ParentInv(s) && (a.Exit? || a.ThreadExit?)
    ensures SameUses(s, ProcDo(s, c, p, a))
  {
    var s' := ProcDo(s, c, p, a);
    if a.Exit? { ExitIs(s.procs, p); } else { ThreadExitIs(s.procs, p); }
    forall i | 0 <= i < |s.procs| ensures Kept(s.procs[i], s'.procs[i]) {
      assert i == p || ExitSeen(s.procs[i], s'.procs[i], p);
    }
  }

  // ---------------------------------------------------------------- fork, clone, join

  /** q, not live before, becomes y: a thread with the directory of a live slot, or a process with a new one. */
  predicate Born(s: Sys, s': Sys, q: nat, y: Proc) {
    && q < |s.procs| && s'.procs == s.procs[q := y] && s'.freed == s.freed && !Live(s.procs[q]) && Live(y)
    && if y.isthread then s'.nextdir == s.nextdir && exists i | 0 <= i < |s.procs| :: Uses(s.procs[i], y.pgdir)
       else y.pgdir == s.nextdir && s'.nextdir == s.nextdir + 1
  }

  lemma BornKeeps(s: Sys, s': Sys, q: nat, y: Proc)
    requires Accounted(s) && Born(s, s', q, y)
    ensures Accounted(s')
  {
    forall d: nat | 0 < d < s'.nextdir && d !in s'.freed ensures HasOwner(s'.procs, d) {
      if d == s.nextdir {
        assert Owner(s'.procs[q], d);
      } else {
        OwnersStay(s.procs, s'.procs, d);
      }
    }
  }

  /** A thread leaves the table; its directory has an owner who stays. */
  lemma JoinKeeps(s: Sys, s': Sys, q: nat, y: Proc)
    requires Accounted(s) && q < |s.procs| && s'.procs == s.procs[q := y] && s'.nextdir == s.nextdir
    requires s'.freed == s.freed
    requires s.procs[q].isthread && !Live(y)
    ensures Accounted(s')
  {
    forall d: nat | 0 < d < s'.nextdir && d !in s'.freed ensures HasOwner(s'.procs, d) {
      OwnersStay(s.procs, s'.procs, d);
    }
  }

  // ---------------------------------------------------------------- exec and wait

  /** Slot q turns into y, which is not live or has a new directory, and its old directory is freed. */
  predicate Frees(s: Sys, s': Sys, q: nat, y: Proc) {
    && q < |s.procs| && s'.procs == s.procs[q := y] && s'.freed == s.freed + [s.procs[q].pgdir] && Live(s.procs[q])
    && if Live(y) then y.pgdir == s.nextdir && s'.nextdir == s.nextdir + 1 && y.isthread == s.procs[q].isthread
       else s'.nextdir == s.nextdir
  }

  /** The sole user of a directory is a process: threads are never alone on theirs. */
  lemma SoleUserOwns(s: Sys, q: nat)
    requires Accounted(s) && q < |s.procs| && Live(s.procs[q]) && !Shared(s, q)
    ensures Owner(s.procs[q], s.procs[q].pgdir)
  {
    assert HasOwner(s.procs, s.procs[q].pgdir);
  }

  lemma FreesExactly(s: Sys, s': Sys, q: nat, y: Proc)
    requires Accounted(s) && Frees(s, s', q, y)
    ensures Shared(s, q) ==> !NotFreed(s')
    ensures !Shared(s, q) ==> Accounted(s')
  {
    var d0 := s.procs[q].pgdir;
    assert s'.freed[|s.freed|] == d0;
    if Shared(s, q) {
      var i :| 0 <= i < |s.procs| && i != q && Uses(s.procs[i], d0);
      assert s'.procs[i].pgdir in s'.freed;
    } else {
      SoleUserOwns(s, q);
      assert forall i | 0 <= i < |s.procs| && i != q && Live(s.procs[i]) :: !Uses(s.procs[i], d0);
      FreesNotLost(s, s', q, y);
    }
  }

  lemma FreesNotLost(s: Sys, s': Sys, q: nat, y: Proc)
    requires Accounted(s) && Frees(s, s', q, y) && !s.procs[q].isthread
    ensures NotLost(s')
  {
    forall d: nat | 0 < d < s'.nextdir && d !in s'.freed ensures HasOwner(s'.procs, d) {
      if d == s.nextdir {
        assert Owner(s'.procs[q], d);
      } else {
        assert s'.freed[|s.freed|] == s.procs[q].pgdir;
        OwnersStay(s.procs, s'.procs, d);
      }
    }
  }

  // ---------------------------------------------------------------- every step

  lemma ReturnUses(s: Sys, p: nat, ret: int)
    requires p < |s.procs|
    ensures SameUses(s, Return(s, p, ret))
  {}

  lemma ForkKeeps(s: Sys, c: nat, p: nat)
    requires Accounted(s) && Acts(s, c, p, Publish) && MakeInv(s)
    ensures Accounted(ProcDo(s, c, p, Publish))
  {
    var np, thread := s.procs[p].pc.np, s.procs[p].pc.thread;
    var y := Child(s, p, np, thread);
    var s1 := s.(procs := s.procs[np := y], nextdir := if thread then s.nextdir else s.nextdir + 1);
    assert Uses(s.procs[p], s.procs[p].pgdir);
    BornKeeps(s, s1, np, y);
    ReturnUses(s1, p, y.pid);
    UsesKeep(s1, ProcDo(s, c, p, Publish));
  }

  lemma ExecExactly(s: Sys, c: nat, p: nat)
    requires Accounted(s) && Acts(s, c, p, Exec)
    ensures Shared(s, p) ==> !NotFreed(ProcDo(s, c, p, Exec))
    ensures !Shared(s, p) ==> Accounted(ProcDo(s, c, p, Exec))
  {
    FreesExactly(s, ProcDo(s, c, p, Exec), p, s.procs[p].(pgdir := s.nextdir));
  }

  lemma ReapExactly(s: Sys, c: nat, p: nat, q: nat)
    requires Accounted(s) && Acts(s, c, p, Look) && FirstReady(s.procs, p, s.procs[p].pc.want, 0) == Some(q)
    ensures s.procs[p].pc.want.AnyChild? && Shared(s, q) ==> !NotFreed(ProcDo(s, c, p, Look))
    ensures !(s.procs[p].pc.want.AnyChild? && Shared(s, q)) ==> Accounted(ProcDo(s, c, p, Look))
  {
    var want, s' := s.procs[p].pc.want, ProcDo(s, c, p, Look);
    var y := Reaped(s.procs[q], want);
    var s1 := s.(procs := s.procs[q := y], freed := s'.freed);
    assert SameUses(s1, s') && SameUses(s', s1);
    if want.AnyChild? { FreesExactly(s, s1, q, y); } else { JoinKeeps(s, s1, q, y); }
    if Accounted(s1) { UsesKeep(s1, s'); }
  }

  lemma LookExactly(s: Sys, c: nat, p: nat)
    requires MakeInv(s) && Accounted(s) && Acts(s, c, p, Look) && Enabled(s, Step(c, Look))
    ensures FreesShared(s, Step(c, Look)) ==> !NotFreed(ProcDo(s, c, p, Look))
    ensures !FreesShared(s, Step(c, Look)) ==> Accounted(ProcDo(s, c, p, Look))
  {
    match FirstReady(s.procs, p, s.procs[p].pc.want, 0)
    case Some(q) => ReapExactly(s, c, p, q);
    case None =>
      LookNoneUses(s, c, p);
      UsesKeep(s, ProcDo(s, c, p, Look));
  }

  lemma ProcExactly(s: Sys, c: nat, p: nat, a: Act)
    requires Inv(s) && Accounted(s) && Acts(s, c, p, a) && Enabled(s, Step(c, a))
    ensures FreesShared(s, Step(c, a)) ==> !NotFreed(ProcDo(s, c, p, a))
    ensures !FreesShared(s, Step(c, a)) ==> Accounted(ProcDo(s, c, p, a))
  {
    if a.Publish? {
      ForkKeeps(s, c, p);
    } else if a.Exec? {
      ExecExactly(s, c, p);
    } else if a.Look? {
      LookExactly(s, c, p);
    } else {
      OtherUses(s, c, p, a);
      UsesKeep(s, ProcDo(s, c, p, a));
    }
  }

  lemma OtherUses(s: Sys, c: nat, p: nat, a: Act)
    requires MakeInv(s) && ParentInv(s) && Acts(s, c, p, a) && !a.Publish? && !a.Exec? && !a.Look?
    ensures SameUses(s, ProcDo(s, c, p, a))
  {
    if a.Swtch? || a.Resume? || a.Yield? || a.Sleep? || a.Wait? {
      OwnUses(s, c, p, a);
    } else if a.Alloc? {
      AllocUses(s, c, p, a.thread);
    } else if a.Abandon? || a.Kill? {
      TableUses(s, c, p, a);
    } else if a.Exit? || a.ThreadExit? {
      ExitUses(s, c, p, a);
    } else {
      LockUses(s, c, p, a);
    }
  }

  /** A step frees a directory too early if and only if it is an exec or a wait that frees one in use elsewhere;
      every other step keeps all directories accounted for, none freed twice and none lost. */
  lemma StepFreesExactly(s: Sys, t: Step)
    requires Inv(s) && Accounted(s) && Enabled(s, t)
    ensures NotFreed(Do(s, t)) <==> !FreesShared(s, t)
    ensures Accounted(Do(s, t)) <==> !FreesShared(s, t)
  {
    if t.act.SchedLock? || t.act.SchedTurn? {
      SchedUses(s, t);
      UsesKeep(s, Do(s, t));
    } else {
      ActorActs(s, t);
      ProcExactly(s, t.cpu, s.cpus[t.cpu].p, t.act);
    }
  }

  // ---------------------------------------------------------------- runs

  /** A step that frees no directory in use elsewhere. */
  function SafeNext(s: Sys, t: Step): Option<Sys> {
    if Enabled(s, t) && !FreesShared(s, t) then Some(Do(s, t)) else None
  }

  /** No directory in use is freed, and none is freed twice, at any moment of the run. */
  ghost predicate AlwaysNotFreed(s: Sys, steps: seq<Step>)
    requires After(Next, s, steps).Some?
  {
    forall k | 0 <= k <= |steps| :: After(Next, s, steps[..k]).Some? && NotFreed(After(Next, s, steps[..k]).value)
  }

  lemma AlwaysSnoc(s: Sys, steps: seq<Step>)
    requires steps != [] && After(Next, s, steps).Some?
    ensures AlwaysNotFreed(s, steps) <==>
      AlwaysNotFreed(s, steps[..|steps| - 1]) && NotFreed(After(Next, s, steps).value)
  {
    var before := steps[..|steps| - 1];
    assert steps[..|steps|] == steps;
    assert forall k | 0 <= k < |steps| :: steps[..k] == before[..k];
    if AlwaysNotFreed(s, steps) {
      forall k | 0 <= k <= |before|
        ensures After(Next, s, before[..k]).Some? && NotFreed(After(Next, s, before[..k]).value)
      {
        assert steps[..k] == before[..k];
      }
    }
  }

  lemma {:induction false} SafeIsRun(s: Sys, steps: seq<Step>)
    requires Inv(s) && Accounted(s) && After(SafeNext, s, steps).Some?
    ensures After(Next, s, steps) == After(SafeNext, s, steps)
    ensures Inv(After(SafeNext, s, steps).value) && Accounted(After(SafeNext, s, steps).value)
  {
    if steps != [] {
      var before := steps[..|steps| - 1];
      SafeIsRun(s, before);
      StepInv(After(Next, s, before).value, steps[|steps| - 1]);
      StepFreesExactly(After(Next, s, before).value, steps[|steps| - 1]);
    }
  }

  lemma SafeSnoc(s: Sys, steps: seq<Step>)
    requires Inv(s) && Accounted(s) && steps != [] && After(Next, s, steps).Some?
    requires After(SafeNext, s, steps[..|steps| - 1]).Some?
    ensures NotFreed(After(Next, s, steps).value) <==> After(SafeNext, s, steps).Some?
  {
    var before := steps[..|steps| - 1];
    SafeIsRun(s, before);
    StepFreesExactly(After(Next, s, before).value, steps[|steps| - 1]);
  }

  /** In a run no directory is freed while in use or twice if and only if no exec and no wait freed one in use
      elsewhere. */
  lemma {:induction false} RunFreesExactly(s: Sys, steps: seq<Step>)
    requires Inv(s) && Accounted(s) && After(Next, s, steps).Some?
    ensures AlwaysNotFreed(s, steps) <==> After(SafeNext, s, steps).Some?
  {
    if steps == [] {
      assert steps[..0] == steps;
    } else {
      var before := steps[..|steps| - 1];
      RunFreesExactly(s, before);
      AlwaysSnoc(s, steps);
      if After(SafeNext, s, before).Some? { SafeSnoc(s, steps); }
    }
  }

  lemma StartAccounted(nproc: nat, ncpu: nat, nlock: nat)
    requires 0 < nproc
    ensures Accounted(Start(nproc, ncpu, nlock))
  {
    var s := Start(nproc, ncpu, nlock);
    assert Owner(s.procs[INIT], 1);
  }

  /** And then, from userinit on, each directory ever made has exactly one process that owns it, or was freed. */
  lemma SafeRunsAccounted(nproc: nat, ncpu: nat, nlock: nat, steps: seq<Step>, s: Sys)
    requires 0 < nproc && After(Next, Start(nproc, ncpu, nlock), steps) == Some(s)
    requires AlwaysNotFreed(Start(nproc, ncpu, nlock), steps)
    ensures Accounted(s)
  {
    StartInv(nproc, ncpu, nlock);
    StartAccounted(nproc, ncpu, nlock);
    RunFreesExactly(Start(nproc, ncpu, nlock), steps);
    SafeIsRun(Start(nproc, ncpu, nlock), steps);
  }
}

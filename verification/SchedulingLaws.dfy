/** What the calls promise their callers: sleep locks exclude, a slot goes through its states in order, and fork, wait,
    join, kill and exit do what they answer for. */
module SchedulingLaws {
  import opened Common
  import opened ProcTable
  import opened Runs
  import opened Scheduling
  import opened SchedulingRuns

  // ---------------------------------------------------------------- inside a call

  /** The process that takes the step. */
  function Actor(s: Sys, t: Step): Option<nat> {
    if t.act.SchedLock? || t.act.SchedTurn? || !InProc(s, t.cpu) then None
    else Some(s.cpus[t.cpu].p)
  }

  /** Somewhere in acquiresleep(lk). */
  predicate InAcquire(pc: Place, lk: nat) {
    match pc
    case At(ctx) => ctx == LockBack(lk)
    case ToSched(ctx) => ctx == LockBack(lk)
    case Testing(l) => l == lk
    case WantTable(l) => l == lk
    case Both(l) => l == lk
    case Going(l) => l == lk
    case Reacquire(l) => l == lk
    case _ => false
  }

  /** Somewhere in wait, or in join. */
  predicate InWaiting(pc: Place, want: Want) {
    pc == Looking(want) || pc == ToSched(WaitBack(want)) || pc == At(WaitBack(want))
  }

  /** Slot i is that of a process which does not take the step, nor is it being made by the one that does. */
  predicate Bystander(s: Sys, t: Step, i: nat) {
    && Enabled(s, t) && i < |s.procs| && Actor(s, t) != Some(i) && s.procs[i].pc != At(Gone)
    && (Actor(s, t).Some? && s.procs[Actor(s, t).value].pc.Making? ==> s.procs[Actor(s, t).value].pc.np != i)
  }

  lemma ExitPlaces(s: Sys, t: Step, i: nat)
    requires Bystander(s, t, i) && (t.act.Exit? || t.act.ThreadExit?)
    ensures |Do(s, t).procs| == |s.procs| && Do(s, t).procs[i].pc == s.procs[i].pc
  {
  }

  lemma TablePlaces(s: Sys, t: Step, i: nat)
    requires Bystander(s, t, i)
    requires t.act.Alloc? || t.act.Abandon? || t.act.Publish? || t.act.Look? || t.act.Kill? || t.act.Wake?
    ensures |Do(s, t).procs| == |s.procs| && Do(s, t).procs[i].pc == s.procs[i].pc
  {
  }

  lemma OwnPlaces(s: Sys, t: Step, i: nat)
    requires Bystander(s, t, i) && !t.act.Exit? && !t.act.ThreadExit?
    requires !t.act.Alloc? && !t.act.Abandon? && !t.act.Publish? && !t.act.Look? && !t.act.Kill? && !t.act.Wake?
    ensures |Do(s, t).procs| == |s.procs| && Do(s, t).procs[i].pc == s.procs[i].pc
  {
  }

  /** Nobody's place in a call is changed by another process. */
  lemma OthersStay(s: Sys, t: Step, i: nat)
    requires Bystander(s, t, i)
    ensures |Do(s, t).procs| == |s.procs| && Do(s, t).procs[i].pc == s.procs[i].pc
  {
    if t.act.Exit? || t.act.ThreadExit? { ExitPlaces(s, t, i); }
    else if t.act.Alloc? || t.act.Abandon? || t.act.Publish? || t.act.Look? || t.act.Kill? || t.act.Wake? {
      TablePlaces(s, t, i);
    }
    else { OwnPlaces(s, t, i); }
  }

  /** acquiresleep is left only from its test, and the lock is then the caller's. */
  lemma AcquireReturns(s: Sys, t: Step, p: nat, lk: nat)
    requires Enabled(s, t) && Actor(s, t) == Some(p) && lk < |s.locks|
    requires InAcquire(s.procs[p].pc, lk) && !InAcquire(Do(s, t).procs[p].pc, lk)
    ensures t.act.Test? && s.procs[p].pc == Testing(lk) && !s.locks[lk].locked
    ensures Do(s, t).procs[p].pc == User && Do(s, t).locks[lk].locked
  {
  }

  /** wait and join are left only with an answer. */
  lemma WaitReturns(s: Sys, t: Step, p: nat, want: Want)
    requires Enabled(s, t) && Actor(s, t) == Some(p)
    requires InWaiting(s.procs[p].pc, want) && !InWaiting(Do(s, t).procs[p].pc, want)
    ensures t.act.Look? && Do(s, t).procs[p].pc == User
  {
  }

  // ---------------------------------------------------------------- sleep locks

  /** acquiresleep's test: on a locked lock the process does not come through and the lock stays as it is; on an
      unlocked one it comes through and the lock carries its pid. */
  lemma TestExactly(s: Sys, c: nat, lk: nat)
    requires InProc(s, c) && s.procs[s.cpus[c].p].pc == Testing(lk) && lk < |s.locks|
    ensures var p, s' := s.cpus[c].p, Do(s, Step(c, Test));
      && (s.locks[lk].locked ==> s'.procs[p].pc != User && s'.locks == s.locks)
      && (!s.locks[lk].locked ==> s'.procs[p].pc == User && s'.locks[lk].locked && s'.locks[lk].pid == s.procs[p].pid)
      && (!s.locks[lk].locked ==> s'.locks[lk].spin.None?)
  {
  }

  /** The step in which acquiresleep(lk) returns. */
  predicate Takes(s: Sys, t: Step, lk: nat) {
    && Enabled(s, t) && Actor(s, t).Some? && InAcquire(s.procs[Actor(s, t).value].pc, lk)
    && !InAcquire(Do(s, t).procs[Actor(s, t).value].pc, lk)
  }

  predicate Releases(s: Sys, t: Step, lk: nat) { Enabled(s, t) && t.act == Release(lk) }

  /** The process that came out of acquiresleep(lk) last and has not called releasesleep(lk) since. */
  function Holder(start: Sys, steps: seq<Step>, lk: nat): Option<nat> {
    if steps == [] then None
    else
      var before, t := steps[..|steps| - 1], steps[|steps| - 1];
      var s := After(Next, start, before);
      if s.None? then None
      else if Takes(s.value, t, lk) then Some(s.value.cpus[t.cpu].p)
      else if Releases(s.value, t, lk) then None
      else Holder(start, before, lk)
  }

  /** Only taking and releasing a lock change whether it is locked. */
  lemma LockedAfter(s: Sys, t: Step, lk: nat)
    requires Enabled(s, t) && lk < |s.locks|
    ensures |Do(s, t).locks| == |s.locks|
    ensures Takes(s, t, lk) ==> !s.locks[lk].locked && Do(s, t).locks[lk].locked
    ensures Releases(s, t, lk) ==> !Do(s, t).locks[lk].locked
    ensures !Takes(s, t, lk) && !Releases(s, t, lk) ==> Do(s, t).locks[lk].locked == s.locks[lk].locked
  {
    if Takes(s, t, lk) { AcquireReturns(s, t, Actor(s, t).value, lk); }
  }

  /** A lock is locked exactly while somebody holds it. */
  lemma {:induction false} LockedIsHeld(start: Sys, steps: seq<Step>, lk: nat)
    requires After(Next, start, steps).Some? && lk < |start.locks| && !start.locks[lk].locked
    ensures var s := After(Next, start, steps).value;
      lk < |s.locks| && (s.locks[lk].locked <==> Holder(start, steps, lk).Some?)
  {
    if steps != [] {
      var before := steps[..|steps| - 1];
      LockedIsHeld(start, before, lk);
      LockedAfter(After(Next, start, before).value, steps[|steps| - 1], lk);
    }
  }

  /** Mutual exclusion: while a process holds a sleep lock, no process comes out of acquiresleep for it. */
  lemma MutualExclusion(start: Sys, steps: seq<Step>, t: Step, lk: nat)
    requires After(Next, start, steps).Some? && lk < |start.locks| && !start.locks[lk].locked
    requires Takes(After(Next, start, steps).value, t, lk)
    ensures Holder(start, steps, lk).None?
  {
    LockedIsHeld(start, steps, lk);
    LockedAfter(After(Next, start, steps).value, t, lk);
  }

  // ---------------------------------------------------------------- the life of a slot

  /** Why slot q, which was x, is y after step t, when its state has changed. */
  predicate Cause(s: Sys, t: Step, q: nat, x: Proc, y: Proc, who: Option<nat>)
    requires who.Some? ==> who.value < |s.procs|
  {
    match (x.state, y.state)
    // allocproc, the failure of fork or clone, and the child of the one or the other made runnable
    case (Unused, Embryo) => t.act.Alloc? && y.pid == s.nextpid
    case (Embryo, Unused) =>
      t.act.Abandon? && who.Some? && s.procs[who.value].pc.Making? && s.procs[who.value].pc.np == q
    case (Embryo, Runnable) =>
      && t.act.Publish? && who.Some? && s.procs[who.value].pc.Making? && s.procs[who.value].pc.np == q
      && y.parent == who && y.pid == x.pid
    // the scheduler, yield, sleep, exit
    case (Runnable, Running) => t.act.SchedTurn? && t.cpu < |s.cpus| && s.cpus[t.cpu] == Scan(q)
    case (Running, Runnable) => t.act.Yield? && who == Some(q)
    case (Running, Sleeping) => (t.act.Look? || t.act.Sleep?) && who == Some(q)
    case (Running, Zombie) => (t.act.Exit? || t.act.ThreadExit?) && who == Some(q)
    // releasesleep of the lock slept on, kill, a child's exit, an exit that hands init a zombie
    case (Sleeping, Runnable) =>
      && who.Some?
      && (|| (t.act.Wake? && s.procs[who.value].pc.Freeing? && x.chan == LockChan(s.procs[who.value].pc.lk))
          || t.act == Kill(x.pid)
          || ((t.act.Exit? || t.act.ThreadExit?) && s.procs[who.value].parent == Some(q))
          || (t.act.Exit? && q == INIT && HasZombie(s.procs, who.value)))
    // wait or join of the parent
    case (Zombie, Unused) => t.act.Look? && who.Some? && x.parent == who
    case _ => false
  }

  /** What the invariant says of the slot and of the process that takes the step. */
  predicate Sane(s: Sys, t: Step, q: nat) {
    && Enabled(s, t) && q < |s.procs| && SlotOk(q, s.procs[q])
    && (Actor(s, t).Some? ==> CpuOk(s, t.cpu))
    && (Actor(s, t).Some? && s.procs[Actor(s, t).value].pc.Making? ==>
          var np := s.procs[Actor(s, t).value].pc.np;
          np < |s.procs| && s.procs[np].state == Embryo)
  }

  predicate Caused(s: Sys, t: Step, q: nat)
    requires Enabled(s, t) && q < |s.procs|
  {
    var x, s' := s.procs[q], Do(s, t);
    && |s'.procs| == |s.procs|
    && (s'.procs[q].state != x.state ==> Cause(s, t, q, x, s'.procs[q], Actor(s, t)))
  }

  lemma ExitCause(s: Sys, t: Step, q: nat)
    requires Sane(s, t, q) && t.act.Exit?
    ensures Caused(s, t, q)
  {
    var p := s.cpus[t.cpu].p;
    var woken := WakeAll(s.procs, ParentChan(s.procs[p]));
    var handed := Reparent(woken, p, INIT);
    assert handed[q].state == woken[q].state && handed[q].chan == woken[q].chan == s.procs[q].chan;
    if HasZombie(woken, p) {
      var i: nat :| i < |woken| && woken[i].parent == Some(p) && woken[i].state == Zombie;
      assert s.procs[i].parent == Some(p) && s.procs[i].state == Zombie;
    }
  }

  lemma ThreadExitCause(s: Sys, t: Step, q: nat)
    requires Sane(s, t, q) && t.act.ThreadExit?
    ensures Caused(s, t, q)
  {
  }

  lemma MakeCause(s: Sys, t: Step, q: nat)
    requires Sane(s, t, q) && (t.act.Alloc? || t.act.Abandon? || t.act.Publish?)
    ensures Caused(s, t, q)
  {
  }

  lemma LookCause(s: Sys, t: Step, q: nat)
    requires Sane(s, t, q) && t.act.Look?
    ensures Caused(s, t, q)
  {
  }

  lemma KillCause(s: Sys, t: Step, q: nat)
    requires Sane(s, t, q) && (t.act.Kill? || t.act.Wake?)
    ensures Caused(s, t, q)
  {
  }

  lemma OwnCause(s: Sys, t: Step, q: nat)
    requires Sane(s, t, q) && !t.act.Exit? && !t.act.ThreadExit?
    requires !t.act.Alloc? && !t.act.Abandon? && !t.act.Publish? && !t.act.Look? && !t.act.Kill? && !t.act.Wake?
    ensures Caused(s, t, q)
  {
  }

  /** A slot changes state only along the edges of the life of a process, each for its own reason. */
  lemma StateChanges(s: Sys, t: Step, q: nat)
    requires Inv(s) && Enabled(s, t) && q < |s.procs|
    ensures |Do(s, t).procs| == |s.procs|
    ensures Do(s, t).procs[q].state != s.procs[q].state ==>
              Cause(s, t, q, s.procs[q], Do(s, t).procs[q], Actor(s, t))
  {
    assert Sane(s, t, q);
    match t.act
    case Exit => ExitCause(s, t, q);
    case ThreadExit => ThreadExitCause(s, t, q);
    case Alloc(_) => MakeCause(s, t, q);
    case Abandon => MakeCause(s, t, q);
    case Publish => MakeCause(s, t, q);
    case Look => LookCause(s, t, q);
    case Kill(_) => KillCause(s, t, q);
    case Wake => KillCause(s, t, q);
    case _ => OwnCause(s, t, q);
  }

  // ---------------------------------------------------------------- kill

  /** kill answers 0 exactly when some slot has the pid, and then a slot with it is marked and does not sleep on. */
  lemma KillExactly(s: Sys, c: nat, pid: int)
    requires Enabled(s, Step(c, Kill(pid)))
    ensures var p, s' := s.cpus[c].p, Do(s, Step(c, Kill(pid)));
      && s'.procs[p].ret == (if exists i | 0 <= i < |s.procs| :: s.procs[i].pid == pid then 0 else -1)
      && (s'.procs[p].ret == -1 ==> s'.procs == s.procs[p := s.procs[p].(ret := -1)])
      && (s'.procs[p].ret == 0 ==> exists q | 0 <= q < |s.procs| :: Struck(s, s', p, q, pid))
  {
    match FirstPid(s.procs, pid, 0)
    case None =>
    case Some(q) => assert Struck(s, Do(s, Step(c, Kill(pid))), s.cpus[c].p, q, pid);
  }

  /** Process p has killed slot q and touched no other. */
  predicate Struck(s: Sys, s': Sys, p: nat, q: nat, pid: int)
    requires q < |s.procs|
  {
    && |s'.procs| == |s.procs| && s.procs[q].pid == pid
    && s'.procs[q].killed && s'.procs[q].state != Sleeping
    && s'.procs[q].pid == pid && s'.procs[q].parent == s.procs[q].parent
    && (s.procs[q].state != Sleeping ==> s'.procs[q].state == s.procs[q].state)
    && forall i | 0 <= i < |s.procs| && i != p && i != q :: s'.procs[i] == s.procs[i]
  }

  /** With a pid that somebody has, that somebody is killed. */
  lemma KillStrikes(s: Sys, c: nat, pid: int, q: nat)
    requires Inv(s) && Enabled(s, Step(c, Kill(pid))) && pid != 0 && q < |s.procs| && s.procs[q].pid == pid
    ensures var s' := Do(s, Step(c, Kill(pid))); s'.procs[q].killed && s'.procs[q].state != Sleeping
  {
    KillExactly(s, c, pid);
    var i :| 0 <= i < |s.procs| && Struck(s, Do(s, Step(c, Kill(pid))), s.cpus[c].p, i, pid);
  }

  // ---------------------------------------------------------------- fork, clone, wait and join

  /** fork and clone answer with the pid of the child they have made ready, which is a child of the caller; a thread
      shares the caller's page directory, a process has a new one. */
  lemma ForkAnswers(s: Sys, c: nat)
    requires Enabled(s, Step(c, Publish))
    ensures var p, s' := s.cpus[c].p, Do(s, Step(c, Publish));
      var np, thread := s.procs[p].pc.np, s.procs[p].pc.thread;
      np != p ==>
        && s'.procs[np].state == Runnable && s'.procs[np].parent == Some(p) && s'.procs[np].isthread == thread
        && s'.procs[p].ret == s'.procs[np].pid == s.procs[np].pid && s'.procs[p].pc == User
        && s'.procs[np].pgdir == (if thread then s.procs[p].pgdir else s.nextdir)
        && s'.nextdir == (if thread then s.nextdir else s.nextdir + 1)
        && forall i | 0 <= i < |s.procs| && i != p && i != np :: s'.procs[i] == s.procs[i]
  {
  }

  /** fork and clone fail at once exactly when no slot is free; otherwise a free slot gets the next pid. */
  lemma AllocAnswers(s: Sys, c: nat, thread: bool)
    requires Inv(s) && Enabled(s, Step(c, Alloc(thread)))
    ensures var p, s' := s.cpus[c].p, Do(s, Step(c, Alloc(thread)));
      if forall i | 0 <= i < |s.procs| :: s.procs[i].state != Unused then
        s' == SetProc(s, p, s.procs[p].(ret := -1))
      else
        && s'.procs[p].pc.Making? && s'.procs[p].pc.thread == thread && s'.procs[p].pc.np < |s.procs|
        && var np := s'.procs[p].pc.np;
           && np != p && s.procs[np].state == Unused && s'.procs[np].state == Embryo
           && s'.procs[np].pid == s.nextpid && s'.nextpid == s.nextpid + 1
           && forall i | 0 <= i < |s.procs| && i != p && i != np :: s'.procs[i] == s.procs[i]
  {
    var p := s.cpus[c].p;
    assert CpuOk(s, c);
    if FirstUnused(s.procs, 0).Some? { assert s.procs[FirstUnused(s.procs, 0).value].state == Unused; }
  }

  /** x is a child of slot p that p waits for: in wait any child, in join(tid) a thread, and if tid is positive the one
      of that pid. */
  predicate Awaited(x: Proc, p: nat, want: Want) {
    && x.parent == Some(p)
    && match want
       case AnyChild => true
       case ThreadOf(tid) => x.isthread && (tid > 0 ==> x.pid == tid)
  }

  /** wait or join has reaped slot q: its pid is the answer, and its slot is free. */
  predicate ReapedBy(s: Sys, s': Sys, p: nat, q: nat) {
    && q < |s.procs| == |s'.procs| && p < |s.procs| && q != p
    && s.procs[q].state == Zombie && s'.procs[q].state == Unused && s'.procs[q].pid == 0
    && s'.procs[q].parent.None? && !s'.procs[q].killed
    && s'.procs[p].ret == s.procs[q].pid && s'.procs[p].pc == User && s'.lock.None?
    && forall i | 0 <= i < |s.procs| && i != p && i != q :: s'.procs[i] == s.procs[i]
  }

  /** A pass of wait or join answers with an awaited zombie if there is one, fails exactly when there is none and the
      caller awaits nobody or was killed, and sleeps otherwise. */
  lemma WaitAnswers(s: Sys, c: nat)
    requires Inv(s) && Enabled(s, Step(c, Look))
    ensures var p, s' := s.cpus[c].p, Do(s, Step(c, Look)); var want := s.procs[p].pc.want;
      if exists q | 0 <= q < |s.procs| :: Awaited(s.procs[q], p, want) && s.procs[q].state == Zombie then
        exists q | 0 <= q < |s.procs| :: Awaited(s.procs[q], p, want) && ReapedBy(s, s', p, q)
      else if s.procs[p].killed || forall q | 0 <= q < |s.procs| :: !Awaited(s.procs[q], p, want) then
        s' == SetProc(s, p, s.procs[p].(ret := -1, pc := User)).(lock := None)
      else
        && s'.procs[p].state == Sleeping && s'.procs[p].chan == ProcChan(p) && s'.procs[p].pc.ToSched?
        && s' == SetProc(s, p, s'.procs[p])
  {
    var p := s.cpus[c].p;
    var want := s.procs[p].pc.want;
    assert CpuOk(s, c);
    forall q | 0 <= q < |s.procs| ensures Matches(s.procs[q], p, want) <==> Awaited(s.procs[q], p, want) {}
    match FirstReady(s.procs, p, want, 0)
    case Some(q) => assert Awaited(s.procs[q], p, want) && ReapedBy(s, Do(s, Step(c, Look)), p, q);
    case None => forall q | 0 <= q < |s.procs| ensures !Ready(s.procs[q], p, want) {}
  }

  // ---------------------------------------------------------------- exit

  predicate HandedOver(x: Proc, y: Proc, parent: Option<nat>, p: nat, q: nat) {
    && y.parent == parent && y.pid == x.pid && (q == p ==> y.state == Zombie)
  }

  lemma ExitSlot(procs: Table, p: nat, q: nat)
    requires p < |procs| && q < |procs| && procs[p].parent != Some(p)
    ensures var x, y := procs[q], ExitTable(procs, p, INIT)[q];
      && HandedOver(x, y, if x.parent == Some(p) then Some(INIT) else x.parent, p, q)
      && (procs[p].parent == Some(q) ==> y.state != Sleeping || y.chan != ProcChan(q))
  {
  }

  lemma ThreadExitSlot(procs: Table, p: nat, q: nat)
    requires p < |procs| && q < |procs| && procs[p].parent != Some(p)
    ensures var x, y := procs[q], ThreadExitTable(procs, p)[q];
      && HandedOver(x, y, x.parent, p, q)
      && (procs[p].parent == Some(q) ==> y.state != Sleeping || y.chan != ProcChan(q))
  {
  }

  /** exit leaves a zombie with its pid and parent, gives every child to init and nobody else a new parent, and leaves
      its own parent awake; thread_exit does the same but leaves the children where they are. */
  lemma ExitHandsOver(s: Sys, t: Step, q: nat)
    requires ParentInv(s) && Enabled(s, t) && (t.act.Exit? || t.act.ThreadExit?) && q < |s.procs|
    ensures var p, s' := s.cpus[t.cpu].p, Do(s, t); var x := s.procs[q];
      && |s'.procs| == |s.procs| && s'.lock == Some(t.cpu)
      && HandedOver(x, s'.procs[q], if t.act.Exit? && x.parent == Some(p) then Some(INIT) else x.parent, p, q)
      && (s.procs[p].parent == Some(q) ==> s'.procs[q].state != Sleeping || s'.procs[q].chan != ProcChan(q))
  {
    var p := s.cpus[t.cpu].p;
    assert s.procs[p].parent != Some(p);
    if t.act.Exit? { ExitSlot(s.procs, p, q); } else { ThreadExitSlot(s.procs, p, q); }
  }
}

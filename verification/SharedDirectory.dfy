/** Why wait must not meet a thread: a run in which it frees the directory its caller is running on. */
module SharedDirectory {
  import opened Common
  import opened ProcTable
  import opened Runs
  import opened Scheduling
  import opened SchedulingRuns

  /** init and its thread, on one CPU. */
  function Pair(x: Proc, y: Proc, cpu: Cpu, lock: Option<nat>): Sys { Sys([x, y], [cpu], lock, 3, [], 2, []) }

  function First(state: State, pc: Place, chan: Chan): Proc { Proc(state, 1, None, chan, false, false, 1, pc, 2) }

  function Thread(state: State, pc: Place): Proc { Proc(state, 2, Some(0), NoChan, false, true, 1, pc, 0) }

  predicate Goes(s: Sys, a: Act, r: Sys) { Enabled(s, Step(0, a)) && Do(s, Step(0, a)) == r }

  lemma Three(start: Sys, s0: Sys, a: Act, s1: Sys, b: Act, s2: Sys, c: Act, s3: Sys)
    requires Reaches(Next, start, s0) && Goes(s0, a, s1) && Goes(s1, b, s2) && Goes(s2, c, s3)
    ensures Reaches(Next, start, s3)
  {
    ReachesNext(Next, start, s0, Step(0, a));
    ReachesNext(Next, start, s1, Step(0, b));
    ReachesNext(Next, start, s2, Step(0, c));
  }

  const FREE: Proc := Proc(Unused, 0, None, NoChan, false, false, 0, At(Gone), 0)
  const BORN: Proc := Proc(Runnable, 1, None, NoChan, false, false, 1, At(Fresh), 0)

  lemma Boots(start: Sys)
    requires start == Start(2, 1, 0)
    ensures Reaches(Next, start, Sys([BORN.(state := Running, pc := User), FREE], [Run(0, 0)], None, 2, [], 2, []))
  {
    assert start == Sys([BORN, FREE], [Idle], None, 2, [], 2, []);
    ReachesItself<Sys, Step>(Next, start);
    Three(start, start,
        SchedLock, Sys([BORN, FREE], [Scan(0)], Some(0), 2, [], 2, []),
        SchedTurn, Sys([BORN.(state := Running), FREE], [Run(0, 0)], Some(0), 2, [], 2, []),
        Resume, Sys([BORN.(state := Running, pc := User), FREE], [Run(0, 0)], None, 2, [], 2, []));
  }

  lemma Clones(start: Sys)
    requires Reaches(Next, start, Sys([BORN.(state := Running, pc := User), FREE], [Run(0, 0)], None, 2, [], 2, []))
    ensures Reaches(Next, start,
        Pair(First(Running, Looking(AnyChild), NoChan), Thread(Runnable, At(Fresh)), Run(0, 0), Some(0)))
  {
    var s0 := Sys([BORN.(state := Running, pc := User), FREE], [Run(0, 0)], None, 2, [], 2, []);
    var s1 := Sys([BORN.(state := Running, pc := Making(1, true)), FREE.(state := Embryo, pid := 2)], [Run(0, 0)], None,
        3, [], 2, []);
    assert FirstUnused(s0.procs, 0) == Some(1);
    assert Goes(s0, Alloc(true), s1);
    Three(start, s0, Alloc(true), s1,
        Publish, Pair(First(Running, User, NoChan), Thread(Runnable, At(Fresh)), Run(0, 0), None),
        Wait(AnyChild),
        Pair(First(Running, Looking(AnyChild), NoChan), Thread(Runnable, At(Fresh)), Run(0, 0), Some(0)));
  }

  lemma Sleeps(start: Sys)
    requires Reaches(Next, start,
        Pair(First(Running, Looking(AnyChild), NoChan), Thread(Runnable, At(Fresh)), Run(0, 0), Some(0)))
    ensures Reaches(Next, start,
        Pair(First(Sleeping, At(WaitBack(AnyChild)), ProcChan(0)), Thread(Running, At(Fresh)), Run(1, 1), Some(0)))
  {
    var s0 := Pair(First(Running, Looking(AnyChild), NoChan), Thread(Runnable, At(Fresh)), Run(0, 0), Some(0));
    assert Matches(s0.procs[1], 0, AnyChild) && FirstReady(s0.procs, 0, AnyChild, 0).None?;
    Three(start, s0,
        Look,
        Pair(First(Sleeping, ToSched(WaitBack(AnyChild)), ProcChan(0)), Thread(Runnable, At(Fresh)), Run(0, 0),
             Some(0)),
        Swtch,
        Pair(First(Sleeping, At(WaitBack(AnyChild)), ProcChan(0)), Thread(Runnable, At(Fresh)), Scan(1), Some(0)),
        SchedTurn,
        Pair(First(Sleeping, At(WaitBack(AnyChild)), ProcChan(0)), Thread(Running, At(Fresh)), Run(1, 1), Some(0)));
  }

  lemma ThreadEnds(start: Sys)
    requires Reaches(Next, start,
        Pair(First(Sleeping, At(WaitBack(AnyChild)), ProcChan(0)), Thread(Running, At(Fresh)), Run(1, 1), Some(0)))
    ensures Reaches(Next, start,
        Pair(First(Runnable, At(WaitBack(AnyChild)), ProcChan(0)), Thread(Zombie, At(Gone)), Scan(2), Some(0)))
  {
    var s1 := Pair(First(Sleeping, At(WaitBack(AnyChild)), ProcChan(0)), Thread(Running, User), Run(1, 1), None);
    assert WakeAll(s1.procs, ProcChan(0)) ==
      [First(Runnable, At(WaitBack(AnyChild)), ProcChan(0)), Thread(Running, User)];
    Three(start,
        Pair(First(Sleeping, At(WaitBack(AnyChild)), ProcChan(0)), Thread(Running, At(Fresh)), Run(1, 1), Some(0)),
        Resume, s1,
        ThreadExit,
        Pair(First(Runnable, At(WaitBack(AnyChild)), ProcChan(0)), Thread(Zombie, ToSched(Gone)), Run(1, 1), Some(0)),
        Swtch,
        Pair(First(Runnable, At(WaitBack(AnyChild)), ProcChan(0)), Thread(Zombie, At(Gone)), Scan(2), Some(0)));
  }

  lemma WakesUp(start: Sys)
    requires Reaches(Next, start,
        Pair(First(Runnable, At(WaitBack(AnyChild)), ProcChan(0)), Thread(Zombie, At(Gone)), Scan(2), Some(0)))
    ensures Reaches(Next, start,
        Pair(First(Running, At(WaitBack(AnyChild)), ProcChan(0)), Thread(Zombie, At(Gone)), Run(0, 0), Some(0)))
  {
    Three(start, Pair(First(Runnable, At(WaitBack(AnyChild)), ProcChan(0)), Thread(Zombie, At(Gone)), Scan(2), Some(0)),
        SchedTurn, Pair(First(Runnable, At(WaitBack(AnyChild)), ProcChan(0)), Thread(Zombie, At(Gone)), Idle, None),
        SchedLock,
        Pair(First(Runnable, At(WaitBack(AnyChild)), ProcChan(0)), Thread(Zombie, At(Gone)), Scan(0), Some(0)),
        SchedTurn,
        Pair(First(Running, At(WaitBack(AnyChild)), ProcChan(0)), Thread(Zombie, At(Gone)), Run(0, 0), Some(0)));
  }

  lemma LooksAgain(start: Sys)
    requires Reaches(Next, start,
        Pair(First(Running, At(WaitBack(AnyChild)), ProcChan(0)), Thread(Zombie, At(Gone)), Run(0, 0), Some(0)))
    ensures Reaches(Next, start,
        Pair(First(Running, Looking(AnyChild), NoChan), Thread(Zombie, At(Gone)), Run(0, 0), Some(0)))
  {
    var s0 := Pair(First(Running, At(WaitBack(AnyChild)), ProcChan(0)), Thread(Zombie, At(Gone)), Run(0, 0), Some(0));
    assert Goes(s0, Resume,
        Pair(First(Running, Looking(AnyChild), NoChan), Thread(Zombie, At(Gone)), Run(0, 0), Some(0)));
    ReachesNext(Next, start, s0, Step(0, Resume));
  }

  lemma WholeRun(start: Sys)
    requires start == Start(2, 1, 0)
    ensures Reaches(Next, start,
        Pair(First(Running, Looking(AnyChild), NoChan), Thread(Zombie, At(Gone)), Run(0, 0), Some(0)))
  {
    Boots(start);
    Clones(start);
    Sleeps(start);
    ThreadEnds(start);
    WakesUp(start);
    LooksAgain(start);
  }

  /** init runs on a directory that has been freed. */
  predicate RunsOnFreed(s: Sys) { INIT < |s.procs| && s.procs[INIT].state == Running && s.procs[INIT].pgdir in s.freed }

  /** init clones a thread and calls wait instead of join: wait frees the directory that init is running on. */
  lemma WaitFreesSharedDirectory()
    ensures exists s :: Reachable(s) && RunsOnFreed(s)
  {
    var start := Start(2, 1, 0);
    WholeRun(start);
    var s1 := Pair(First(Running, Looking(AnyChild), NoChan), Thread(Zombie, At(Gone)), Run(0, 0), Some(0));
    LastLook(s1);
    ReachesNext(Next, start, s1, Step(0, Look));
    assert Reachable(Do(s1, Step(0, Look)));
  }

  lemma LastLook(s: Sys)
    requires s == Pair(First(Running, Looking(AnyChild), NoChan), Thread(Zombie, At(Gone)), Run(0, 0), Some(0))
    ensures Enabled(s, Step(0, Look))
    ensures RunsOnFreed(Do(s, Step(0, Look)))
  {
    assert !Ready(s.procs[0], 0, AnyChild) && Ready(s.procs[1], 0, AnyChild);
    assert FirstReady(s.procs, 0, AnyChild, 0) == Some(1);
  }
}

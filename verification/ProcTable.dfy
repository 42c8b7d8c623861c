/** The process table and what the critical sections of ptable.lock do to it. */
module ProcTable {
  import opened Common

  datatype State = Unused | Embryo | Sleeping | Runnable | Running | Zombie

  /** What a process can sleep on: itself in wait and join, or a sleep lock. */
  datatype Chan = NoChan | ProcChan(slot: nat) | LockChan(lk: nat)

  /** wait takes any child; join takes threads, or with a positive argument the one thread of that pid. */
  datatype Want = AnyChild | ThreadOf(wanted: int)

  /** Where swtch left a process: in forkret, yield, the sleep of wait or join, the sleep of a sleep lock, or never
      to return. */
  datatype Saved = Fresh | YieldBack | WaitBack(want: Want) | LockBack(lk: nat) | Gone

  /** Where a process is in the kernel.
      At: not running, or just switched to and still holding ptable.lock.   ToSched: its state is set, about to swtch.
      User: outside all of this.   Making: between allocproc and the last critical section of fork or clone.
      Looking: in the loop of wait or join.   Testing .. Reacquire: in acquiresleep.   Freeing: in releasesleep. */
  datatype Place = At(ctx: Saved) | ToSched(ctx: Saved) | User | Making(np: nat, thread: bool) | Looking(want: Want)
    | Testing(lk: nat) | WantTable(lk: nat) | Both(lk: nat) | Going(lk: nat) | Reacquire(lk: nat) | Freeing(lk: nat)

  datatype Proc = Proc(state: State, pid: nat, parent: Option<nat>, chan: Chan, killed: bool, isthread: bool,
                       pgdir: nat, pc: Place, ret: int)

  type Table = seq<Proc>

  // ---------------------------------------------------------------- wakeup1

  function Woken(p: Proc, chan: Chan): Proc {
    if p.state == Sleeping && p.chan == chan then p.(state := Runnable) else p
  }

  function WakeAll(procs: Table, chan: Chan): (r: Table)
    ensures |r| == |procs|
  {
    seq(|procs|, i requires 0 <= i < |procs| => Woken(procs[i], chan))
  }

  // ---------------------------------------------------------------- wait and join

  /** p is a child of slot cur that the caller waits for. */
  predicate Matches(p: Proc, cur: nat, want: Want) {
    p.parent == Some(cur) && (want.AnyChild? || (p.isthread && (want.wanted <= 0 || p.pid == want.wanted)))
  }

  predicate Ready(p: Proc, cur: nat, want: Want) { Matches(p, cur, want) && p.state == Zombie }

  /** The first slot from k on that satisfies Ready. */
  function FirstReady(procs: Table, cur: nat, want: Want, k: nat): (r: Option<nat>)
    requires k <= |procs|
    ensures r.Some? ==> k <= r.value < |procs| && Ready(procs[r.value], cur, want)
    ensures r.Some? ==> forall i | k <= i < r.value :: !Ready(procs[i], cur, want)
    ensures r.None? ==> forall i | k <= i < |procs| :: !Ready(procs[i], cur, want)
    decreases |procs| - k
  {
    if k == |procs| then None else if Ready(procs[k], cur, want) then Some(k) else FirstReady(procs, cur, want, k + 1)
  }

  predicate HaveKids(procs: Table, cur: nat, want: Want) { exists i | 0 <= i < |procs| :: Matches(procs[i], cur, want) }

  /** The slot after it is reaped.  wait leaves the thread mark and the directory pointer. */
  function Reaped(p: Proc, want: Want): Proc {
    var q := p.(state := Unused, pid := 0, parent := None, killed := false);
    if want.AnyChild? then q else q.(isthread := false, pgdir := 0)
  }

  // ---------------------------------------------------------------- exit

  function Adopted(p: Proc, cur: nat, init: nat): Proc { if p.parent == Some(cur) then p.(parent := Some(init)) else p }

  function Reparent(procs: Table, cur: nat, init: nat): (r: Table)
    ensures |r| == |procs|
  {
    seq(|procs|, i requires 0 <= i < |procs| => Adopted(procs[i], cur, init))
  }

  function ParentChan(p: Proc): Chan { if p.parent.Some? then ProcChan(p.parent.value) else NoChan }

  /** exit's critical section up to sched. */
  function ExitTable(procs: Table, cur: nat, init: nat): (r: Table)
    requires cur < |procs|
    ensures |r| == |procs|
  {
    var woken := WakeAll(procs, ParentChan(procs[cur]));
    var handed := Reparent(woken, cur, init);
    var all := if HasZombie(woken, cur) then WakeAll(handed, ProcChan(init)) else handed;
    all[cur := all[cur].(state := Zombie, pc := ToSched(Gone))]
  }

  predicate HasZombie(procs: Table, cur: nat) {
    exists i | 0 <= i < |procs| :: procs[i].parent == Some(cur) && procs[i].state == Zombie
  }

  function ThreadExitTable(procs: Table, cur: nat): (r: Table)
    requires cur < |procs|
    ensures |r| == |procs|
  {
    var woken := WakeAll(procs, ParentChan(procs[cur]));
    woken[cur := woken[cur].(state := Zombie, pc := ToSched(Gone))]
  }

  // ---------------------------------------------------------------- allocproc, kill

  function FirstUnused(procs: Table, k: nat): (r: Option<nat>)
    requires k <= |procs|
    ensures r.Some? ==>
      && k <= r.value < |procs| && procs[r.value].state == Unused
      && forall i | k <= i < r.value :: procs[i].state != Unused
    ensures r.None? ==> forall i | k <= i < |procs| :: procs[i].state != Unused
    decreases |procs| - k
  {
    if k == |procs| then None else if procs[k].state == Unused then Some(k) else FirstUnused(procs, k + 1)
  }

  function FirstPid(procs: Table, pid: int, k: nat): (r: Option<nat>)
    requires k <= |procs|
    ensures r.Some? ==>
      k <= r.value < |procs| && procs[r.value].pid == pid && forall i | k <= i < r.value :: procs[i].pid != pid
    ensures r.None? ==> forall i | k <= i < |procs| :: procs[i].pid != pid
    decreases |procs| - k
  {
    if k == |procs| then None else if procs[k].pid == pid then Some(k) else FirstPid(procs, pid, k + 1)
  }

  function Killed(p: Proc): Proc { p.(killed := true, state := if p.state == Sleeping then Runnable else p.state) }
}

/** The loops over ptable.proc, as the kernel runs them with ptable.lock held. */
module ProcScans {
  import opened Common
  import opened ProcTable

  /** How a pass of wait or join ends. */
  datatype Pass = Reap(pid: nat) | GiveUp | Block

  class Ptable {
    var procs: Table
    var nextpid: nat
    /** Arguments of freevm, in order. */
    var freed: seq<nat>

    method Wakeup1(chan: Chan)
      modifies `procs
      ensures procs == WakeAll(old(procs), chan)
    {
      var k := 0;
      while k < |procs|
        invariant |procs| == |old(procs)| && k <= |procs|
        invariant forall i | 0 <= i < |procs| :: procs[i] == if i < k then Woken(old(procs)[i], chan) else old(procs)[i]
      {
        if procs[k].state == Sleeping && procs[k].chan == chan {
          procs := procs[k := procs[k].(state := Runnable)];
        }
        k := k + 1;
      }
    }

    /** allocproc's critical section. */
    method Allocate() returns (r: Option<nat>)
      modifies `procs, `nextpid
      ensures r == FirstUnused(old(procs), 0)
      ensures r.None? ==> procs == old(procs) && nextpid == old(nextpid)
      ensures r.Some? ==> nextpid == old(nextpid) + 1
      ensures r.Some? ==>
        procs == old(procs)[r.value := old(procs)[r.value].(state := Embryo, pid := old(nextpid), isthread := false)]
    {
      var k := 0;
      while k < |procs|
        invariant k <= |procs| && procs == old(procs) && nextpid == old(nextpid)
        invariant FirstUnused(procs, 0) == FirstUnused(procs, k)
      {
        if procs[k].state == Unused {
          procs := procs[k := procs[k].(state := Embryo, pid := nextpid, isthread := false)];
          nextpid := nextpid + 1;
          return Some(k);
        }
        k := k + 1;
      }
      return None;
    }

    /** kill: 0 if some slot has the pid, else -1. */
    method Kill(pid: int) returns (ret: int)
      modifies `procs
      ensures match FirstPid(old(procs), pid, 0)
        case Some(q) => ret == 0 && procs == old(procs)[q := Killed(old(procs)[q])]
        case None => ret == -1 && procs == old(procs)
      ensures ret == 0 ==>
        exists q | 0 <= q < |procs| :: procs[q].pid == pid && procs[q].killed && procs[q].state != Sleeping
    {
      var k := 0;
      while k < |procs|
        invariant k <= |procs| && procs == old(procs) && FirstPid(procs, pid, 0) == FirstPid(procs, pid, k)
      {
        if procs[k].pid == pid {
          procs := procs[k := procs[k].(killed := true)];
          if procs[k].state == Sleeping { procs := procs[k := procs[k].(state := Runnable)]; }
          assert procs[k].pid == pid && procs[k].killed && procs[k].state != Sleeping;
          return 0;
        }
        k := k + 1;
      }
      return -1;
    }

    /** One pass of the loop of wait (want is AnyChild) or join. */
    method Look(cur: nat, want: Want) returns (r: Pass)
      requires cur < |procs|
      modifies `procs, `freed
      ensures match FirstReady(old(procs), cur, want, 0)
        case Some(q) =>
          && r == Reap(old(procs)[q].pid) && procs == old(procs)[q := Reaped(old(procs)[q], want)]
          && freed == if want.AnyChild? then old(freed) + [old(procs)[q].pgdir] else old(freed)
        case None =>
          && procs == old(procs) && freed == old(freed)
          && r == if !HaveKids(procs, cur, want) || procs[cur].killed then GiveUp else Block
    {
      var havekids := false;
      var k := 0;
      while k < |procs|
        invariant k <= |procs| && procs == old(procs) && freed == old(freed)
        invariant FirstReady(procs, cur, want, 0) == FirstReady(procs, cur, want, k)
        invariant havekids <==> exists i | 0 <= i < k :: Matches(procs[i], cur, want)
      {
        if Matches(procs[k], cur, want) {
          havekids := true;
          if procs[k].state == Zombie {
            var pid := procs[k].pid;
            if want.AnyChild? {
              freed := freed + [procs[k].pgdir];
              procs := procs[k := procs[k].(pid := 0, parent := None, killed := false, state := Unused)];
            } else {
              procs := procs[k := procs[k].(pid := 0, parent := None, pgdir := 0, killed := false, isthread := false,
                  state := Unused)];
            }
            return Reap(pid);
          }
        }
        k := k + 1;
      }
      if !havekids || procs[cur].killed { return GiveUp; }
      return Block;
    }

    /** exit's critical section: the parent is woken before the children are handed to init, and a zombie child
        wakes init. */
    method Exit(cur: nat, init: nat)
      requires cur < |procs|
      modifies `procs
      ensures procs == ExitTable(old(procs), cur, init)
    {
      Wakeup1(ParentChan(procs[cur]));
      HandOver(cur, init);
      procs := procs[cur := procs[cur].(state := Zombie, pc := ToSched(Gone))];
    }

    method HandOver(cur: nat, init: nat)
      modifies `procs
      ensures procs ==
        if HasZombie(old(procs), cur) then WakeAll(Reparent(old(procs), cur, init), ProcChan(init))
        else Reparent(old(procs), cur, init)
    {
      ghost var was := procs;
      var k := 0;
      ghost var seen := false;
      while k < |procs|
        invariant |procs| == |was| && k <= |was|
        invariant seen <==> exists i | 0 <= i < k :: was[i].parent == Some(cur) && was[i].state == Zombie
        invariant forall i | 0 <= i < |was| :: procs[i] == Midway(was[i], cur, init, i < k, seen)
      {
        if procs[k].parent == Some(cur) {
          procs := procs[k := procs[k].(parent := Some(init))];
          if procs[k].state == Zombie {
            Wakeup1(ProcChan(init));
            seen := true;
          }
        }
        k := k + 1;
      }
    }

    method ThreadExit(cur: nat)
      requires cur < |procs|
      modifies `procs
      ensures procs == ThreadExitTable(old(procs), cur)
    {
      Wakeup1(ParentChan(procs[cur]));
      procs := procs[cur := procs[cur].(state := Zombie, pc := ToSched(Gone))];
    }
  }

  /** A slot while exit hands children over: done if the loop has passed it, woken if init has been. */
  function Midway(x: Proc, cur: nat, init: nat, done: bool, woken: bool): Proc {
    var y := if done then Adopted(x, cur, init) else x;
    if woken then Woken(y, ProcChan(init)) else y
  }
}

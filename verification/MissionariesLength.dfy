/** No schedule of the missionaries program goes on forever: sleepers are woken only as often as permits are posted. */
module MissionariesLength {
  import opened Common
  import opened Missionaries

  /** How far a thread is from its end, not counting the times it may be woken. */
  function Rank(p: Pc): nat {
    match p
    case Start => 12
    case Arriving => 11
    case Posting(_, crossed) => if crossed then 1 else 10
    case Wanting => 9
    case Sleeping => 8
    case Permitted => 7
    case Boarding => 6
    case Leaving(_) => 5
    case Rowing(_) => 4
    case Rowed => 3
    case Resetting => 2
    case Done => 0
  }

  /** Permits a thread may cause to be posted: one for itself before it is counted, those it is posting after. */
  function Owing(p: Pc): nat {
    match p
    case Start => 1
    case Arriving => 1
    case Posting(left, _) => left.m + left.c
    case _ => 0
  }

  function Ranks(pc: seq<Pc>): nat { if pc == [] then 0 else Ranks(pc[..|pc| - 1]) + Rank(pc[|pc| - 1]) }

  function Owed(pc: seq<Pc>): nat { if pc == [] then 0 else Owed(pc[..|pc| - 1]) + Owing(pc[|pc| - 1]) }

  /** Permits still to be posted. */
  function ToCome(s: State): nat { s.sh.waiting.m + s.sh.waiting.c + Owed(s.pc) }

  function Unprinted(s: State): nat { if Pass in s.out then 0 else 1 }

  lemma {:induction false} SumsUpdate(pc: seq<Pc>, t: nat, p: Pc)
    requires t < |pc|
    ensures Ranks(pc[t := p]) + Rank(pc[t]) == Ranks(pc) + Rank(p)
    ensures Owed(pc[t := p]) + Owing(pc[t]) == Owed(pc) + Owing(p)
  {
    var n := |pc| - 1;
    if t == n {
      assert pc[t := p][..n] == pc[..n];
    } else {
      assert pc[t := p][..n] == pc[..n][t := p];
      SumsUpdate(pc[..n], t, p);
    }
  }

  /** Waking everybody costs each of them at most one step more. */
  lemma {:induction false} SumsWake(kinds: seq<Kind>, pc: seq<Pc>, k: Kind)
    requires |kinds| == |pc|
    ensures Ranks(WakeAll(kinds, pc, k)) <= Ranks(pc) + |pc| && Owed(WakeAll(kinds, pc, k)) == Owed(pc)
  {
    if pc != [] {
      var n := |pc| - 1;
      assert WakeAll(kinds, pc, k)[..n] == WakeAll(kinds[..n], pc[..n], k);
      SumsWake(kinds[..n], pc[..n], k);
    }
  }

  predicate Posts(s: State, t: nat) { t < |s.pc| && s.pc[t].Posting? && s.pc[t].left != NOBODY }

  /** Posting a permit. */
  lemma PostCosts(s: State, t: nat)
    requires WellFormed(s) && CanStep(s, t) && Posts(s, t)
    ensures var r := Step(s, t);
      ToCome(r) + 1 == ToCome(s) && Ranks(r.pc) <= Ranks(s.pc) + |s.pc| && Unprinted(r) == Unprinted(s)
  {
    var k := if s.pc[t].left.m > 0 then M else C;
    SumsWake(s.kinds, s.pc, k);
    assert WakeAll(s.kinds, s.pc, k)[t] == s.pc[t];
    SumsUpdate(WakeAll(s.kinds, s.pc, k), t, Step(s, t).pc[t]);
  }

  lemma StepCosts(s: State, t: nat)
    requires WellFormed(s) && CanStep(s, t) && t < |s.pc| && !Posts(s, t)
    ensures var r := Step(s, t);
      ToCome(r) == ToCome(s) && Ranks(r.pc) < Ranks(s.pc) && Unprinted(r) == Unprinted(s)
  {
    SumsUpdate(s.pc, t, Step(s, t).pc[t]);
  }

  /** Steps a run from s can still take. */
  function Limit(s: State): nat { (|s.pc| + 1) * ToCome(s) + Ranks(s.pc) + Unprinted(s) }

  lemma PassCosts(s: State)
    requires WellFormed(s) && CanStep(s, |s.pc|)
    ensures var r := Step(s, |s.pc|);
      r.sh == s.sh && r.pc == s.pc && Unprinted(r) < Unprinted(s)
  {
    assert (s.out + [Pass])[|s.out|] == Pass;
  }

  lemma Less(n: nat, a: nat, b: nat)
    requires a + 1 == b
    ensures (n + 1) * a + n + 1 == (n + 1) * b
  {
  }

  lemma LimitDrops(s: State, t: nat)
    requires WellFormed(s) && CanStep(s, t)
    ensures Limit(Step(s, t)) < Limit(s)
  {
    if Posts(s, t) {
      PostCosts(s, t);
      Less(|s.pc|, ToCome(Step(s, t)), ToCome(s));
    } else if t < |s.pc| {
      StepCosts(s, t);
    } else {
      PassCosts(s);
    }
  }

  lemma {:induction false} RunsEnd(s: State, sched: seq<nat>)
    requires WellFormed(s) && Feasible(s, sched)
    ensures |sched| + Limit(Run(s, sched)) <= Limit(s)
    decreases |sched|
  {
    if sched != [] {
      LimitDrops(s, sched[0]);
      RunsEnd(Step(s, sched[0]), sched[1..]);
    }
  }

  lemma {:induction false} SumsAtStart(n: nat)
    ensures Ranks(seq(n, _ => Start)) == 12 * n && Owed(seq(n, _ => Start)) == n
  {
    if n > 0 {
      assert seq(n, _ => Start)[..n - 1] == seq(n - 1, _ => Start);
      SumsAtStart(n - 1);
    }
  }

  function Longest(n: nat): nat { n * n + 13 * n + 1 }

  lemma LimitAtStart(kinds: seq<Kind>)
    ensures Limit(Initial(kinds)) == (|kinds| + 1) * |kinds| + 12 * |kinds| + 1
  {
    SumsAtStart(|kinds|);
    assert Initial(kinds).pc == seq(|kinds|, _ => Start);
  }

  lemma Square(n: nat)
    ensures (n + 1) * n + 12 * n + 1 == Longest(n)
  {
  }

  /** No schedule is longer than that. */
  lemma EverySchedule(kinds: seq<Kind>, sched: seq<nat>)
    requires Feasible(Initial(kinds), sched)
    ensures |sched| <= Longest(|kinds|)
  {
    RunsEnd(Initial(kinds), sched);
    LimitAtStart(kinds);
    Square(|kinds|);
  }
}

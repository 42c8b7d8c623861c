/** How runs of the missionaries program can end. */
module MissionariesEnds {
  import opened Common
  import opened Missionaries
  import opened MissionariesLength
  import opened MissionariesSafety

  // ---------------------------------------------------------------- where a run can end

  /** No passenger thread can move. */
  ghost predicate Stuck(s: State)
    requires WellFormed(s)
  {
    forall t | 0 <= t < |s.pc| :: !CanStep(s, t)
  }

  function NumLeft(kinds: seq<Kind>, pc: seq<Pc>, k: Kind): nat
    requires |kinds| == |pc|
  {
    if |pc| == 0 then 0
    else NumLeft(kinds[..|pc| - 1], pc[..|pc| - 1], k) + if kinds[|pc| - 1] == k && !pc[|pc| - 1].Done? then 1 else 0
  }

  /** Passengers that have not finished, by kind. */
  function Remaining(s: State): Pair
    requires WellFormed(s)
  {
    Pair(NumLeft(s.kinds, s.pc, M), NumLeft(s.kinds, s.pc, C))
  }

  lemma {:induction false} LeftAreQueued(kinds: seq<Kind>, pc: seq<Pc>, k: Kind)
    requires |kinds| == |pc|
    requires forall i | 0 <= i < |pc| :: pc[i].Sleeping? || pc[i].Done?
    ensures NumLeft(kinds, pc, k) == Num(kinds, pc, k, Queued)
    ensures Num(kinds, pc, k, Ashore) == Num(kinds, pc, k, Holding) == 0
  {
    if |pc| > 0 {
      var n := |pc| - 1;
      LeftAreQueued(kinds[..n], pc[..n], k);
    }
  }

  /** With nobody able to move, mu is free, everyone is asleep or finished and no permit is left over. */
  lemma StuckShape(s: State)
    requires Inv(s) && Stuck(s)
    ensures s.mu.None? && !s.sh.busy
    ensures forall t | 0 <= t < |s.pc| :: s.pc[t].Sleeping? || s.pc[t].Done?
    ensures Remaining(s) == s.sh.waiting && !CanForm(Remaining(s))
    ensures forall k :: NumKind(s.kinds, k) == Remaining(s).Of(k) + Seats(s.out, k)
  {
    if s.mu.Some? { assert CanStep(s, s.mu.value); }
    forall t | 0 <= t < |s.pc| ensures s.pc[t].Sleeping? || s.pc[t].Done? { assert !CanStep(s, t); }
    forall k ensures s.permits.Of(k) == 0 && Num(s.kinds, s.pc, k, Holding) == 0
    {
      assert QueueInv(s, k) && WakeInv(s, k);
      LeftAreQueued(s.kinds, s.pc, k);
      if s.permits.Of(k) > 0 { NumNone(s.kinds, s.pc, k, Queued); }
    }
    assert s.permits.Of(M) == s.permits.Of(C) == 0;
    assert LoadInv(s, M) && LoadInv(s, C);
    CrewSplits(if s.sh.busy then Crew(s.out) else []);
    forall k ensures NumLeft(s.kinds, s.pc, k) == s.sh.waiting.Of(k)
                  && NumKind(s.kinds, k) == NumLeft(s.kinds, s.pc, k) + Seats(s.out, k)
    {
      assert QueueInv(s, k) && SeatInv(s, k);
      LeftAreQueued(s.kinds, s.pc, k);
      NumTotal(s.kinds, s.pc, k);
    }
    assert NumLeft(s.kinds, s.pc, M) == s.sh.waiting.Of(M) && NumLeft(s.kinds, s.pc, C) == s.sh.waiting.Of(C);
  }

  /** A party of the given kinds splits into a mixed boats, b boats of missionaries, d boats of cannibals
      and the passengers left. */
  predicate Splits(kinds: seq<Kind>, left: Pair, a: nat, b: nat, d: nat) {
    NumKind(kinds, M) == left.m + 2 * a + 3 * b && NumKind(kinds, C) == left.c + a + 3 * d
  }

  // ---------------------------------------------------------------- building schedules

  ghost predicate Reaches(s: State, r: State)
    requires WellFormed(s)
  {
    exists sched :: Feasible(s, sched) && Run(s, sched) == r
  }

  lemma {:induction false} RunAppend(s: State, x: seq<nat>, y: seq<nat>)
    requires WellFormed(s) && Feasible(s, x) && Feasible(Run(s, x), y)
    ensures Feasible(s, x + y) && Run(s, x + y) == Run(Run(s, x), y)
    decreases |x|
  {
    if x == [] {
      assert x + y == y;
    } else {
      assert (x + y)[1..] == x[1..] + y;
      RunAppend(Step(s, x[0]), x[1..], y);
    }
  }

  lemma ReachRefl(s: State)
    requires WellFormed(s)
    ensures Reaches(s, s)
  {
    assert Feasible(s, []) && Run(s, []) == s;
  }

  lemma ReachStep(s: State, t: nat)
    requires WellFormed(s) && CanStep(s, t)
    ensures Reaches(s, Step(s, t))
  {
    var sched := [t];
    assert sched[0] == t && sched[1..] == [];
    assert Feasible(Step(s, t), []) && Run(Step(s, t), []) == Step(s, t);
    assert Feasible(s, sched);
    assert Run(s, sched) == Step(s, t);
  }

  lemma ReachTrans(s: State, r: State, q: State)
    requires WellFormed(s) && WellFormed(r) && Reaches(s, r) && Reaches(r, q)
    ensures Reaches(s, q)
  {
    var x :| Feasible(s, x) && Run(s, x) == r;
    var y :| Feasible(r, y) && Run(r, y) == q;
    RunAppend(s, x, y);
  }

  /** Extends a run by one step. */
  lemma ReachNext(s: State, r: State, t: nat)
    requires WellFormed(s) && WellFormed(r) && Reaches(s, r) && CanStep(r, t)
    ensures Reaches(s, Step(r, t))
  {
    ReachStep(r, t);
    ReachTrans(s, r, Step(r, t));
  }

  predicate NoSleepers(pc: seq<Pc>) { forall i | 0 <= i < |pc| :: !pc[i].Sleeping? }

  lemma ArriveQuietly(s: State, t: nat) returns (r: State)
    requires WellFormed(s) && t < |s.pc| && s.pc[t].Start? && s.mu.None?
    requires !s.sh.busy && s.sh.boat == NOBODY && !CanForm(s.sh.waiting.Add(s.kinds[t]))
    ensures WellFormed(r) && Reaches(s, r)
    ensures r == s.(pc := s.pc[t := Wanting], sh := s.sh.(waiting := s.sh.waiting.Add(s.kinds[t])), out := r.out)
  {
    ReachStep(s, t);
    r := Step(s, t);
    ReachNext(s, r, t);
    r := Step(r, t);
    ReachNext(s, r, t);
    r := Step(r, t);
    assert r.pc == s.pc[t := Wanting];
  }

  lemma {:induction false} PostAll(s: State, t: nat) returns (r: State)
    requires WellFormed(s) && t < |s.pc| && s.pc[t].Posting? && NoSleepers(s.pc)
    ensures WellFormed(r) && Reaches(s, r)
    ensures r == s.(pc := s.pc[t := Posting(NOBODY, s.pc[t].crossed)],
                    permits := Pair(s.permits.m + s.pc[t].left.m, s.permits.c + s.pc[t].left.c))
    decreases s.pc[t].left.m + s.pc[t].left.c
  {
    var left := s.pc[t].left;
    if left == NOBODY {
      ReachRefl(s);
      r := s;
      assert r.pc == s.pc[t := Posting(NOBODY, s.pc[t].crossed)];
    } else {
      ReachStep(s, t);
      var s1 := Step(s, t);
      var k := if left.m > 0 then M else C;
      assert WakeAll(s.kinds, s.pc, k) == s.pc;
      r := PostAll(s1, t);
      ReachTrans(s, s1, r);
      assert r.pc == s.pc[t := Posting(NOBODY, s.pc[t].crossed)];
    }
  }

  lemma ArriveAndSelect(s: State, t: nat) returns (r: State)
    requires WellFormed(s) && t < |s.pc| && s.pc[t].Start? && s.mu.None?
    requires !s.sh.busy && Legal(s.sh.waiting.Add(s.kinds[t]))
    ensures WellFormed(r) && Reaches(s, r)
    ensures r == s.(pc := s.pc[t := Posting(s.sh.waiting.Add(s.kinds[t]), false)], mu := Some(t),
                    sh := Shared(NOBODY, true, 0, s.sh.boatNo + 1, s.sh.waiting.Add(s.kinds[t])), out := r.out)
  {
    ReachStep(s, t);
    var q := Step(s, t);
    ReachNext(s, q, t);
    r := Step(q, t);
    assert r.pc == s.pc[t := Posting(s.sh.waiting.Add(s.kinds[t]), false)];
  }

  lemma ArriveAndForm(s: State, t: nat) returns (r: State)
    requires WellFormed(s) && t < |s.pc| && s.pc[t].Start? && s.mu.None? && NoSleepers(s.pc)
    requires !s.sh.busy && s.permits == NOBODY && Legal(s.sh.waiting.Add(s.kinds[t]))
    ensures WellFormed(r) && Reaches(s, r)
    ensures r == s.(pc := s.pc[t := Wanting], permits := s.sh.waiting.Add(s.kinds[t]),
                    sh := Shared(NOBODY, true, 0, s.sh.boatNo + 1, s.sh.waiting.Add(s.kinds[t])), out := r.out)
  {
    var q := ArriveAndSelect(s, t);
    var p := PostAll(q, t);
    ReachTrans(s, q, p);
    assert p.pc == s.pc[t := Posting(NOBODY, false)];
    ReachNext(s, p, t);
    r := Step(p, t);
    assert r.pc == s.pc[t := Wanting];
  }

  lemma TakePermit(s: State, t: nat) returns (r: State)
    requires WellFormed(s) && t < |s.pc| && s.pc[t].Wanting? && s.permits.Of(s.kinds[t]) > 0
    ensures WellFormed(r) && Reaches(s, r)
    ensures r == s.(pc := s.pc[t := Permitted], permits := s.permits.Drop(s.kinds[t]))
  {
    ReachStep(s, t);
    r := Step(s, t);
  }

  lemma BoardEarly(s: State, t: nat) returns (r: State)
    requires WellFormed(s) && t < |s.pc| && s.pc[t].Permitted? && s.mu.None? && s.sh.boarded < 2
    ensures WellFormed(r) && Reaches(s, r)
    ensures r == s.(pc := s.pc[t := Done], sh := s.sh.(boarded := s.sh.boarded + 1), out := r.out)
  {
    ReachStep(s, t);
    r := Step(s, t);
    ReachNext(s, r, t);
    r := Step(r, t);
    ReachNext(s, r, t);
    r := Step(r, t);
    assert r.pc == s.pc[t := Done];
  }

  lemma RowAndReset(s: State, t: nat) returns (r: State)
    requires WellFormed(s) && t < |s.pc| && s.pc[t].Rowing? && s.mu.None? && s.sh.waiting == NOBODY
    ensures WellFormed(r) && Reaches(s, r)
    ensures r == s.(pc := s.pc[t := Done], sh := Shared(NOBODY, false, 0, s.sh.boatNo, NOBODY), out := r.out)
  {
    ReachStep(s, t);
    r := Step(s, t);
    ReachNext(s, r, t);
    r := Step(r, t);
    ReachNext(s, r, t);
    r := Step(r, t);
    assert r.pc == s.pc[t := Posting(NOBODY, true)];
    ReachNext(s, r, t);
    r := Step(r, t);
    assert r.pc == s.pc[t := Done];
  }

  lemma BoardLast(s: State, t: nat) returns (r: State)
    requires WellFormed(s) && t < |s.pc| && s.pc[t].Permitted? && s.mu.None?
    requires s.sh.boarded == 2 && s.sh.waiting == NOBODY
    ensures WellFormed(r) && Reaches(s, r)
    ensures r == s.(pc := s.pc[t := Done], sh := Shared(NOBODY, false, 0, s.sh.boatNo, NOBODY), out := r.out)
  {
    ReachStep(s, t);
    r := Step(s, t);
    ReachNext(s, r, t);
    r := Step(r, t);
    ReachNext(s, r, t);
    r := Step(r, t);
    assert r.pc == s.pc[t := Rowing(Trip(s.sh.boatNo, s.sh.boat))];
    var q := RowAndReset(r, t);
    ReachTrans(s, r, q);
    assert q.pc == s.pc[t := Done];
    r := q;
  }

  /** Between boats: nobody waits, no permit exists, everyone is either not yet started or finished. */
  predicate Idle(s: State) {
    && WellFormed(s)
    && s.mu.None? && s.permits == NOBODY
    && s.sh.waiting == NOBODY && !s.sh.busy && s.sh.boarded == 0 && s.sh.boat == NOBODY
    && forall i | 0 <= i < |s.pc| :: s.pc[i].Start? || s.pc[i].Done?
  }

  predicate ThreeOf(s: State, x: nat, y: nat, z: nat) {
    x < |s.pc| && y < |s.pc| && z < |s.pc| && x != y && y != z && x != z
  }

  function All3(pc: seq<Pc>, x: nat, y: nat, z: nat, p: Pc): seq<Pc>
    requires x < |pc| && y < |pc| && z < |pc|
  {
    pc[x := p][y := p][z := p]
  }

  lemma All3Again(pc: seq<Pc>, x: nat, y: nat, z: nat, p: Pc, q: Pc)
    requires x < |pc| && y < |pc| && z < |pc|
    ensures All3(All3(pc, x, y, z, p), x, y, z, q) == All3(pc, x, y, z, q)
  {
  }

  function Party(s: State, x: nat, y: nat, z: nat): Pair
    requires WellFormed(s) && ThreeOf(s, x, y, z)
  {
    NOBODY.Add(s.kinds[x]).Add(s.kinds[y]).Add(s.kinds[z])
  }

  lemma Gather(s: State, x: nat, y: nat, z: nat) returns (r: State)
    requires Idle(s) && ThreeOf(s, x, y, z) && Legal(Party(s, x, y, z))
    requires s.pc[x].Start? && s.pc[y].Start? && s.pc[z].Start?
    ensures WellFormed(r) && Reaches(s, r)
    ensures r == s.(pc := All3(s.pc, x, y, z, Wanting), permits := Party(s, x, y, z),
                    sh := Shared(NOBODY, true, 0, s.sh.boatNo + 1, Party(s, x, y, z)), out := r.out)
  {
    var q := ArriveQuietly(s, x);
    var p := ArriveQuietly(q, y);
    ReachTrans(s, q, p);
    r := ArriveAndForm(p, z);
    ReachTrans(s, p, r);
  }

  lemma ThreeDrops(a: Kind, b: Kind, c: Kind)
    ensures var p := NOBODY.Add(a).Add(b).Add(c);
      p.Of(a) > 0 && p.Drop(a).Of(b) > 0 && p.Drop(a).Drop(b).Of(c) > 0 && p.Drop(a).Drop(b).Drop(c) == NOBODY
  {
  }

  lemma TakeAll(s: State, x: nat, y: nat, z: nat) returns (r: State)
    requires WellFormed(s) && ThreeOf(s, x, y, z) && s.permits == Party(s, x, y, z)
    requires s.pc[x].Wanting? && s.pc[y].Wanting? && s.pc[z].Wanting?
    ensures WellFormed(r) && Reaches(s, r)
    ensures r == s.(pc := All3(s.pc, x, y, z, Permitted), permits := NOBODY)
  {
    ThreeDrops(s.kinds[x], s.kinds[y], s.kinds[z]);
    var q := TakePermit(s, x);
    var p := TakePermit(q, y);
    ReachTrans(s, q, p);
    r := TakePermit(p, z);
    ReachTrans(s, p, r);
  }

  lemma BoardAll(s: State, x: nat, y: nat, z: nat) returns (r: State)
    requires WellFormed(s) && ThreeOf(s, x, y, z) && s.mu.None? && s.sh.boarded == 0 && s.sh.waiting == NOBODY
    requires s.pc[x].Permitted? && s.pc[y].Permitted? && s.pc[z].Permitted?
    ensures WellFormed(r) && Reaches(s, r)
    ensures r == s.(pc := All3(s.pc, x, y, z, Done), sh := Shared(NOBODY, false, 0, s.sh.boatNo, NOBODY), out := r.out)
  {
    var q := BoardEarly(s, x);
    var p := BoardEarly(q, y);
    ReachTrans(s, q, p);
    r := BoardLast(p, z);
    ReachTrans(s, p, r);
  }

  /** From an idle state any three threads that make a legal boat can cross while the others do nothing. */
  lemma Ferry(s: State, x: nat, y: nat, z: nat) returns (r: State)
    requires Idle(s) && ThreeOf(s, x, y, z) && Legal(Party(s, x, y, z))
    requires s.pc[x].Start? && s.pc[y].Start? && s.pc[z].Start?
    ensures Idle(r) && Reaches(s, r)
    ensures r.kinds == s.kinds && r.pc == All3(s.pc, x, y, z, Done)
  {
    var q := Gather(s, x, y, z);
    var p := TakeAll(q, x, y, z);
    ReachTrans(s, q, p);
    r := BoardAll(p, x, y, z);
    ReachTrans(s, p, r);
    All3Again(s.pc, x, y, z, Wanting, Permitted);
    All3Again(s.pc, x, y, z, Permitted, Done);
  }

  lemma ArriveAndSleep(s: State, t: nat) returns (r: State)
    requires WellFormed(s) && t < |s.pc| && s.pc[t].Start? && s.mu.None? && s.permits == NOBODY
    requires !s.sh.busy && s.sh.boat == NOBODY && !CanForm(s.sh.waiting.Add(s.kinds[t]))
    ensures WellFormed(r) && Reaches(s, r)
    ensures r == s.(pc := s.pc[t := Sleeping], sh := s.sh.(waiting := s.sh.waiting.Add(s.kinds[t])), out := r.out)
  {
    var q := ArriveQuietly(s, t);
    ReachNext(s, q, t);
    r := Step(q, t);
    assert r.pc == s.pc[t := Sleeping];
  }

  /** Between boats as in Idle, but passengers may already be asleep. */
  predicate Quiet(s: State) {
    && WellFormed(s)
    && s.mu.None? && s.permits == NOBODY && !s.sh.busy && s.sh.boat == NOBODY
    && forall i | 0 <= i < |s.pc| :: s.pc[i].Start? || s.pc[i].Sleeping? || s.pc[i].Done?
  }

  /** Those waiting and those still to come. */
  function Expected(s: State): Pair
    requires WellFormed(s)
  {
    Pair(s.sh.waiting.m + Num(s.kinds, s.pc, M, Ashore), s.sh.waiting.c + Num(s.kinds, s.pc, C, Ashore))
  }

  lemma StrandOne(s: State, t: nat) returns (r: State)
    requires Quiet(s) && !CanForm(Expected(s)) && t < |s.pc| && s.pc[t].Start?
    ensures Quiet(r) && Reaches(s, r) && Expected(r) == Expected(s)
    ensures Num(r.kinds, r.pc, M, Ashore) + Num(r.kinds, r.pc, C, Ashore)
          < Num(s.kinds, s.pc, M, Ashore) + Num(s.kinds, s.pc, C, Ashore)
  {
    NumUpdate(s.kinds, s.pc, t, Sleeping, M, Ashore);
    NumUpdate(s.kinds, s.pc, t, Sleeping, C, Ashore);
    r := ArriveAndSleep(s, t);
  }

  /** When those waiting and those still to come together cannot fill a boat, they all end up asleep. */
  lemma {:induction false} Strand(s: State) returns (r: State)
    requires Quiet(s) && !CanForm(Expected(s))
    ensures WellFormed(r) && Reaches(s, r) && Stuck(r) && r.sh.waiting == Expected(s)
    decreases Num(s.kinds, s.pc, M, Ashore) + Num(s.kinds, s.pc, C, Ashore)
  {
    if t :| 0 <= t < |s.pc| && s.pc[t].Start? {
      var q := StrandOne(s, t);
      r := Strand(q);
      ReachTrans(s, q, r);
    } else {
      r := s;
      ReachRefl(s);
      NumNone(s.kinds, s.pc, M, Ashore);
      NumNone(s.kinds, s.pc, C, Ashore);
    }
  }

  lemma PickStart(s: State, k: Kind) returns (t: nat)
    requires Idle(s) && Num(s.kinds, s.pc, k, Ashore) > 0
    ensures t < |s.pc| && s.pc[t].Start? && s.kinds[t] == k
    ensures forall k' ::
      Num(s.kinds, s.pc[t := Done], k', Ashore) == Num(s.kinds, s.pc, k', Ashore) - if k' == k then 1 else 0
  {
    if forall i | 0 <= i < |s.pc| && s.kinds[i] == k :: StageOf(s.pc[i]) != Ashore {
      NumNone(s.kinds, s.pc, k, Ashore);
    }
    t :| 0 <= t < |s.pc| && s.kinds[t] == k && StageOf(s.pc[t]) == Ashore;
    forall k' ensures Num(s.kinds, s.pc[t := Done], k', Ashore)
                   == Num(s.kinds, s.pc, k', Ashore) - if k' == k then 1 else 0
    {
      NumUpdate(s.kinds, s.pc, t, Done, k', Ashore);
    }
  }

  /** One boat of the given make-up crosses, if there are enough passengers for it. */
  lemma FerryOne(s: State, boat: Pair) returns (r: State)
    requires Idle(s) && Legal(boat)
    requires boat.m <= Num(s.kinds, s.pc, M, Ashore) && boat.c <= Num(s.kinds, s.pc, C, Ashore)
    ensures Idle(r) && Reaches(s, r) && r.kinds == s.kinds
    ensures Num(r.kinds, r.pc, M, Ashore) == Num(s.kinds, s.pc, M, Ashore) - boat.m
    ensures Num(r.kinds, r.pc, C, Ashore) == Num(s.kinds, s.pc, C, Ashore) - boat.c
  {
    var k1 := if boat.m > 0 then M else C;
    var k3 := if boat.c > 0 then C else M;
    var x := PickStart(s, k1);
    var s1 := s.(pc := s.pc[x := Done]);
    var y := PickStart(s1, k1);
    var s2 := s1.(pc := s1.pc[y := Done]);
    var z := PickStart(s2, k3);
    r := Ferry(s, x, y, z);
  }

  /** Any way to split the party into legal boats and a rest that fills no boat is realised by some schedule. */
  lemma {:induction false} Realise(s: State, left: Pair, a: nat, b: nat, d: nat) returns (r: State)
    requires Idle(s) && !CanForm(left)
    requires Num(s.kinds, s.pc, M, Ashore) == left.m + 2 * a + 3 * b
    requires Num(s.kinds, s.pc, C, Ashore) == left.c + a + 3 * d
    ensures WellFormed(r) && Reaches(s, r) && Stuck(r) && r.sh.waiting == left
    decreases a + b + d
  {
    if a + b + d == 0 {
      r := Strand(s);
    } else {
      var q;
      if a > 0 {
        q := FerryOne(s, Pair(2, 1));
        r := Realise(q, left, a - 1, b, d);
      } else if b > 0 {
        q := FerryOne(s, Pair(3, 0));
        r := Realise(q, left, a, b - 1, d);
      } else {
        q := FerryOne(s, Pair(0, 3));
        r := Realise(q, left, a, b, d - 1);
      }
      ReachTrans(s, q, r);
    }
  }

  /** A run can end with exactly `left` passengers stranded. */
  ghost predicate CanStrand(kinds: seq<Kind>, left: Pair) {
    exists sched :: Feasible(Initial(kinds), sched)
                 && Stuck(Run(Initial(kinds), sched)) && Remaining(Run(Initial(kinds), sched)) == left
  }

  ghost predicate CanSplit(kinds: seq<Kind>, left: Pair) {
    exists a: nat, b: nat, d: nat :: Splits(kinds, left, a, b, d)
  }

  /** Exactly which passengers can be left behind when nobody can move any more: those that fill no legal
      boat while the rest of the party splits into legal boats. */
  lemma StrandedExactly(kinds: seq<Kind>, left: Pair)
    ensures CanStrand(kinds, left) <==> !CanForm(left) && CanSplit(kinds, left)
  {
    InitialInv(kinds);
    var s := Initial(kinds);
    if CanStrand(kinds, left) {
      var sched :| Feasible(s, sched) && Stuck(Run(s, sched)) && Remaining(Run(s, sched)) == left;
      RunKeepsInv(s, sched);
      var r := Run(s, sched);
      StuckShape(r);
      assert NumKind(kinds, M) == left.Of(M) + Seats(r.out, M) && NumKind(kinds, C) == left.Of(C) + Seats(r.out, C);
      assert Splits(kinds, left, NumBoats(r.out, Pair(2, 1)), NumBoats(r.out, Pair(3, 0)), NumBoats(r.out, Pair(0, 3)));
    }
    if !CanForm(left) && CanSplit(kinds, left) {
      var a: nat, b: nat, d: nat :| Splits(kinds, left, a, b, d);
      AllStart(kinds, M);
      AllStart(kinds, C);
      var r := Realise(s, left, a, b, d);
      var sched :| Feasible(s, sched) && Run(s, sched) == r;
      RunKeepsInv(s, sched);
      StuckShape(r);
    }
  }

  lemma AllStart(kinds: seq<Kind>, k: Kind)
    ensures Num(kinds, Initial(kinds).pc, k, Ashore) == NumKind(kinds, k)
  {
    var pc := Initial(kinds).pc;
    NumTotal(kinds, pc, k);
    NumNone(kinds, pc, k, Queued);
    NumNone(kinds, pc, k, Holding);
    NumNone(kinds, pc, k, Crossed);
  }

  /** Every schedule comes to an end, and when nobody can move everyone has crossed. */
  ghost predicate AlwaysFinishes(kinds: seq<Kind>) {
    forall sched | Feasible(Initial(kinds), sched) ::
      && |sched| <= Longest(|kinds|)
      && (Stuck(Run(Initial(kinds), sched)) ==> Remaining(Run(Initial(kinds), sched)) == NOBODY)
  }

  /** Parties of m missionaries and c cannibals for which the greedy boat choice cannot go wrong. */
  predicate GoodParty(m: nat, c: nat) {
    && (m + c) % 3 == 0
    && !(m % 3 == 0 && m > 0 && c >= 3)
    && !(m % 3 == 1 && c >= 2)
    && !(m % 3 == 2 && m >= 5 && c >= 4)
  }

  lemma SplitExists(m: nat, c: nat) returns (left: Pair, a: nat, b: nat, d: nat)
    ensures !CanForm(left) && m == left.m + 2 * a + 3 * b && c == left.c + a + 3 * d
  {
    b, d := m / 3, c / 3;
    if m % 3 == 2 && c % 3 >= 1 {
      left, a := Pair(0, c % 3 - 1), 1;
    } else {
      left, a := Pair(m % 3, c % 3), 0;
    }
  }

  /** One missionary and two cannibals can be left exactly for the parties GoodParty shuts out. */
  lemma StrandArithmetic(m: nat, c: nat, a: nat, b: nat, d: nat)
    requires m == 1 + 2 * a + 3 * b && c == 2 + a + 3 * d
    ensures !GoodParty(m, c)
  {
    assert m + c == 3 * (1 + a + b + d);
    var q := a / 3;
    if a % 3 == 0 {
      assert m == 1 + 3 * (2 * q + b);
    } else if a % 3 == 1 {
      assert m == 3 * (1 + 2 * q + b);
    } else {
      assert m == 2 + 3 * (1 + 2 * q + b);
    }
  }

  /** In every reachable state with mu free and no boat under way, those waiting fill no legal boat. */
  lemma NoBoatMissed(kinds: seq<Kind>, sched: seq<nat>)
    requires Feasible(Initial(kinds), sched)
    ensures var r := Run(Initial(kinds), sched);
      r.mu.None? && !r.sh.busy ==> !CanForm(r.sh.waiting)
  {
    InitialInv(kinds);
    RunKeepsInv(Initial(kinds), sched);
  }

  /** If boats of three could take the whole party, then nobody is left behind or one missionary and two cannibals. */
  lemma LeftOfThree(kinds: seq<Kind>, left: Pair)
    requires |kinds| % 3 == 0 && CanStrand(kinds, left)
    ensures left == NOBODY || left == Pair(1, 2)
  {
    StrandedExactly(kinds, left);
    KindsAddUp(kinds);
    var a: nat, b: nat, d: nat :| Splits(kinds, left, a, b, d);
    assert |kinds| == left.m + left.c + 3 * (a + b + d);
  }

  lemma GoodPartyFinishes(kinds: seq<Kind>, left: Pair)
    requires GoodParty(NumKind(kinds, M), NumKind(kinds, C)) && CanStrand(kinds, left)
    ensures left == NOBODY
  {
    StrandedExactly(kinds, left);
    var a: nat, b: nat, d: nat :| Splits(kinds, left, a, b, d);
    assert NumKind(kinds, M) + NumKind(kinds, C) == left.m + left.c + 3 * (a + b + d);
    if left == Pair(1, 2) { StrandArithmetic(NumKind(kinds, M), NumKind(kinds, C), a, b, d); }
  }

  /** The program gets everyone across on every schedule exactly when the party is a good one.  Six
      missionaries and six cannibals are not: some schedules leave one missionary and two cannibals. */
  lemma FinishesExactly(kinds: seq<Kind>)
    ensures AlwaysFinishes(kinds) <==> GoodParty(NumKind(kinds, M), NumKind(kinds, C))
  {
    var m, c := NumKind(kinds, M), NumKind(kinds, C);
    if GoodParty(m, c) {
      forall sched | Feasible(Initial(kinds), sched)
        ensures |sched| <= Longest(|kinds|)
        ensures Stuck(Run(Initial(kinds), sched)) ==> Remaining(Run(Initial(kinds), sched)) == NOBODY
      {
        EverySchedule(kinds, sched);
        if Stuck(Run(Initial(kinds), sched)) { GoodPartyFinishes(kinds, Remaining(Run(Initial(kinds), sched))); }
      }
    } else {
      var left, a, b, d := BadSplit(m, c);
      assert Splits(kinds, left, a, b, d);
      StrandedExactly(kinds, left);
      assert CanStrand(kinds, left);
    }
  }

  lemma BadSplit(m: nat, c: nat) returns (left: Pair, a: nat, b: nat, d: nat)
    requires !GoodParty(m, c)
    ensures left != NOBODY && !CanForm(left) && m == left.m + 2 * a + 3 * b && c == left.c + a + 3 * d
  {
    if (m + c) % 3 != 0 {
      left, a, b, d := SplitExists(m, c);
      assert m + c == left.m + left.c + 3 * (a + b + d);
    } else {
      left := Pair(1, 2);
      a := if m % 3 == 1 then 0 else if m % 3 == 0 then 1 else 2;
      b, d := (m - 1 - 2 * a) / 3, (c - 2 - a) / 3;
    }
  }

  lemma {:induction false} BoatsAddUp(out: seq<Line>)
    requires forall q | 0 <= q < |out| && out[q].Selected? :: Legal(out[q].boat)
    ensures Seats(out, M) + Seats(out, C) == 3 * NumSelected(out)
  {
    if out != [] { BoatsAddUp(out[..|out| - 1]); }
  }

  lemma {:induction false} KindsAddUp(kinds: seq<Kind>)
    ensures NumKind(kinds, M) + NumKind(kinds, C) == |kinds|
  {
    if kinds != [] { KindsAddUp(kinds[..|kinds| - 1]); }
  }

  lemma {:induction false} NobodyLeft(kinds: seq<Kind>, pc: seq<Pc>, k: Kind)
    requires |kinds| == |pc| && forall t | 0 <= t < |pc| :: pc[t].Done?
    ensures NumLeft(kinds, pc, k) == 0
  {
    if |pc| > 0 { NobodyLeft(kinds[..|pc| - 1], pc[..|pc| - 1], k); }
  }

  lemma OnlyLegalBoats(s: State)
    requires OutputOk(s.kinds, s.out)
    ensures Seats(s.out, M) + Seats(s.out, C) == 3 * NumSelected(s.out)
  {
    forall q | 0 <= q < |s.out| && s.out[q].Selected? ensures Legal(s.out[q].boat) {
      assert SelectedOk(s.out, q);
    }
    BoatsAddUp(s.out);
  }

  lemma AllDone(s: State)
    requires Inv(s) && forall t | 0 <= t < |s.pc| :: s.pc[t].Done?
    ensures Remaining(s) == NOBODY
    ensures s.sh.boatNo == NumRows(s.out) == NumSelected(s.out) && 3 * s.sh.boatNo == |s.kinds|
  {
    StuckShape(s);
    NobodyLeft(s.kinds, s.pc, M);
    NobodyLeft(s.kinds, s.pc, C);
    OnlyLegalBoats(s);
    KindsAddUp(s.kinds);
    assert NumKind(s.kinds, M) == Remaining(s).Of(M) + Seats(s.out, M);
    assert NumKind(s.kinds, C) == Remaining(s).Of(C) + Seats(s.out, C);
  }

  /** When the PASS line is printed every passenger has crossed, in boats of three that have all rowed; a
      party of twelve has taken four boats. */
  lemma PassMeansAllCrossed(kinds: seq<Kind>, sched: seq<nat>)
    requires Feasible(Initial(kinds), sched) && Pass in Run(Initial(kinds), sched).out
    ensures var r := Run(Initial(kinds), sched);
      && Remaining(r) == NOBODY
      && r.sh.boatNo == NumRows(r.out) == NumSelected(r.out)
      && 3 * r.sh.boatNo == |kinds|
  {
    InitialInv(kinds);
    RunKeepsInv(Initial(kinds), sched);
    AllDone(Run(Initial(kinds), sched));
  }
}

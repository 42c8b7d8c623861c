/** What every schedule of the missionaries program keeps, and the safety of its output. */
module MissionariesSafety {
  import opened Common
  import opened Missionaries

  // ---------------------------------------------------------------- counting threads

  datatype Stage = Ashore | Queued | Holding | Crossed

  function StageOf(p: Pc): Stage {
    match p
    case Start => Ashore
    case Arriving => Ashore
    case Posting(_, crossed) => if crossed then Crossed else Queued
    case Wanting => Queued
    case Sleeping => Queued
    case Permitted => Holding
    case Boarding => Holding
    case _ => Crossed
  }

  function Hit(k': Kind, p: Pc, k: Kind, st: Stage): nat { if k' == k && StageOf(p) == st then 1 else 0 }

  /** Number of threads of kind k at stage st. */
  function Num(kinds: seq<Kind>, pc: seq<Pc>, k: Kind, st: Stage): nat
    requires |kinds| == |pc|
  {
    if |pc| == 0 then 0
    else Num(kinds[..|pc| - 1], pc[..|pc| - 1], k, st) + Hit(kinds[|pc| - 1], pc[|pc| - 1], k, st)
  }

  function NumKind(kinds: seq<Kind>, k: Kind): nat {
    if kinds == [] then 0 else NumKind(kinds[..|kinds| - 1], k) + if kinds[|kinds| - 1] == k then 1 else 0
  }

  lemma {:induction false} NumUpdate(kinds: seq<Kind>, pc: seq<Pc>, t: nat, p: Pc, k: Kind, st: Stage)
    requires |kinds| == |pc| && t < |pc|
    ensures Num(kinds, pc[t := p], k, st) ==
      Num(kinds, pc, k, st) - Hit(kinds[t], pc[t], k, st) + Hit(kinds[t], p, k, st)
    ensures Num(kinds, pc, k, st) >= Hit(kinds[t], pc[t], k, st)
  {
    var n := |pc| - 1;
    if t == n {
      assert pc[t := p][..n] == pc[..n];
    } else {
      assert pc[t := p][..n] == pc[..n][t := p];
      NumUpdate(kinds[..n], pc[..n], t, p, k, st);
    }
  }

  lemma {:induction false} NumSameStages(kinds: seq<Kind>, pc: seq<Pc>, pc': seq<Pc>, k: Kind, st: Stage)
    requires |kinds| == |pc| == |pc'|
    requires forall i | 0 <= i < |pc| :: StageOf(pc[i]) == StageOf(pc'[i])
    ensures Num(kinds, pc, k, st) == Num(kinds, pc', k, st)
  {
    if |pc| > 0 {
      var n := |pc| - 1;
      NumSameStages(kinds[..n], pc[..n], pc'[..n], k, st);
    }
  }

  lemma {:induction false} NumNone(kinds: seq<Kind>, pc: seq<Pc>, k: Kind, st: Stage)
    requires |kinds| == |pc|
    requires forall i | 0 <= i < |pc| && kinds[i] == k :: StageOf(pc[i]) != st
    ensures Num(kinds, pc, k, st) == 0
  {
    if |pc| > 0 {
      var n := |pc| - 1;
      NumNone(kinds[..n], pc[..n], k, st);
    }
  }

  lemma {:induction false} NumTotal(kinds: seq<Kind>, pc: seq<Pc>, k: Kind)
    requires |kinds| == |pc|
    ensures Num(kinds, pc, k, Ashore) + Num(kinds, pc, k, Queued) + Num(kinds, pc, k, Holding)
          + Num(kinds, pc, k, Crossed)
         == NumKind(kinds, k)
  {
    if |pc| > 0 {
      var n := |pc| - 1;
      NumTotal(kinds[..n], pc[..n], k);
    }
  }

  // ---------------------------------------------------------------- the invariant

  /** Permits a boat still owes: what the holder of mu has not posted yet. */
  function ToPost(s: State): Pair
    requires WellFormed(s)
  {
    if s.mu.Some? && s.mu.value < |s.pc| && s.pc[s.mu.value].Posting? then s.pc[s.mu.value].left else NOBODY
  }

  predicate Rower(p: Pc) { p.Rowing? || p.Rowed? || p.Resetting? || (p.Leaving? && p.last.Some?) }

  function TripOf(p: Pc, sh: Shared): Trip
    requires Rower(p)
  {
    match p
    case Leaving(last) => last.value
    case Rowing(trip) => trip
    case _ => Trip(sh.boatNo, sh.boat)
  }

  ghost predicate MutexInv(s: State)
    requires WellFormed(s)
  {
    && (s.mu.Some? ==> s.mu.value < |s.pc|)
    && forall t | 0 <= t < |s.pc| :: HoldsMu(s.pc[t]) <==> s.mu == Some(t)
  }

  /** Every queued passenger is either still waiting or matched by a permit, posted or about to be. */
  ghost predicate QueueInv(s: State, k: Kind)
    requires WellFormed(s)
  {
    Num(s.kinds, s.pc, k, Queued) == s.sh.waiting.Of(k) + s.permits.Of(k) + ToPost(s).Of(k)
  }

  /** No permit is available while a passenger of its kind is asleep. */
  ghost predicate WakeInv(s: State, k: Kind)
    requires WellFormed(s)
  {
    s.permits.Of(k) > 0 ==> forall t | 0 <= t < |s.pc| && s.kinds[t] == k :: !s.pc[t].Sleeping?
  }

  /** Permits in existence: held by a thread, available, or about to be posted. */
  function Issued(s: State, k: Kind): nat
    requires WellFormed(s)
  {
    Num(s.kinds, s.pc, k, Holding) + s.permits.Of(k) + ToPost(s).Of(k)
  }

  /** All permits in existence belong to the boat being loaded. */
  ghost predicate LoadInv(s: State, k: Kind)
    requires WellFormed(s)
  {
    Issued(s, k) + (if s.sh.busy then OfKind(Crew(s.out), k) else 0) == s.sh.boat.Of(k)
  }

  function Seats(out: seq<Line>, k: Kind): nat {
    if k.M? then 2 * NumBoats(out, Pair(2, 1)) + 3 * NumBoats(out, Pair(3, 0))
    else NumBoats(out, Pair(2, 1)) + 3 * NumBoats(out, Pair(0, 3))
  }

  /** Every seat of every boat selected so far is taken or reserved by a permit. */
  ghost predicate SeatInv(s: State, k: Kind)
    requires WellFormed(s)
  {
    Num(s.kinds, s.pc, k, Crossed) + Issued(s, k) == Seats(s.out, k)
  }

  ghost predicate BoatInv(s: State) {
    && (s.sh.busy ==> Legal(s.sh.boat))
    && (!s.sh.busy ==> s.sh.boat == NOBODY && s.sh.boarded == 0 && !CanForm(s.sh.waiting))
    && s.sh.boarded <= 3
  }

  ghost predicate RowerInv(s: State) {
    && (forall t | 0 <= t < |s.pc| && Rower(s.pc[t]) ::
         s.sh.busy && s.sh.boarded == 3 && TripOf(s.pc[t], s.sh) == Trip(s.sh.boatNo, s.sh.boat))
    && (forall t, u | 0 <= t < u < |s.pc| :: !(Rower(s.pc[t]) && Rower(s.pc[u])))
    && (s.sh.busy && s.sh.boarded == 3 ==> exists t :: 0 <= t < |s.pc| && Rower(s.pc[t]))
  }

  predicate RowPrinted(p: Pc) { p.Rowed? || p.Resetting? }

  /** The globals agree with the lines printed for the current boat. */
  ghost predicate CrewInv(s: State) {
    && NumSelected(s.out) == s.sh.boatNo
    && (s.sh.busy ==>
         && LastSelected(s.out) == Some(Trip(s.sh.boatNo, s.sh.boat))
         && |Crew(s.out)| == s.sh.boarded
         && (forall i | 0 <= i < |Crew(s.out)| :: Crew(s.out)[i].Boards? && Crew(s.out)[i].no == s.sh.boatNo))
  }

  ghost predicate RowDone(pc: seq<Pc>) { exists t :: 0 <= t < |pc| && RowPrinted(pc[t]) }

  ghost predicate RowsInv(s: State) {
    NumRows(s.out) == s.sh.boatNo - if s.sh.busy && !RowDone(s.pc) then 1 else 0
  }

  ghost predicate IdInv(s: State) {
    && (forall i | 0 <= i < |s.out| && s.out[i].Boards? :: s.out[i].id < |s.pc| && StageOf(s.pc[s.out[i].id]).Crossed?)
    && (Pass in s.out ==> forall t | 0 <= t < |s.pc| :: s.pc[t].Done?)
  }

  ghost predicate Inv(s: State) {
    && WellFormed(s)
    && MutexInv(s)
    && (forall k :: QueueInv(s, k) && WakeInv(s, k))
    && (forall k :: LoadInv(s, k) && SeatInv(s, k))
    && BoatInv(s)
    && RowerInv(s)
    && CrewInv(s) && RowsInv(s) && IdInv(s)
    && OutputOk(s.kinds, s.out)
  }

  // ---------------------------------------------------------------- every step keeps the invariant

  /** Appending a line that fits keeps the output correct. */
  lemma OutputGrows(kinds: seq<Kind>, out: seq<Line>, l: Line)
    requires OutputOk(kinds, out)
    requires l.Row? ==> RowOk(out + [l], |out|)
    requires l.Selected? ==> SelectedOk(out + [l], |out|)
    requires l.Boards? ==> l.id < |kinds| && l.kind == kinds[l.id]
    requires l.Boards? ==> forall i | 0 <= i < |out| && out[i].Boards? :: out[i].id != l.id
    ensures OutputOk(kinds, out + [l])
  {
    var out' := out + [l];
    forall r | 0 <= r < |out'| && out'[r].Row? ensures RowOk(out', r) {
      if r < |out| { assert out'[..r] == out[..r]; assert RowOk(out, r); }
    }
    forall q | 0 <= q < |out'| && out'[q].Selected? ensures SelectedOk(out', q) {
      if q < |out| { assert out'[..q] == out[..q]; assert SelectedOk(out, q); }
    }
  }

  lemma MutexKept(s: State, t: nat)
    requires WellFormed(s) && MutexInv(s) && CanStep(s, t)
    ensures MutexInv(Step(s, t))
  {
  }

  /** A step changes the stage of the moving thread only: waking a sleeper leaves it queued. */
  lemma StagesAfter(s: State, t: nat, k: Kind, st: Stage)
    requires WellFormed(s) && t < |s.pc| && CanStep(s, t)
    ensures Num(s.kinds, Step(s, t).pc, k, st)
         == Num(s.kinds, s.pc, k, st) - Hit(s.kinds[t], s.pc[t], k, st) + Hit(s.kinds[t], Step(s, t).pc[t], k, st)
    ensures Num(s.kinds, s.pc, k, st) >= Hit(s.kinds[t], s.pc[t], k, st)
  {
    var p := Step(s, t).pc[t];
    NumUpdate(s.kinds, s.pc, t, p, k, st);
    NumSameStages(s.kinds, Step(s, t).pc, s.pc[t := p], k, st);
  }

  lemma WakeKept(s: State, t: nat, k: Kind)
    requires WellFormed(s) && WakeInv(s, k) && CanStep(s, t)
    ensures WakeInv(Step(s, t), k)
  {
  }

  lemma ToPostBefore(s: State, t: nat)
    requires WellFormed(s) && MutexInv(s) && t < |s.pc|
    ensures s.pc[t].Posting? ==> ToPost(s) == s.pc[t].left
    ensures HoldsMu(s.pc[t]) && !s.pc[t].Posting? ==> ToPost(s) == NOBODY
    ensures s.mu.None? ==> ToPost(s) == NOBODY
  {
  }

  lemma ToPostAfterStep(s: State, t: nat)
    requires WellFormed(s) && MutexInv(s) && t < |s.pc| && CanStep(s, t)
    ensures Step(s, t).pc[t].Posting? ==> ToPost(Step(s, t)) == Step(s, t).pc[t].left
    ensures !Step(s, t).pc[t].Posting? && (HoldsMu(s.pc[t]) || s.mu.None?) ==> ToPost(Step(s, t)) == NOBODY
    ensures !Step(s, t).pc[t].Posting? && !HoldsMu(s.pc[t]) && s.mu.Some? ==> ToPost(Step(s, t)) == ToPost(s)
  {
    MutexKept(s, t);
  }

  predicate TakesPermit(s: State, t: nat)
    requires WellFormed(s) && t < |s.pc|
  {
    s.pc[t].Wanting? && s.permits.Of(s.kinds[t]) > 0
  }

  lemma QueuedAfter(s: State, t: nat, k: Kind)
    requires WellFormed(s) && t < |s.pc| && CanStep(s, t)
    ensures Num(s.kinds, Step(s, t).pc, k, Queued) == Num(s.kinds, s.pc, k, Queued)
              + (if s.pc[t].Arriving? && s.kinds[t] == k then 1 else 0)
              - (if TakesPermit(s, t) && s.kinds[t] == k then 1 else 0)
  {
    StagesAfter(s, t, k, Queued);
  }

  lemma QueueKept(s: State, t: nat, k: Kind)
    requires WellFormed(s) && MutexInv(s) && QueueInv(s, k) && CanStep(s, t)
    ensures QueueInv(Step(s, t), k)
  {
    if t < |s.pc| {
      QueuedAfter(s, t, k);
      ToPostBefore(s, t);
      ToPostAfterStep(s, t);
    }
  }

  lemma Appended(out: seq<Line>, l: Line)
    ensures NumSelected(out + [l]) == NumSelected(out) + if l.Selected? then 1 else 0
    ensures NumRows(out + [l]) == NumRows(out) + if l.Row? then 1 else 0
    ensures forall b :: NumBoats(out + [l], b) == NumBoats(out, b) + if l.Selected? && l.boat == b then 1 else 0
    ensures Crew(out + [l]) == if l.Selected? then [] else if l.Boards? then Crew(out) + [l] else Crew(out)
    ensures LastSelected(out + [l]) == if l.Selected? then Some(Trip(l.no, l.boat)) else LastSelected(out)
  {
    assert (out + [l])[..|out|] == out;
  }

  lemma CrewSnoc(crew: seq<Line>, l: Line, k: Kind)
    ensures OfKind(crew + [l], k) == OfKind(crew, k) + if l.Boards? && l.kind == k then 1 else 0
  {
    assert (crew + [l])[..|crew|] == crew;
  }

  lemma {:induction false} CrewSplits(crew: seq<Line>)
    requires forall i | 0 <= i < |crew| :: crew[i].Boards?
    ensures OfKind(crew, M) + OfKind(crew, C) == |crew|
  {
    if crew != [] { CrewSplits(crew[..|crew| - 1]); }
  }

  /** With three aboard, no permit of the boat is left anywhere. */
  lemma FullBoat(s: State)
    requires WellFormed(s) && BoatInv(s) && CrewInv(s) && s.sh.busy && s.sh.boarded == 3
    requires LoadInv(s, M) && LoadInv(s, C)
    ensures Issued(s, M) == Issued(s, C) == 0
  {
    CrewSplits(Crew(s.out));
  }

  /** The globals as try_form_boat finds them, in the two sections that call it. */
  function BeforeForming(s: State, t: nat): Shared
    requires WellFormed(s) && t < |s.pc|
  {
    if s.pc[t].Arriving? then s.sh.(waiting := s.sh.waiting.Add(s.kinds[t]))
    else s.sh.(busy := false, boarded := 0, boat := NOBODY)
  }

  predicate Selects(s: State, t: nat)
    requires WellFormed(s) && t < |s.pc|
  {
    (s.pc[t].Arriving? || s.pc[t].Resetting?) && Forms(BeforeForming(s, t))
  }

  /** What one step adds to the output. */
  lemma LinesAfter(s: State, t: nat)
    requires WellFormed(s) && t < |s.pc| && CanStep(s, t)
    ensures var s' := Step(s, t);
      var base := if s.pc[t].Arriving? then s.out + [Arrives(s.kinds[t], t)] else s.out;
      s'.out == if Selects(s, t) then base + [Selected(s'.sh.boatNo, s'.sh.boat)]
                else if s.pc[t].Boarding? then base + [Boards(s.kinds[t], t, s.sh.boatNo, s.sh.boarded + 1)]
                else if s.pc[t].Rowing? then
                  base + [Row(s.pc[t].trip.no, s.pc[t].trip.boat, !(s.pc[t].trip.boat == Pair(1, 2)))]
                else base
  {
  }

  /** The effect of a step on the functions that read the output. */
  lemma TalliesAfter(s: State, t: nat)
    requires WellFormed(s) && t < |s.pc| && CanStep(s, t)
    ensures var s' := Step(s, t);
      && NumSelected(s'.out) == NumSelected(s.out) + (if Selects(s, t) then 1 else 0)
      && NumRows(s'.out) == NumRows(s.out) + (if s.pc[t].Rowing? then 1 else 0)
      && LastSelected(s'.out) == (if Selects(s, t) then Some(Trip(s'.sh.boatNo, s'.sh.boat)) else LastSelected(s.out))
  {
    var s' := Step(s, t);
    LinesAfter(s, t);
    var base := if s.pc[t].Arriving? then s.out + [Arrives(s.kinds[t], t)] else s.out;
    if s.pc[t].Arriving? { Appended(s.out, Arrives(s.kinds[t], t)); }
    if |base| < |s'.out| { Appended(base, s'.out[|base|]); }
  }

  lemma BoatsAfter(s: State, t: nat, b: Pair)
    requires WellFormed(s) && t < |s.pc| && CanStep(s, t)
    ensures NumBoats(Step(s, t).out, b) ==
      NumBoats(s.out, b) + if Selects(s, t) && Step(s, t).sh.boat == b then 1 else 0
  {
    var s' := Step(s, t);
    LinesAfter(s, t);
    var base := if s.pc[t].Arriving? then s.out + [Arrives(s.kinds[t], t)] else s.out;
    if s.pc[t].Arriving? { Appended(s.out, Arrives(s.kinds[t], t)); }
    if |base| < |s'.out| { Appended(base, s'.out[|base|]); }
  }

  lemma CrewAfter(s: State, t: nat)
    requires WellFormed(s) && t < |s.pc| && CanStep(s, t)
    ensures Crew(Step(s, t).out) == if Selects(s, t) then [] else if s.pc[t].Boarding?
              then Crew(s.out) + [Boards(s.kinds[t], t, s.sh.boatNo, s.sh.boarded + 1)] else Crew(s.out)
  {
    var s' := Step(s, t);
    LinesAfter(s, t);
    var base := if s.pc[t].Arriving? then s.out + [Arrives(s.kinds[t], t)] else s.out;
    if s.pc[t].Arriving? { Appended(s.out, Arrives(s.kinds[t], t)); }
    if |base| < |s'.out| { Appended(base, s'.out[|base|]); }
  }

  /** Permits come into existence when a boat is selected and leave it when a passenger boards. */
  lemma IssuedAfter(s: State, t: nat, k: Kind)
    requires WellFormed(s) && MutexInv(s) && t < |s.pc| && CanStep(s, t)
    ensures Issued(Step(s, t), k) == Issued(s, k)
              + (if Selects(s, t) then Step(s, t).sh.boat.Of(k) else 0)
              - (if s.pc[t].Boarding? && s.kinds[t] == k then 1 else 0)
  {
    StagesAfter(s, t, k, Holding);
    ToPostBefore(s, t);
    ToPostAfterStep(s, t);
  }

  lemma CrossedAfter(s: State, t: nat, k: Kind)
    requires WellFormed(s) && t < |s.pc| && CanStep(s, t)
    ensures Num(s.kinds, Step(s, t).pc, k, Crossed)
         == Num(s.kinds, s.pc, k, Crossed) + if s.pc[t].Boarding? && s.kinds[t] == k then 1 else 0
  {
    StagesAfter(s, t, k, Crossed);
  }

  lemma LoadKept(s: State, t: nat, k: Kind)
    requires WellFormed(s) && MutexInv(s) && BoatInv(s) && LoadInv(s, k) && t < |s.pc| && CanStep(s, t)
    requires s.pc[t].Resetting? ==> Issued(s, k) == 0
    requires s.pc[t].Boarding? ==> s.sh.busy
    ensures LoadInv(Step(s, t), k)
  {
    IssuedAfter(s, t, k);
    CrewAfter(s, t);
    if s.pc[t].Boarding? {
      CrewSnoc(Crew(s.out), Boards(s.kinds[t], t, s.sh.boatNo, s.sh.boarded + 1), k);
    }
  }

  lemma SeatKept(s: State, t: nat, k: Kind)
    requires WellFormed(s) && MutexInv(s) && BoatInv(s) && SeatInv(s, k) && t < |s.pc| && CanStep(s, t)
    ensures SeatInv(Step(s, t), k)
  {
    IssuedAfter(s, t, k);
    CrossedAfter(s, t, k);
    BoatsAfter(s, t, Pair(2, 1));
    BoatsAfter(s, t, Pair(3, 0));
    BoatsAfter(s, t, Pair(0, 3));
  }

  /** Whoever boards finds a boat with a free seat. */
  lemma BoardingHasSeat(s: State, t: nat)
    requires WellFormed(s) && BoatInv(s) && CrewInv(s) && t < |s.pc| && s.pc[t].Boarding?
    requires LoadInv(s, M) && LoadInv(s, C)
    ensures s.sh.busy && s.sh.boarded < 3
  {
    NumUpdate(s.kinds, s.pc, t, Done, s.kinds[t], Holding);
    CrewSplits(Crew(s.out));
  }

  lemma BoatKept(s: State, t: nat)
    requires WellFormed(s) && BoatInv(s) && CanStep(s, t)
    requires t < |s.pc| && s.pc[t].Boarding? ==> s.sh.boarded < 3 && s.sh.busy
    ensures BoatInv(Step(s, t))
  {
  }

  lemma RowersAfter(s: State, t: nat)
    requires WellFormed(s) && t < |s.pc| && CanStep(s, t)
    ensures forall u | 0 <= u < |s.pc| && u != t :: Rower(Step(s, t).pc[u]) <==> Rower(s.pc[u])
    ensures forall u | 0 <= u < |s.pc| && u != t && Rower(s.pc[u]) :: Step(s, t).pc[u] == s.pc[u]
    ensures Rower(Step(s, t).pc[t]) <==>
              (Rower(s.pc[t]) && !s.pc[t].Resetting?) || (s.pc[t].Boarding? && s.sh.boarded == 2)
  {
  }

  lemma RowerKept(s: State, t: nat)
    requires WellFormed(s) && BoatInv(s) && RowerInv(s) && t < |s.pc| && CanStep(s, t)
    requires s.pc[t].Boarding? ==> s.sh.boarded < 3 && s.sh.busy
    ensures RowerInv(Step(s, t))
  {
    RowersAfter(s, t);
    if s.sh.busy && s.sh.boarded == 3 {
      var u :| 0 <= u < |s.pc| && Rower(s.pc[u]);
      assert s.pc[t].Resetting? || Rower(Step(s, t).pc[u]);
    }
  }

  lemma CrewKept(s: State, t: nat)
    requires WellFormed(s) && BoatInv(s) && CrewInv(s) && t < |s.pc| && CanStep(s, t)
    ensures CrewInv(Step(s, t))
  {
    TalliesAfter(s, t);
    CrewAfter(s, t);
  }

  lemma RowingAlone(s: State, t: nat)
    requires RowerInv(s) && t < |s.pc| && s.pc[t].Rowing?
    ensures s.sh.busy && s.sh.boarded == 3 && s.pc[t].trip == Trip(s.sh.boatNo, s.sh.boat) && !RowDone(s.pc)
  {
    assert Rower(s.pc[t]);
    forall u | 0 <= u < |s.pc| ensures !RowPrinted(s.pc[u]) {
      assert Rower(s.pc[u]) ==> u == t;
    }
  }

  lemma ResettingAlone(s: State, t: nat)
    requires RowerInv(s) && t < |s.pc| && s.pc[t].Resetting?
    ensures s.sh.busy && s.sh.boarded == 3 && RowDone(s.pc)
    ensures forall u | 0 <= u < |s.pc| && u != t :: !RowPrinted(s.pc[u])
  {
    assert Rower(s.pc[t]) && RowPrinted(s.pc[t]);
    forall u | 0 <= u < |s.pc| && u != t ensures !RowPrinted(s.pc[u]) {
      assert Rower(s.pc[u]) ==> u == t;
    }
  }

  lemma RowDoneAfter(s: State, t: nat)
    requires WellFormed(s) && RowerInv(s) && t < |s.pc| && CanStep(s, t)
    ensures RowDone(Step(s, t).pc) == (s.pc[t].Rowing? || (RowDone(s.pc) && !s.pc[t].Resetting?))
  {
    var s' := Step(s, t);
    assert forall u | 0 <= u < |s.pc| && u != t :: RowPrinted(s'.pc[u]) <==> RowPrinted(s.pc[u]);
    if s.pc[t].Rowing? {
      assert RowPrinted(s'.pc[t]);
    } else if s.pc[t].Resetting? {
      ResettingAlone(s, t);
    } else {
      assert RowPrinted(s'.pc[t]) <==> RowPrinted(s.pc[t]);
      if RowDone(s.pc) {
        var u :| 0 <= u < |s.pc| && RowPrinted(s.pc[u]);
        assert RowPrinted(s'.pc[u]);
      }
    }
  }

  lemma RowsKept(s: State, t: nat)
    requires WellFormed(s) && BoatInv(s) && RowerInv(s) && RowsInv(s) && t < |s.pc| && CanStep(s, t)
    ensures RowsInv(Step(s, t))
  {
    TalliesAfter(s, t);
    RowDoneAfter(s, t);
    if s.pc[t].Rowing? { RowingAlone(s, t); }
    if s.pc[t].Resetting? { ResettingAlone(s, t); }
    if RowDone(s.pc) {
      var u :| 0 <= u < |s.pc| && RowPrinted(s.pc[u]);
      assert Rower(s.pc[u]);
    }
  }

  lemma IdKept(s: State, t: nat)
    requires WellFormed(s) && IdInv(s) && t < |s.pc| && CanStep(s, t)
    ensures IdInv(Step(s, t))
  {
    LinesAfter(s, t);
  }

  lemma OutputKept(s: State, t: nat)
    requires Inv(s) && t < |s.pc| && CanStep(s, t)
    ensures OutputOk(s.kinds, Step(s, t).out)
  {
    var s' := Step(s, t);
    LinesAfter(s, t);
    var base := if s.pc[t].Arriving? then s.out + [Arrives(s.kinds[t], t)] else s.out;
    if s.pc[t].Arriving? {
      Appended(s.out, Arrives(s.kinds[t], t));
      OutputGrows(s.kinds, s.out, Arrives(s.kinds[t], t));
    }
    if |base| < |s'.out| {
      var l := s'.out[|base|];
      assert s'.out[..|base|] == base;
      if l.Row? {
        RowingAlone(s, t);
        assert LoadInv(s, M) && LoadInv(s, C);
        FullBoat(s);
      }
      if l.Selected? && s.pc[t].Resetting? { assert RowPrinted(s.pc[t]); }
      OutputGrows(s.kinds, base, l);
    }
  }

  lemma StepKeepsInv(s: State, t: nat)
    requires Inv(s) && CanStep(s, t)
    ensures Inv(Step(s, t))
  {
    var s' := Step(s, t);
    MutexKept(s, t);
    forall k ensures QueueInv(s', k) && WakeInv(s', k) {
      assert QueueInv(s, k) && WakeInv(s, k);
      QueueKept(s, t, k);
      WakeKept(s, t, k);
    }
    if t == |s.pc| {
      MainKeepsInv(s);
    } else {
      forall k ensures LoadInv(s', k) && SeatInv(s', k) {
        assert LoadInv(s, k) && SeatInv(s, k) && LoadInv(s, M) && LoadInv(s, C);
        if s.pc[t].Resetting? { assert Rower(s.pc[t]); FullBoat(s); }
        if s.pc[t].Boarding? { BoardingHasSeat(s, t); }
        LoadKept(s, t, k);
        SeatKept(s, t, k);
      }
      if s.pc[t].Boarding? {
        assert LoadInv(s, M) && LoadInv(s, C);
        BoardingHasSeat(s, t);
      }
      BoatKept(s, t);
      RowerKept(s, t);
      CrewKept(s, t);
      RowsKept(s, t);
      IdKept(s, t);
      OutputKept(s, t);
    }
  }

  /** The main thread only prints its last line. */
  lemma MainKeepsInv(s: State)
    requires Inv(s) && CanStep(s, |s.pc|)
    ensures Inv(Step(s, |s.pc|))
  {
    var s' := Step(s, |s.pc|);
    Appended(s.out, Pass);
    OutputGrows(s.kinds, s.out, Pass);
    forall k ensures QueueInv(s', k) && WakeInv(s', k) && LoadInv(s', k) && SeatInv(s', k) {
      assert QueueInv(s, k) && WakeInv(s, k) && LoadInv(s, k) && SeatInv(s, k);
    }
  }

  lemma InitialInv(kinds: seq<Kind>)
    ensures Inv(Initial(kinds))
  {
    var s := Initial(kinds);
    forall k, st | st != Ashore ensures Num(s.kinds, s.pc, k, st) == 0 {
      NumNone(s.kinds, s.pc, k, st);
    }
    forall k ensures QueueInv(s, k) && WakeInv(s, k) && LoadInv(s, k) && SeatInv(s, k) {
    }
  }

  lemma {:induction false} RunKeepsInv(s: State, sched: seq<nat>)
    requires Inv(s) && Feasible(s, sched)
    ensures Inv(Run(s, sched))
    decreases |sched|
  {
    if sched != [] {
      StepKeepsInv(s, sched[0]);
      RunKeepsInv(Step(s, sched[0]), sched[1..]);
    }
  }

  /** Safety: whatever the schedule, the program's output describes a correct crossing: boats follow one
      another, each ROW line is preceded, since its boat was selected, by exactly the boat's missionaries
      and cannibals boarding, no two "boarded" lines name the same passenger, and every boat is legal. */
  lemma SafeCrossing(kinds: seq<Kind>, sched: seq<nat>)
    requires Feasible(Initial(kinds), sched)
    ensures OutputOk(kinds, Run(Initial(kinds), sched).out)
  {
    InitialInv(kinds);
    RunKeepsInv(Initial(kinds), sched);
  }
}

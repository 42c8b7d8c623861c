/** The missionaries-and-cannibals program on blocking semaphores.

    A thread runs one of the two functions `missionary` and `cannibal`; every scheduling point is one
    step, so a schedule is simply a sequence of thread numbers.  The mutex `mu` is held across steps,
    each semaphore call is one critical section of `ksync.c`, and every `printf` is recorded, so that
    the properties are stated about what the program prints. */
module Missionaries {
  import opened Common

  datatype Kind = M | C

  /** One number for each kind of passenger. */
  datatype Pair = Pair(m: nat, c: nat) {
    function Of(k: Kind): nat { if k.M? then m else c }
    function Add(k: Kind): Pair { if k.M? then Pair(m + 1, c) else Pair(m, c + 1) }
    function Drop(k: Kind): Pair
      requires Of(k) > 0
    { if k.M? then Pair(m - 1, c) else Pair(m, c - 1) }
    predicate Within(w: Pair) { m <= w.m && c <= w.c }
  }

  const NOBODY := Pair(0, 0)

  /** The combinations the program is allowed to row across. */
  predicate Legal(b: Pair) { b == Pair(2, 1) || b == Pair(3, 0) || b == Pair(0, 3) }

  /** Some legal boat can be filled from those waiting. */
  predicate CanForm(w: Pair) { Pair(2, 1).Within(w) || Pair(3, 0).Within(w) || Pair(0, 3).Within(w) }

  datatype Trip = Trip(no: nat, boat: Pair)

  /** Where a thread stands.  The states that hold `mu` are those of `HoldsMu`. */
  datatype Pc =
    | Start                              // about to lock mu on arrival
    | Arriving                           // holds mu: count myself, try to form a boat
    | Posting(left: Pair, crossed: bool) // holds mu: permits still to post, then unlock
    | Wanting                            // in sem_wait, about to test the value
    | Sleeping                           // asleep on the semaphore
    | Permitted                          // has a permit, about to lock mu in board
    | Boarding                           // holds mu in board
    | Leaving(last: Option<Trip>)        // holds mu, counted; last remembers the trip if I am third
    | Rowing(trip: Trip)                 // third passenger, about to print the ROW line
    | Rowed                              // about to lock mu to free the boat
    | Resetting                          // holds mu: free the boat, try to form the next
    | Done

  predicate HoldsMu(p: Pc) {
    p.Arriving? || p.Posting? || p.Boarding? || p.Leaving? || p.Resetting?
  }

  /** The globals protected by mu. */
  datatype Shared = Shared(waiting: Pair, busy: bool, boarded: nat, boatNo: nat, boat: Pair)

  datatype Line =
    | Arrives(kind: Kind, id: nat)
    | Selected(no: nat, boat: Pair)
    | Boards(kind: Kind, id: nat, no: nat, seat: nat)
    | Row(no: nat, boat: Pair, safe: bool)
    | Pass

  datatype State = State(kinds: seq<Kind>, pc: seq<Pc>, mu: Option<nat>, sh: Shared, permits: Pair, out: seq<Line>)

  // ---------------------------------------------------------------- the program

  /** The preference order of try_form_boat; (0,0) when no boat can be formed. */
  function Choose(w: Pair): (b: Pair)
    ensures b == NOBODY || (Legal(b) && b.Within(w))
    ensures b == NOBODY ==> !CanForm(w)
    ensures b == Pair(3, 0) ==> !Pair(2, 1).Within(w)
    ensures b == Pair(0, 3) ==> !Pair(2, 1).Within(w) && !Pair(3, 0).Within(w)
  {
    if w.m >= 2 && w.c >= 1 then Pair(2, 1)
    else if w.m >= 3 then Pair(3, 0)
    else if w.c >= 3 then Pair(0, 3)
    else NOBODY
  }

  predicate Forms(sh: Shared) { !sh.busy && Choose(sh.waiting) != NOBODY }

  /** try_form_boat up to its posting loops. */
  function TryForm(sh: Shared): Shared {
    if sh.busy then sh
    else
      var b := Choose(sh.waiting);
      if b == NOBODY then sh.(boat := NOBODY)
      else Shared(Pair(sh.waiting.m - b.m, sh.waiting.c - b.c), true, 0, sh.boatNo + 1, b)
  }

  function Announce(sh: Shared): seq<Line> {
    if Forms(sh) then [Selected(TryForm(sh).boatNo, TryForm(sh).boat)] else []
  }

  function ToPostAfter(sh: Shared): Pair {
    if Forms(sh) then TryForm(sh).boat else NOBODY
  }

  /** ksem_post wakes every thread sleeping on the semaphore. */
  function WakeAll(kinds: seq<Kind>, pc: seq<Pc>, k: Kind): (r: seq<Pc>)
    requires |kinds| == |pc|
    ensures |r| == |pc|
  {
    seq(|pc|, i requires 0 <= i < |pc| => if kinds[i] == k && pc[i].Sleeping? then Wanting else pc[i])
  }

  predicate WellFormed(s: State) { |s.kinds| == |s.pc| }

  /** Thread numbers below |pc| are passengers; |pc| itself is the main thread in its final join loop. */
  predicate CanStep(s: State, t: nat)
    requires WellFormed(s)
  {
    if t < |s.pc| then
      match s.pc[t]
      case Start => s.mu.None?
      case Permitted => s.mu.None?
      case Rowed => s.mu.None?
      case Sleeping => false
      case Done => false
      case _ => true
    else t == |s.pc| && (forall i | 0 <= i < |s.pc| :: s.pc[i].Done?) && Pass !in s.out
  }

  function Step(s: State, t: nat): (r: State)
    requires WellFormed(s) && CanStep(s, t)
    ensures WellFormed(r) && r.kinds == s.kinds
  {
    if t == |s.pc| then s.(out := s.out + [Pass])
    else
      var k := s.kinds[t];
      match s.pc[t]
      case Start => s.(mu := Some(t), pc := s.pc[t := Arriving])
      case Arriving =>
        var sh := s.sh.(waiting := s.sh.waiting.Add(k));
        s.(sh := TryForm(sh), out := s.out + [Arrives(k, t)] + Announce(sh),
            pc := s.pc[t := Posting(ToPostAfter(sh), false)])
      case Posting(left, crossed) =>
        if left.m > 0 then
          s.(permits := s.permits.Add(M), pc := WakeAll(s.kinds, s.pc, M)[t := Posting(left.Drop(M), crossed)])
        else if left.c > 0 then
          s.(permits := s.permits.Add(C), pc := WakeAll(s.kinds, s.pc, C)[t := Posting(left.Drop(C), crossed)])
        else
          s.(mu := None, pc := s.pc[t := if crossed then Done else Wanting])
      case Wanting =>
        if s.permits.Of(k) > 0 then s.(permits := s.permits.Drop(k), pc := s.pc[t := Permitted])
        else s.(pc := s.pc[t := Sleeping])
      case Permitted => s.(mu := Some(t), pc := s.pc[t := Boarding])
      case Boarding =>
        var n := s.sh.boarded + 1;
        s.(sh := s.sh.(boarded := n),
           out := s.out + [Boards(k, t, s.sh.boatNo, n)],
           pc := s.pc[t := Leaving(if n == 3 then Some(Trip(s.sh.boatNo, s.sh.boat)) else None)])
      case Leaving(last) =>
        s.(mu := None, pc := s.pc[t := if last.Some? then Rowing(last.value) else Done])
      case Rowing(trip) =>
        s.(out := s.out + [Row(trip.no, trip.boat, !(trip.boat.c == 2 && trip.boat.m == 1))], pc := s.pc[t := Rowed])
      case Rowed => s.(mu := Some(t), pc := s.pc[t := Resetting])
      case Resetting =>
        var sh := s.sh.(busy := false, boarded := 0, boat := NOBODY);
        s.(sh := TryForm(sh), out := s.out + Announce(sh), pc := s.pc[t := Posting(ToPostAfter(sh), true)])
  }

  function Initial(kinds: seq<Kind>): (s: State)
    ensures WellFormed(s)
  {
    State(kinds, seq(|kinds|, _ => Start), None, Shared(NOBODY, false, 0, 0, NOBODY), NOBODY, [])
  }

  /** A schedule names, step by step, the thread that moves. */
  ghost predicate Feasible(s: State, sched: seq<nat>)
    requires WellFormed(s)
    decreases |sched|
  {
    sched == [] || (CanStep(s, sched[0]) && Feasible(Step(s, sched[0]), sched[1..]))
  }

  ghost function Run(s: State, sched: seq<nat>): (r: State)
    requires WellFormed(s) && Feasible(s, sched)
    ensures WellFormed(r) && r.kinds == s.kinds
    decreases |sched|
  {
    if sched == [] then s else Run(Step(s, sched[0]), sched[1..])
  }

  // ---------------------------------------------------------------- what the output must satisfy

  function NumSelected(out: seq<Line>): nat {
    if out == [] then 0 else NumSelected(out[..|out| - 1]) + if out[|out| - 1].Selected? then 1 else 0
  }

  function NumRows(out: seq<Line>): nat {
    if out == [] then 0 else NumRows(out[..|out| - 1]) + if out[|out| - 1].Row? then 1 else 0
  }

  /** How many selected boats had exactly this make-up. */
  function NumBoats(out: seq<Line>, b: Pair): nat {
    if out == [] then 0
    else NumBoats(out[..|out| - 1], b) + if out[|out| - 1].Selected? && out[|out| - 1].boat == b then 1 else 0
  }

  /** The lines "boarded" printed since the last "selected". */
  function Crew(out: seq<Line>): seq<Line> {
    if out == [] then []
    else
      var last := out[|out| - 1];
      if last.Selected? then []
      else if last.Boards? then Crew(out[..|out| - 1]) + [last]
      else Crew(out[..|out| - 1])
  }

  function LastSelected(out: seq<Line>): Option<Trip> {
    if out == [] then None
    else if out[|out| - 1].Selected? then Some(Trip(out[|out| - 1].no, out[|out| - 1].boat))
    else LastSelected(out[..|out| - 1])
  }

  function OfKind(crew: seq<Line>, k: Kind): nat {
    if crew == [] then 0
    else OfKind(crew[..|crew| - 1], k) + if crew[|crew| - 1].Boards? && crew[|crew| - 1].kind == k then 1 else 0
  }

  /** The ROW line at index r names the boat that was selected last and was not rowed before, and the three
      passengers who boarded since then are exactly its missionaries and its cannibals. */
  ghost predicate RowOk(out: seq<Line>, r: nat)
    requires r < |out| && out[r].Row?
  {
    var before := out[..r];
    && LastSelected(before) == Some(Trip(out[r].no, out[r].boat))
    && NumSelected(before) == out[r].no == NumRows(before) + 1
    && Legal(out[r].boat) && out[r].safe
    && |Crew(before)| == 3
    && (forall i | 0 <= i < 3 :: Crew(before)[i].Boards? && Crew(before)[i].no == out[r].no)
    && OfKind(Crew(before), M) == out[r].boat.m
    && OfKind(Crew(before), C) == out[r].boat.c
  }

  /** A boat is selected only when every earlier boat has rowed; boats are numbered from 1. */
  ghost predicate SelectedOk(out: seq<Line>, q: nat)
    requires q < |out| && out[q].Selected?
  {
    NumSelected(out[..q]) == NumRows(out[..q]) == out[q].no - 1 && Legal(out[q].boat)
  }

  /** Nobody boards twice, and a "boarded" line tells the passenger's kind. */
  ghost predicate PassengersOk(kinds: seq<Kind>, out: seq<Line>) {
    && (forall i | 0 <= i < |out| && out[i].Boards? :: out[i].id < |kinds| && out[i].kind == kinds[out[i].id])
    && (forall i, j | 0 <= i < j < |out| && out[i].Boards? && out[j].Boards? :: out[i].id != out[j].id)
  }

  ghost predicate OutputOk(kinds: seq<Kind>, out: seq<Line>) {
    && (forall r | 0 <= r < |out| && out[r].Row? :: RowOk(out, r))
    && (forall q | 0 <= q < |out| && out[q].Selected? :: SelectedOk(out, q))
    && PassengersOk(kinds, out)
  }
}

/** The sections of the missionaries program that run with mu held. */
module MissionariesCode {
  import opened Common
  import opened Missionaries
  import opened MissionariesSafety

  /** The permits after those of a boat were posted. */
  function Posted(w: Pair, b: Pair): Pair { Pair(w.m + b.m, w.c + b.c) }

  /** The program's globals and its two semaphores; each method is the body of one section under mu. */
  class Crossing {
    var waitingM: nat
    var waitingC: nat
    var boatBusy: bool
    var boarded: nat
    var boatNo: nat
    var boatM: nat
    var boatC: nat
    var mpermit: nat
    var cpermit: nat
    /** The lines printed. */
    var out: seq<Line>

    function Globals(): Shared
      reads this
    {
      Shared(Pair(waitingM, waitingC), boatBusy, boarded, boatNo, Pair(boatM, boatC))
    }

    function Permits(): Pair
      reads this
    {
      Pair(mpermit, cpermit)
    }

    /** The globals and the output are those of state s. */
    ghost predicate Shows(s: State)
      reads this
    {
      Globals() == s.sh && Permits() == s.permits && out == s.out
    }

    method TryFormBoat()
      modifies this
      ensures Globals() == TryForm(old(Globals())) && out == old(out) + Announce(old(Globals()))
      ensures Permits() == Posted(old(Permits()), ToPostAfter(old(Globals())))
    {
      if boatBusy { return; }
      boatM, boatC := 0, 0;
      if waitingM >= 2 && waitingC >= 1 { boatM, boatC := 2, 1; }
      else if waitingM >= 3 { boatM := 3; }
      else if waitingC >= 3 { boatC := 3; }
      else { return; }
      waitingM, waitingC := waitingM - boatM, waitingC - boatC;
      boatBusy, boarded, boatNo := true, 0, boatNo + 1;
      out := out + [Selected(boatNo, Pair(boatM, boatC))];
      var i := 0;
      while i < boatM
        modifies this`mpermit
        invariant 0 <= i <= boatM && mpermit == old(mpermit) + i
      {
        mpermit := mpermit + 1;
        i := i + 1;
      }
      i := 0;
      while i < boatC
        modifies this`cpermit
        invariant 0 <= i <= boatC && cpermit == old(cpermit) + i
      {
        cpermit := cpermit + 1;
        i := i + 1;
      }
    }

    /** The arrival section of missionary and cannibal, with the permits that its Posting steps are to post. */
    method Arrive(k: Kind, t: nat, ghost s: State)
      requires WellFormed(s) && Shows(s) && t < |s.pc| && s.pc[t].Arriving? && s.kinds[t] == k
      modifies this
      ensures var s' := Step(s, t);
        s'.pc[t].Posting? && Shows(s'.(permits := Posted(s.permits, s'.pc[t].left)))
    {
      if k.M? { waitingM := waitingM + 1; } else { waitingC := waitingC + 1; }
      out := out + [Arrives(k, t)];
      TryFormBoat();
    }

    /** The first section of board: count myself, and remember the trip if I am the third. */
    method Board(k: Kind, t: nat, ghost s: State) returns (last: Option<Trip>)
      requires WellFormed(s) && Shows(s) && t < |s.pc| && s.pc[t].Boarding? && s.kinds[t] == k
      modifies this`boarded, this`out
      ensures Shows(Step(s, t)) && Step(s, t).pc[t] == Leaving(last)
      ensures Inv(s) ==> 1 <= |Crew(out)| <= 3 && (last.Some? <==> |Crew(out)| == 3)
      ensures Inv(s) && last.Some? ==>
        Legal(last.value.boat) && OfKind(Crew(out), M) == last.value.boat.m && OfKind(Crew(out), C) == last.value.boat.c
    {
      if Inv(s) { ThirdCompletes(s, t); }
      boarded := boarded + 1;
      out := out + [Boards(k, t, boatNo, boarded)];
      last := None;
      if boarded == 3 { last := Some(Trip(boatNo, Pair(boatM, boatC))); }
    }

    /** The second section of board, run by the third passenger after rowing. */
    method FreeBoat(t: nat, ghost s: State)
      requires WellFormed(s) && Shows(s) && t < |s.pc| && s.pc[t].Resetting?
      modifies this
      ensures var s' := Step(s, t);
        s'.pc[t].Posting? && Shows(s'.(permits := Posted(s.permits, s'.pc[t].left)))
    {
      boatBusy, boarded, boatM, boatC := false, 0, 0, 0;
      TryFormBoat();
    }
  }

  /** A passenger boards as one of three; when the third has, those aboard are the boat's missionaries and cannibals. */
  lemma ThirdCompletes(s: State, t: nat)
    requires Inv(s) && t < |s.pc| && s.pc[t].Boarding?
    ensures var s' := Step(s, t);
      && 1 <= |Crew(s'.out)| <= 3 && |Crew(s'.out)| == s'.sh.boarded == s.sh.boarded + 1
      && (s'.sh.boarded == 3 ==>
            && Legal(s.sh.boat)
            && OfKind(Crew(s'.out), M) == s.sh.boat.m && OfKind(Crew(s'.out), C) == s.sh.boat.c)
  {
    var s' := Step(s, t);
    StepKeepsInv(s, t);
    BoardingHasSeat(s, t);
    if s'.sh.boarded == 3 { FullBoat(s'); }
  }
}

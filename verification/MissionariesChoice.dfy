/** Who waits and which boat is chosen, read off the printed lines alone. */
module MissionariesChoice {
  import opened Common
  import opened Missionaries
  import opened MissionariesSafety

  /** How many of kind k wait at the bank after these lines: those who arrived, less the seats of selected boats. */
  function Queue(out: seq<Line>, k: Kind): int {
    if out == [] then 0
    else
      var last := out[|out| - 1];
      Queue(out[..|out| - 1], k) + (if last.Arrives? && last.kind == k then 1 else 0)
        - (if last.Selected? then last.boat.Of(k) else 0)
  }

  predicate Counted(out: seq<Line>, w: Pair) { Queue(out, M) == w.m && Queue(out, C) == w.c }

  /** The boat of the line at q was filled from those waiting; two missionaries and a cannibal went first, three
      missionaries next, three cannibals last. */
  predicate ChoiceOk(out: seq<Line>, q: nat)
    requires q < |out| && out[q].Selected?
  {
    var m, c, b := Queue(out[..q], M), Queue(out[..q], C), out[q].boat;
    if m >= 2 && c >= 1 then b == Pair(2, 1)
    else if m >= 3 then b == Pair(3, 0)
    else c >= 3 && b == Pair(0, 3)
  }

  /** Thread t has said that it arrived. */
  predicate Arrived(out: seq<Line>, t: nat) { exists i | 0 <= i < |out| :: out[i].Arrives? && out[i].id == t }

  /** Everybody arrives at most once, as what they are, and boards only after that. */
  ghost predicate ArrivalsOk(kinds: seq<Kind>, out: seq<Line>) {
    && (forall i | 0 <= i < |out| && out[i].Arrives? :: out[i].id < |kinds| && out[i].kind == kinds[out[i].id])
    && (forall i, j | 0 <= i < j < |out| && out[i].Arrives? && out[j].Arrives? :: out[i].id != out[j].id)
    && (forall i | 0 <= i < |out| && out[i].Boards? :: Arrived(out[..i], out[i].id))
  }

  ghost predicate ChoicesOk(out: seq<Line>) { forall q | 0 <= q < |out| && out[q].Selected? :: ChoiceOk(out, q) }

  /** The counters of the program agree with its lines, and so do the places of its threads. */
  ghost predicate LinesInv(s: State) {
    && WellFormed(s)
    && Counted(s.out, s.sh.waiting)
    && ChoicesOk(s.out) && ArrivalsOk(s.kinds, s.out)
    && forall t: nat | t < |s.pc| :: Arrived(s.out, t) <==> StageOf(s.pc[t]) != Ashore
  }

  // ---------------------------------------------------------------- one more line

  lemma QueueMore(out: seq<Line>, l: Line, k: Kind)
    ensures Queue(out + [l], k) == Queue(out, k) + (if l.Arrives? && l.kind == k then 1 else 0)
                                 - (if l.Selected? then l.boat.Of(k) else 0)
  {
    assert (out + [l])[..|out|] == out;
  }

  lemma ChoicesMore(out: seq<Line>, l: Line)
    requires ChoicesOk(out) && (l.Selected? ==> ChoiceOk(out + [l], |out|))
    ensures ChoicesOk(out + [l])
  {
    var r := out + [l];
    forall q | 0 <= q < |r| && r[q].Selected? ensures ChoiceOk(r, q) {
      if q < |out| { assert r[..q] == out[..q] && ChoiceOk(out, q); }
    }
  }

  lemma ArrivedMore(out: seq<Line>, l: Line, t: nat)
    ensures Arrived(out + [l], t) <==> Arrived(out, t) || (l.Arrives? && l.id == t)
  {
    var r := out + [l];
    if Arrived(out, t) {
      var i :| 0 <= i < |out| && out[i].Arrives? && out[i].id == t;
      assert r[i] == out[i];
    }
    assert r[|out|] == l;
  }

  lemma ArrivalsMore(kinds: seq<Kind>, out: seq<Line>, l: Line)
    requires ArrivalsOk(kinds, out)
    requires l.Arrives? ==> l.id < |kinds| && l.kind == kinds[l.id] && !Arrived(out, l.id)
    requires l.Boards? ==> Arrived(out, l.id)
    ensures ArrivalsOk(kinds, out + [l])
  {
    var r := out + [l];
    forall i | 0 <= i < |r| && r[i].Boards? ensures Arrived(r[..i], r[i].id) {
      assert r[..i] == if i < |out| then out[..i] else out;
    }
  }

  // ---------------------------------------------------------------- every step

  /** The lines before a possible "selected": those so far, and the arrival. */
  function Said(s: State, t: nat): seq<Line>
    requires WellFormed(s) && t < |s.pc|
  {
    if s.pc[t].Arriving? then s.out + [Arrives(s.kinds[t], t)] else s.out
  }

  /** What a line other than an arrival says with w waiting, of whom it leaves after. */
  predicate Says(l: Line, w: Pair, after: Pair) {
    match l
    case Selected(no, b) => b == Choose(w) && b != NOBODY && after == Pair(w.m - b.m, w.c - b.c)
    case Arrives(k, id) => false
    case _ => after == w
  }

  lemma ChosenOk(out: seq<Line>, l: Line, w: Pair, after: Pair)
    requires Counted(out, w) && Says(l, w, after) && l.Selected?
    ensures ChoiceOk(out + [l], |out|)
  {
    assert (out + [l])[..|out|] == out;
  }

  /** One more line keeps what the lines say. */
  lemma LineKeeps(kinds: seq<Kind>, out: seq<Line>, l: Line, w: Pair, after: Pair)
    requires ChoicesOk(out) && ArrivalsOk(kinds, out) && Counted(out, w) && Says(l, w, after)
    requires l.Boards? ==> Arrived(out, l.id)
    ensures ChoicesOk(out + [l]) && ArrivalsOk(kinds, out + [l]) && Counted(out + [l], after)
    ensures forall i: nat :: Arrived(out + [l], i) <==> Arrived(out, i)
  {
    if l.Selected? { ChosenOk(out, l, w, after); }
    ChoicesMore(out, l);
    ArrivalsMore(kinds, out, l);
    QueueMore(out, l, M);
    QueueMore(out, l, C);
    forall i: nat ensures Arrived(out + [l], i) <==> Arrived(out, i) { ArrivedMore(out, l, i); }
  }

  /** Those waiting when a boat is to be formed. */
  function Present(s: State, t: nat): Pair
    requires WellFormed(s) && t < |s.pc|
  {
    if s.pc[t].Arriving? then s.sh.waiting.Add(s.kinds[t]) else s.sh.waiting
  }

  /** The counters and the arrivals with the lines said before any choice. */
  lemma SaidKeeps(s: State, t: nat)
    requires LinesInv(s) && t < |s.pc|
    ensures ChoicesOk(Said(s, t)) && ArrivalsOk(s.kinds, Said(s, t)) && Counted(Said(s, t), Present(s, t))
    ensures forall i: nat | i < |s.pc| ::
      Arrived(Said(s, t), i) <==> StageOf(s.pc[i]) != Ashore || (i == t && s.pc[t].Arriving?)
  {
    if s.pc[t].Arriving? {
      var l := Arrives(s.kinds[t], t);
      ChoicesMore(s.out, l);
      ArrivalsMore(s.kinds, s.out, l);
      QueueMore(s.out, l, M);
      QueueMore(s.out, l, C);
      forall i: nat | i < |s.pc| ensures Arrived(s.out + [l], i) <==> StageOf(s.pc[i]) != Ashore || i == t {
        ArrivedMore(s.out, l, i);
      }
    }
  }

  /** A step says nothing more, or one line. */
  lemma StepSays(s: State, t: nat) returns (l: Option<Line>)
    requires WellFormed(s) && t < |s.pc| && CanStep(s, t)
    ensures var s' := Step(s, t); var said, w := Said(s, t), Present(s, t);
      match l
      case None => s'.out == said && s'.sh.waiting == w
      case Some(x) =>
        && s'.out == said + [x] && Says(x, w, s'.sh.waiting)
        && (x.Boards? ==> x.id == t && s.pc[t].Boarding?)
  {
    LinesAfter(s, t);
    var said, s' := Said(s, t), Step(s, t);
    l := if |said| < |s'.out| then Some(s'.out[|said|]) else None;
  }

  /** Nobody leaves the shore for the queue but by arriving. */
  lemma AshoreAfter(s: State, t: nat, i: nat)
    requires WellFormed(s) && t < |s.pc| && CanStep(s, t) && i < |s.pc|
    ensures StageOf(Step(s, t).pc[i]) != Ashore <==> StageOf(s.pc[i]) != Ashore || (i == t && s.pc[t].Arriving?)
  {
  }

  lemma PassKeeps(s: State)
    requires LinesInv(s) && CanStep(s, |s.pc|)
    ensures LinesInv(Step(s, |s.pc|))
  {
    LineKeeps(s.kinds, s.out, Pass, s.sh.waiting, s.sh.waiting);
  }

  lemma ThreadKeeps(s: State, t: nat, s': State)
    requires LinesInv(s) && t < |s.pc| && CanStep(s, t) && s' == Step(s, t)
    ensures ChoicesOk(s'.out) && ArrivalsOk(s.kinds, s'.out) && Counted(s'.out, s'.sh.waiting)
    ensures forall i: nat | i < |s.pc| :: Arrived(s'.out, i) <==> Arrived(Said(s, t), i)
  {
    SaidKeeps(s, t);
    var l := StepSays(s, t);
    if l.Some? { LineKeeps(s.kinds, Said(s, t), l.value, Present(s, t), s'.sh.waiting); }
  }

  lemma StepKeepsLines(s: State, t: nat)
    requires LinesInv(s) && CanStep(s, t)
    ensures LinesInv(Step(s, t))
  {
    if t == |s.pc| {
      PassKeeps(s);
    } else {
      var s' := Step(s, t);
      SaidKeeps(s, t);
      ThreadKeeps(s, t, s');
      forall i: nat | i < |s.pc| ensures Arrived(s'.out, i) <==> StageOf(s'.pc[i]) != Ashore { AshoreAfter(s, t, i); }
    }
  }

  lemma {:induction false} RunKeepsLines(s: State, sched: seq<nat>)
    requires LinesInv(s) && Feasible(s, sched)
    ensures LinesInv(Run(s, sched))
    decreases |sched|
  {
    if sched != [] {
      StepKeepsLines(s, sched[0]);
      RunKeepsLines(Step(s, sched[0]), sched[1..]);
    }
  }

  /** Whatever the schedule: each boat is the first choice that those who had arrived and were not yet taken could fill,
      and everybody arrives once, before boarding. */
  lemma BoatsByPreference(kinds: seq<Kind>, sched: seq<nat>)
    requires Feasible(Initial(kinds), sched)
    ensures ChoicesOk(Run(Initial(kinds), sched).out) && ArrivalsOk(kinds, Run(Initial(kinds), sched).out)
  {
    RunKeepsLines(Initial(kinds), sched);
  }
}

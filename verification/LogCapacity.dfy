/** How large the on-disk log must be.  log_write tests the size of the transaction before it takes log.lock,
    so that two operations can pass the test together.  With more than LOGSIZE log blocks this does no harm
    (LogSystem); with fewer, a run exists in which the transaction outgrows the log area. */
module LogCapacity {
  import opened Common
  import opened Bytes
  import opened RedoLog
  import opened LogSystem
  import Runs

  function Elems(hs: seq<nat>, lo: nat, hi: nat): set<nat> {
    set i | lo <= i < hi && i < |hs| :: hs[i]
  }

  lemma {:induction false} ElemsSize(hs: seq<nat>, lo: nat, hi: nat)
    requires Distinct(hs) && lo <= hi <= |hs|
    ensures |Elems(hs, lo, hi)| == hi - lo
  {
    if lo < hi {
      ElemsSize(hs, lo, hi - 1);
      assert Elems(hs, lo, hi) == Elems(hs, lo, hi - 1) + {hs[hi - 1]};
    } else {
      assert Elems(hs, lo, hi) == {};
    }
  }

  /** Process p has logged hs[lo..hi]: nine blocks each for the first two processes, the rest for the third. */
  function Share(hs: seq<nat>, p: nat, n: nat): set<nat> {
    if p == 0 then Elems(hs, 0, if n < 9 then n else 9)
    else if p == 1 then Elems(hs, 9, if n < 18 then n else 18)
    else Elems(hs, 18, n)
  }

  function Pinned(d: Disk, hs: seq<nat>, n: nat): map<nat, Buf>
    requires n <= |hs| && forall i | 0 <= i < |hs| :: hs[i] < |d|
  {
    map b | b in hs[..n] :: Buf(d[b], true, None, false, false)
  }

  predicate Candidates(lay: Layout, d: Disk, hs: seq<nat>) {
    && Bootable(lay, d) && HeadOf(d[lay.start]) == [] && |hs| == LOGSIZE && Distinct(hs)
    && forall i | 0 <= i < |hs| :: Home(lay, d, hs[i])
  }

  /** Three operations are open and have logged the first n candidate blocks. */
  function Filled(lay: Layout, d: Disk, hs: seq<nat>, n: nat): Sys
    requires Candidates(lay, d, hs) && n <= LOGSIZE
  {
    Sys(Engine(d, Pinned(d, hs, n), hs[..n], Idle),
        [Some(Share(hs, 0, n)), Some(Share(hs, 1, n)), Some(Share(hs, 2, n))], false, false)
  }

  lemma OutstandingSnoc(ops: seq<Option<set<nat>>>, o: Option<set<nat>>)
    ensures Outstanding(ops + [o]) == Outstanding(ops) + if o.Some? then 1 else 0
  {
    assert (ops + [o])[..|ops|] == ops;
  }

  lemma OutstandingOf3(x: Option<set<nat>>, y: Option<set<nat>>, z: Option<set<nat>>)
    ensures Outstanding([x, y, z]) == (if x.Some? then 1 else 0) + (if y.Some? then 1 else 0) + if z.Some? then 1 else 0
  {
    OutstandingSnoc([], x);
    OutstandingSnoc([x], y);
    OutstandingSnoc([x, y], z);
    assert [] + [x] == [x] && [x] + [y] == [x, y] && [x, y] + [z] == [x, y, z];
  }

  lemma OpenOne(lay: Layout, s0: Sys, s: Sys, p: nat) returns (r: Sys)
    requires Runs.Reaches(Next(lay), s0, s) && !s.booting && !s.committing && s.e.lh == []
    requires p < |s.ops| && s.ops[p].None? && Outstanding(s.ops) <= 2
    ensures Runs.Reaches(Next(lay), s0, r) && r == s.(ops := s.ops[p := Some({})])
  {
    Runs.ReachesNext(Next(lay), s0, s, Begin(p));
    r := Do(lay, s, Begin(p));
  }

  lemma FilledZero(lay: Layout, d: Disk, hs: seq<nat>)
    requires Candidates(lay, d, hs)
    ensures Filled(lay, d, hs, 0) == Fresh(d, 3).(ops := [Some({}), Some({}), Some({})])
  {
    assert Share(hs, 0, 0) == {} && Share(hs, 1, 0) == {} && Share(hs, 2, 0) == {};
    assert Pinned(d, hs, 0) == map[];
  }

  lemma OpenThree(lay: Layout, d: Disk, hs: seq<nat>)
    requires Candidates(lay, d, hs)
    ensures Runs.Reaches(Next(lay), Fresh(d, 3), Filled(lay, d, hs, 0))
  {
    var s0 := Fresh(d, 3);
    Runs.ReachesItself(Next(lay), s0);
    assert s0.ops == [None, None, None];
    OutstandingOf3(None, None, None);
    var s1 := OpenOne(lay, s0, s0, 0);
    assert s1.ops == [Some({}), None, None];
    OutstandingOf3(Some({}), None, None);
    var s2 := OpenOne(lay, s0, s1, 1);
    assert s2.ops == [Some({}), Some({}), None];
    OutstandingOf3(Some({}), Some({}), None);
    var s3 := OpenOne(lay, s0, s2, 2);
    FilledZero(lay, d, hs);
    assert s3.ops == [Some({}), Some({}), Some({})];
  }

  /** A process locks a block it has not used yet and passes log_write's test. */
  lemma PassTest(lay: Layout, s0: Sys, s: Sys, p: nat, b: nat) returns (r: Sys)
    requires Runs.Reaches(Next(lay), s0, s) && !s.booting && InOp(s, p)
    requires b !in s.e.cache && Home(lay, s.e.disk, b) && InBudget(s, p, b) && PassesCheck(lay, s.e)
    ensures Runs.Reaches(Next(lay), s0, r)
    ensures r == s.(e := WithBuf(s.e, b, Buf(s.e.disk[b], false, Some(p), false, true)))
  {
    Runs.ReachesNext(Next(lay), s0, s, Load(b));
    r := Do(lay, s, Load(b));
    Runs.ReachesNext(Next(lay), s0, r, Hold(p, b));
    r := Do(lay, r, Hold(p, b));
    Runs.ReachesNext(Next(lay), s0, r, Check(p, b));
    r := Do(lay, r, Check(p, b));
    assert r.e.cache == s.e.cache[b := Buf(s.e.disk[b], false, Some(p), false, true)];
  }

  lemma LogIt(lay: Layout, s0: Sys, s: Sys, p: nat, b: nat) returns (r: Sys)
    requires Runs.Reaches(Next(lay), s0, s) && InOp(s, p) && HeldBy(s, p, b) && InBudget(s, p, b)
    requires s.e.cache[b].checked && b !in s.e.lh
    ensures Runs.Reaches(Next(lay), s0, r)
    ensures r == Sys(WithBuf(s.e, b, Buf(s.e.cache[b].data, true, None, false, false)).(lh := s.e.lh + [b]),
                     s.ops[p := Some(s.ops[p].value + {b})], s.booting, s.committing)
  {
    Runs.ReachesNext(Next(lay), s0, s, Append(p, b));
    r := Do(lay, s, Append(p, b));
    Runs.ReachesNext(Next(lay), s0, r, Release(p, b));
    r := Do(lay, r, Release(p, b));
    assert r.e.cache == s.e.cache[b := Buf(s.e.cache[b].data, true, None, false, false)];
  }

  function Owner(n: nat): nat { if n < 9 then 0 else if n < 18 then 1 else 2 }

  lemma FillBudget(lay: Layout, d: Disk, hs: seq<nat>, n: nat, p: nat, b: nat)
    requires Candidates(lay, d, hs) && n <= LOGSIZE - 2 && (p < 2 || (p == Owner(n) && n < LOGSIZE - 2))
    ensures InOp(Filled(lay, d, hs, n), p) && InBudget(Filled(lay, d, hs, n), p, b)
  {
    ElemsSize(hs, 0, if n < 9 then n else 9);
    if n >= 9 { ElemsSize(hs, 9, if n < 18 then n else 18); } else { assert Share(hs, 1, n) == {}; }
    if n >= 18 { ElemsSize(hs, 18, n); }
    GrowsByOne(Share(hs, p, n), b);
  }

  lemma FilledNext(lay: Layout, d: Disk, hs: seq<nat>, n: nat)
    requires Candidates(lay, d, hs) && n < LOGSIZE
    ensures var s, p, b := Filled(lay, d, hs, n), Owner(n), hs[n];
      Filled(lay, d, hs, n + 1) == Sys(WithBuf(s.e, b, Buf(d[b], true, None, false, false)).(lh := s.e.lh + [b]),
                                       s.ops[p := Some(s.ops[p].value + {b})], false, false)
  {
    var p, b := Owner(n), hs[n];
    assert hs[..n + 1] == hs[..n] + [b];
    assert Pinned(d, hs, n + 1) == Pinned(d, hs, n)[b := Buf(d[b], true, None, false, false)];
    assert Share(hs, p, n + 1) == Share(hs, p, n) + {b};
    assert p != 0 ==> Share(hs, 0, n + 1) == Share(hs, 0, n);
    assert p != 1 ==> Share(hs, 1, n + 1) == Share(hs, 1, n);
    assert p != 2 ==> Share(hs, 2, n + 1) == Share(hs, 2, n);
  }

  lemma FillOne(lay: Layout, d: Disk, hs: seq<nat>, n: nat)
    requires Candidates(lay, d, hs) && n < LOGSIZE - 2 && n < lay.size - 1
    requires Runs.Reaches(Next(lay), Fresh(d, 3), Filled(lay, d, hs, n))
    ensures Runs.Reaches(Next(lay), Fresh(d, 3), Filled(lay, d, hs, n + 1))
  {
    var s, p, b := Filled(lay, d, hs, n), Owner(n), hs[n];
    FillBudget(lay, d, hs, n, p, b);
    var q := PassTest(lay, Fresh(d, 3), s, p, b);
    var r := LogIt(lay, Fresh(d, 3), q, p, b);
    FilledNext(lay, d, hs, n);
    assert r.e.cache == s.e.cache[b := Buf(d[b], true, None, false, false)];
  }

  lemma {:induction false} FillTo(lay: Layout, d: Disk, hs: seq<nat>, n: nat)
    requires Candidates(lay, d, hs) && n <= LOGSIZE - 2 && n < lay.size - 1
    ensures Runs.Reaches(Next(lay), Fresh(d, 3), Filled(lay, d, hs, n))
  {
    if n == 0 {
      OpenThree(lay, d, hs);
    } else {
      FillTo(lay, d, hs, n - 1);
      FillOne(lay, d, hs, n - 1);
    }
  }

  /** With between 2 and LOGSIZE log blocks, as mkfs lays the disk out, three operations that keep within
      MAXOPBLOCKS can log one block more than there are log slots, although each passed the size test. */
  lemma LogCanOverflow(lay: Layout, d: Disk, hs: seq<nat>)
    requires Candidates(lay, d, hs) && 2 <= lay.size <= LOGSIZE
    ensures Inv(lay, Fresh(d, 3))
    ensures exists r :: Runs.Reaches(Next(lay), Fresh(d, 3), r) && |r.e.lh| == lay.size && !LogFits(lay, r.e)
  {
    FreshInv(lay, d, 3);
    var n := lay.size - 2;
    FillTo(lay, d, hs, n);
    var s := Filled(lay, d, hs, n);
    FillBudget(lay, d, hs, n, 0, hs[n]);
    FillBudget(lay, d, hs, n, 1, hs[n + 1]);
    var r := PassTest(lay, Fresh(d, 3), s, 0, hs[n]);
    r := PassTest(lay, Fresh(d, 3), r, 1, hs[n + 1]);
    r := LogIt(lay, Fresh(d, 3), r, 0, hs[n]);
    r := LogIt(lay, Fresh(d, 3), r, 1, hs[n + 1]);
    assert |r.e.lh| == lay.size;
  }

  /** One step leaves the log area exactly when it adds a block that the size test would now refuse. */
  lemma StepFitsExactly(lay: Layout, s: Sys, a: Act)
    requires Inv(lay, s) && Enabled(lay, s, a)
    ensures LogFits(lay, Do(lay, s, a).e) <==> Guarded(lay, s, a)
  {
    if Guarded(lay, s, a) { StepKeepsInv(lay, s, a); }
  }

  ghost predicate AlwaysInLog(lay: Layout, s: Sys, acts: seq<Act>)
    requires After(lay, s, acts).Some?
  {
    forall k | 0 <= k <= |acts| :: After(lay, s, acts[..k]).Some? && LogFits(lay, After(lay, s, acts[..k]).value.e)
  }

  lemma AlwaysInLogSnoc(lay: Layout, s: Sys, acts: seq<Act>)
    requires acts != [] && After(lay, s, acts).Some?
    ensures AlwaysInLog(lay, s, acts) <==>
      AlwaysInLog(lay, s, acts[..|acts| - 1]) && LogFits(lay, After(lay, s, acts).value.e)
  {
    var before := acts[..|acts| - 1];
    assert acts[..|acts|] == acts;
    assert forall k | 0 <= k < |acts| :: acts[..k] == before[..k];
    if AlwaysInLog(lay, s, acts) {
      forall k | 0 <= k <= |before|
        ensures After(lay, s, before[..k]).Some? && LogFits(lay, After(lay, s, before[..k]).value.e)
      {
        assert acts[..k] == before[..k];
      }
    }
  }

  lemma {:induction false} FitIsRun(lay: Layout, s: Sys, acts: seq<Act>)
    requires FitAfter(lay, s, acts).Some?
    ensures After(lay, s, acts) == FitAfter(lay, s, acts)
  {
    if acts != [] {
      FitIsRun(lay, s, acts[..|acts| - 1]);
    }
  }

  lemma FitSnoc(lay: Layout, s: Sys, acts: seq<Act>)
    requires acts != [] && After(lay, s, acts).Some? && FitAfter(lay, s, acts[..|acts| - 1]).Some? && Inv(lay, s)
    ensures LogFits(lay, After(lay, s, acts).value.e) <==> FitAfter(lay, s, acts).Some?
  {
    var before := acts[..|acts| - 1];
    RunKeepsInv(lay, s, before);
    FitIsRun(lay, s, before);
    StepFitsExactly(lay, After(lay, s, before).value, acts[|acts| - 1]);
  }

  /** A run stays in the log area exactly when the size test still held each time a block was added. */
  lemma {:induction false} RunFitsExactly(lay: Layout, s: Sys, acts: seq<Act>)
    requires Inv(lay, s) && After(lay, s, acts).Some?
    ensures AlwaysInLog(lay, s, acts) <==> FitAfter(lay, s, acts).Some?
  {
    if acts == [] {
      assert acts[..0] == acts;
    } else {
      var before := acts[..|acts| - 1];
      RunFitsExactly(lay, s, before);
      AlwaysInLogSnoc(lay, s, acts);
      if FitAfter(lay, s, before).Some? { FitSnoc(lay, s, acts); }
    }
  }

  /** With more than LOGSIZE log blocks no run outgrows the log: every run is one of those LogSystem is about. */
  lemma {:induction false} LogNeverOverflows(lay: Layout, s: Sys, acts: seq<Act>)
    requires lay.size > LOGSIZE && Inv(lay, s) && After(lay, s, acts).Some?
    ensures FitAfter(lay, s, acts) == After(lay, s, acts)
    ensures var r := After(lay, s, acts).value;
      LogFits(lay, r.e) && |r.e.lh| <= LOGSIZE && Distinct(r.e.lh)
  {
    if acts != [] {
      var before, a := acts[..|acts| - 1], acts[|acts| - 1];
      LogNeverOverflows(lay, s, before);
      RunKeepsInv(lay, s, before);
      var r := After(lay, s, before).value;
      if a.Append? { RoomToAppend(r, a.p, a.b); }
      assert Guarded(lay, r, a);
    }
    RunKeepsInv(lay, s, acts);
  }
}

/** Runs of a step function: a run is the sequence of actions taken. */
module Runs {
  import opened Common

  /** The state after the given actions, if each of them was possible. */
  function After<S, A>(step: (S, A) -> Option<S>, s: S, acts: seq<A>): Option<S> {
    if acts == [] then Some(s)
    else
      var r := After(step, s, acts[..|acts| - 1]);
      if r.Some? then step(r.value, acts[|acts| - 1]) else None
  }

  ghost predicate Preserved<S(!new), A(!new)>(step: (S, A) -> Option<S>, inv: S -> bool) {
    forall s, a :: inv(s) && step(s, a).Some? ==> inv(step(s, a).value)
  }

  lemma {:induction false} RunKeeps<S(!new), A(!new)>(step: (S, A) -> Option<S>, inv: S -> bool, s: S, acts: seq<A>)
    requires inv(s) && Preserved(step, inv) && After(step, s, acts).Some?
    ensures inv(After(step, s, acts).value)
  {
    if acts != [] {
      RunKeeps(step, inv, s, acts[..|acts| - 1]);
    }
  }

  /** How many actions came before the last marked one; 0 if none was marked. */
  function LastMark<S, A>(step: (S, A) -> Option<S>, mark: (S, A) -> bool, s: S, acts: seq<A>): nat
    requires After(step, s, acts).Some?
  {
    if acts == [] then 0
    else
      var before := acts[..|acts| - 1];
      if mark(After(step, s, before).value, acts[|acts| - 1]) then |before| else LastMark(step, mark, s, before)
  }

  /** Only marked actions, taken in quiet states, change what f shows, and they change it to what g shows. */
  ghost predicate Publishes<S(!new), A(!new), X>(step: (S, A) -> Option<S>, inv: S -> bool, mark: (S, A) -> bool,
                                                 quiet: S -> bool, f: S -> X, g: S -> X) {
    forall s, a :: inv(s) && step(s, a).Some? ==>
      && f(step(s, a).value) == (if mark(s, a) then g(s) else f(s))
      && (mark(s, a) ==> quiet(s))
  }

  lemma {:induction false} ShowsLastMark<S(!new), A(!new), X>(step: (S, A) -> Option<S>, inv: S -> bool,
      mark: (S, A) -> bool, quiet: S -> bool, f: S -> X, g: S -> X, s: S, acts: seq<A>)
    requires inv(s) && quiet(s) && f(s) == g(s) && After(step, s, acts).Some?
    requires Preserved(step, inv) && Publishes(step, inv, mark, quiet, f, g)
    ensures var k := LastMark(step, mark, s, acts);
      && k <= |acts| && After(step, s, acts[..k]).Some? && quiet(After(step, s, acts[..k]).value)
      && f(After(step, s, acts).value) == g(After(step, s, acts[..k]).value)
  {
    if acts != [] {
      var before := acts[..|acts| - 1];
      RunKeeps(step, inv, s, before);
      ShowsLastMark(step, inv, mark, quiet, f, g, s, before);
      var k := LastMark(step, mark, s, acts);
      assert acts[..k] == before[..k];
    }
  }

  ghost predicate Reaches<S, A(!new)>(step: (S, A) -> Option<S>, s: S, r: S) {
    exists acts :: After(step, s, acts) == Some(r)
  }

  lemma ReachesItself<S, A(!new)>(step: (S, A) -> Option<S>, s: S)
    ensures Reaches(step, s, s)
  {
    assert After(step, s, []) == Some(s);
  }

  lemma ReachesNext<S, A(!new)>(step: (S, A) -> Option<S>, s: S, r: S, a: A)
    requires Reaches(step, s, r) && step(r, a).Some?
    ensures Reaches(step, s, step(r, a).value)
  {
    var acts :| After(step, s, acts) == Some(r);
    assert (acts + [a])[..|acts|] == acts;
    assert After(step, s, acts + [a]) == step(r, a);
  }

  lemma {:induction false} ReachesTrans<S, A(!new)>(step: (S, A) -> Option<S>, s: S, r: S, acts: seq<A>, q: S)
    requires Reaches(step, s, r) && After(step, r, acts) == Some(q)
    ensures Reaches(step, s, q)
  {
    if acts != [] {
      var before := acts[..|acts| - 1];
      var m := After(step, r, before).value;
      ReachesTrans(step, s, r, before, m);
      ReachesNext(step, s, m, acts[|acts| - 1]);
    }
  }

  lemma AfterOne<S, A>(step: (S, A) -> Option<S>, s: S, a: A)
    ensures After(step, s, [a]) == step(s, a)
  {
    assert [a][..0] == [];
  }

  lemma AfterTwo<S, A>(step: (S, A) -> Option<S>, s: S, a: A, b: A)
    requires step(s, a).Some?
    ensures After(step, s, [a, b]) == step(step(s, a).value, b)
  {
    AfterOne(step, s, a);
    assert [a, b][..1] == [a];
  }
}

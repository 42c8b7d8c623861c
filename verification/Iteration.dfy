/** Repeating a step, and what every repetition keeps. */
module Iteration {
  function Iterate<T>(step: T -> T, x: T, n: nat): T {
    if n == 0 then x else Iterate(step, step(x), n - 1)
  }

  lemma {:induction false} IterateKeeps<T(!new)>(step: T -> T, ok: T -> bool, x: T, n: nat)
    requires ok(x) && forall y :: ok(y) ==> ok(step(y))
    ensures ok(Iterate(step, x, n))
  {
    if n > 0 { IterateKeeps(step, ok, step(x), n - 1); }
  }

  lemma {:induction false} IterateSnoc<T>(step: T -> T, x: T, n: nat)
    ensures Iterate(step, x, n + 1) == step(Iterate(step, x, n))
  {
    if n > 0 { IterateSnoc(step, step(x), n - 1); }
  }

  /** A count that each step takes down by one, to 0. */
  lemma {:induction false} IterateCounts<T(!new)>(step: T -> T, ok: T -> bool, left: T -> nat, x: T, n: nat)
    requires ok(x)
    requires forall y :: ok(y) ==> ok(step(y)) && left(step(y)) == if left(y) == 0 then 0 else left(y) - 1
    ensures left(Iterate(step, x, n)) == if n <= left(x) then left(x) - n else 0
  {
    if n > 0 { IterateCounts(step, ok, left, step(x), n - 1); }
  }
}

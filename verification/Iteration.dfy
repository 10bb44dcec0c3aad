/** Iterating a step, and what it keeps. */
module Iteration {

  function Bit(b: bool): nat {
    if b then 1 else 0
  }

  ghost function Iterate<S>(step: S -> S, s: S, n: nat): S {
    if n == 0 then s else step(Iterate(step, s, n - 1))
  }

  lemma {:induction false} KeepsInvariant<S(!new)>(step: S -> S, inv: S -> bool, s: S, n: nat)
    requires inv(s)
    requires forall x :: inv(x) ==> inv(step(x))
    ensures inv(Iterate(step, s, n))
  {
    if n > 0 {
      KeepsInvariant(step, inv, s, n - 1);
    }
  }
}

// Repeating a step function.
module Iteration {

  function Iterate<S>(f: S -> S, s: S, n: nat): S {
    if n == 0 then s else f(Iterate(f, s, n - 1))
  }

  lemma {:induction false} IterateCompose<S>(f: S -> S, s: S, m: nat, n: nat)
    ensures Iterate(f, Iterate(f, s, m), n) == Iterate(f, s, m + n)
  {
    if n > 0 {
      IterateCompose(f, s, m, n - 1);
    }
  }

  lemma IterateFirst<S>(f: S -> S, s: S, n: nat)
    ensures Iterate(f, s, n + 1) == Iterate(f, f(s), n)
  {
    assert Iterate(f, s, 1) == f(Iterate(f, s, 0));
    IterateCompose(f, s, 1, n);
  }
}

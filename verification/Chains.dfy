/** Chaining steps of a transition system whose steps are given as a relation. */
module Chains {

  /** The empty sequence leads nowhere, and what leads to `t` and on to `u` leads to `u`. */
  ghost predicate Composes<S(!new), E(!new)>(leads: (S, seq<E>, S) -> bool) {
    && (forall s :: leads(s, [], s))
    && (forall s, t, u, es, fs :: leads(s, es, t) && leads(t, fs, u) ==> leads(s, es + fs, u))
  }

  /** Every state at a stage before `n` can go on to the next stage. */
  ghost predicate Advances<S(!new), E(!new)>(leads: (S, seq<E>, S) -> bool, good: (nat, S) -> bool, n: nat) {
    forall k: nat, s :: k < n && good(k, s) ==> exists es, t :: leads(s, es, t) && good(k + 1, t)
  }

  /** Then stage `n` is reached. */
  lemma {:induction false} Chain<S(!new), E(!new)>(leads: (S, seq<E>, S) -> bool, good: (nat, S) -> bool, s: S, n: nat)
      returns (es: seq<E>, t: S)
    requires Composes(leads) && Advances(leads, good, n) && good(0, s)
    ensures leads(s, es, t) && good(n, t)
    decreases n
  {
    if n == 0 {
      es, t := [], s;
    } else {
      var ds, u := Chain(leads, good, s, n - 1);
      var fs, v :| leads(u, fs, v) && good(n, v);
      es, t := ds + fs, v;
    }
  }
}

/** Runs of a transition system: lists of events, and one operation repeated. */
module Runs {

  /** `f` applied `n` times. */
  function Repeated<S>(f: S -> S, s: S, n: nat): S {
    if n == 0 then s else f(Repeated(f, s, n - 1))
  }

  lemma {:induction false} RepeatedAdd<S>(f: S -> S, s: S, m: nat, n: nat)
    ensures Repeated(f, s, m + n) == Repeated(f, Repeated(f, s, m), n)
  {
    if n > 0 {
      RepeatedAdd(f, s, m, n - 1);
    }
  }

  /** The first time may be taken first. */
  lemma {:induction false} RepeatedFirst<S>(f: S -> S, s: S, n: nat)
    requires n > 0
    ensures Repeated(f, s, n) == Repeated(f, f(s), n - 1)
  {
    RepeatedAdd(f, s, 1, n - 1);
    assert Repeated(f, s, 0) == s;
    assert Repeated(f, s, 1) == f(s);
  }

  /** `run` folds `next` over a list of events. */
  ghost predicate Folds<S(!new), E(!new)>(next: (S, E) -> S, run: (S, seq<E>) -> S) {
    forall s, es {:trigger run(s, es)} :: run(s, es) == if es == [] then s else next(run(s, es[..|es| - 1]), es[|es| - 1])
  }

  /** The first event of a run may be taken first. */
  lemma {:induction false} RunFirst<S(!new), E(!new)>(next: (S, E) -> S, run: (S, seq<E>) -> S, s: S, e: E, es: seq<E>)
    requires Folds(next, run)
    ensures run(s, [e] + es) == run(next(s, e), es)
  {
    var l := [e] + es;
    assert run(s, l) == next(run(s, l[..|es|]), l[|es|]);
    if es == [] {
      assert l[..0] == [] && run(s, []) == s;
    } else {
      assert l[..|es|] == [e] + es[..|es| - 1];
      RunFirst(next, run, s, e, es[..|es| - 1]);
    }
  }

  /** A run is the same taken in two parts. */
  lemma {:induction false} RunBoth<S(!new), E(!new)>(next: (S, E) -> S, run: (S, seq<E>) -> S, s: S, a: seq<E>, b: seq<E>)
    requires Folds(next, run)
    ensures run(s, a + b) == run(run(s, a), b)
  {
    var l := a + b;
    if b == [] {
      assert l == a && run(run(s, a), []) == run(s, a);
    } else {
      assert l[..|l| - 1] == a + b[..|b| - 1] && l[|l| - 1] == b[|b| - 1];
      assert run(s, l) == next(run(s, l[..|l| - 1]), l[|l| - 1]);
      RunBoth(next, run, s, a, b[..|b| - 1]);
    }
  }
}

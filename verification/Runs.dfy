/** Runs of a step machine. A machine is a total function from a state and an event to the next
    state, and an event that is not enabled leaves the state alone, so that "every sequence of
    events" is "every interleaving". */
module Runs {

  /** The state reached from s by the events es, oldest first. */
  ghost function Run<S, E>(step: (S, E) -> S, s: S, es: seq<E>): S {
    if es == [] then s else step(Run(step, s, es[..|es| - 1]), es[|es| - 1])
  }

  /** What holds at the start and is kept by every step holds after every run. */
  lemma {:induction false} Invariant<S(!new), E(!new)>(step: (S, E) -> S, inv: S -> bool, s: S, es: seq<E>)
    requires inv(s)
    requires forall t: S, e: E {:trigger step(t, e)} :: inv(t) ==> inv(step(t, e))
    ensures inv(Run(step, s, es))
  {
    if es != [] {
      Invariant(step, inv, s, es[..|es| - 1]);
    }
  }

  /** A run can be cut anywhere. */
  lemma {:induction false} Split<S, E>(step: (S, E) -> S, s: S, es: seq<E>, fs: seq<E>)
    ensures Run(step, s, es + fs) == Run(step, Run(step, s, es), fs)
  {
    if fs == [] {
      assert es + fs == es;
    } else {
      Split(step, s, es, fs[..|fs| - 1]);
      assert (es + fs)[..|es + fs| - 1] == es + fs[..|fs| - 1];
    }
  }

  /** A run can be cut behind its first event. */
  lemma StepThenRun<S, E>(step: (S, E) -> S, s: S, e: E, es: seq<E>)
    ensures Run(step, s, [e] + es) == Run(step, step(s, e), es)
  {
    Split(step, s, [e], es);
    assert [e][..0] == [];
    assert Run(step, s, [e]) == step(Run(step, s, []), e);
  }

  lemma Two<S, E>(step: (S, E) -> S, s: S, a: E, b: E)
    ensures Run(step, s, [a, b]) == step(step(s, a), b)
  {
    assert [a, b][..1] == [a] && [a][..0] == [];
    assert Run(step, s, [a]) == step(Run(step, s, []), a);
  }

  lemma Five<S, E>(step: (S, E) -> S, s: S, a: E, b: E, c: E, d: E, e: E)
    ensures Run(step, s, [a, b, c, d, e]) == step(step(step(step(step(s, a), b), c), d), e)
  {
    Two(step, s, a, b);
    Two(step, Run(step, s, [a, b]), c, d);
    Split(step, s, [a, b], [c, d]);
    assert [a, b] + [c, d] == [a, b, c, d, e][..4];
  }
}

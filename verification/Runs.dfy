/** Runs of a deterministic state machine: what happens from a state on when its events come one after the other. */
module Runs {
  ghost predicate Legal<S(!new), E(!new)>(enabled: (S, E) -> bool, step: (S, E) -> S, s: S, events: seq<E>)
    decreases |events|
  {
    events != [] ==> enabled(s, events[0]) && Legal(enabled, step, step(s, events[0]), events[1..])
  }

  ghost function Run<S(!new), E(!new)>(step: (S, E) -> S, s: S, events: seq<E>): S
    decreases |events|
  {
    if events == [] then s else Run(step, step(s, events[0]), events[1..])
  }

  lemma Prepend<S(!new), E(!new)>(enabled: (S, E) -> bool, step: (S, E) -> S, s: S, e: E, rest: seq<E>)
    requires enabled(s, e) && Legal(enabled, step, step(s, e), rest)
    ensures Legal(enabled, step, s, [e] + rest) && Run(step, s, [e] + rest) == Run(step, step(s, e), rest)
  {
    assert ([e] + rest)[1..] == rest;
  }

  lemma {:induction false} Concat<S(!new), E(!new)>(enabled: (S, E) -> bool, step: (S, E) -> S, s: S,
                                                    first: seq<E>, second: seq<E>)
    requires Legal(enabled, step, s, first) && Legal(enabled, step, Run(step, s, first), second)
    ensures Legal(enabled, step, s, first + second)
    ensures Run(step, s, first + second) == Run(step, Run(step, s, first), second)
    decreases |first|
  {
    if first == [] {
      assert first + second == second;
    } else {
      assert (first + second)[1..] == first[1..] + second;
      Concat(enabled, step, step(s, first[0]), first[1..], second);
    }
  }

  /** What every enabled step keeps, every legal run keeps. */
  lemma {:induction false} Keeps<S(!new), E(!new)>(enabled: (S, E) -> bool, step: (S, E) -> S, inv: S -> bool,
                                                   s: S, events: seq<E>)
    requires forall t, e :: inv(t) && enabled(t, e) ==> inv(step(t, e))
    requires inv(s) && Legal(enabled, step, s, events)
    ensures inv(Run(step, s, events))
    decreases |events|
  {
    if events != [] {
      Keeps(enabled, step, inv, step(s, events[0]), events[1..]);
    }
  }

  /** The last event of a run. */
  lemma {:induction false} Split<S(!new), E(!new)>(enabled: (S, E) -> bool, step: (S, E) -> S, s: S, events: seq<E>)
    requires Legal(enabled, step, s, events) && events != []
    ensures var front, last := events[..|events| - 1], events[|events| - 1];
      && Legal(enabled, step, s, front) && enabled(Run(step, s, front), last)
      && Run(step, s, events) == step(Run(step, s, front), last)
    decreases |events|
  {
    if |events| > 1 {
      var rest := events[1..];
      Split(enabled, step, step(s, events[0]), rest);
      assert events[..|events| - 1][1..] == rest[..|rest| - 1];
    }
  }

  // ---- chains of states -----------------------------------------------------------------------

  ghost predicate Linked<S(!new)>(next: (S, S) -> bool, states: seq<S>, i: nat)
    requires i + 1 < |states|
  {
    next(states[i], states[i + 1])
  }

  /** Each state leads to the one after it. */
  ghost predicate Chain<S(!new)>(next: (S, S) -> bool, states: seq<S>) {
    states != [] && forall i: nat :: i + 1 < |states| ==> Linked(next, states, i)
  }

  lemma ChainAppend<S(!new)>(next: (S, S) -> bool, states: seq<S>, s: S)
    requires Chain(next, states) && next(states[|states| - 1], s)
    ensures Chain(next, states + [s])
  {
    forall i: nat | i + 1 < |states + [s]|
      ensures Linked(next, states + [s], i)
    {
      assert i + 1 < |states| ==> Linked(next, states, i);
    }
  }

  lemma ChainTail<S(!new)>(next: (S, S) -> bool, states: seq<S>)
    requires Chain(next, states) && |states| > 1
    ensures next(states[0], states[1]) && Chain(next, states[1..])
  {
    assert Linked(next, states, 0);
    forall i: nat | i + 1 < |states[1..]|
      ensures Linked(next, states[1..], i)
    {
      assert Linked(next, states, i + 1);
    }
  }
}

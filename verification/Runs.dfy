/** Runs of a state machine given by its step function. */
module Runs {

  function Run<S, C>(step: (S, C) -> S, s: S, cs: seq<C>): S
    decreases |cs|
  {
    if cs == [] then s else Run(step, step(s, cs[0]), cs[1..])
  }

  /** Does P hold before every call of the run, and after the last? */
  ghost predicate Throughout<S, C>(P: S -> bool, step: (S, C) -> S, s: S, cs: seq<C>)
    decreases |cs|
  {
    P(s) && (cs == [] || Throughout(P, step, step(s, cs[0]), cs[1..]))
  }

  /** Is there a call in the run that B describes, in the state in which it is made? */
  ghost predicate Somewhere<S, C>(B: (S, C) -> bool, step: (S, C) -> S, s: S, cs: seq<C>)
    decreases |cs|
  {
    cs != [] && (B(s, cs[0]) || Somewhere(B, step, step(s, cs[0]), cs[1..]))
  }

  /**
   When I always holds, and exactly the calls that B describes break P, then P
   holds throughout exactly the runs without such a call.
   */
  lemma {:induction false} ThroughoutExactlyUnder<S, C(!new)>(
    I: S -> bool, P: S -> bool, B: (S, C) -> bool, step: (S, C) -> S, s: S, cs: seq<C>)
    requires I(s) && P(s)
    requires forall t, c | I(t) :: I(step(t, c))
    requires forall t, c | I(t) && P(t) :: P(step(t, c)) <==> !B(t, c)
    ensures Throughout(P, step, s, cs) <==> !Somewhere(B, step, s, cs)
    decreases |cs|
  {
    if cs != [] && P(step(s, cs[0])) {
      ThroughoutExactlyUnder(I, P, B, step, step(s, cs[0]), cs[1..]);
    }
  }

  /** When exactly the calls that B describes break P, P holds throughout exactly the runs without such a call. */
  lemma ThroughoutExactly<S, C(!new)>(P: S -> bool, B: (S, C) -> bool, step: (S, C) -> S, s: S, cs: seq<C>)
    requires P(s)
    requires forall t, c | P(t) :: P(step(t, c)) <==> !B(t, c)
    ensures Throughout(P, step, s, cs) <==> !Somewhere(B, step, s, cs)
  {
    ThroughoutExactlyUnder(_ => true, P, B, step, s, cs);
  }

  lemma {:induction false} ThroughoutAtEnd<S, C>(P: S -> bool, step: (S, C) -> S, s: S, cs: seq<C>)
    requires Throughout(P, step, s, cs)
    ensures P(Run(step, s, cs))
    decreases |cs|
  {
    if cs != [] {
      ThroughoutAtEnd(P, step, step(s, cs[0]), cs[1..]);
    }
  }

  lemma RunNext<S, C>(step: (S, C) -> S, s: S, c: C, rest: seq<C>)
    ensures Run(step, s, [c] + rest) == Run(step, step(s, c), rest)
  {
    assert ([c] + rest)[1..] == rest;
  }

  lemma RunThree<S, C>(step: (S, C) -> S, s: S, a: C, b: C, c: C)
    ensures Run(step, s, [a, b, c]) == step(step(step(s, a), b), c)
  {
    assert [a, b, c] == [a] + [b, c] && [b, c] == [b] + [c] && [c] == [c] + [];
    RunNext(step, s, a, [b, c]);
    RunNext(step, step(s, a), b, [c]);
    RunNext(step, step(step(s, a), b), c, []);
  }

  lemma RunFour<S, C>(step: (S, C) -> S, s: S, a: C, b: C, c: C, d: C)
    ensures Run(step, s, [a, b, c, d]) == step(step(step(step(s, a), b), c), d)
  {
    assert [a, b, c, d] == [a] + [b, c, d];
    RunNext(step, s, a, [b, c, d]);
    RunThree(step, step(s, a), b, c, d);
  }
}

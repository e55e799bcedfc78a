/** Runs of a state machine: what every step keeps, every run keeps. */
module Runs {
  import opened Wrappers

  function Run<S, C>(step: (S, C) -> S, s: S, calls: seq<C>): (r: S)
    decreases |calls|
  {
    if calls == [] then s else Run(step, step(s, calls[0]), calls[1..])
  }

  /** Some step of the run happens in a state where `event` holds of it. */
  predicate SomeStep<S, C>(step: (S, C) -> S, event: (S, C) -> bool, s: S, calls: seq<C>)
    decreases |calls|
  {
    calls != [] && (event(s, calls[0]) || SomeStep(step, event, step(s, calls[0]), calls[1..]))
  }

  function CountSteps<S, C>(step: (S, C) -> S, event: (S, C) -> bool, s: S, calls: seq<C>): (r: nat)
    decreases |calls|
  {
    if calls == [] then 0
    else (if event(s, calls[0]) then 1 else 0) + CountSteps(step, event, step(s, calls[0]), calls[1..])
  }

  /** A property that only `event` can end holds as long as no step is one. */
  lemma {:induction false} KeptUntil<S(!new), C(!new)>(
      step: (S, C) -> S, property: S -> bool, event: (S, C) -> bool, s: S, calls: seq<C>)
    requires forall s, c :: property(s) && !event(s, c) ==> property(step(s, c))
    requires property(s) && !SomeStep(step, event, s, calls)
    ensures property(Run(step, s, calls))
    decreases |calls|
  {
    if calls != [] {
      KeptUntil(step, property, event, step(s, calls[0]), calls[1..]);
    }
  }

  lemma {:induction false} Kept<S(!new), C(!new)>(step: (S, C) -> S, property: S -> bool, s: S, calls: seq<C>)
    requires forall s, c :: property(s) ==> property(step(s, c))
    requires property(s)
    ensures property(Run(step, s, calls))
    decreases |calls|
  {
    if calls != [] {
      Kept(step, property, step(s, calls[0]), calls[1..]);
    }
  }

  lemma RunCons<S, C>(step: (S, C) -> S, s: S, c: C, rest: seq<C>)
    ensures Run(step, s, [c] + rest) == Run(step, step(s, c), rest)
  {
    assert ([c] + rest)[1..] == rest;
  }

  lemma RunOne<S, C>(step: (S, C) -> S, s: S, a: C)
    ensures Run(step, s, [a]) == step(s, a)
  {
    RunCons(step, s, a, []);
    assert [a] + [] == [a];
  }

  lemma RunTwo<S, C>(step: (S, C) -> S, s: S, a: C, b: C)
    ensures Run(step, s, [a, b]) == step(step(s, a), b)
  {
    RunCons(step, s, a, [b]);
    assert [a] + [b] == [a, b];
    RunOne(step, step(s, a), b);
  }

  lemma RunThree<S, C>(step: (S, C) -> S, s: S, a: C, b: C, c: C, rest: seq<C>)
    ensures Run(step, s, [a, b, c] + rest) == Run(step, step(step(step(s, a), b), c), rest)
  {
    assert [a, b, c] + rest == [a] + ([b] + ([c] + rest));
    RunCons(step, s, a, [b] + ([c] + rest));
    RunCons(step, step(s, a), b, [c] + rest);
    RunCons(step, step(step(s, a), b), c, rest);
  }

  /** The last call of the run at whose step `event` holds, or `last` if there is none. */
  function LastCall<S, C>(step: (S, C) -> S, event: (S, C) -> bool, s: S, calls: seq<C>, last: Option<C>)
      : (r: Option<C>)
    decreases |calls|
  {
    if calls == [] then last
    else LastCall(step, event, step(s, calls[0]), calls[1..], if event(s, calls[0]) then Some(calls[0]) else last)
  }

  /** What an event brings about, and every other step keeps, the last event tells. */
  lemma {:induction false} LastCallTells<S(!new), C(!new)>(
      step: (S, C) -> S, event: (S, C) -> bool, tells: (Option<C>, S) -> bool, s: S, calls: seq<C>, last: Option<C>)
    requires forall s, c, o :: tells(o, s) ==> tells(if event(s, c) then Some(c) else o, step(s, c))
    requires tells(last, s)
    ensures tells(LastCall(step, event, s, calls, last), Run(step, s, calls))
    decreases |calls|
  {
    if calls != [] {
      var next := if event(s, calls[0]) then Some(calls[0]) else last;
      LastCallTells(step, event, tells, step(s, calls[0]), calls[1..], next);
    }
  }

  /** What the steps of the run contribute, one after the other. */
  function Gathered<S, C, T>(step: (S, C) -> S, gives: (S, C) -> seq<T>, s: S, calls: seq<C>): (r: seq<T>)
    decreases |calls|
  {
    if calls == [] then [] else gives(s, calls[0]) + Gathered(step, gives, step(s, calls[0]), calls[1..])
  }
}

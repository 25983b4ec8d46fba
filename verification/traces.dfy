/**
 * Event traces for the discrete-event state machines: a step function maps a
 * state and an event to the next state and the effects the event caused, and
 * a run feeds it the events in order.
 */
module Traces {

  /** The state after an event (or a trace of events) and the effects it produced, in order. */
  datatype Outcome<S, F> = Outcome(next: S, effects: seq<F>)

  function Run<S, E, F>(step: (S, E) -> Outcome<S, F>, s: S, events: seq<E>): Outcome<S, F>
    decreases |events|
  {
    if |events| == 0 then Outcome(s, [])
    else
      var first := step(s, events[0]);
      var rest := Run(step, first.next, events[1..]);
      Outcome(rest.next, first.effects + rest.effects)
  }

  /** Running two traces one after the other is running their concatenation. */
  lemma {:induction false} RunAppend<S, E, F>(step: (S, E) -> Outcome<S, F>, s: S, xs: seq<E>, ys: seq<E>)
    ensures Run(step, s, xs + ys).next == Run(step, Run(step, s, xs).next, ys).next
    ensures Run(step, s, xs + ys).effects
            == Run(step, s, xs).effects + Run(step, Run(step, s, xs).next, ys).effects
    decreases |xs|
  {
    if |xs| == 0 {
      assert xs + ys == ys;
    } else {
      var first := step(s, xs[0]);
      assert (xs + ys)[0] == xs[0];
      assert (xs + ys)[1..] == xs[1..] + ys;
      RunAppend(step, first.next, xs[1..], ys);
    }
  }

  /** A one-event trace is one step. */
  lemma RunSingle<S, E, F>(step: (S, E) -> Outcome<S, F>, s: S, e: E)
    ensures Run(step, s, [e]) == step(s, e)
  {
    assert [e][1..] == [];
    assert step(s, e).effects + [] == step(s, e).effects;
  }

  /** Composing the outcomes of two traces: the state of the second, the effects of both in order. */
  lemma RunThen<S, E, F>(step: (S, E) -> Outcome<S, F>, s: S, xs: seq<E>, ys: seq<E>, mid: S, last: S, a: seq<F>, b: seq<F>)
    requires Run(step, s, xs) == Outcome(mid, a)
    requires Run(step, mid, ys) == Outcome(last, b)
    ensures Run(step, s, xs + ys) == Outcome(last, a + b)
  {
    RunAppend(step, s, xs, ys);
  }
}

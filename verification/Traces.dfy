/** Runs of a state machine along a sequence of inputs. */
module Traces {

  /** The state after the first `n` inputs. */
  function Along<S, I>(step: (S, I) -> S, s: S, inputs: seq<I>, n: nat): S
    requires n <= |inputs|
  {
    if n == 0 then s else step(Along(step, s, inputs, n - 1), inputs[n - 1])
  }

  /** What every step keeps holds at every point of a run. */
  lemma {:induction false} AlongKeeps<S(!new), I(!new)>(
    step: (S, I) -> S, s: S, inputs: seq<I>, n: nat, inv: S -> bool)
    requires n <= |inputs| && inv(s)
    requires forall t, i | inv(t) && i in inputs :: inv(step(t, i))
    ensures inv(Along(step, s, inputs, n))
  {
    if n > 0 {
      AlongKeeps(step, s, inputs, n - 1, inv);
    }
  }

  lemma {:induction false} AlongGrows<S, I>(step: (S, I) -> S, s: S, inputs: seq<I>, more: seq<I>, n: nat)
    requires n <= |inputs|
    ensures Along(step, s, inputs + more, n) == Along(step, s, inputs, n)
  {
    if n > 0 {
      AlongGrows(step, s, inputs, more, n - 1);
    }
  }

  /** A run goes on from where its first part ends. */
  lemma {:induction false} AlongJoins<S, I>(step: (S, I) -> S, s: S, inputs: seq<I>, more: seq<I>, n: nat)
    requires n <= |more|
    ensures Along(step, s, inputs + more, |inputs| + n) == Along(step, Along(step, s, inputs, |inputs|), more, n)
  {
    if n == 0 {
      AlongGrows(step, s, inputs, more, |inputs|);
    } else {
      AlongJoins(step, s, inputs, more, n - 1);
      assert (inputs + more)[|inputs| + n - 1] == more[n - 1];
    }
  }

  lemma AlongAll<S, I>(step: (S, I) -> S, s: S, inputs: seq<I>, more: seq<I>)
    ensures Along(step, s, inputs + more, |inputs + more|)
         == Along(step, Along(step, s, inputs, |inputs|), more, |more|)
  {
    AlongJoins(step, s, inputs, more, |more|);
  }

  lemma AlongOne<S, I>(step: (S, I) -> S, s: S, inputs: seq<I>, i: I)
    ensures Along(step, s, inputs + [i], |inputs + [i]|) == step(Along(step, s, inputs, |inputs|), i)
  {
    AlongGrows(step, s, inputs, [i], |inputs|);
  }
}

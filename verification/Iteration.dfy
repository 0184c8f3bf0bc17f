/** Repeating a step, and carrying facts from one repeated step to another that simulates it. */
module Iteration {

  ghost function Iterate<S(!new)>(step: S -> S, s: S, k: nat): S
    decreases k
  {
    if k == 0 then s else Iterate(step, step(s), k - 1)
  }

  /** `stop` holds after `k` steps for the first time. */
  ghost predicate FirstStop<S(!new)>(step: S -> S, stop: S -> bool, s: S, k: nat)
    decreases k
  {
    if k == 0 then stop(s) else !stop(s) && FirstStop(step, stop, step(s), k - 1)
  }

  /** Related states stay related when both sides take a step. */
  ghost predicate Simulation<S(!new), V(!new)>(step: S -> S, viewStep: V -> V, rel: (S, V) -> bool) {
    forall s, v :: rel(s, v) ==> rel(step(s), viewStep(v))
  }

  lemma {:induction false} IterateSimulates<S(!new), V(!new)>(step: S -> S, viewStep: V -> V, rel: (S, V) -> bool,
                                                            s: S, v: V, k: nat)
    requires Simulation(step, viewStep, rel) && rel(s, v)
    ensures rel(Iterate(step, s, k), Iterate(viewStep, v, k))
    decreases k
  {
    if k > 0 {
      IterateSimulates(step, viewStep, rel, step(s), viewStep(v), k - 1);
    }
  }

  lemma {:induction false} StopSimulates<S(!new), V(!new)>(step: S -> S, viewStep: V -> V, rel: (S, V) -> bool,
                                                         stop: S -> bool, viewStop: V -> bool, s: S, v: V, k: nat)
    requires Simulation(step, viewStep, rel) && rel(s, v)
    requires forall x, y :: rel(x, y) ==> (stop(x) <==> viewStop(y))
    ensures FirstStop(step, stop, s, k) <==> FirstStop(viewStep, viewStop, v, k)
    decreases k
  {
    if k > 0 {
      StopSimulates(step, viewStep, rel, stop, viewStop, step(s), viewStep(v), k - 1);
    }
  }

  lemma {:induction false} IterateKeeps<S(!new)>(step: S -> S, inv: S -> bool, s: S, k: nat)
    requires inv(s) && forall x :: inv(x) ==> inv(step(x))
    ensures inv(Iterate(step, s, k))
    decreases k
  {
    if k > 0 {
      IterateKeeps(step, inv, step(s), k - 1);
    }
  }

  lemma {:induction false} IterateAdds<S(!new)>(step: S -> S, s: S, k: nat, l: nat)
    ensures Iterate(step, Iterate(step, s, k), l) == Iterate(step, s, k + l)
    decreases k
  {
    if k > 0 {
      IterateAdds(step, step(s), k - 1, l);
    }
  }
}

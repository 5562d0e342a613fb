/** A loop over a list whose body may raise: the state after each element, stopping at the first failure. */
module Folds {
  import opened Wrappers

  function Steps<S, X, E>(step: (S, X) -> Result<S, E>, st: S, xs: seq<X>): Result<S, E> {
    if xs == [] then Success(st)
    else match Steps(step, st, xs[..|xs| - 1])
      case Failure(e) => Failure(e)
      case Success(s) => step(s, xs[|xs| - 1])
  }

  /** Running over xs + ys is running over xs, then over ys from where it left off. */
  lemma {:induction false} StepsAppend<S, X, E>(step: (S, X) -> Result<S, E>, st: S, xs: seq<X>, ys: seq<X>)
    ensures Steps(step, st, xs + ys) ==
      match Steps(step, st, xs)
      case Failure(e) => Failure(e)
      case Success(s) => Steps(step, s, ys)
    decreases |ys|
  {
    if ys == [] {
      assert xs + ys == xs;
    } else {
      var n := |ys| - 1;
      assert (xs + ys)[..|xs + ys| - 1] == xs + ys[..n];
      assert (xs + ys)[|xs + ys| - 1] == ys[n];
      StepsAppend(step, st, xs, ys[..n]);
    }
  }

  /** The element at i raises, so the whole run raises the same. */
  lemma StepsStop<S, X, E>(step: (S, X) -> Result<S, E>, st: S, xs: seq<X>, i: nat)
    requires i < |xs| && Steps(step, st, xs[..i]).Success?
    requires step(Steps(step, st, xs[..i]).value, xs[i]).Failure?
    ensures Steps(step, st, xs) == Failure(step(Steps(step, st, xs[..i]).value, xs[i]).error)
  {
    var e := step(Steps(step, st, xs[..i]).value, xs[i]).error;
    assert xs[..i + 1][..i] == xs[..i];
    assert Steps(step, st, xs[..i + 1]) == Failure(e);
    assert xs == xs[..i + 1] + xs[i + 1..];
    StepsAppend(step, st, xs[..i + 1], xs[i + 1..]);
  }

  /** One more element. */
  lemma StepsNext<S, X, E>(step: (S, X) -> Result<S, E>, st: S, xs: seq<X>, i: nat)
    requires i < |xs| && Steps(step, st, xs[..i]).Success?
    ensures Steps(step, st, xs[..i + 1]) == step(Steps(step, st, xs[..i]).value, xs[i])
  {
    assert xs[..i + 1][..i] == xs[..i];
  }

  /** After `before`, the step for x raises or adds adds(x), and it only succeeds when ok(x). */
  predicate StepAdds<X, T, E>(step: (set<T>, X) -> Result<set<T>, E>, ok: X -> bool, adds: X -> set<T>,
                              before: Result<set<T>, E>, x: X) {
    before.Success? && step(before.value, x).Success? ==>
      ok(x) && step(before.value, x).value == before.value + adds(x)
  }

  /** A loop that adds to a set what each element yields: the result is the start plus every yield. */
  lemma {:induction false} StepsGather<X, T, E>(step: (set<T>, X) -> Result<set<T>, E>, ok: X -> bool,
                                                 adds: X -> set<T>, st: set<T>, xs: seq<X>, a: T)
    requires forall i :: 0 <= i < |xs| ==> StepAdds(step, ok, adds, Steps(step, st, xs[..i]), xs[i])
    requires Steps(step, st, xs).Success?
    ensures forall i :: 0 <= i < |xs| ==> ok(xs[i])
    ensures a in Steps(step, st, xs).value <==> (a in st || exists i :: 0 <= i < |xs| && a in adds(xs[i]))
    decreases |xs|
  {
    if xs != [] {
      var n := |xs| - 1;
      var init := xs[..n];
      var prev := Steps(step, st, init);
      assert prev.Success?;
      forall i | 0 <= i < n
        ensures StepAdds(step, ok, adds, Steps(step, st, init[..i]), init[i])
      {
        assert init[..i] == xs[..i] && init[i] == xs[i];
      }
      StepsGather(step, ok, adds, st, init, a);
      assert StepAdds(step, ok, adds, prev, xs[n]);
      assert Steps(step, st, xs).value == prev.value + adds(xs[n]);
      assert forall i :: 0 <= i < n ==> init[i] == xs[i];
      if a in prev.value && a !in st {
        var i :| 0 <= i < n && a in adds(init[i]);
        assert a in adds(xs[i]);
      }
    }
  }
}

/** Runs of any state machine, and the states they reach. */
module Runs {

  ghost predicate IsRun<S(!new)>(init: S -> bool, next: (S, S) -> bool, t: seq<S>) {
    t != [] && init(t[0]) && forall i :: 0 < i < |t| ==> StepAt(next, t, i)
  }

  ghost predicate StepAt<S(!new)>(next: (S, S) -> bool, t: seq<S>, i: nat)
    requires 0 < i < |t|
  {
    next(t[i - 1], t[i])
  }

  ghost predicate Reachable<S(!new)>(init: S -> bool, next: (S, S) -> bool, s: S) {
    exists t :: IsRun(init, next, t) && t[|t| - 1] == s
  }

  lemma ReachableInit<S(!new)>(init: S -> bool, next: (S, S) -> bool, s: S)
    requires init(s)
    ensures Reachable(init, next, s)
  {
    assert IsRun(init, next, [s]);
    assert [s][|[s]| - 1] == s;
  }

  lemma ReachableNext<S(!new)>(init: S -> bool, next: (S, S) -> bool, s: S, s': S)
    requires Reachable(init, next, s) && next(s, s')
    ensures Reachable(init, next, s')
  {
    var t :| IsRun(init, next, t) && t[|t| - 1] == s;
    var t' := t + [s'];
    forall i | 0 < i < |t'| ensures StepAt(next, t', i) {
      if i < |t| {
        assert StepAt(next, t, i);
        assert t'[i - 1] == t[i - 1] && t'[i] == t[i];
      }
    }
    assert t'[|t'| - 1] == s';
  }

  // ---- runs whose steps are named ----

  ghost predicate IsLabelled<S(!new), L(!new)>(init: S -> bool, next: (S, L, S) -> bool, run: seq<S>, labels: seq<L>) {
    && |run| == |labels| + 1 && init(run[0])
    && forall i :: 0 <= i < |labels| ==> LabelledAt(next, run, labels, i)
  }

  ghost predicate LabelledAt<S(!new), L(!new)>(next: (S, L, S) -> bool, run: seq<S>, labels: seq<L>, i: nat)
    requires |run| == |labels| + 1 && i < |labels|
  {
    next(run[i], labels[i], run[i + 1])
  }

  lemma ExtendLabelled<S(!new), L(!new)>(init: S -> bool, next: (S, L, S) -> bool, run: seq<S>, labels: seq<L>, step: L, s: S)
    requires IsLabelled(init, next, run, labels) && next(run[|labels|], step, s)
    ensures IsLabelled(init, next, run + [s], labels + [step])
  {
    var run', labels' := run + [s], labels + [step];
    forall i | 0 <= i < |labels'| ensures LabelledAt(next, run', labels', i) {
      if i < |labels| {
        assert LabelledAt(next, run, labels, i);
        assert run'[i] == run[i] && run'[i + 1] == run[i + 1] && labels'[i] == labels[i];
      }
    }
  }
}

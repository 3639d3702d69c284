/** What a deletion pass does: each entry of its trace is there exactly when it is due
    (internal/controller/plugin/eks/karpenter_bootstrapper_controller.go). */
module DeletionProgress {

  import opened Deletion
  import opened DeletionPromises

  predicate Begins(o: Observed) { Settled(o.flux.0) && Settled(o.flux.1) }

  /** What happens to Flux: the second object is looked at only when the first is settled, and the
      provisioning is stopped only when both are. */
  lemma FluxActions(names: Names, o: Observed)
    ensures SuspendedFlux(0) in PassTrace(names, o) <==> o.flux.0 == FluxActive(true)
    ensures SuspendedFlux(1) in PassTrace(names, o) <==> Settled(o.flux.0) && o.flux.1 == FluxActive(true)
    ensures TriedToStopProvisioning in PassTrace(names, o) <==> Begins(o)
  {
    PassParts(names, o);
    if Begins(o) && Resolved(names) {
      CloudIsElsewhere(o, SuspendedFlux(0));
      CloudIsElsewhere(o, SuspendedFlux(1));
    }
  }

  lemma CloudIsElsewhere(o: Observed, x: Action)
    requires x.SuspendedFlux? || x.TriedToStopProvisioning?
    ensures x !in CloudTrace(o)
  {
    NothingElseInLooks(o, x);
    if x in InterfacesTrace(o) {
      NothingElseInInterfaces(o, x);
    }
  }

  // ---- terminate calls ----

  /** The b-th batch of 50. */
  function Batch(ids: seq<string>, b: nat): seq<string>
    requires 50 * b < |ids|
  {
    ids[50 * b..if 50 * b + 50 < |ids| then 50 * b + 50 else |ids|]
  }

  /** The b-th call is made exactly when there are ids left for it and none before it failed, and it
      names the b-th batch of 50. */
  lemma {:induction false} CallsAreBatches(ids: seq<string>, outcome: nat -> Call, k: nat, b: nat)
    ensures b < |Calls(ids, outcome, k)| <==> 50 * b < |ids| && Succeed(outcome, k, b)
    ensures b < |Calls(ids, outcome, k)| ==> Calls(ids, outcome, k)[b] == Batch(ids, b)
    decreases |ids|
  {
    if ids != [] && b > 0 {
      var rest := ids[Min(BATCH, |ids|)..];
      OneMoreSucceeds(outcome, k, b - 1);
      if !outcome(k).CallFailed? {
        CallsAreBatches(rest, outcome, k + 1, b - 1);
      }
    }
  }

  function Live(o: Observed, k: nat): seq<string>
    requires o.describe(k).Described?
  {
    Ids(o.describe(k).instances, false)
  }

  /** The b-th terminate call of look `k`. */
  predicate IsCall(o: Observed, k: nat, b: nat, x: Action) {
    && o.describe(k).Described? && 50 * b < |Live(o, k)| && Succeed(Outcomes(o, k), 0, b)
    && x == Terminated(k, Batch(Live(o, k), b))
  }

  predicate IsSighting(o: Observed, k: nat, x: Action) {
    o.describe(k).Described? && x == SawInstances(k, Live(o, k), Ids(o.describe(k).instances, true))
  }

  lemma InLookIsDue(o: Observed, k: nat, i: nat)
    requires i < |LookTrace(k, o.describe(k), Outcomes(o, k))|
    ensures var x := LookTrace(k, o.describe(k), Outcomes(o, k))[i];
            if i == 0 then IsSighting(o, k, x) else IsCall(o, k, i - 1, x)
  {
    if i > 0 {
      CallsAreBatches(Live(o, k), Outcomes(o, k), 0, i - 1);
    }
  }

  lemma CallIsInLook(o: Observed, k: nat, b: nat, x: Action)
    requires IsCall(o, k, b, x)
    ensures x in LookTrace(k, o.describe(k), Outcomes(o, k))
  {
    CallsAreBatches(Live(o, k), Outcomes(o, k), 0, b);
    assert LookTrace(k, o.describe(k), Outcomes(o, k))[b + 1] == x;
  }

  /** A look does what is due. */
  lemma LookHolds(o: Observed, k: nat, x: Action)
    ensures InLook(o, k, x) <==> IsSighting(o, k, x) || exists b: nat :: IsCall(o, k, b, x)
  {
    var t := LookTrace(k, o.describe(k), Outcomes(o, k));
    if InLook(o, k, x) {
      var i :| 0 <= i < |t| && t[i] == x;
      InLookIsDue(o, k, i);
    }
    if b: nat :| IsCall(o, k, b, x) {
      CallIsInLook(o, k, b, x);
    }
    if IsSighting(o, k, x) {
      assert t[0] == x;
    }
  }

  // ---- looks ----

  /** Look `k` is made: every one from `attempt` on before it had live instances, all of which it
      terminated. */
  predicate Reached(o: Observed, attempt: nat, k: nat) {
    attempt <= k < 3 && forall j :: attempt <= j < k ==> TerminatesAll(o, j)
  }

  predicate InLook(o: Observed, k: nat, x: Action) { x in LookTrace(k, o.describe(k), Outcomes(o, k)) }

  lemma GoesOnIff(o: Observed, attempt: nat)
    requires attempt < 3
    ensures !LastLook(LookProgress(o.describe(attempt), Outcomes(o, attempt)), attempt) <==>
              attempt < 2 && TerminatesAll(o, attempt)
  {
  }

  ghost predicate InSomeLook(o: Observed, attempt: nat, x: Action) {
    exists k :: Reached(o, attempt, k) && InLook(o, k, x)
  }

  lemma OneLook(o: Observed, attempt: nat, x: Action)
    requires attempt == 2 || (attempt < 2 && !TerminatesAll(o, attempt))
    ensures InSomeLook(o, attempt, x) <==> InLook(o, attempt, x)
  {
    assert Reached(o, attempt, attempt);
    forall k | Reached(o, attempt, k) ensures k == attempt {
    }
  }

  lemma OneMoreLook(o: Observed, attempt: nat, x: Action)
    requires attempt < 2 && TerminatesAll(o, attempt)
    ensures InSomeLook(o, attempt, x) <==> InLook(o, attempt, x) || InSomeLook(o, attempt + 1, x)
  {
    assert Reached(o, attempt, attempt);
    forall k ensures k != attempt ==> (Reached(o, attempt, k) <==> Reached(o, attempt + 1, k)) {
    }
  }

  lemma LooksUnfold(o: Observed, attempt: nat, x: Action)
    requires attempt < 3
    ensures x in LooksTrace(o, attempt) <==>
              InLook(o, attempt, x) || (attempt < 2 && TerminatesAll(o, attempt) && x in LooksTrace(o, attempt + 1))
  {
    GoesOnIff(o, attempt);
  }

  /** The looks do what is due in each one that is made. */
  lemma LooksHold(o: Observed, x: Action)
    ensures x in LooksTrace(o, 0) <==> InSomeLook(o, 0, x)
  {
    LooksUnfold(o, 0, x);
    if TerminatesAll(o, 0) {
      LooksUnfold(o, 1, x);
      OneMoreLook(o, 0, x);
      if TerminatesAll(o, 1) {
        LooksUnfold(o, 2, x);
        OneMoreLook(o, 1, x);
        OneLook(o, 2, x);
      } else {
        OneLook(o, 1, x);
      }
    } else {
      OneLook(o, 0, x);
    }
  }

  lemma NothingElseInLooks(o: Observed, x: Action)
    requires !x.SawInstances? && !x.Terminated?
    ensures x !in LooksTrace(o, 0)
  {
    LooksHold(o, x);
    forall k: nat ensures !InLook(o, k, x) {
      LookHolds(o, k, x);
    }
  }

  lemma NothingElseInInterfaces(o: Observed, x: Action)
    requires x in InterfacesTrace(o)
    ensures IsInterfaceAction(x)
  {
    var i :| 0 <= i < |InterfacesTrace(o)| && InterfacesTrace(o)[i] == x;
    InterfacesAreJustified(o, i);
  }

  // ---- the whole pass ----

  /** The pass gets as far as the cloud. */
  predicate ReachesCloud(names: Names, o: Observed) { Begins(o) && Resolved(names) }

  lemma PassHolds(names: Names, o: Observed, x: Action)
    requires !x.SuspendedFlux? && !x.TriedToStopProvisioning?
    ensures x in PassTrace(names, o) <==> ReachesCloud(names, o) && x in CloudTrace(o)
  {
    PassParts(names, o);
  }

  /** A look that is made sees what is described: the live instances and those that shut down. */
  lemma SightingsAre(names: Names, o: Observed, x: Action)
    requires x.SawInstances?
    ensures x in PassTrace(names, o) <==>
              ReachesCloud(names, o) && exists k :: Reached(o, 0, k) && IsSighting(o, k, x)
  {
    PassHolds(names, o, x);
    LooksHold(o, x);
    forall k: nat ensures InLook(o, k, x) <==> IsSighting(o, k, x) {
      LookHolds(o, k, x);
    }
    if x in InterfacesTrace(o) {
      NothingElseInInterfaces(o, x);
    }
  }

  /** The terminate calls of a pass are exactly these: in each look that is made, the batches of 50 of
      what it saw alive, up to the first that fails. */
  lemma TerminationsAre(names: Names, o: Observed, x: Action)
    requires x.Terminated?
    ensures x in PassTrace(names, o) <==>
              ReachesCloud(names, o) && exists k, b: nat :: Reached(o, 0, k) && IsCall(o, k, b, x)
  {
    PassHolds(names, o, x);
    LooksHold(o, x);
    forall k: nat ensures InLook(o, k, x) <==> exists b: nat :: IsCall(o, k, b, x) {
      LookHolds(o, k, x);
    }
    if x in InterfacesTrace(o) {
      NothingElseInInterfaces(o, x);
    }
  }

  /** The interfaces deleted are exactly these, once no instance is left: the candidates of the list, up
      to the first call that fails, but for those that were gone already. */
  lemma DeletionsAre(names: Names, o: Observed, id: string)
    ensures DeletedInterface(id) in PassTrace(names, o) <==>
              ReachesCloud(names, o) && Clears(o, 0) && DeletesInterface(o, id)
  {
    PassHolds(names, o, DeletedInterface(id));
    NothingElseInLooks(o, DeletedInterface(id));
    GoneMeansNoInstance(o, 0);
    InterfacesHold(o, id);
  }

  predicate DeletesInterface(o: Observed, id: string) {
    && o.group.GroupWithId? && o.interfaces.Listed?
    && IsDeleted(Candidates(o.interfaces.interfaces), o.deleteInterface, 0, id)
  }

  lemma InterfacesHold(o: Observed, id: string)
    ensures DeletedInterface(id) in InterfacesTrace(o) <==> DeletesInterface(o, id)
  {
    if o.group.GroupWithId? && o.interfaces.Listed? {
      DeletionsHold(Candidates(o.interfaces.interfaces), o.deleteInterface, 0, id);
    }
  }

  predicate IsDeleted(candidates: seq<string>, outcome: nat -> Call, from: nat, id: string) {
    exists n :: from <= n < |candidates| && DeletedAt(candidates, outcome, from, n) && candidates[n] == id
  }

  predicate DeletedAt(candidates: seq<string>, outcome: nat -> Call, from: nat, n: nat) {
    outcome(n).CallOk? && forall j :: from <= j < n ==> !outcome(j).CallFailed?
  }

  lemma {:induction false} DeletionsHold(candidates: seq<string>, outcome: nat -> Call, from: nat, id: string)
    requires from <= |candidates|
    ensures DeletedInterface(id) in Deletions(candidates, outcome, from) <==> IsDeleted(candidates, outcome, from, id)
    decreases |candidates| - from
  {
    if from < |candidates| && !outcome(from).CallFailed? {
      DeletionsHold(candidates, outcome, from + 1, id);
      forall n | from < n < |candidates|
        ensures DeletedAt(candidates, outcome, from, n) <==> DeletedAt(candidates, outcome, from + 1, n)
      {
      }
      assert DeletedAt(candidates, outcome, from, from) <==> outcome(from).CallOk?;
    }
  }

  /** So every instance that a look saw alive is terminated when the calls before its batch do not fail. */
  lemma LiveAreTerminated(names: Names, o: Observed, k: nat, n: nat)
    requires ReachesCloud(names, o) && Reached(o, 0, k) && o.describe(k).Described? && n < |Live(o, k)|
    requires Succeed(Outcomes(o, k), 0, n / 50)
    ensures exists x <- PassTrace(names, o) :: x.Terminated? && x.look == k && Live(o, k)[n] in x.ids
  {
    var b := n / 50;
    var x := Terminated(k, Batch(Live(o, k), b));
    assert Live(o, k)[n] == Batch(Live(o, k), b)[n - 50 * b];
    assert IsCall(o, k, b, x);
    TerminationsAre(names, o, x);
  }
}

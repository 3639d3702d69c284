/** What a deletion pass promises: when it is done, and what each thing it did stands for
    (internal/controller/plugin/eks/karpenter_bootstrapper_controller.go). */
module DeletionPromises {

  import opened Deletion

  lemma {:induction false} ConcatHolds(calls: seq<seq<string>>, i: nat, id: string)
    requires i < |calls| && id in calls[i]
    ensures id in Concat(calls)
  {
    if i > 0 {
      ConcatHolds(calls[1..], i - 1, id);
    }
  }

  /** A sighting is what its look described. */
  predicate IsSeen(o: Observed, x: Action)
    requires x.SawInstances?
  {
    o.describe(x.look).Described? && x == Sighting(x.look, o.describe(x.look).instances)
  }

  /** Entry `i` of the looks from `attempt` on: a sighting is that of its own look, of which there are
      fewer than three, later than all before; a terminate call follows its look's sighting and
      names live instances of it. */
  predicate FromLooks(o: Observed, attempt: nat, t: Trace, i: nat)
    requires i < |t|
  {
    || (t[i].SawInstances? && attempt <= t[i].look < 3 && IsSeen(o, t[i])
        && forall j :: 0 <= j < i && t[j].SawInstances? ==> t[j].look < t[i].look)
    || (t[i].Terminated? && AfterSighting(t, i))
  }

  predicate AfterSighting(t: Trace, i: nat)
    requires i < |t| && t[i].Terminated?
  {
    exists j :: 0 <= j < i && t[j].SawInstances? && t[j].look == t[i].look && Within(t[j].live, t[i].ids)
  }

  predicate Within(live: seq<string>, ids: seq<string>) { forall id :: id in ids ==> id in live }

  lemma LookIsFromLooks(o: Observed, attempt: nat, i: nat)
    requires attempt < 3 && i < |LookTrace(attempt, o.describe(attempt), Outcomes(o, attempt))|
    ensures var t := LookTrace(attempt, o.describe(attempt), Outcomes(o, attempt));
            FromLooks(o, attempt, t, i) && (t[i].SawInstances? <==> i == 0) && (i == 0 ==> t[i].look == attempt)
  {
    var t := LookTrace(attempt, o.describe(attempt), Outcomes(o, attempt));
    if i > 0 {
      var live := Ids(o.describe(attempt).instances, false);
      var calls := Calls(live, Outcomes(o, attempt), 0);
      CallsPartition(live, Outcomes(o, attempt), 0);
      forall id | id in calls[i - 1] ensures id in live {
        ConcatHolds(calls, i - 1, id);
      }
      assert t[0].SawInstances? && Within(t[0].live, t[i].ids);
    }
  }

  lemma FromLooksEarlier(o: Observed, attempt: nat, a: Trace, b: Trace, i: nat)
    requires i < |a| && FromLooks(o, attempt, a, i)
    ensures FromLooks(o, attempt, a + b, i)
  {
    var t := a + b;
    if t[i].Terminated? {
      var j :| 0 <= j < i && a[j].SawInstances? && a[j].look == a[i].look && Within(a[j].live, a[i].ids);
      assert t[j] == a[j];
    }
  }

  lemma FromLooksLater(o: Observed, attempt: nat, later: nat, a: Trace, b: Trace, i: nat)
    requires attempt < later && i < |b| && FromLooks(o, later, b, i)
    requires forall j :: 0 <= j < |a| && a[j].SawInstances? ==> a[j].look < later
    ensures FromLooks(o, attempt, a + b, |a| + i)
  {
    var t := a + b;
    assert t[|a| + i] == b[i];
    if b[i].Terminated? {
      var j :| 0 <= j < i && b[j].SawInstances? && b[j].look == b[i].look && Within(b[j].live, b[i].ids);
      assert t[|a| + j] == b[j];
    } else {
      forall j | 0 <= j < |a| + i && t[j].SawInstances? ensures t[j].look < b[i].look {
        if j >= |a| {
          assert t[j] == b[j - |a|];
        }
      }
    }
  }

  lemma {:induction false} LooksAreFromLooks(o: Observed, attempt: nat, i: nat)
    requires attempt < 3 && i < |LooksTrace(o, attempt)|
    ensures FromLooks(o, attempt, LooksTrace(o, attempt), i)
    decreases 3 - attempt
  {
    var a := LookTrace(attempt, o.describe(attempt), Outcomes(o, attempt));
    var b := if LastLook(LookProgress(o.describe(attempt), Outcomes(o, attempt)), attempt) then [] else LooksTrace(o, attempt + 1);
    if i < |a| {
      LookIsFromLooks(o, attempt, i);
      FromLooksEarlier(o, attempt, a, b, i);
    } else {
      LooksAreFromLooks(o, attempt + 1, i - |a|);
      forall j | 0 <= j < |a| && a[j].SawInstances? ensures a[j].look < attempt + 1 {
        LookIsFromLooks(o, attempt, j);
      }
      FromLooksLater(o, attempt, attempt + 1, a, b, i - |a|);
    }
  }

  /** When the looks end well, the last entry is a sighting of nothing. */
  lemma {:induction false} GoneEndsClear(o: Observed, attempt: nat)
    requires attempt < 3 && LooksProgress(o, attempt).Gone?
    ensures var t := LooksTrace(o, attempt); t != [] && SawNothing(t[|t| - 1])
    decreases 3 - attempt
  {
    if !LastLook(LookProgress(o.describe(attempt), Outcomes(o, attempt)), attempt) {
      GoneEndsClear(o, attempt + 1);
    }
  }

  predicate SawNothing(x: Action) { x.SawInstances? && x.live == [] && x.shutting == [] }

  /** Some attempt reaches a look without an instance. */
  predicate Clears(o: Observed, attempt: nat) {
    exists k :: attempt <= k < 3 && ReachesClear(o, attempt, k)
  }

  lemma ClearsLater(o: Observed, attempt: nat, next: nat)
    requires next == attempt + 1 && TerminatesAll(o, attempt)
    ensures Clears(o, attempt) <==> Clears(o, next)
  {
    if Clears(o, next) {
      var k :| next <= k < 3 && ReachesClear(o, next, k);
      assert ReachesClear(o, attempt, k);
    }
    if Clears(o, attempt) {
      var k :| attempt <= k < 3 && ReachesClear(o, attempt, k);
      assert ReachesClear(o, next, k);
    }
  }

  /** The looks end well exactly when some look is reached that describes no instance. */
  lemma {:induction false} GoneMeansNoInstance(o: Observed, attempt: nat)
    requires attempt < 3
    ensures LooksProgress(o, attempt).Gone? <==> Clears(o, attempt)
    decreases 3 - attempt
  {
    var p := LookProgress(o.describe(attempt), Outcomes(o, attempt));
    if p.Gone? {
      assert ReachesClear(o, attempt, attempt);
    } else if LastLook(p, attempt) {
      forall k | attempt <= k < 3 ensures !ReachesClear(o, attempt, k) {
        assert k > attempt ==> !TerminatesAll(o, attempt);
      }
    } else {
      GoneMeansNoInstance(o, attempt + 1);
      ClearsLater(o, attempt, attempt + 1);
    }
  }

  /** Attempt `k` describes no instance, and every one before it had live instances to terminate,
      all calls for which succeeded. */
  predicate ReachesClear(o: Observed, attempt: nat, k: nat) {
    NoInstance(o.describe(k)) && forall j :: attempt <= j < k ==> TerminatesAll(o, j)
  }

  predicate TerminatesAll(o: Observed, j: nat) {
    && o.describe(j).Described? && Ids(o.describe(j).instances, false) != []
    && CallsSucceed(Ids(o.describe(j).instances, false), Outcomes(o, j), 0)
  }

  /** What a pass that is done has seen: no instance and then no orphan. */
  predicate SeenClear(o: Observed) {
    (exists k :: 0 <= k < 3 && NoInstance(o.describe(k))) && NoOrphan(o)
  }

  /** The last two things seen: no instance at all, and then no orphan interface. */
  predicate EndsClear(trace: Trace) {
    && |trace| >= 2 && SawNothing(trace[|trace| - 2])
    && (trace[|trace| - 1] == NoManagedGroup || trace[|trace| - 1] == SawInterfaces([]))
  }

  /** A pass is done exactly when both Flux objects are settled and, with the names resolved, one of
      at most three looks saw no instance, after looks that each terminated everything live, and then
      there was no orphan interface. */
  lemma DoneMeansClear(names: Names, o: Observed)
    ensures PassDone(names, o) <==>
              && Settled(o.flux.0) && Settled(o.flux.1)
              && (Resolved(names) ==> Clears(o, 0) && NoOrphan(o))
  {
    GoneMeansNoInstance(o, 0);
  }

  lemma ClearEndsWithOneSighting(o: Observed)
    requires NoOrphan(o)
    ensures InterfacesTrace(o) == [NoManagedGroup] || InterfacesTrace(o) == [SawInterfaces([])]
  {
  }

  lemma EndsWithTwo(before: Trace, looks: Trace, last: Trace)
    requires looks != [] && SawNothing(looks[|looks| - 1])
    requires last == [NoManagedGroup] || last == [SawInterfaces([])]
    ensures EndsClear(before + (looks + last))
  {
  }

  /** These two sightings are what the trace of such a pass ends with. */
  lemma DoneEndsClear(names: Names, o: Observed)
    requires PassDone(names, o) && Resolved(names)
    ensures SeenClear(o) && EndsClear(PassTrace(names, o))
  {
    assert CloudClear(o) && LooksProgress(o, 0).Gone? && NoOrphan(o);
    GoneMeansNoInstance(o, 0);
    GoneEndsClear(o, 0);
    ClearEndsWithOneSighting(o);
    PassParts(names, o);
    EndsWithTwo(Prefix(o), LooksTrace(o, 0), InterfacesTrace(o));
  }

  /** Without the names a pass that is done has looked at no instance and no interface. */
  lemma UnresolvedLooksAtNothing(names: Names, o: Observed)
    requires PassDone(names, o) && !Resolved(names)
    ensures forall x :: x in PassTrace(names, o) ==> x.SuspendedFlux? || x.TriedToStopProvisioning?
    ensures !EndsClear(PassTrace(names, o))
  {
  }

  /** The trace up to an entry tells that each active Flux object was suspended. */
  predicate FluxFirst(o: Observed, trace: Trace, i: nat)
    requires i <= |trace|
  {
    && Settled(o.flux.0) && Settled(o.flux.1)
    && (o.flux.0.FluxActive? ==> SuspendedFlux(0) in trace[..i])
    && (o.flux.1.FluxActive? ==> SuspendedFlux(1) in trace[..i])
  }

  /** What entry `i` of a pass's trace stands for. */
  predicate Justified(o: Observed, t: Trace, i: nat)
    requires i < |t|
  {
    match t[i]
    case SuspendedFlux(which) => SuspensionOk(o, which)
    case TriedToStopProvisioning => FluxFirst(o, t, i)
    case SawInstances(_, _, _) => FluxFirst(o, t, i) && SightingOk(o, t, i)
    case Terminated(_, _) => FluxFirst(o, t, i) && AfterSighting(t, i)
    case NoManagedGroup => InterfaceOk(o, t[i])
    case SawInterfaces(_) => InterfaceOk(o, t[i])
    case DeletedInterface(_) => InterfaceOk(o, t[i])
  }

  predicate SuspensionOk(o: Observed, which: nat) {
    (which == 0 && o.flux.0 == FluxActive(true)) || (which == 1 && o.flux.1 == FluxActive(true))
  }

  /** What the look described, which is one of three and later than all before. */
  predicate SightingOk(o: Observed, t: Trace, i: nat)
    requires i < |t| && t[i].SawInstances?
  {
    t[i].look < 3 && IsSeen(o, t[i]) && forall j :: 0 <= j < i && t[j].SawInstances? ==> t[j].look < t[i].look
  }

  predicate IsInterfaceAction(x: Action) { x.NoManagedGroup? || x.SawInterfaces? || x.DeletedInterface? }

  predicate InterfaceOk(o: Observed, x: Action)
    requires IsInterfaceAction(x)
  {
    match x
    case NoManagedGroup => o.group in {GroupAbsent, GroupForeign, GroupWithoutId}
    case SawInterfaces(c) => o.group.GroupWithId? && o.interfaces.Listed? && c == Candidates(o.interfaces.interfaces)
    case DeletedInterface(id) => o.group.GroupWithId? && o.interfaces.Listed? && id in Candidates(o.interfaces.interfaces)
  }

  lemma FluxFirstAfter(o: Observed, t: Trace, i: nat)
    requires Settled(o.flux.0) && Settled(o.flux.1)
    requires |FluxTrace(o.flux)| <= i <= |t| && FluxTrace(o.flux) <= t
    ensures FluxFirst(o, t, i)
  {
    var f := FluxTrace(o.flux);
    assert t[..i][..|f|] == f;
    if o.flux.0.FluxActive? {
      assert t[..i][0] == SuspendedFlux(0);
    }
    if o.flux.1.FluxActive? {
      assert t[..i][|f| - 1] == SuspendedFlux(1);
    }
  }

  /** What comes before the looks. */
  function Prefix(o: Observed): Trace { FluxTrace(o.flux) + [TriedToStopProvisioning] }

  lemma PrefixLooksAtNothing(o: Observed, j: nat)
    requires j < |Prefix(o)|
    ensures !Prefix(o)[j].SawInstances?
  {
  }

  lemma PrefixIsJustified(o: Observed, t: Trace, i: nat)
    requires Settled(o.flux.0) && Settled(o.flux.1) && Prefix(o) <= t && i < |Prefix(o)|
    ensures Justified(o, t, i)
  {
    assert t[i] == Prefix(o)[i];
    if i == |FluxTrace(o.flux)| {
      FluxFirstAfter(o, t, i);
    }
  }

  lemma SuspensionsAreJustified(o: Observed, i: nat)
    requires i < |FluxTrace(o.flux)|
    ensures Justified(o, FluxTrace(o.flux), i)
  {
  }

  lemma TerminationIsJustified(o: Observed, prefix: Trace, t: Trace, i: nat)
    requires i < |t| && t[i].Terminated? && AfterSighting(t, i)
    ensures AfterSighting(prefix + t, |prefix| + i)
  {
    var j :| 0 <= j < i && t[j].SawInstances? && t[j].look == t[i].look && Within(t[j].live, t[i].ids);
    assert (prefix + t)[|prefix| + j] == t[j];
  }

  lemma SightingIsJustified(o: Observed, prefix: Trace, t: Trace, i: nat)
    requires i < |t| && t[i].SawInstances? && SightingOk(o, t, i)
    requires forall j :: 0 <= j < |prefix| ==> !prefix[j].SawInstances?
    ensures SightingOk(o, prefix + t, |prefix| + i)
  {
    var all := prefix + t;
    forall j | 0 <= j < |prefix| + i && all[j].SawInstances? ensures all[j].look < t[i].look {
      assert j >= |prefix| && all[j] == t[j - |prefix|];
    }
  }

  lemma LookIsJustified(o: Observed, t: Trace, i: nat)
    requires i < |t| && FromLooks(o, 0, t, i) && Settled(o.flux.0) && Settled(o.flux.1)
    ensures Justified(o, Prefix(o) + t, |Prefix(o)| + i)
  {
    var prefix := Prefix(o);
    FluxFirstAfter(o, prefix + t, |prefix| + i);
    if t[i].Terminated? {
      TerminationIsJustified(o, prefix, t, i);
    } else {
      forall j | 0 <= j < |prefix| ensures !prefix[j].SawInstances? {
        PrefixLooksAtNothing(o, j);
      }
      SightingIsJustified(o, prefix, t, i);
    }
  }

  lemma InterfacesAreJustified(o: Observed, i: nat)
    requires i < |InterfacesTrace(o)|
    ensures IsInterfaceAction(InterfacesTrace(o)[i]) && InterfaceOk(o, InterfacesTrace(o)[i])
  {
    if o.group.GroupWithId? && o.interfaces.Listed? && i > 0 {
      DeletionsAreCandidates(Candidates(o.interfaces.interfaces), o.deleteInterface, 0, i - 1);
    }
  }

  lemma CloudIsJustified(o: Observed, looks: Trace, more: Trace, j: nat)
    requires Settled(o.flux.0) && Settled(o.flux.1) && j < |looks + more|
    requires looks == LooksTrace(o, 0) && (more == [] || more == InterfacesTrace(o))
    ensures Justified(o, Prefix(o) + (looks + more), |Prefix(o)| + j)
  {
    var cloud := looks + more;
    assert (Prefix(o) + cloud)[|Prefix(o)| + j] == cloud[j];
    if j < |looks| {
      LooksAreFromLooks(o, 0, j);
      FromLooksEarlier(o, 0, looks, more, j);
      LookIsJustified(o, cloud, j);
    } else {
      InterfacesAreJustified(o, j - |looks|);
    }
  }

  /** A trace is the suspensions alone, or those, the attempt to stop provisioning, and what is done
      to the cloud. */
  lemma PassParts(names: Names, o: Observed)
    ensures var t := PassTrace(names, o);
            if Settled(o.flux.0) && Settled(o.flux.1)
            then t == Prefix(o) + (if Resolved(names) then CloudTrace(o) else [])
            else t == FluxTrace(o.flux)
  {
    assert Settled(o.flux.0) && Settled(o.flux.1) && !Resolved(names) ==> Prefix(o) + [] == Prefix(o);
  }

  /** Every terminate call comes after both Flux objects were settled, each active one by a
      suspension that was made, and names instances seen alive in the latest look; every sighting is
      what the look described; interfaces are deleted only as candidates of the list that was read. */
  lemma PassIsJustified(names: Names, o: Observed, i: nat)
    requires i < |PassTrace(names, o)|
    ensures Justified(o, PassTrace(names, o), i)
  {
    PassParts(names, o);
    var t := PassTrace(names, o);
    if !Settled(o.flux.0) || !Settled(o.flux.1) {
      SuspensionsAreJustified(o, i);
    } else if i < |Prefix(o)| {
      PrefixIsJustified(o, t, i);
    } else {
      var more := if LooksProgress(o, 0).Gone? then InterfacesTrace(o) else [];
      CloudIsJustified(o, LooksTrace(o, 0), more, i - |Prefix(o)|);
    }
  }

  lemma {:induction false} DeletionsAreCandidates(candidates: seq<string>, outcome: nat -> Call, from: nat, i: nat)
    requires from <= |candidates| && i < |Deletions(candidates, outcome, from)|
    ensures Deletions(candidates, outcome, from)[i].DeletedInterface? && Deletions(candidates, outcome, from)[i].id in candidates
    decreases |candidates| - from
  {
    var first := if outcome(from).CallOk? then 1 else 0;
    if i >= first {
      DeletionsAreCandidates(candidates, outcome, from + 1, i - first);
    }
  }
}

/** Cleaning up before a cluster goes
    (internal/controller/plugin/eks/karpenter_bootstrapper_controller.go and
    karpenter_bootstrapper_orphan_eni_cleanup.go). What a pass sees of Flux, EC2 and the API is
    a parameter; what it does is recorded as a trace. */
module Deletion {

  import opened Text

  // ---- observations ----

  /** One Flux object, and what suspending it gives when it is ours and not suspended. */
  datatype FluxObs = FluxAbsent | FluxForeign | FluxSuspended | FluxGetFailed | FluxActive(patchOk: bool)

  datatype State = Pending | Running | Stopping | Stopped | ShuttingDown

  datatype Instance = Instance(id: string, state: State)

  datatype InstancesObs = DescribeFailed | Described(instances: seq<Instance>)

  /** How one AWS call ends; an object that is gone already counts as success. */
  datatype Call = CallOk | CallGone | CallFailed

  datatype Interface = Interface(id: string, attached: bool, available: bool, tags: seq<(string, string)>)

  datatype GroupObs = GroupFailed | GroupAbsent | GroupForeign | GroupWithoutId | GroupWithId

  datatype InterfacesObs = ListFailed | Listed(interfaces: seq<Interface>)

  /** The workload kubeconfig secret's region and cluster name annotations. */
  datatype SecretObs = SecretFailed | SecretAbsent | SecretNames(region: string, eks: string)

  datatype AckObs = AckFailed | AckRegion(region: string)

  datatype Observed = Observed(
    flux: (FluxObs, FluxObs), secret: SecretObs, ack: AckObs,
    describe: nat -> InstancesObs, terminate: (nat, nat) -> Call,
    group: GroupObs, interfaces: InterfacesObs, deleteInterface: nat -> Call)

  datatype Action =
    | SuspendedFlux(which: nat)
    | TriedToStopProvisioning
    | SawInstances(look: nat, live: seq<string>, shutting: seq<string>)
    | Terminated(look: nat, ids: seq<string>)
    | NoManagedGroup
    | SawInterfaces(candidates: seq<string>)
    | DeletedInterface(id: string)

  type Trace = seq<Action>

  // ---- batches ----

  function Concat(batches: seq<seq<string>>): seq<string> {
    if batches == [] then [] else batches[0] + Concat(batches[1..])
  }

  const BATCH := 50

  function Min(a: int, b: int): int { if a < b then a else b }

  /** The calls that are made: batches of 50 from the front, up to the first that fails. */
  function Calls(ids: seq<string>, outcome: nat -> Call, k: nat): seq<seq<string>>
    decreases |ids|
  {
    if ids == [] then []
    else
      var n := Min(BATCH, |ids|);
      [ids[..n]] + if outcome(k).CallFailed? then [] else Calls(ids[n..], outcome, k + 1)
  }

  predicate CallsSucceed(ids: seq<string>, outcome: nat -> Call, k: nat)
    decreases |ids|
  {
    ids != [] ==> !outcome(k).CallFailed? && CallsSucceed(ids[Min(BATCH, |ids|)..], outcome, k + 1)
  }

  /** The calls carry at most 50 ids each, and only the last one fewer. */
  lemma {:induction false} CallSizes(ids: seq<string>, outcome: nat -> Call, k: nat, i: nat)
    requires i < |Calls(ids, outcome, k)|
    ensures var calls := Calls(ids, outcome, k);
            0 < |calls[i]| <= BATCH && (i < |calls| - 1 ==> |calls[i]| == BATCH)
    decreases |ids|
  {
    if i > 0 {
      CallSizes(ids[Min(BATCH, |ids|)..], outcome, k + 1, i - 1);
    }
  }

  function CallsNeeded(ids: seq<string>): nat
    decreases |ids|
  {
    if ids == [] then 0 else 1 + CallsNeeded(ids[Min(BATCH, |ids|)..])
  }

  /** The `n` calls from the k-th on do not fail. */
  predicate Succeed(outcome: nat -> Call, k: nat, n: int) { forall j :: k <= j < k + n ==> !outcome(j).CallFailed? }

  lemma OneMoreSucceeds(outcome: nat -> Call, k: nat, n: int)
    requires n >= 0
    ensures Succeed(outcome, k, n + 1) <==> !outcome(k).CallFailed? && Succeed(outcome, k + 1, n)
  {
  }

  /** Together the calls name the ids from the first on, each once and in order, and all of them
      exactly when every call needed but the last succeeds; the whole succeeds exactly when the last
      one does so too. */
  lemma {:induction false} CallsPartition(ids: seq<string>, outcome: nat -> Call, k: nat)
    ensures Concat(Calls(ids, outcome, k)) <= ids
    ensures Concat(Calls(ids, outcome, k)) == ids <==> Succeed(outcome, k, CallsNeeded(ids) - 1)
    ensures CallsSucceed(ids, outcome, k) <==> Succeed(outcome, k, CallsNeeded(ids))
    decreases |ids|
  {
    if ids != [] {
      var n := Min(BATCH, |ids|);
      var calls := Calls(ids, outcome, k);
      var rest := ids[n..];
      OneMoreSucceeds(outcome, k, CallsNeeded(rest));
      assert ids == ids[..n] + rest;
      if outcome(k).CallFailed? {
        assert calls == [ids[..n]] && calls[1..] == [];
        assert Concat(calls) == ids[..n];
        assert rest != [] ==> CallsNeeded(rest) > 0;
      } else {
        CallsPartition(rest, outcome, k + 1);
        assert calls[1..] == Calls(rest, outcome, k + 1);
        assert Concat(calls) == ids[..n] + Concat(calls[1..]);
        if rest != [] {
          OneMoreSucceeds(outcome, k, CallsNeeded(rest) - 1);
        }
      }
    }
  }

  /** A call is made only when all before it succeeded; when one fails it is the last. */
  lemma {:induction false} CallOutcomes(ids: seq<string>, outcome: nat -> Call, k: nat)
    ensures var n := |Calls(ids, outcome, k)|;
            && (forall j :: k <= j < k + n - 1 ==> !outcome(j).CallFailed?)
            && (CallsSucceed(ids, outcome, k) <==> n == 0 || !outcome(k + n - 1).CallFailed?)
    decreases |ids|
  {
    if ids != [] && !outcome(k).CallFailed? {
      CallOutcomes(ids[Min(BATCH, |ids|)..], outcome, k + 1);
    }
  }

  /** Where the loop stands: the calls made and those to come make up the whole. */
  predicate CallsSplit(ids: seq<string>, outcome: nat -> Call, calls: seq<seq<string>>, rest: seq<string>) {
    && Calls(ids, outcome, 0) == calls + Calls(rest, outcome, |calls|)
    && CallsSucceed(ids, outcome, 0) == CallsSucceed(rest, outcome, |calls|)
  }

  lemma NextCall(ids: seq<string>, outcome: nat -> Call, calls: seq<seq<string>>, rest: seq<string>)
    requires CallsSplit(ids, outcome, calls, rest) && rest != []
    ensures var n := Min(BATCH, |rest|);
            if outcome(|calls|).CallFailed? then Calls(ids, outcome, 0) == calls + [rest[..n]] && !CallsSucceed(ids, outcome, 0)
            else CallsSplit(ids, outcome, calls + [rest[..n]], rest[n..])
  {
    var n := Min(BATCH, |rest|);
    if !outcome(|calls|).CallFailed? {
      var more := Calls(rest[n..], outcome, |calls| + 1);
      assert calls + ([rest[..n]] + more) == calls + [rest[..n]] + more;
    }
  }

  method TerminateInBatches(ids: seq<string>, outcome: nat -> Call) returns (calls: seq<seq<string>>, ok: bool)
    ensures calls == Calls(ids, outcome, 0) && ok == CallsSucceed(ids, outcome, 0)
  {
    calls := [];
    var i := 0;
    assert ids[0..] == ids;
    while i < |ids|
      invariant 0 <= i <= |ids| && CallsSplit(ids, outcome, calls, ids[i..])
    {
      var end := Min(i + BATCH, |ids|);
      var batch := ids[i..end];
      NextCall(ids, outcome, calls, ids[i..]);
      assert ids[i..][..end - i] == batch && ids[i..][end - i..] == ids[end..];
      if outcome(|calls|).CallFailed? {
        return calls + [batch], false;
      }
      calls := calls + [batch];
      i := end;
    }
    ok := true;
  }

  // ---- instances ----

  /** The trimmed ids of the instances that are shutting down, or of the others. */
  function Ids(instances: seq<Instance>, shutting: bool): seq<string> {
    if instances == [] then []
    else
      var x := instances[|instances| - 1];
      Ids(instances[..|instances| - 1], shutting)
      + if TrimSpace(x.id) != "" && x.state.ShuttingDown? == shutting then [TrimSpace(x.id)] else []
  }

  predicate HasInstance(instances: seq<Instance>, shutting: bool, id: string) {
    exists i :: 0 <= i < |instances| && instances[i].state.ShuttingDown? == shutting && TrimSpace(instances[i].id) == id
  }

  lemma HasInstanceSnoc(init: seq<Instance>, x: Instance, shutting: bool, id: string)
    ensures HasInstance(init + [x], shutting, id) <==>
              HasInstance(init, shutting, id) || (x.state.ShuttingDown? == shutting && TrimSpace(x.id) == id)
  {
    var all := init + [x];
    assert all[|init|] == x;
    if HasInstance(init, shutting, id) {
      var i :| 0 <= i < |init| && init[i].state.ShuttingDown? == shutting && TrimSpace(init[i].id) == id;
      assert all[i] == init[i];
    }
  }

  /** The live ids are those of the instances that are pending, running, stopping or stopped. */
  lemma {:induction false} IdsAreTheInstances(instances: seq<Instance>, shutting: bool, id: string)
    ensures id in Ids(instances, shutting) <==> id != "" && HasInstance(instances, shutting, id)
  {
    if instances != [] {
      var init, x := instances[..|instances| - 1], instances[|instances| - 1];
      assert instances == init + [x];
      IdsAreTheInstances(init, shutting, id);
      HasInstanceSnoc(init, x, shutting, id);
    }
  }

  function Sighting(look: nat, instances: seq<Instance>): Action { SawInstances(look, Ids(instances, false), Ids(instances, true)) }

  function Terminations(look: nat, calls: seq<seq<string>>): (t: Trace)
    ensures |t| == |calls|
  {
    seq(|calls|, i requires 0 <= i < |calls| => Terminated(look, calls[i]))
  }

  /** One look and what follows from it. */
  function LookTrace(look: nat, seen: InstancesObs, outcome: nat -> Call): Trace {
    if seen.DescribeFailed? then []
    else [Sighting(look, seen.instances)] + Terminations(look, Calls(Ids(seen.instances, false), outcome, 0))
  }

  datatype Progress = Failed | InProgress(toTerminate: nat) | Gone

  /** No instance with an id is there, live or shutting down. */
  predicate NoInstance(seen: InstancesObs) {
    seen.Described? && Ids(seen.instances, false) == [] && Ids(seen.instances, true) == []
  }

  function LookProgress(seen: InstancesObs, outcome: nat -> Call): Progress {
    if seen.DescribeFailed? then Failed
    else if NoInstance(seen) then Gone
    else if CallsSucceed(Ids(seen.instances, false), outcome, 0) then InProgress(|Ids(seen.instances, false)|)
    else Failed
  }

  method CleanupInstances(look: nat, seen: InstancesObs, outcome: nat -> Call) returns (trace: Trace, progress: Progress)
    ensures trace == LookTrace(look, seen, outcome) && progress == LookProgress(seen, outcome)
  {
    if seen.DescribeFailed? {
      return [], Failed;
    }
    var live, shutting := [], [];
    for i := 0 to |seen.instances|
      invariant live == Ids(seen.instances[..i], false) && shutting == Ids(seen.instances[..i], true)
    {
      assert seen.instances[..i + 1][..i] == seen.instances[..i];
      var x := seen.instances[i];
      var id := TrimSpace(x.id);
      if id != "" {
        match x.state
        case ShuttingDown => shutting := shutting + [id];
        case Pending => live := live + [id];
        case Running => live := live + [id];
        case Stopping => live := live + [id];
        case Stopped => live := live + [id];
      }
    }
    assert seen.instances[..|seen.instances|] == seen.instances;
    trace := [SawInstances(look, live, shutting)];
    if |live| == 0 && |shutting| == 0 {
      return trace, Gone;
    }
    var calls, ok := TerminateInBatches(live, outcome);
    trace := trace + Terminations(look, calls);
    progress := if ok then InProgress(|live|) else Failed;
  }

  function Outcomes(o: Observed, attempt: nat): nat -> Call { (i: nat) => o.terminate(attempt, i) }

  predicate LastLook(p: Progress, attempt: nat) { attempt >= 2 || p.Failed? || p.Gone? || p.toTerminate == 0 }

  /** The looks from an attempt on, at most three in all. */
  function LooksTrace(o: Observed, attempt: nat): Trace
    decreases 3 - attempt
  {
    LookTrace(attempt, o.describe(attempt), Outcomes(o, attempt))
    + if LastLook(LookProgress(o.describe(attempt), Outcomes(o, attempt)), attempt) then [] else LooksTrace(o, attempt + 1)
  }

  function LooksProgress(o: Observed, attempt: nat): Progress
    decreases 3 - attempt
  {
    var p := LookProgress(o.describe(attempt), Outcomes(o, attempt));
    if LastLook(p, attempt) then p else LooksProgress(o, attempt + 1)
  }

  lemma Assoc(a: Trace, b: Trace, c: Trace)
    ensures (a + b) + c == a + (b + c)
  {
  }

  /** Where the loop stands: what is done and what is to come make up the whole. */
  predicate LooksSplit(o: Observed, trace: Trace, attempt: nat)
    requires attempt < 3
  {
    LooksTrace(o, 0) == trace + LooksTrace(o, attempt) && LooksProgress(o, 0) == LooksProgress(o, attempt)
  }

  lemma NextLook(o: Observed, trace: Trace, attempt: nat)
    requires attempt < 3 && LooksSplit(o, trace, attempt)
    ensures var p := LookProgress(o.describe(attempt), Outcomes(o, attempt));
            var more := trace + LookTrace(attempt, o.describe(attempt), Outcomes(o, attempt));
            && (LastLook(p, attempt) ==> LooksTrace(o, 0) == more && LooksProgress(o, 0) == p)
            && (!LastLook(p, attempt) ==> LooksSplit(o, more, attempt + 1))
  {
    var part := LookTrace(attempt, o.describe(attempt), Outcomes(o, attempt));
    if LastLook(LookProgress(o.describe(attempt), Outcomes(o, attempt)), attempt) {
      assert part + [] == part;
    } else {
      Assoc(trace, part, LooksTrace(o, attempt + 1));
    }
  }

  method TerminateInstances(o: Observed) returns (trace: Trace, progress: Progress)
    ensures trace == LooksTrace(o, 0) && progress == LooksProgress(o, 0)
  {
    trace, progress := [], Failed;
    assert [] + LooksTrace(o, 0) == LooksTrace(o, 0);
    for attempt := 0 to 3
      invariant attempt < 3 ==> LooksSplit(o, trace, attempt)
      invariant attempt == 3 ==> trace == LooksTrace(o, 0) && progress == LooksProgress(o, 0)
    {
      NextLook(o, trace, attempt);
      var part;
      part, progress := CleanupInstances(attempt, o.describe(attempt), Outcomes(o, attempt));
      trace := trace + part;
      if progress.Failed? || progress.Gone? || progress.toTerminate == 0 {
        return;
      }
    }
  }

  // ---- orphan interfaces ----

  function TagValue(tags: seq<(string, string)>, key: string): string {
    if tags == [] then ""
    else if TrimSpace(tags[0].0) == key then TrimSpace(tags[0].1)
    else TagValue(tags[1..], key)
  }

  predicate IsOrphan(x: Interface) {
    !x.attached && x.available && ToLower(TagValue(x.tags, "eks:eni:owner")) == "amazon-vpc-cni"
  }

  /** The first tag of the key, read without white space around it. */
  predicate IsFirstTag(tags: seq<(string, string)>, key: string, i: nat) {
    && i < |tags| && TrimSpace(tags[i].0) == key
    && forall j :: 0 <= j < i ==> TrimSpace(tags[j].0) != key
  }

  /** The same letters but for their case. */
  predicate SpelledAs(s: string, lower: string) {
    && |s| == |lower|
    && forall i :: 0 <= i < |s| ==> s[i] == lower[i] || ('A' <= s[i] <= 'Z' && s[i] as int + 32 == lower[i] as int)
  }

  lemma {:induction false} FirstTagIsRead(tags: seq<(string, string)>, key: string, i: nat)
    requires IsFirstTag(tags, key, i)
    ensures TagValue(tags, key) == TrimSpace(tags[i].1)
  {
    if i > 0 {
      assert TrimSpace(tags[0].0) != key && tags[i] == tags[1..][i - 1];
      FirstTagIsRead(tags[1..], key, i - 1);
    }
  }

  /** A value comes from a tag. */
  lemma {:induction false} ValueHasTag(tags: seq<(string, string)>, key: string) returns (i: nat)
    requires TagValue(tags, key) != ""
    ensures IsFirstTag(tags, key, i)
  {
    if TrimSpace(tags[0].0) == key {
      i := 0;
    } else {
      i := ValueHasTag(tags[1..], key);
      i := i + 1;
    }
  }

  /** An orphan: not attached, available, and its first owner tag names the CNI in any case. */
  lemma OrphansAreTheCni(x: Interface)
    ensures IsOrphan(x) <==>
              && !x.attached && x.available
              && exists i: nat ::
                   IsFirstTag(x.tags, "eks:eni:owner", i) && SpelledAs(TrimSpace(x.tags[i].1), "amazon-vpc-cni")
  {
    var v := TagValue(x.tags, "eks:eni:owner");
    SpelledInAnyCase(v, "amazon-vpc-cni");
    if IsOrphan(x) {
      assert v != "" by { assert |ToLower(v)| == |v| && |"amazon-vpc-cni"| == 14; }
      var i := ValueHasTag(x.tags, "eks:eni:owner");
      FirstTagIsRead(x.tags, "eks:eni:owner", i);
    }
    if i: nat :| IsFirstTag(x.tags, "eks:eni:owner", i) && SpelledAs(TrimSpace(x.tags[i].1), "amazon-vpc-cni") {
      FirstTagIsRead(x.tags, "eks:eni:owner", i);
    }
  }

  lemma SpelledInAnyCase(s: string, lower: string)
    requires forall i :: 0 <= i < |lower| ==> !('A' <= lower[i] <= 'Z')
    ensures ToLower(s) == lower <==> SpelledAs(s, lower)
  {
    if ToLower(s) == lower {
      forall i | 0 <= i < |s| ensures s[i] == lower[i] || ('A' <= s[i] <= 'Z' && s[i] as int + 32 == lower[i] as int) {
        assert ToLower(s)[i] == Lower(s[i]);
      }
    }
    if SpelledAs(s, lower) {
      assert ToLower(s) == lower;
    }
  }

  function Candidates(interfaces: seq<Interface>): seq<string> {
    if interfaces == [] then []
    else
      var x := interfaces[|interfaces| - 1];
      Candidates(interfaces[..|interfaces| - 1])
      + if IsOrphan(x) && TrimSpace(x.id) != "" then [TrimSpace(x.id)] else []
  }

  predicate HasOrphan(interfaces: seq<Interface>, id: string) {
    exists i :: 0 <= i < |interfaces| && IsOrphan(interfaces[i]) && TrimSpace(interfaces[i].id) == id
  }

  lemma HasOrphanSnoc(init: seq<Interface>, x: Interface, id: string)
    ensures HasOrphan(init + [x], id) <==> HasOrphan(init, id) || (IsOrphan(x) && TrimSpace(x.id) == id)
  {
    var all := init + [x];
    assert all[|init|] == x;
    if HasOrphan(init, id) {
      var i :| 0 <= i < |init| && IsOrphan(init[i]) && TrimSpace(init[i].id) == id;
      assert all[i] == init[i];
    }
  }

  /** The candidates are the ids of the interfaces that are unattached, available and the CNI's. */
  lemma {:induction false} CandidatesAreOrphans(interfaces: seq<Interface>, id: string)
    ensures id in Candidates(interfaces) <==> id != "" && HasOrphan(interfaces, id)
  {
    if interfaces != [] {
      var init, x := interfaces[..|interfaces| - 1], interfaces[|interfaces| - 1];
      assert interfaces == init + [x];
      CandidatesAreOrphans(init, id);
      HasOrphanSnoc(init, x, id);
    }
  }

  /** The interfaces deleted, up to the first call that fails; one that is gone already is skipped. */
  function Deletions(candidates: seq<string>, outcome: nat -> Call, i: nat): Trace
    requires i <= |candidates|
    decreases |candidates| - i
  {
    if i == |candidates| || outcome(i).CallFailed? then []
    else (if outcome(i).CallOk? then [DeletedInterface(candidates[i])] else []) + Deletions(candidates, outcome, i + 1)
  }

  function InterfacesTrace(o: Observed): Trace {
    match o.group
    case GroupFailed => []
    case GroupAbsent => [NoManagedGroup]
    case GroupForeign => [NoManagedGroup]
    case GroupWithoutId => [NoManagedGroup]
    case GroupWithId =>
      if o.interfaces.ListFailed? then []
      else
        var c := Candidates(o.interfaces.interfaces);
        [SawInterfaces(c)] + Deletions(c, o.deleteInterface, 0)
  }

  /** There is no group of ours with an id, or the list of its interfaces has no orphan. */
  predicate NoOrphan(o: Observed) {
    o.group in {GroupAbsent, GroupForeign, GroupWithoutId}
    || (o.group.GroupWithId? && o.interfaces.Listed? && Candidates(o.interfaces.interfaces) == [])
  }

  method ListCandidates(interfaces: seq<Interface>) returns (candidates: seq<string>)
    ensures candidates == Candidates(interfaces)
  {
    candidates := [];
    for i := 0 to |interfaces|
      invariant candidates == Candidates(interfaces[..i])
    {
      assert interfaces[..i + 1][..i] == interfaces[..i];
      var x := interfaces[i];
      if IsOrphan(x) {
        if TrimSpace(x.id) != "" {
          candidates := candidates + [TrimSpace(x.id)];
        }
      }
    }
    assert interfaces[..|interfaces|] == interfaces;
  }

  lemma NextDeletion(trace: Trace, candidates: seq<string>, outcome: nat -> Call, i: nat)
    requires i < |candidates| && !outcome(i).CallFailed?
    ensures var one := if outcome(i).CallOk? then [DeletedInterface(candidates[i])] else [];
            trace + Deletions(candidates, outcome, i) == trace + one + Deletions(candidates, outcome, i + 1)
  {
    Assoc(trace, if outcome(i).CallOk? then [DeletedInterface(candidates[i])] else [], Deletions(candidates, outcome, i + 1));
  }

  method DeleteInterfaces(candidates: seq<string>, outcome: nat -> Call) returns (trace: Trace)
    ensures trace == Deletions(candidates, outcome, 0)
  {
    trace := [];
    for i := 0 to |candidates|
      invariant Deletions(candidates, outcome, 0) == trace + Deletions(candidates, outcome, i)
    {
      var call := outcome(i);
      if call.CallFailed? {
        return;
      }
      NextDeletion(trace, candidates, outcome, i);
      if call.CallOk? {
        trace := trace + [DeletedInterface(candidates[i])];
      } else {
        assert trace + [] == trace;
      }
    }
  }

  method CleanupInterfaces(o: Observed) returns (trace: Trace, done: bool)
    ensures trace == InterfacesTrace(o) && done == NoOrphan(o)
  {
    if o.group.GroupFailed? {
      return [], false;
    }
    if !o.group.GroupWithId? {
      return [NoManagedGroup], true;
    }
    if o.interfaces.ListFailed? {
      return [], false;
    }
    var candidates := ListCandidates(o.interfaces.interfaces);
    trace := [SawInterfaces(candidates)];
    if |candidates| == 0 {
      return trace, true;
    }
    var deleted := DeleteInterfaces(candidates, o.deleteInterface);
    trace, done := trace + deleted, false;
  }

  // ---- Flux ----

  /** The object cannot bring Karpenter back: it is absent, not ours, or suspended by now. */
  predicate Settled(f: FluxObs) {
    f.FluxAbsent? || f.FluxForeign? || f.FluxSuspended? || (f.FluxActive? && f.patchOk)
  }

  function SuspendTrace(f: FluxObs, which: nat): Trace {
    if f.FluxActive? && f.patchOk then [SuspendedFlux(which)] else []
  }

  /** The second object is looked at only when the first is settled. */
  function FluxTrace(flux: (FluxObs, FluxObs)): Trace {
    SuspendTrace(flux.0, 0) + if Settled(flux.0) then SuspendTrace(flux.1, 1) else []
  }

  method SuspendFlux(flux: (FluxObs, FluxObs)) returns (trace: Trace, ok: bool)
    ensures trace == FluxTrace(flux) && ok == (Settled(flux.0) && Settled(flux.1))
  {
    trace, ok := [], true;
    for which := 0 to 2
      invariant which == 0 ==> trace == []
      invariant which == 1 ==> Settled(flux.0) && trace == SuspendTrace(flux.0, 0)
      invariant which == 2 ==> Settled(flux.0) && Settled(flux.1) && trace == FluxTrace(flux)
      invariant ok
    {
      var f := if which == 0 then flux.0 else flux.1;
      if f.FluxGetFailed? || (f.FluxActive? && !f.patchOk) {
        return trace, false;
      }
      if f.FluxActive? {
        trace := trace + [SuspendedFlux(which)];
      }
    }
  }

  // ---- a pass ----

  datatype Names = Names(region: string, eks: string)

  /** Region and EKS name, from the cluster, the workload secret and the ACK cluster in turn. */
  function Resolve(region: string, eks: string, ack: string, o: Observed): Names {
    var r0 := TrimSpace(region);
    var fromSecret := r0 == "" && o.secret.SecretNames?;
    var r1 := if fromSecret then TrimSpace(o.secret.region) else r0;
    var e1 := if fromSecret && TrimSpace(eks) == "" then TrimSpace(o.secret.eks) else eks;
    var r2 := if r1 == "" && TrimSpace(ack) != "" && o.ack.AckRegion? then TrimSpace(o.ack.region) else r1;
    Names(r2, e1)
  }

  predicate Resolved(n: Names) { TrimSpace(n.region) != "" && TrimSpace(n.eks) != "" }

  predicate Blank(s: string) { TrimSpace(s) == "" }

  /** The region annotation goes before the secret's region and that before the ACK cluster's, each when it
      is not blank; the secret's EKS name serves only where neither annotation says anything. */
  lemma NamesInOrder(region: string, eks: string, ack: string, o: Observed)
    ensures var names := Resolve(region, eks, ack, o);
            && (!Blank(region) ==> names == Names(TrimSpace(region), eks))
            && (Blank(region) && o.secret.SecretNames? && !Blank(o.secret.region) ==> names.region == TrimSpace(o.secret.region))
            && (Blank(region) && !(o.secret.SecretNames? && !Blank(o.secret.region)) ==>
                  names.region == if !Blank(ack) && o.ack.AckRegion? then TrimSpace(o.ack.region) else "")
            && (Blank(region) && o.secret.SecretNames? && Blank(eks) ==> names.eks == TrimSpace(o.secret.eks))
            && (!(Blank(region) && o.secret.SecretNames? && Blank(eks)) ==> names.eks == eks)
            && (!Blank(region) && !Blank(eks) ==> Resolved(names))
  {
    TrimSpaceFixpoint(region);
  }

  /** A duration in nanoseconds; zero means the default. */
  function FailureBackoff(configured: int): int { if configured == 0 then 30_000_000_000 else configured }

  /** What is done to instances and interfaces, and whether they are all gone. */
  function CloudTrace(o: Observed): Trace {
    LooksTrace(o, 0) + if LooksProgress(o, 0).Gone? then InterfacesTrace(o) else []
  }

  predicate CloudClear(o: Observed) { LooksProgress(o, 0).Gone? && NoOrphan(o) }

  method CleanupCloud(o: Observed) returns (trace: Trace, clear: bool)
    ensures trace == CloudTrace(o) && clear == CloudClear(o)
  {
    var progress;
    trace, progress := TerminateInstances(o);
    if !progress.Gone? {
      return trace, false;
    }
    var last;
    last, clear := CleanupInterfaces(o);
    trace := trace + last;
  }

  /** Everything a pass does, and when it is done. */
  function PassTrace(names: Names, o: Observed): Trace {
    if !Settled(o.flux.0) || !Settled(o.flux.1) then FluxTrace(o.flux)
    else FluxTrace(o.flux) + [TriedToStopProvisioning] + if Resolved(names) then CloudTrace(o) else []
  }

  predicate PassDone(names: Names, o: Observed) {
    Settled(o.flux.0) && Settled(o.flux.1) && (Resolved(names) ==> CloudClear(o))
  }

  method DeletePass(region: string, eks: string, ack: string, backoff: int, o: Observed)
      returns (done: bool, requeue: int, trace: Trace)
    ensures var names := Resolve(region, eks, ack, o);
            done == PassDone(names, o) && trace == PassTrace(names, o)
    ensures requeue == if done then 0 else FailureBackoff(backoff)
  {
    var suspended;
    trace, suspended := SuspendFlux(o.flux);
    if !suspended {
      return false, FailureBackoff(backoff), trace;
    }
    trace := trace + [TriedToStopProvisioning];
    if !Resolved(Resolve(region, eks, ack, o)) {
      return true, 0, trace;
    }
    var cloud;
    cloud, done := CleanupCloud(o);
    trace := trace + cloud;
    requeue := if done then 0 else FailureBackoff(backoff);
  }

  /** An unfinished pass schedules a positive requeue unless the operator configured a negative one. */
  lemma BackoffIsPositive(configured: int)
    ensures FailureBackoff(configured) > 0 <==> configured >= 0
    ensures configured != 0 ==> FailureBackoff(configured) == configured
  {
  }
}

/** The bootstrapper's cleanup finalizer over a cluster's life: it is stored before anything is
    created, and it goes only after a deletion pass that was done
    (internal/controller/plugin/eks/karpenter_bootstrapper_controller.go). */
module CleanupFinalizer {

  import opened Options
  import opened Text
  import Deletion
  import DeletionPromises
  import Runs

  /** The Cluster as stored. `region` and `eks` are the annotations of that name. */
  datatype Cluster = Cluster(present: bool, deleting: bool, finalizer: bool, region: string, eks: string)

  /** A deletion pass: the version it read, what it was told besides, and how many objects had been
      created by then. `defaultName` is the EKS name without the annotation, `ack` the ACK name. */
  datatype Look = Look(read: nat, copy: Cluster, defaultName: string, ack: string, seen: Deletion.Observed, creates: nat) {
    function Names(): Deletion.Names { NamesOf(copy, defaultName, ack, seen) }

    predicate Done() { Deletion.PassDone(Names(), seen) }
  }

  /** Where a reconcile stands; `local` is its copy of the cluster. */
  datatype Pass =
    | Idle
    | AtFinalizer(local: Cluster, eks: string)
    | AtRegion(local: Cluster, eks: string)
    | AtEks(local: Cluster, eks: string)
    | AtCreate
    | AtDelete
    | AtRemove(look: Look)

  /** Every version the API server has held, and the latest one a reconcile has read; the number of
      objects created and the version that was stored when the first was; and the pass that took the
      finalizer. */
  datatype System = System(
    versions: seq<Cluster>, read: nat, pass: Pass,
    creates: nat, createdAt: Option<nat>, removal: Option<Look>)

  datatype Step =
    | Begin(version: nat, defaultName: string)
    | EnsureFinalizer | EnsureRegion(ackRegion: string) | EnsureEks | Create
    | Delete(defaultName: string, ack: string, seen: Deletion.Observed)
    | Remove
    | Stop
    | Environment(cluster: Cluster)

  function Latest(s: System): Cluster
    requires s.versions != []
  {
    s.versions[|s.versions| - 1]
  }

  function Stored(s: System, c: Cluster): System { s.(versions := s.versions + [c]) }

  function EksName(c: Cluster, defaultName: string): string {
    if TrimSpace(c.eks) != "" then TrimSpace(c.eks) else defaultName
  }

  /** resolveRegion, with what the ACK cluster says. */
  function RegionOf(c: Cluster, ackRegion: string): string {
    if TrimSpace(c.region) != "" then TrimSpace(c.region) else ackRegion
  }

  function NamesOf(c: Cluster, defaultName: string, ack: string, seen: Deletion.Observed): Deletion.Names {
    Deletion.Resolve(c.region, EksName(c, defaultName), ack, seen)
  }

  /** Users delete the cluster and edit it, but leave the finalizer alone, and the two annotations
      once they are there; the API drops a deleted object once no finalizer of ours holds it. */
  predicate Changes(c: Cluster, c': Cluster) {
    && c'.finalizer == c.finalizer && Later(c, c')
    && (c.present && !c'.present ==> c'.deleting && !c.finalizer)
  }

  /** What no version takes back. */
  predicate Later(c: Cluster, c': Cluster) {
    && (c.deleting ==> c'.deleting) && (!c.present ==> !c'.present)
    && (Given(c.region) ==> Given(c'.region))
    && (Given(c.eks) ==> Given(c'.eks))
  }

  /** A reconcile reads some version, not older than one read before. A patch is sent when it changes
      the copy, reaches the stored cluster, and refreshes the copy. The API refuses to add a finalizer
      to an object that is being deleted, and to patch one that is gone. The resolved region and EKS
      name are not blank when they are used. */
  ghost predicate Next(s: System, step: Step, s': System)
    requires s.versions != []
  {
    match step
    case Begin(j, defaultName) =>
      && s.pass.Idle? && s.read <= j < |s.versions| && s.versions[j].present
      && var c := s.versions[j];
         if c.deleting then c.finalizer && s' == s.(read := j, pass := AtDelete)
         else TrimSpace(EksName(c, defaultName)) != "" && s' == s.(read := j, pass := AtFinalizer(c, EksName(c, defaultName)))
    case EnsureFinalizer =>
      && s.pass.AtFinalizer?
      && (if s.pass.local.finalizer then s' == s.(pass := AtRegion(s.pass.local, s.pass.eks))
          else
            && Latest(s).present && (Latest(s).finalizer || !Latest(s).deleting)
            && var c := Latest(s).(finalizer := true);
               s' == Stored(s, c).(pass := AtRegion(c, s.pass.eks)))
    case EnsureRegion(ackRegion) =>
      && s.pass.AtRegion?
      && var region := TrimSpace(RegionOf(s.pass.local, ackRegion));
         && region != ""
         && (if s.pass.local.region == region then s' == s.(pass := AtEks(s.pass.local, s.pass.eks))
             else
               && Latest(s).present
               && var c := Latest(s).(region := region);
                  s' == Stored(s, c).(pass := AtEks(c, s.pass.eks)))
    case EnsureEks =>
      && s.pass.AtEks?
      && (if s.pass.local.eks == TrimSpace(s.pass.eks) then s' == s.(pass := AtCreate)
          else
            && Latest(s).present
            && s' == Stored(s, Latest(s).(eks := TrimSpace(s.pass.eks))).(pass := AtCreate))
    case Create =>
      && s.pass.AtCreate?
      && s' == s.(creates := s.creates + 1,
                  createdAt := if s.createdAt.Some? then s.createdAt else Some(|s.versions| - 1))
    case Delete(defaultName, ack, seen) =>
      && s.pass.AtDelete? && s.read < |s.versions|
      && var look := Look(s.read, s.versions[s.read], defaultName, ack, seen, s.creates);
         s' == s.(pass := if look.Done() then AtRemove(look) else Idle)
    case Remove =>
      && s.pass.AtRemove? && Latest(s).present
      && s' == Stored(s, Latest(s).(finalizer := false)).(
                 pass := Idle, removal := if Latest(s).finalizer then Some(s.pass.look) else s.removal)
    case Stop => s' == s.(pass := Idle)
    case Environment(cluster) => Changes(Latest(s), cluster) && s' == Stored(s, cluster)
  }

  ghost predicate Init(s: System) {
    && |s.versions| == 1 && s.read == 0 && s.pass.Idle? && s.creates == 0 && s.createdAt == None && s.removal == None
    && s.versions[0].present && !s.versions[0].deleting && !s.versions[0].finalizer
  }

  ghost predicate SomeStep(s: System, s': System) { s.versions != [] && exists step :: Next(s, step, s') }

  ghost predicate Reachable(s: System) { Runs.Reachable(Init, SomeStep, s) }

  // ---- what every run keeps ----

  predicate Named(c: Cluster) { Given(c.region) && Given(c.eks) }

  predicate Ordered(versions: seq<Cluster>) {
    forall i, j :: 0 <= i <= j < |versions| ==> Later(versions[i], versions[j])
  }

  predicate Working(p: Pass) { p.AtRegion? || p.AtEks? || p.AtCreate? }

  /** The pass read a version in which the cluster was being deleted, with everything created by now. */
  ghost predicate LookOk(s: System, l: Look) {
    l.read <= s.read < |s.versions| && l.copy == s.versions[l.read] && l.copy.deleting && l.creates == s.creates
  }

  ghost predicate DonePasses(s: System) {
    (s.pass.AtRemove? ==> s.pass.look.Done()) && (s.removal.Some? ==> s.removal.value.Done())
  }

  predicate VersionsOk(s: System) {
    && s.read < |s.versions| && Ordered(s.versions)
    && (!Latest(s).present ==> !Latest(s).finalizer)
    && (forall i :: 0 <= i < |s.versions| && s.versions[i].finalizer ==> Latest(s).finalizer || s.removal.Some?)
  }

  ghost predicate PassOk(s: System)
    requires s.read < |s.versions|
  {
    && (s.pass.AtFinalizer? ==> s.pass.local == s.versions[s.read] && !s.pass.local.deleting)
    && (s.pass.AtFinalizer? || Working(s.pass) ==> s.removal.None?)
    && (s.pass.AtFinalizer? || s.pass.AtRegion? || s.pass.AtEks? ==>
          Later(s.pass.local, Latest(s)) && Given(s.pass.eks))
    && (Working(s.pass) ==> Latest(s).finalizer)
    && (s.pass.AtEks? || s.pass.AtCreate? ==> Given(Latest(s).region))
    && (s.pass.AtCreate? ==> Named(Latest(s)))
    && (s.pass.AtDelete? ==> s.versions[s.read].deleting)
    && (s.pass.AtRemove? ==> LookOk(s, s.pass.look))
  }

  ghost predicate CreatedOk(s: System)
    requires s.versions != []
  {
    && (s.createdAt.Some? ==> s.createdAt.value < |s.versions| && Named(s.versions[s.createdAt.value]))
    && (s.createdAt.Some? ==> Latest(s).finalizer || s.removal.Some?)
    && (s.removal.Some? ==> LookOk(s, s.removal.value))
  }

  ghost predicate Inv(s: System) { VersionsOk(s) && PassOk(s) && CreatedOk(s) }

  /** A version that takes nothing back keeps what does not speak of where the reconcile stands. */
  lemma StoringKeeps(s: System, c: Cluster)
    requires Inv(s) && Later(Latest(s), c) && (!c.present ==> !c.finalizer)
    requires Latest(s).finalizer ==> c.finalizer
    ensures Inv(Stored(s, c)) && Latest(Stored(s, c)) == c
  {
    StillOrdered(s.versions, c);
    var s' := Stored(s, c);
    assert forall i :: 0 <= i < |s.versions| ==> s'.versions[i] == s.versions[i];
  }

  lemma StillOrdered(versions: seq<Cluster>, c: Cluster)
    requires versions != [] && Ordered(versions) && Later(versions[|versions| - 1], c)
    ensures Ordered(versions + [c])
  {
    var all := versions + [c];
    forall i, j | 0 <= i <= j < |all| ensures Later(all[i], all[j]) {
      if j == |versions| && i < j {
        assert Later(versions[i], versions[|versions| - 1]);
      }
    }
  }

  /** Where the reconcile stands changes, and nothing else. */
  lemma PassKeeps(s: System, p: Pass)
    requires Inv(s) && PassOk(s.(pass := p))
    ensures Inv(s.(pass := p))
  {
  }

  lemma BeginKeeps(s: System, j: nat, p: Pass)
    requires Inv(s) && s.read <= j < |s.versions|
    requires p == AtDelete || (p.AtFinalizer? && p.local == s.versions[j] && Given(p.eks))
    requires p.AtDelete? <==> s.versions[j].deleting
    ensures Inv(s.(read := j, pass := p))
  {
    if s.removal.Some? {
      assert Later(s.versions[s.removal.value.read], s.versions[j]);
    }
  }

  /** The copy has the finalizer already, or gets it with the patch. */
  lemma EnsureFinalizerKeeps(s: System)
    requires Inv(s) && s.pass.AtFinalizer?
    ensures s.pass.local.finalizer ==> Inv(s.(pass := AtRegion(s.pass.local, s.pass.eks)))
    ensures Latest(s).present ==> (
      var c := Latest(s).(finalizer := true); Inv(Stored(s, c).(pass := AtRegion(c, s.pass.eks))))
  {
    if s.pass.local.finalizer {
      PassKeeps(s, AtRegion(s.pass.local, s.pass.eks));
    }
    if Latest(s).present {
      var c := Latest(s).(finalizer := true);
      StoringKeeps(s, c);
      PassKeeps(Stored(s, c), AtRegion(c, s.pass.eks));
    }
  }

  lemma EnsureRegionKeeps(s: System, region: string)
    requires Inv(s) && s.pass.AtRegion? && Given(region)
    ensures s.pass.local.region == region ==> Inv(s.(pass := AtEks(s.pass.local, s.pass.eks)))
    ensures Latest(s).present ==> (
      var c := Latest(s).(region := region); Inv(Stored(s, c).(pass := AtEks(c, s.pass.eks))))
  {
    if s.pass.local.region == region {
      PassKeeps(s, AtEks(s.pass.local, s.pass.eks));
    }
    if Latest(s).present {
      var c := Latest(s).(region := region);
      StoringKeeps(s, c);
      PassKeeps(Stored(s, c), AtEks(c, s.pass.eks));
    }
  }

  lemma EnsureEksKeeps(s: System, eks: string)
    requires Inv(s) && s.pass.AtEks? && Given(eks)
    ensures s.pass.local.eks == eks ==> Inv(s.(pass := AtCreate))
    ensures Latest(s).present ==> Inv(Stored(s, Latest(s).(eks := eks)).(pass := AtCreate))
  {
    if s.pass.local.eks == eks {
      PassKeeps(s, AtCreate);
    }
    if Latest(s).present {
      StoringKeeps(s, Latest(s).(eks := eks));
      PassKeeps(Stored(s, Latest(s).(eks := eks)), AtCreate);
    }
  }

  lemma CreateKeeps(s: System, createdAt: nat)
    requires Inv(s) && s.pass.AtCreate?
    requires if s.createdAt.Some? then s.createdAt == Some(createdAt) else createdAt == |s.versions| - 1
    ensures Inv(s.(creates := s.creates + 1, createdAt := Some(createdAt)))
  {
  }

  lemma RemoveKeeps(s: System, removal: Option<Look>)
    requires Inv(s) && s.pass.AtRemove?
    requires removal == if Latest(s).finalizer then Some(s.pass.look) else s.removal
    ensures Inv(Stored(s, Latest(s).(finalizer := false)).(pass := Idle, removal := removal))
  {
    var c := Latest(s).(finalizer := false);
    StillOrdered(s.versions, c);
    var s' := Stored(s, c).(pass := Idle, removal := removal);
    assert forall i :: 0 <= i < |s.versions| ==> s'.versions[i] == s.versions[i];
  }

  lemma DonePassesKept(s: System, step: Step, s': System)
    requires s.versions != [] && DonePasses(s) && Next(s, step, s')
    ensures DonePasses(s')
  {
  }

  lemma NextKeeps(s: System, step: Step, s': System)
    requires Inv(s) && Next(s, step, s')
    ensures Inv(s')
  {
    match step
    case Begin(j, defaultName) =>
      GivenIff(EksName(s.versions[j], defaultName));
      BeginKeeps(s, j, s'.pass);
    case EnsureFinalizer => EnsureFinalizerKeeps(s);
    case EnsureRegion(ackRegion) =>
      var region := TrimSpace(RegionOf(s.pass.local, ackRegion));
      GivenIff(RegionOf(s.pass.local, ackRegion));
      EnsureRegionKeeps(s, region);
    case EnsureEks =>
      GivenIff(s.pass.eks);
      EnsureEksKeeps(s, TrimSpace(s.pass.eks));
    case Create => CreateKeeps(s, s'.createdAt.value);
    case Delete(_, _, _) => PassKeeps(s, s'.pass);
    case Remove => RemoveKeeps(s, s'.removal);
    case Stop => PassKeeps(s, Idle);
    case Environment(c) => StoringKeeps(s, c);
  }

  lemma {:induction false} RunInv(t: seq<System>, i: nat)
    requires Runs.IsRun(Init, SomeStep, t) && i < |t|
    ensures Inv(t[i]) && DonePasses(t[i])
  {
    if i > 0 {
      RunInv(t, i - 1);
      assert Runs.StepAt(SomeStep, t, i);
      var step :| Next(t[i - 1], step, t[i]);
      NextKeeps(t[i - 1], step, t[i]);
      DonePassesKept(t[i - 1], step, t[i]);
    }
  }

  lemma ReachableInv(s: System)
    requires Reachable(s)
    ensures Inv(s) && DonePasses(s)
  {
    var t :| Runs.IsRun(Init, SomeStep, t) && t[|t| - 1] == s;
    RunInv(t, |t| - 1);
  }

  // ---- what that means ----

  /** Whenever something is created the finalizer and both annotations are stored. */
  lemma CreatedUnderFinalizer(s: System, s': System)
    requires Reachable(s) && s.versions != [] && Next(s, Create, s')
    ensures Latest(s).present && Latest(s).finalizer && Named(Latest(s))
  {
    ReachableInv(s);
  }

  /** What a pass can learn the names from: the annotations of the version it read, the workload
      kubeconfig secret and the ACK cluster. */
  predicate NamesKnown(c: Cluster, defaultName: string, ack: string, seen: Deletion.Observed) {
    var secret := seen.secret.SecretNames?;
    && (|| Given(c.region) || (secret && Given(seen.secret.region))
        || (Given(ack) && seen.ack.AckRegion? && Given(seen.ack.region)))
    && (|| Given(c.eks) || Given(defaultName) || (!Given(c.region) && secret && Given(seen.secret.eks)))
  }

  lemma ResolvedIff(c: Cluster, defaultName: string, ack: string, seen: Deletion.Observed)
    ensures Deletion.Resolved(NamesOf(c, defaultName, ack, seen)) <==> NamesKnown(c, defaultName, ack, seen)
  {
    TrimmedGiven(c.region);
    TrimmedGiven(c.eks);
    TrimmedGiven(defaultName);
    TrimmedGiven(ack);
    if seen.secret.SecretNames? {
      TrimmedGiven(seen.secret.region);
      TrimmedGiven(seen.secret.eks);
    }
    if seen.ack.AckRegion? {
      TrimmedGiven(seen.ack.region);
    }
  }

  /** The pass had settled both Flux objects, and its last two sightings were no instance and no
      orphan interface. */
  predicate SawAllGone(l: Look) {
    var names, seen := l.Names(), l.seen;
    && Deletion.Settled(seen.flux.0) && Deletion.Settled(seen.flux.1)
    && DeletionPromises.SeenClear(seen) && DeletionPromises.EndsClear(Deletion.PassTrace(names, seen))
  }

  lemma DonePassLooks(l: Look)
    requires l.Done()
    ensures SawAllGone(l) <==> KnewNames(l)
    ensures !KnewNames(l) ==> LookedAtNothing(l)
  {
    ResolvedIff(l.copy, l.defaultName, l.ack, l.seen);
    if Deletion.Resolved(l.Names()) {
      DeletionPromises.DoneEndsClear(l.Names(), l.seen);
    } else {
      DeletionPromises.UnresolvedLooksAtNothing(l.Names(), l.seen);
    }
  }

  predicate KnewNames(l: Look) { NamesKnown(l.copy, l.defaultName, l.ack, l.seen) }

  predicate LookedAtNothing(l: Look) {
    forall x :: x in Deletion.PassTrace(l.Names(), l.seen) ==> x.SuspendedFlux? || x.TriedToStopProvisioning?
  }

  /** When something was created and the finalizer is not stored, or the cluster is gone, some done
      deletion pass took it, and nothing was created since. That pass knew the names if the version it
      read had both annotations, or was no older than the one stored at the first creation. */
  lemma OnlyADonePassRemoves(s: System)
    requires Reachable(s) && s.createdAt.Some? && s.versions != [] && (!Latest(s).finalizer || !Latest(s).present)
    ensures s.removal.Some? && s.removal.value.Done() && s.removal.value.creates == s.creates
    ensures var l := s.removal.value;
            && l.read < |s.versions| && l.copy == s.versions[l.read]
            && (Named(l.copy) || s.createdAt.value <= l.read ==> KnewNames(l))
  {
    ReachableInv(s);
    var l := s.removal.value;
    if s.createdAt.value <= l.read {
      assert Later(s.versions[s.createdAt.value], l.copy);
    }
  }

  /** In every run, with reads as outdated as they may be, the pass that took the finalizer saw
      everything gone exactly when the version it read, the secret or the ACK cluster told it the
      names, and otherwise looked at nothing. */
  lemma NothingIsLeftBehind(s: System)
    requires Reachable(s) && s.createdAt.Some? && s.versions != [] && (!Latest(s).finalizer || !Latest(s).present)
    ensures s.removal.Some? && s.removal.value.creates == s.creates
    ensures var l := s.removal.value;
            && (SawAllGone(l) <==> KnewNames(l)) && (!KnewNames(l) ==> LookedAtNothing(l))
            && (Named(l.copy) || s.createdAt.value <= l.read ==> SawAllGone(l))
  {
    OnlyADonePassRemoves(s);
    DonePassLooks(s.removal.value);
  }

  // ---- a pass that looks at nothing ----

  lemma Go(s: System, step: Step, s': System)
    requires Reachable(s) && s.versions != [] && Next(s, step, s')
    ensures Reachable(s')
  {
    Runs.ReachableNext(Init, SomeStep, s, s');
  }

  /** The cluster is deleted after the finalizer was stored and before the annotations are. */
  lemma DeletedEarly(name: string) returns (s: System)
    requires TrimSpace(name) == name != ""
    ensures Reachable(s)
    ensures var v0 := Cluster(true, false, false, "", "");
            var v1 := v0.(finalizer := true);
            s == System([v0, v1, v1.(deleting := true)], 0, AtRegion(v1, name), 0, None, None)
  {
    var v0 := Cluster(true, false, false, "", "");
    s := System([v0], 0, Idle, 0, None, None);
    Runs.ReachableInit(Init, SomeStep, s);
    var t := s.(pass := AtFinalizer(v0, name));
    Go(s, Begin(0, name), t);
    var v1 := v0.(finalizer := true);
    s := Stored(t, v1).(pass := AtRegion(v1, name));
    Go(t, EnsureFinalizer, s);
    t := Stored(s, v1.(deleting := true));
    Go(s, Environment(v1.(deleting := true)), t);
    s := t;
  }

  /** The reconcile under way stores them and creates. */
  lemma CreatedWhileDeleted(region: string, name: string) returns (s: System)
    requires TrimSpace(region) == region != "" && TrimSpace(name) == name != ""
    ensures Reachable(s) && s.pass.Idle? && s.creates == 1 && s.createdAt == Some(4) && s.read == 0 && s.removal == None
    ensures |s.versions| == 5 && s.versions[2] == Cluster(true, true, true, "", "")
    ensures Latest(s) == Cluster(true, true, true, region, name)
  {
    s := DeletedEarly(name);
    var v3 := Cluster(true, true, true, region, "");
    var t := Stored(s, v3).(pass := AtEks(v3, name));
    Go(s, EnsureRegion(region), t);
    s := Stored(t, v3.(eks := name)).(pass := AtCreate);
    Go(t, EnsureEks, s);
    t := s.(creates := 1, createdAt := Some(4));
    Go(s, Create, t);
    s := t.(pass := Idle);
    Go(t, Stop, s);
  }

  /** The next reconcile reads the version in between, finds neither secret nor ACK cluster, and takes
      the finalizer without having looked at any instance or interface. */
  lemma OutdatedPassLooksAtNothing(region: string, name: string, seen: Deletion.Observed) returns (s: System)
    requires TrimSpace(region) == region != "" && TrimSpace(name) == name != ""
    requires Deletion.Settled(seen.flux.0) && Deletion.Settled(seen.flux.1)
    requires !seen.secret.SecretNames? && !seen.ack.AckRegion?
    ensures Reachable(s) && s.creates == 1 && s.versions != [] && !Latest(s).finalizer && Named(Latest(s))
    ensures s.removal.Some? && s.removal.value.seen == seen
    ensures LookedAtNothing(s.removal.value)
  {
    s := CreatedWhileDeleted(region, name);
    var t := s.(read := 2, pass := AtDelete);
    Go(s, Begin(2, name), t);
    var look := Look(2, s.versions[2], name, name, seen, 1);
    ResolvedIff(look.copy, name, name, seen);
    assert look.Done();
    s := t.(pass := AtRemove(look));
    Go(t, Delete(name, name, seen), s);
    t := Stored(s, Latest(s).(finalizer := false)).(pass := Idle, removal := Some(look));
    Go(s, Remove, t);
    DonePassLooks(look);
    s := t;
  }

  /** For example, with a node still running. */
  lemma NodeIsLeftBehind() returns (s: System)
    ensures Reachable(s) && s.creates == 1 && s.versions != [] && !Latest(s).finalizer
    ensures s.removal.Some? && LookedAtNothing(s.removal.value)
    ensures s.removal.value.seen.describe(0) == Deletion.Described([Deletion.Instance("i", Deletion.Running)])
  {
    var seen := Deletion.Observed(
      (Deletion.FluxAbsent, Deletion.FluxAbsent), Deletion.SecretAbsent, Deletion.AckFailed,
      _ => Deletion.Described([Deletion.Instance("i", Deletion.Running)]), (_, _) => Deletion.CallOk,
      Deletion.GroupAbsent, Deletion.Listed([]), _ => Deletion.CallOk);
    TrimSpaceIsTrimmed("r");
    s := OutdatedPassLooksAtNothing("r", "r", seen);
  }
}

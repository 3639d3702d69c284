/** What every reachable state of the facade keeps, even when a reconcile works on an outdated
    copy and stops at any write. */
module FacadeSafety {

  import opened Options
  import opened Endpoint
  import opened ControlPlane
  import opened Backends
  import opened Facade
  import Runs

  predicate EndpointGrows(a: ApiEndpoint, b: ApiEndpoint) {
    (a.host != "" ==> b.host != "") && (PortOk(a.port) ==> PortOk(b.port))
  }

  /** Initialization and endpoint are never taken back. */
  predicate Grows(a: Cp, b: Cp) {
    && EndpointGrows(a.spec.endpoint, b.spec.endpoint)
    && (a.status.initialized ==> b.status.initialized)
  }

  predicate HasLocal(p: Pass) { !p.Idle? && !p.Done? }

  /** A copy is an older state of the stored object. */
  predicate CopyOk(local: Cp, stored: Cp) { Grows(local, stored) && ConditionShape(local.status.conditions) }

  predicate GotOk(c: Context, got: Got) { got.initialized ==> c.parse(got.status.endpoint).Ok? }

  predicate PassOk(c: Context, w: World, p: Pass) {
    && (HasLocal(p) ==> CopyOk(p.local, w.cp))
    && (p.AtKubeconfig? || p.AtSecret? || p.AtSecretCondition? || p.AtEndpoint? ==> GotOk(c, p.got))
    && (p.AtInitialized? && WillInitialize(p) ==> EndpointOk(w.cp.spec.endpoint))
  }

  predicate WorldOk(c: Context, w: World) {
    && ConditionShape(w.cp.status.conditions)
    && (w.cp.status.initialized ==> EndpointOk(w.cp.spec.endpoint))
    && WorldPromise(c, w)
  }

  predicate Inv(c: Context, s: System) {
    && WorldOk(c, s.world)
    && CopyOk(s.cache, s.world.cp)
    && PassOk(c, s.world, s.pass)
  }

  /** What one step may do to the stored object. */
  predicate StepOk(c: Context, w: World, w': World, p': Pass) {
    WorldOk(c, w') && PassOk(c, w', p') && Grows(w.cp, w'.cp)
  }

  lemma InstanceGot(c: Context, w: World, p: Pass, gvk: Gvk, spec: map<string, JsonTree.Json>)
    requires p.AtBackend?
    ensures var p' := InstanceStep(c, w, p, gvk, spec).1; p'.AtKubeconfig? ==> !p'.got.initialized
  {
  }

  /** The facade leaves the backend's endpoint and status as they are. */
  lemma KubeadmGot(c: Context, w: World, p: Pass, kubeadm: KubeadmSpec)
    requires p.AtBackend? && WorldPromise(c, w)
    ensures WorldPromise(c, KubeadmStep(c, w, p, kubeadm).0)
    ensures var p' := KubeadmStep(c, w, p, kubeadm).1; p'.AtKubeconfig? ==> GotOk(c, p'.got)
  {
    var b := UpsertKubeadm(w.kubeadm, c.self, OwnerCluster(p.owner), p.local.spec, kubeadm);
    if b.Some? {
      assert BackendPromise(c, b.value);
    }
  }

  lemma BackendGot(c: Context, w: World, p: Pass)
    requires p.AtBackend? && WorldPromise(c, w)
    ensures WorldPromise(c, BackendStep(c, w, p).0)
    ensures var p' := BackendStep(c, w, p).1; p'.AtKubeconfig? ==> GotOk(c, p'.got)
    ensures var p' := BackendStep(c, w, p).1; p'.Idle? || p'.AtConditions? || p'.AtRgd? || p'.AtKubeconfig?
  {
    match PlanOf(p.local.spec, p.owner, w.rgds)
    case Unselected(_) =>
    case Unresolved(_) =>
    case Refused(_) =>
    case WithInstance(gvk, spec) => InstanceGot(c, w, p, gvk, spec);
    case WithKubeadm(kubeadm) => KubeadmGot(c, w, p, kubeadm);
  }

  lemma BackendStepOk(c: Context, w: World, p: Pass)
    requires p.AtBackend? && WorldOk(c, w) && PassOk(c, w, p)
    ensures StepOk(c, w, BackendStep(c, w, p).0, BackendStep(c, w, p).1)
  {
    BackendGot(c, w, p);
  }

  lemma RgdStepOk(c: Context, w: World, p: Pass)
    requires p.AtRgd? && WorldOk(c, w) && PassOk(c, w, p)
    ensures StepOk(c, w, RgdStep(c, w, p).0, RgdStep(c, w, p).1)
  {
  }

  lemma SourceStepOk(c: Context, w: World, p: Pass, path: string, source: string, cluster: string)
    requires p.AtKubeconfig? && WorldOk(c, w) && PassOk(c, w, p)
    ensures PassOk(c, w, SourceStep(p, w.sources, path, source, cluster))
  {
  }

  lemma KubeconfigStepOk(c: Context, w: World, p: Pass)
    requires p.AtKubeconfig? && WorldOk(c, w) && PassOk(c, w, p)
    ensures PassOk(c, w, KubeconfigStep(c, w, p))
  {
    if p.got.ref.Some? && p.got.ref.value.name.Is? && p.owner.OwnerIs? && !p.got.ref.value.namespace.WrongType? {
      var ns := Default(OrElse(p.got.ref.value.namespace, ""), c.self.ns);
      SourceStepOk(c, w, p, ns + "/" + p.got.ref.value.name.value, p.got.ref.value.name.value, p.owner.cluster.name);
    }
  }

  lemma SecretStepOk(c: Context, w: World, p: Pass)
    requires p.AtSecret? && WorldOk(c, w) && PassOk(c, w, p)
    ensures StepOk(c, w, SecretStep(c, w, p).0, SecretStep(c, w, p).1)
  {
  }

  lemma SecretConditionStepOk(c: Context, w: World, p: Pass)
    requires p.AtSecretCondition? && WorldOk(c, w) && PassOk(c, w, p)
    ensures StepOk(c, w, SecretConditionStep(c, w, p).0, SecretConditionStep(c, w, p).1)
  {
  }

  lemma Parses(f: Parser, s: string)
    ensures f(s).Ok? ==> s != "" && EndpointOk(f(s).endpoint)
  {
  }

  /** A patch from an older copy leaves a whole endpoint when it brings one. */
  lemma PatchedEndpointOk(stored: ApiEndpoint, local: ApiEndpoint, parsed: ApiEndpoint)
    requires EndpointGrows(local, stored) && EndpointOk(parsed)
    ensures EndpointOk(PatchEndpoint(stored, local, parsed))
  {
  }

  lemma EndpointStepOk(c: Context, w: World, p: Pass)
    requires p.AtEndpoint? && WorldOk(c, w) && PassOk(c, w, p)
    ensures StepOk(c, w, EndpointStep(c, w, p).0, EndpointStep(c, w, p).1)
  {
    Parses(c.parse, p.got.status.endpoint);
    var parsed := c.parse(p.got.status.endpoint);
    if parsed.Ok? {
      PatchedEndpointOk(w.cp.spec.endpoint, p.local.spec.endpoint, parsed.endpoint);
    }
  }

  lemma InitializedStepOk(c: Context, w: World, p: Pass)
    requires p.AtInitialized? && WorldOk(c, w) && PassOk(c, w, p)
    ensures StepOk(c, w, InitializedStep(c, w, p).0, InitializedStep(c, w, p).1)
  {
  }

  lemma ConditionsStepOk(c: Context, w: World, p: Pass)
    requires p.AtConditions? && WorldOk(c, w) && PassOk(c, w, p)
    ensures StepOk(c, w, ConditionsStep(c, w, p).0, ConditionsStep(c, w, p).1)
  {
    ReportHasShape(c.words, p.local.status, p.local.spec.version, p.status, p.ready);
  }

  lemma StepKeeps(c: Context, w: World, p: Pass)
    requires HasLocal(p) && WorldOk(c, w) && PassOk(c, w, p)
    ensures StepOk(c, w, Step(c, w, p).0, Step(c, w, p).1)
  {
    match p
    case AtBackend(_, _) => BackendStepOk(c, w, p);
    case AtRgd(_, _) => RgdStepOk(c, w, p);
    case AtKubeconfig(_, _, _) => KubeconfigStepOk(c, w, p);
    case AtSecret(_, _, _, _) => SecretStepOk(c, w, p);
    case AtSecretCondition(_, _, _, _) => SecretConditionStepOk(c, w, p);
    case AtEndpoint(_, _, _) => EndpointStepOk(c, w, p);
    case AtInitialized(_, _, _, _, _) => InitializedStepOk(c, w, p);
    case AtConditions(_, _, _, _, _) => ConditionsStepOk(c, w, p);
  }

  lemma NextKeeps(c: Context, s: System, s': System)
    requires Inv(c, s) && Next(c, s, s')
    ensures Inv(c, s') && Grows(s.world.cp, s'.world.cp)
  {
    if HasLocal(s.pass) {
      StepKeeps(c, s.world, s.pass);
    }
  }

  lemma {:induction false} RunInv(c: Context, t: seq<System>, i: nat)
    requires Run(c, t) && i < |t|
    ensures Inv(c, t[i])
    ensures i > 0 ==> Grows(t[i - 1].world.cp, t[i].world.cp)
  {
    if i > 0 {
      RunInv(c, t, i - 1);
      assert Runs.StepAt(NextOf(c), t, i);
      NextKeeps(c, t[i - 1], t[i]);
    }
  }

  /** In every reachable state an initialized control plane has a stored endpoint with a host
      and a port from 1 to 65535. */
  lemma InitializedHasEndpoint(c: Context, t: seq<System>, i: nat)
    requires Run(c, t) && i < |t|
    ensures t[i].world.cp.status.initialized ==> EndpointOk(t[i].world.cp.spec.endpoint)
  {
    RunInv(c, t, i);
  }

  /** Initialization never reverts and a stored endpoint is never cleared. */
  lemma {:induction false} NeverTakenBack(c: Context, t: seq<System>, i: nat, j: nat)
    requires Run(c, t) && i <= j < |t|
    ensures Grows(t[i].world.cp, t[j].world.cp)
    decreases j - i
  {
    if i < j {
      NeverTakenBack(c, t, i, j - 1);
      RunInv(c, t, j);
    }
  }

  /** In every reachable state Ready=True excludes Creating, and Ready=False comes with
      Creating=True that gives the same reason and message. */
  lemma ConditionsHaveShape(c: Context, t: seq<System>, i: nat)
    requires Run(c, t) && i < |t|
    ensures ConditionShape(t[i].world.cp.status.conditions)
  {
    RunInv(c, t, i);
  }

  // ---- one backend for life ----

  lemma StepKeepsSelection(c: Context, w: World, p: Pass)
    requires HasLocal(p)
    ensures var spec := Step(c, w, p).0.cp.spec; spec == w.cp.spec.(endpoint := spec.endpoint)
  {
    match p
    case AtBackend(_, _) =>
    case AtRgd(_, _) =>
    case AtKubeconfig(_, _, _) =>
    case AtSecret(_, _, _, _) =>
    case AtSecretCondition(_, _, _, _) =>
    case AtEndpoint(_, _, _) =>
    case AtInitialized(_, _, _, _, _) =>
    case AtConditions(_, _, _, _, _) =>
  }

  /** Through all writes and admitted edits the stored object selects the backend it was admitted with. */
  lemma {:induction false} BackendForLife(c: Context, t: seq<System>, i: nat)
    requires Run(c, t) && i < |t| && ValidateCreate(t[0].world.cp.spec) == []
    ensures Selected(t[i].world.cp.spec) == Selected(t[0].world.cp.spec) != NoBackend
  {
    if i > 0 {
      BackendForLife(c, t, i - 1);
      var s, s' := t[i - 1], t[i];
      assert Runs.StepAt(NextOf(c), t, i);
      if HasLocal(s.pass) {
        StepKeepsSelection(c, s.world, s.pass);
      }
    }
  }

  // ---- failures of a ready control plane ----

  /** A run in which every reconcile starts from the stored status. */
  ghost predicate FreshRun(c: Context, t: seq<System>) {
    && Run(c, t)
    && forall i :: 0 < i < |t| && HasLocal(t[i].pass) && !HasLocal(t[i - 1].pass) ==>
         t[i - 1].cache.status == t[i - 1].world.cp.status
  }

  /** The copy's status is the stored one, and a ready control plane carries no failure. */
  predicate Fresh(w: World, p: Pass) {
    FailureShape(w.cp.status) && (HasLocal(p) ==> p.local.status == w.cp.status)
  }

  lemma FreshStep(c: Context, w: World, p: Pass)
    requires HasLocal(p) && Fresh(w, p)
    ensures Fresh(Step(c, w, p).0, Step(c, w, p).1)
  {
    if p.AtConditions? {
      ReportHasShape(c.words, p.local.status, p.local.spec.version, p.status, p.ready);
    }
  }

  /** Without outdated reads, a ready control plane never carries a failure reason or message. */
  lemma {:induction false} ReadyHasNoFailure(c: Context, t: seq<System>, i: nat)
    requires FreshRun(c, t) && i < |t|
    ensures Fresh(t[i].world, t[i].pass)
  {
    if i > 0 {
      ReadyHasNoFailure(c, t, i - 1);
      var s, s' := t[i - 1], t[i];
      assert Runs.StepAt(NextOf(c), t, i);
      if HasLocal(s.pass) {
        FreshStep(c, s.world, s.pass);
      }
    }
  }
}

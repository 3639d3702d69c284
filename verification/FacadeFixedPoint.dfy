/** A reconcile that completes leaves the store as it wants it: run again with nothing changed
    in between, it changes nothing, tells nothing and asks for the same requeue. */
module FacadeFixedPoint {

  import opened Options
  import opened Text
  import opened Endpoint
  import opened JsonTree
  import opened ControlPlane
  import opened Backends
  import opened Facade
  import opened FacadeSafety

  function Rank(p: Pass): nat {
    match p
    case Idle => 0
    case Done(_) => 0
    case AtConditions(_, _, _, _, _) => 1
    case AtRgd(_, _) => 1
    case AtInitialized(_, _, _, _, _) => 2
    case AtEndpoint(_, _, _) => 3
    case AtSecretCondition(_, _, _, _) => 4
    case AtSecret(_, _, _, _) => 5
    case AtKubeconfig(_, _, _) => 6
    case AtBackend(_, _) => 7
  }

  lemma StepDescends(c: Context, w: World, p: Pass)
    requires HasLocal(p)
    ensures Rank(Step(c, w, p).1) < Rank(p)
  {
  }

  /** A reconcile run to its end with every write succeeding and nothing else happening. */
  function Finish(c: Context, w: World, p: Pass): (World, Pass)
    decreases Rank(p)
  {
    if !HasLocal(p) then (w, p)
    else
      StepDescends(c, w, p);
      var next := Step(c, w, p);
      Finish(c, next.0, next.1)
  }

  function Reconcile(c: Context, w: World): (World, Pass) { Finish(c, w, Start(w.cp, w.owner)) }

  predicate SameButEndpoint(a: CpSpec, b: CpSpec) { a == b.(endpoint := a.endpoint) }

  predicate SameCondition(a: CpStatus, b: CpStatus, t: ConditionType) {
    if t in a.conditions then t in b.conditions && a.conditions[t] == b.conditions[t] else t !in b.conditions
  }

  predicate PastBackend(p: Pass) { !p.AtBackend? }

  predicate PastSecret(p: Pass) { PastBackend(p) && !p.AtKubeconfig? && !p.AtSecret? }

  predicate PastEndpoint(p: Pass) { p.AtInitialized? || p.AtConditions? }

  /** What the rest of a reconcile, from `p` on, leaves as it is. */
  predicate Kept(w: World, p: Pass, w': World) {
    && w'.sources == w.sources && w'.owner == w.owner && w'.rgds == w.rgds && w'.watchFails == w.watchFails
    && SameButEndpoint(w'.cp.spec, w.cp.spec)
    && (PastBackend(p) ==> w'.instances == w.instances && w'.kubeadm == w.kubeadm)
    && (PastSecret(p) ==> w'.secrets == w.secrets)
    && (p.AtEndpoint? || PastEndpoint(p) ==> SameCondition(w.cp.status, w'.cp.status, KubeconfigSecretReconciled))
    && (PastEndpoint(p) ==> w'.cp.spec == w.cp.spec)
    && (p.AtConditions? ==> w'.cp.status.initialized == w.cp.status.initialized)
    && (p.Idle? || p.Done? ==> w' == w)
  }

  /** The copy is the stored object. */
  predicate Current(w: World, p: Pass) { HasLocal(p) ==> p.local == w.cp }

  lemma BackendKept(c: Context, w: World, p: Pass)
    requires p.AtBackend? && Current(w, p)
    ensures Kept(w, p, BackendStep(c, w, p).0) && Current(BackendStep(c, w, p).0, BackendStep(c, w, p).1)
  {
  }

  lemma RgdKept(c: Context, w: World, p: Pass)
    requires p.AtRgd? && Current(w, p)
    ensures Kept(w, p, RgdStep(c, w, p).0) && Current(RgdStep(c, w, p).0, RgdStep(c, w, p).1)
  {
  }

  lemma KubeconfigKept(c: Context, w: World, p: Pass)
    requires p.AtKubeconfig? && Current(w, p)
    ensures Current(w, KubeconfigStep(c, w, p))
  {
  }

  lemma SecretKept(c: Context, w: World, p: Pass)
    requires p.AtSecret? && Current(w, p)
    ensures Kept(w, p, SecretStep(c, w, p).0) && Current(SecretStep(c, w, p).0, SecretStep(c, w, p).1)
  {
  }

  lemma SecretConditionKept(c: Context, w: World, p: Pass)
    requires p.AtSecretCondition? && Current(w, p)
    ensures Kept(w, p, SecretConditionStep(c, w, p).0)
    ensures Current(SecretConditionStep(c, w, p).0, SecretConditionStep(c, w, p).1)
  {
  }

  lemma EndpointKept(c: Context, w: World, p: Pass)
    requires p.AtEndpoint? && Current(w, p)
    ensures Kept(w, p, EndpointStep(c, w, p).0) && Current(EndpointStep(c, w, p).0, EndpointStep(c, w, p).1)
  {
  }

  lemma InitializedKept(c: Context, w: World, p: Pass)
    requires p.AtInitialized? && Current(w, p)
    ensures Kept(w, p, InitializedStep(c, w, p).0) && Current(InitializedStep(c, w, p).0, InitializedStep(c, w, p).1)
  {
  }

  lemma ConditionsKept(c: Context, w: World, p: Pass)
    requires p.AtConditions? && Current(w, p)
    ensures Kept(w, p, ConditionsStep(c, w, p).0)
  {
  }

  lemma StepKept(c: Context, w: World, p: Pass)
    requires HasLocal(p) && Current(w, p)
    ensures Kept(w, p, Step(c, w, p).0) && Current(Step(c, w, p).0, Step(c, w, p).1)
  {
    match p
    case AtBackend(_, _) => BackendKept(c, w, p);
    case AtRgd(_, _) => RgdKept(c, w, p);
    case AtKubeconfig(_, _, _) => KubeconfigKept(c, w, p);
    case AtSecret(_, _, _, _) => SecretKept(c, w, p);
    case AtSecretCondition(_, _, _, _) => SecretConditionKept(c, w, p);
    case AtEndpoint(_, _, _) => EndpointKept(c, w, p);
    case AtInitialized(_, _, _, _, _) => InitializedKept(c, w, p);
    case AtConditions(_, _, _, _, _) => ConditionsKept(c, w, p);
  }

  /** Stages are left in order. */
  predicate Order(p: Pass, p': Pass) {
    && (PastBackend(p) ==> PastBackend(p'))
    && (PastSecret(p) ==> PastSecret(p'))
    && (p.AtEndpoint? || PastEndpoint(p) ==> p'.AtEndpoint? || PastEndpoint(p') || !HasLocal(p'))
    && (PastEndpoint(p) ==> PastEndpoint(p') || !HasLocal(p'))
    && (p.AtConditions? ==> !HasLocal(p'))
  }

  lemma StepOrder(c: Context, w: World, p: Pass)
    requires HasLocal(p)
    ensures Order(p, Step(c, w, p).1)
  {
  }

  lemma KeptTwice(w: World, p: Pass, w': World, p': Pass, w'': World)
    requires Kept(w, p, w') && Order(p, p') && Kept(w', p', w'') && HasLocal(p)
    ensures Kept(w, p, w'')
  {
  }

  lemma {:induction false} FinishKept(c: Context, w: World, p: Pass)
    requires Current(w, p)
    ensures Kept(w, p, Finish(c, w, p).0)
    decreases Rank(p)
  {
    if HasLocal(p) {
      var next := Step(c, w, p);
      StepDescends(c, w, p);
      StepKept(c, w, p);
      StepOrder(c, w, p);
      FinishKept(c, next.0, next.1);
      KeptTwice(w, p, next.0, next.1, Finish(c, w, p).0);
    }
  }

  // ---- once more ----

  /** The same place in a reconcile of `cp`, with nothing left to tell. */
  function Again(p: Pass, cp: Cp): Pass {
    match p
    case AtConditions(_, status, ready, requeue, _) => AtConditions(cp, status, ready, requeue, None)
    case Idle => Idle
    case Done(requeue) => Done(requeue)
    case AtRgd(_, subject) => AtRgd(cp, subject)
    case AtInitialized(_, got, kube, status, valid) => AtInitialized(cp, got, kube, status, valid)
    case AtEndpoint(_, got, kube) => AtEndpoint(cp, got, kube)
    case AtSecretCondition(_, got, done, subject) => AtSecretCondition(cp, got, done, subject)
    case AtSecret(_, got, cluster, content) => AtSecret(cp, got, cluster, content)
    case AtKubeconfig(_, owner, got) => AtKubeconfig(cp, owner, got)
    case AtBackend(_, owner) => AtBackend(cp, owner)
  }

  lemma PlanAgain(a: CpSpec, b: CpSpec, owner: OwnerObs, rgds: map<string, RgdObs>)
    requires SameButEndpoint(a, b)
    ensures PlanOf(a, owner, rgds) == PlanOf(b, owner, rgds)
  {
  }

  lemma InstanceAgain(c: Context, w: World, p: Pass, gvk: Gvk, spec: map<string, Json>, w': World)
    requires p.AtBackend? && w'.watchFails == w.watchFails
    requires var r := InstanceStep(c, w, p, gvk, spec); r.1.AtKubeconfig? && w'.instances == r.0.instances
    ensures InstanceStep(c, w', Again(p, w'.cp), gvk, spec) == (w', Again(InstanceStep(c, w, p, gvk, spec).1, w'.cp))
  {
    var existing := if gvk in w.instances then Some(w.instances[gvk]) else None;
    UpsertInstanceTwice(existing, c.self, OwnerCluster(p.owner), spec);
    var i := UpsertInstance(existing, c.self, OwnerCluster(p.owner), spec).value;
    assert w'.instances[gvk := i] == w'.instances;
  }

  lemma KubeadmAgain(c: Context, w: World, p: Pass, kubeadm: KubeadmSpec, w': World)
    requires p.AtBackend? && w'.watchFails == w.watchFails && SameButEndpoint(w'.cp.spec, p.local.spec)
    requires var r := KubeadmStep(c, w, p, kubeadm); r.1.AtKubeconfig? && w'.kubeadm == r.0.kubeadm
    ensures KubeadmStep(c, w', Again(p, w'.cp), kubeadm) == (w', Again(KubeadmStep(c, w, p, kubeadm).1, w'.cp))
  {
    UpsertKubeadmTwice(w.kubeadm, c.self, OwnerCluster(p.owner), p.local.spec, kubeadm);
    assert UpsertKubeadm(w'.kubeadm, c.self, OwnerCluster(p.owner), w'.cp.spec, kubeadm) ==
           UpsertKubeadm(w'.kubeadm, c.self, OwnerCluster(p.owner), p.local.spec, kubeadm);
  }

  /** What was reported is the stored status, word for word. */
  predicate Reported(c: Context, cp: Cp, s: InstanceStatus, ready: bool) {
    cp.status == WithReport(c.words, cp.status, cp.spec.version, s, ready)
  }

  lemma RefusedAgain(c: Context, local: Cp, x: Subject, cp: Cp)
    requires c.words.Valid() && !x.RgdBroken?
    requires Reported(c, cp, NotReady(c.words.notice(x)), false)
    ensures SpecRefused(c, cp, x) == Again(SpecRefused(c, local, x), cp)
  {
  }

  lemma BackendAgain(c: Context, w: World, p: Pass, w1: World, p1: Pass, w': World)
    requires p.AtBackend? && p.local == w.cp && c.words.Valid()
    requires BackendStep(c, w, p) == (w1, p1) && HasLocal(p1) && Kept(w1, p1, w')
    requires p1.AtConditions? ==> Reported(c, w'.cp, p1.status, p1.ready)
    ensures BackendStep(c, w', Again(p, w'.cp)) == (w', Again(p1, w'.cp))
  {
    PlanAgain(w'.cp.spec, p.local.spec, p.owner, w.rgds);
    match PlanOf(p.local.spec, p.owner, w.rgds)
    case Unselected(_) =>
    case Unresolved(_) =>
    case Refused(x) => RefusedAgain(c, p.local, x, w'.cp);
    case WithInstance(gvk, spec) => InstanceAgain(c, w, p, gvk, spec, w');
    case WithKubeadm(kubeadm) => KubeadmAgain(c, w, p, kubeadm, w');
  }

  lemma RgdAgain(c: Context, w: World, p: Pass, w1: World, p1: Pass)
    requires p.AtRgd? && p.local == w.cp && RgdStep(c, w, p) == (w1, p1)
    ensures RgdStep(c, w1, Again(p, w1.cp)) == (w1, p1)
  {
    assert w1.cp.status.conditions[ResourceGraphDefinitionResolved := w1.cp.status.conditions[ResourceGraphDefinitionResolved]]
        == w1.cp.status.conditions;
  }

  lemma KubeconfigAgain(c: Context, w: World, p: Pass, w': World)
    requires p.AtKubeconfig? && w'.sources == w.sources
    ensures KubeconfigStep(c, w', Again(p, w'.cp)) == Again(KubeconfigStep(c, w, p), w'.cp)
  {
  }

  lemma SecretAgain(c: Context, w: World, p: Pass, w1: World, p1: Pass, w': World)
    requires p.AtSecret? && SecretStep(c, w, p) == (w1, p1) && HasLocal(p1) && w'.secrets == w1.secrets
    ensures SecretStep(c, w', Again(p, w'.cp)) == (w', Again(p1, w'.cp))
  {
    var name := SecretName(p.cluster).value;
    var existing := if name in w.secrets then Some(w.secrets[name]) else None;
    UpsertSecretTwice(existing, c.self, p.cluster, p.content);
    var s := UpsertSecret(existing, c.self, p.cluster, p.content).value;
    assert w'.secrets[name := s] == w'.secrets;
  }

  lemma SecretConditionAgain(c: Context, w: World, p: Pass, w1: World, p1: Pass, w': World)
    requires p.AtSecretCondition? && p.local == w.cp
    requires SecretConditionStep(c, w, p) == (w1, p1) && SameCondition(w1.cp.status, w'.cp.status, KubeconfigSecretReconciled)
    ensures SecretConditionStep(c, w', Again(p, w'.cp)) == (w', Again(p1, w'.cp))
  {
    var n := c.words.notice(p.subject);
    var condition := Condition(p.done, n.reason, n.message);
    assert Told(w'.cp.status, KubeconfigSecretReconciled, condition);
    assert Tell(w'.cp.status, KubeconfigSecretReconciled, condition).conditions == w'.cp.status.conditions;
  }

  lemma EndpointAgain(c: Context, w: World, p: Pass, w1: World, p1: Pass, w': World)
    requires p.AtEndpoint? && p.local == w.cp
    requires EndpointStep(c, w, p) == (w1, p1) && w'.cp.spec == w1.cp.spec
    ensures EndpointStep(c, w', Again(p, w'.cp)) == (w', Again(p1, w'.cp))
  {
  }

  lemma ReportedStatusAgain(c: Context, a: Cp, b: Cp, s: InstanceStatus, kube: Kube)
    requires SameCondition(a.status, b.status, KubeconfigSecretReconciled)
    ensures ReportedStatus(c, a, s, kube) == ReportedStatus(c, b, s, kube)
  {
  }

  lemma InitializedAgain(c: Context, w: World, p: Pass, w1: World, p1: Pass, w': World)
    requires p.AtInitialized? && p.local == w.cp && InitializedStep(c, w, p) == (w1, p1)
    requires SameCondition(w1.cp.status, w'.cp.status, KubeconfigSecretReconciled)
    requires w'.cp.status.initialized == w1.cp.status.initialized
    ensures InitializedStep(c, w', Again(p, w'.cp)) == (w', Again(p1, w'.cp))
  {
    ReportedStatusAgain(c, w1.cp, w'.cp, p.status, p.kube);
  }

  lemma ConditionsAgain(c: Context, w: World, p: Pass, w1: World, p1: Pass)
    requires p.AtConditions? && p.local == w.cp && ConditionsStep(c, w, p) == (w1, p1)
    ensures Reported(c, w1.cp, p.status, p.ready)
    ensures ConditionsStep(c, w1, Again(p, w1.cp)) == (w1, p1)
  {
    ReportHasShape(c.words, p.local.status, p.local.spec.version, p.status, p.ready);
  }

  lemma StepAgain(c: Context, w: World, p: Pass, w': World)
    requires HasLocal(p) && Current(w, p) && c.words.Valid()
    requires !Step(c, w, p).1.Idle? && Kept(Step(c, w, p).0, Step(c, w, p).1, w')
    requires var p1 := Step(c, w, p).1; p1.AtConditions? ==> Reported(c, w'.cp, p1.status, p1.ready)
    ensures Step(c, w', Again(p, w'.cp)) == (w', Again(Step(c, w, p).1, w'.cp))
  {
    var (w1, p1) := Step(c, w, p);
    match p
    case AtBackend(_, _) => BackendAgain(c, w, p, w1, p1, w');
    case AtRgd(_, _) => RgdAgain(c, w, p, w1, p1);
    case AtKubeconfig(_, _, _) => KubeconfigAgain(c, w, p, w');
    case AtSecret(_, _, _, _) => SecretAgain(c, w, p, w1, p1, w');
    case AtSecretCondition(_, _, _, _) => SecretConditionAgain(c, w, p, w1, p1, w');
    case AtEndpoint(_, _, _) => EndpointAgain(c, w, p, w1, p1, w');
    case AtInitialized(_, _, _, _, _) => InitializedAgain(c, w, p, w1, p1, w');
    case AtConditions(_, _, _, _, _) => ConditionsAgain(c, w, p, w1, p1);
  }

  lemma FinishReports(c: Context, w: World, p: Pass)
    requires p.AtConditions? && Current(w, p)
    ensures Reported(c, Finish(c, w, p).0.cp, p.status, p.ready)
  {
    ConditionsAgain(c, w, p, ConditionsStep(c, w, p).0, ConditionsStep(c, w, p).1);
  }

  lemma {:induction false} FinishAgain(c: Context, w: World, p: Pass)
    requires Current(w, p) && c.words.Valid() && Finish(c, w, p).1.Done?
    ensures var (w', done) := Finish(c, w, p); Finish(c, w', Again(p, w'.cp)) == (w', done)
    decreases Rank(p)
  {
    if HasLocal(p) {
      var (w1, p1) := Step(c, w, p);
      var w' := Finish(c, w, p).0;
      StepDescends(c, w, p);
      StepKept(c, w, p);
      FinishKept(c, w1, p1);
      FinishAgain(c, w1, p1);
      if p1.AtConditions? {
        FinishReports(c, w1, p1);
      }
      StepAgain(c, w, p, w');
    }
  }

  /** A second reconcile after one that completed, with nothing changed in between, leaves the
      whole store as it is, records no event and returns the same requeue. */
  lemma SecondReconcileChangesNothing(c: Context, w: World)
    requires c.words.Valid() && Reconcile(c, w).1.Done?
    ensures Reconcile(c, Reconcile(c, w).0) == Reconcile(c, w)
  {
    FinishKept(c, w, Start(w.cp, w.owner));
    FinishAgain(c, w, Start(w.cp, w.owner));
  }

  /** In particular with the program's own parser and wording. */
  lemma ProgramSecondReconcile(self: Identity, literal: Literals, w: World)
    ensures var c := Program(self, literal);
            Reconcile(c, w).1.Done? ==> Reconcile(c, Reconcile(c, w).0) == Reconcile(c, w)
  {
    WordingSaysAll();
    if Reconcile(Program(self, literal), w).1.Done? {
      SecondReconcileChangesNothing(Program(self, literal), w);
    }
  }
}

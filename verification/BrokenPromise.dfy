/** Which promise of the infrastructure the two controllers need, exactly: without it some run of both
    ends with an initialized control plane that has no endpoint. */
module BrokenPromise {

  import opened Options
  import opened Endpoint
  import opened JsonTree
  import opened ControlPlane
  import opened Backends
  import opened Facade
  import opened FacadeSafety
  import opened KubeadmController
  import opened SharedBackend
  import Runs

  /** Some run ends in the state. */
  ghost predicate Reachable(c: Context, promise: Promise, s: Joint) {
    Runs.Reachable(JInitOf(promise), JNextOf(c, promise), s)
  }

  lemma ByFacade(c: Context, promise: Promise, s: Joint, f: System)
    requires Reachable(c, promise, s) && FacadeStep(c, s.f, f)
    ensures Reachable(c, promise, AfterFacade(s, f))
  {
    assert JNext(c, promise, s, AfterFacade(s, f));
    Runs.ReachableNext(JInitOf(promise), JNextOf(c, promise), s, AfterFacade(s, f));
  }

  lemma ByController(c: Context, promise: Promise, s: Joint, k: KSystem)
    requires Reachable(c, promise, s) && Exists(s) && ControllerStep(s.k, k)
    ensures Reachable(c, promise, AfterController(s, k))
  {
    assert JNext(c, promise, s, AfterController(s, k));
    Runs.ReachableNext(JInitOf(promise), JNextOf(c, promise), s, AfterController(s, k));
  }

  /** Two steps of the facade's reconcile, nothing in between. */
  function FacadeTwoSteps(c: Context, w: World, p: Pass): (World, Pass)
    requires HasLocal(p) && HasLocal(Step(c, w, p).1)
  {
    Step(c, Step(c, w, p).0, Step(c, w, p).1)
  }

  /** Two steps of the controller's. */
  function ControllerTwoSteps(w: KWorld, p: KPass): (KWorld, KPass)
    requires Active(p) && Active(KStep(w, p).1)
  {
    KStep(KStep(w, p).0, KStep(w, p).1)
  }

  lemma FacadeWorks(c: Context, promise: Promise, s: Joint) returns (t: Joint)
    requires Reachable(c, promise, s) && Exists(s) && Coupled(s) && HasLocal(s.f.pass)
    ensures Reachable(c, promise, t) && Exists(t) && Coupled(t)
    ensures t.f == System(Step(c, s.f.world, s.f.pass).0, s.f.cache, Step(c, s.f.world, s.f.pass).1)
    ensures t.k == s.k.(world := s.k.world.(cp := t.k.world.cp))
  {
    var r := Step(c, s.f.world, s.f.pass);
    var f := System(r.0, s.f.cache, r.1);
    StepLeavesAlone(c, s.f.world, s.f.pass);
    ByFacade(c, promise, s, f);
    t := AfterFacade(s, f);
  }

  lemma ControllerWorks(c: Context, promise: Promise, s: Joint) returns (t: Joint)
    requires Reachable(c, promise, s) && Exists(s) && Coupled(s) && Active(s.k.pass)
    ensures Reachable(c, promise, t) && Exists(t) && Coupled(t)
    ensures t.k == KSystem(KStep(s.k.world, s.k.pass).0, s.k.cache, KStep(s.k.world, s.k.pass).1)
    ensures t.f == s.f.(world := s.f.world.(kubeadm := t.f.world.kubeadm))
  {
    var r := KStep(s.k.world, s.k.pass);
    var k := KSystem(r.0, s.k.cache, r.1);
    ByController(c, promise, s, k);
    t := AfterController(s, k);
  }

  const KUBEADM := KubeadmSpec(None, Null, None)

  const CLUSTER := Cluster("c", "ns", "u")

  function SpecUsed(): CpSpec { CpSpec("v1", None, None, Absent, Some(KUBEADM), None, UNSET) }

  /** The facade has not written anything but the backend, and may write it again. */
  predicate FacadeWaits(c: Context, f: System) {
    && f.cache == f.world.cp == Cp(SpecUsed(), NEW_STATUS) && f.world.owner == OwnerIs(CLUSTER)
    && UpsertKubeadm(f.world.kubeadm, c.self, Some(CLUSTER), SpecUsed(), KUBEADM).Some?
  }

  /** The backend's controller with a cluster whose infrastructure reports the endpoint. */
  predicate Surroundings(w: KWorld, infra: InfraObs) {
    w.owner == OwnerIs(CLUSTER) && w.infra == infra && w.childrenOk && w.probe
  }

  predicate At(c: Context, s: Joint, infra: InfraObs) {
    Exists(s) && Coupled(s) && FacadeWaits(c, s.f) && s.f.pass == Idle && Surroundings(s.k.world, infra)
  }

  predicate Known(infra: InfraObs) { EndpointKnown(infra) && InBounds(Desired(infra)) }

  /** An endpoint that is copied and looks resolved. */
  predicate Copied(infra: InfraObs) { Known(infra) && Desired(infra).port > 0 }

  // ---- what the two do, on values ----

  lemma FirstUpsert(c: Context)
    ensures var b := UpsertKubeadm(None, c.self, Some(CLUSTER), SpecUsed(), KUBEADM);
            && b.Some? && b.value.endpoint == UNSET && b.value.status == NEW_STATUS
            && UpsertKubeadm(b, c.self, Some(CLUSTER), SpecUsed(), KUBEADM) == b
  {
    UpsertKubeadmTwice(None, c.self, Some(CLUSTER), SpecUsed(), KUBEADM);
  }

  lemma CreatesTheBackend(c: Context, w: World, p: Pass)
    requires w.kubeadm == None && p == Start(Cp(SpecUsed(), NEW_STATUS), OwnerIs(CLUSTER))
    ensures var r := Step(c, w, p);
            && r.0 == w.(kubeadm := r.0.kubeadm) && r.0.kubeadm.Some?
            && r.0.kubeadm.value.endpoint == UNSET && r.0.kubeadm.value.status == NEW_STATUS
            && UpsertKubeadm(r.0.kubeadm, c.self, Some(CLUSTER), SpecUsed(), KUBEADM).Some?
  {
    FirstUpsert(c);
    assert PlanOf(p.local.spec, p.owner, w.rgds) == WithKubeadm(KUBEADM);
  }

  /** The owner is told and the endpoint copied. */
  lemma EndpointIsCopied(w: KWorld, infra: InfraObs)
    requires Surroundings(w, infra) && Known(infra) && w.cp.endpoint != Desired(infra)
    ensures Active(KStep(w, KOwner(w.cp)).1)
    ensures var r := ControllerTwoSteps(w, KOwner(w.cp));
            && r.0 == w.(cp := w.cp.(endpoint := Desired(infra), status := r.0.cp.status))
            && r.0.cp.status.initialized == w.cp.status.initialized && r.1 == KChildren(r.0.cp)
  {
    var (w1, p1) := OwnerStep(w, KOwner(w.cp), OwnerCondition(w.owner));
    assert p1 == KEndpoint(w1.cp) && w1 == w.(cp := w.cp.(status := w1.cp.status));
    var (w2, p2) := KubeadmController.EndpointStep(w1, p1);
    assert PatchEndpoint(w1.cp.endpoint, w1.cp.endpoint, Desired(infra)) == Desired(infra);
    assert w2 == w1.(cp := w1.cp.(endpoint := Desired(infra))) && p2 == KChildren(w2.cp);
    assert KStep(w, KOwner(w.cp)) == (w1, p1) && KStep(w1, p1) == (w2, p2);
  }

  /** The children are there and the probe succeeds. */
  lemma ProbeInitializes(w: KWorld, infra: InfraObs)
    requires Surroundings(w, infra) && KubeadmController.Resolved(w.cp.endpoint) && !w.cp.status.initialized
    ensures Active(KStep(w, KChildren(w.cp)).1)
    ensures var r := ControllerTwoSteps(w, KChildren(w.cp));
            r.0 == w.(cp := w.cp.(status := r.0.cp.status)) && r.0.cp.status.initialized
  {
    var (w1, p1) := ChildrenStep(w, KChildren(w.cp));
    var (w2, p2) := ProbeStep(w1, p1);
    assert KStep(w, KChildren(w.cp)) == (w1, p1) && KStep(w1, p1) == (w2, p2);
  }

  /** The facade writes the backend again, reads it, and has no kubeconfig to copy. */
  lemma ReadsTheReport(c: Context, f: System)
    requires FacadeWaits(c, f) && f.world.kubeadm.Some?
    ensures HasLocal(Step(c, f.world, Start(f.cache, f.world.owner)).1)
    ensures var (w, p) := FacadeTwoSteps(c, f.world, Start(f.cache, f.world.owner));
            && p.AtEndpoint? && p.local == w.cp == f.world.cp && p.kube == KubeOff
            && p.got.initialized == f.world.kubeadm.value.status.initialized
            && p.got.status.endpoint == Print(f.world.kubeadm.value.endpoint)
  {
    var p := Start(f.cache, f.world.owner);
    var (w1, p1) := KubeadmStep(c, f.world, p, KUBEADM);
    assert PlanOf(p.local.spec, p.owner, f.world.rgds) == WithKubeadm(KUBEADM);
    assert Step(c, f.world, p) == (w1, p1);
    var p2 := AtEndpoint(p1.local, p1.got, KubeOff);
    assert Step(c, w1, p1) == (w1, p2);
  }

  /** It follows a backend that is initialized and whose endpoint it cannot use. */
  lemma FollowsTheReport(c: Context, w: World, p: Pass)
    requires p.AtEndpoint? && p.local == w.cp == Cp(SpecUsed(), NEW_STATUS) && p.got.initialized
    requires p.got.status.endpoint == "" || c.parse(p.got.status.endpoint).Err?
    ensures HasLocal(Step(c, w, p).1)
    ensures var r := FacadeTwoSteps(c, w, p); r.0.cp.status.initialized && r.0.cp.spec.endpoint == UNSET
  {
    var (w1, p1) := Facade.EndpointStep(c, w, p);
    assert w1 == w && p1.AtInitialized? && p1.local == w.cp && p1.got.initialized;
    var (w2, p2) := InitializedStep(c, w1, p1);
    assert Step(c, w, p) == (w1, p1) && Step(c, w1, p1) == (w2, p2);
  }

  // ---- the run ----

  lemma Made(c: Context, promise: Promise, infra: InfraObs) returns (s: Joint)
    requires promise(infra)
    ensures Reachable(c, promise, s) && !Exists(s) && Surroundings(s.k.world, infra)
    ensures s.f.cache == s.f.world.cp == Cp(SpecUsed(), NEW_STATUS) && s.f.world.owner == OwnerIs(CLUSTER)
    ensures s.f.pass == Start(s.f.cache, s.f.world.owner)
  {
    var none := KubeadmBackend([], None, "", None, Null, None, UNSET, NEW_STATUS);
    var cp := Cp(SpecUsed(), NEW_STATUS);
    var w := World(cp, map[], None, map[], map[], OwnerIs(CLUSTER), map[], false, []);
    var kw := KWorld(none, OwnerIs(CLUSTER), infra, true, true, Listed(true));
    s := Joint(System(w, cp, Idle), KSystem(kw, none, KIdle), {});
    assert JInit(promise, s);
    Runs.ReachableInit(JInitOf(promise), JNextOf(c, promise), s);
    var started := s.f.(pass := Start(cp, w.owner));
    ByFacade(c, promise, s, started);
    s := AfterFacade(s, started);
  }

  lemma Created(c: Context, promise: Promise, infra: InfraObs) returns (s: Joint)
    requires promise(infra)
    ensures Reachable(c, promise, s) && At(c, s, infra) && s.k.pass == KIdle && s.k.cache == s.k.world.cp
    ensures s.k.world.cp.endpoint == UNSET && s.k.world.cp.status == NEW_STATUS
  {
    s := Made(c, promise, infra);
    CreatesTheBackend(c, s.f.world, s.f.pass);
    var r := Step(c, s.f.world, s.f.pass);
    ByFacade(c, promise, s, System(r.0, s.f.cache, r.1));
    s := AfterFacade(s, System(r.0, s.f.cache, r.1));
    ByFacade(c, promise, s, s.f.(pass := Idle));
    s := AfterFacade(s, s.f.(pass := Idle));
  }

  /** A reconcile begins and copies the endpoint. */
  lemma EndpointCopied(c: Context, promise: Promise, s: Joint, infra: InfraObs) returns (t: Joint)
    requires Reachable(c, promise, s) && At(c, s, infra) && s.k.pass == KIdle && s.k.cache == s.k.world.cp
    requires Known(infra) && s.k.world.cp.endpoint != Desired(infra)
    ensures Reachable(c, promise, t) && At(c, t, infra) && t.k.pass == KChildren(t.k.world.cp)
    ensures t.k.world.cp.endpoint == Desired(infra)
    ensures t.k.world.cp.status.initialized == s.k.world.cp.status.initialized
  {
    ByController(c, promise, s, s.k.(pass := KOwner(s.k.cache)));
    EndpointIsCopied(s.k.world, infra);
    t := ControllerWorks(c, promise, AfterController(s, s.k.(pass := KOwner(s.k.cache))));
    t := ControllerWorks(c, promise, t);
  }

  lemma BackendInitialized(c: Context, promise: Promise, infra: InfraObs) returns (s: Joint)
    requires promise(infra) && Copied(infra)
    ensures Reachable(c, promise, s) && At(c, s, infra)
    ensures s.k.world.cp.endpoint == Desired(infra) && s.k.world.cp.status.initialized
  {
    var t := Created(c, promise, infra);
    t := EndpointCopied(c, promise, t, infra);
    ProbeInitializes(t.k.world, infra);
    s := ControllerWorks(c, promise, t);
    s := ControllerWorks(c, promise, s);
  }

  /** The reconcile ends, the cache follows, and the infrastructure reports something else. */
  lemma InfrastructureChanges(c: Context, promise: Promise, s: Joint, infra: InfraObs, later: InfraObs) returns (t: Joint)
    requires Reachable(c, promise, s) && At(c, s, infra) && promise(later)
    ensures Reachable(c, promise, t) && At(c, t, later) && t.k.pass == KIdle && t.k.cache == t.k.world.cp
    ensures t.k.world.cp == s.k.world.cp
  {
    ByController(c, promise, s, s.k.(pass := KIdle));
    t := AfterController(s, s.k.(pass := KIdle));
    ByController(c, promise, t, t.k.(cache := t.k.world.cp));
    t := AfterController(t, t.k.(cache := t.k.world.cp));
    var next := t.(k := t.k.(world := t.k.world.(infra := later)));
    assert JNext(c, promise, t, next);
    Runs.ReachableNext(JInitOf(promise), JNextOf(c, promise), t, next);
    t := next;
  }

  /** A reconcile of the facade that follows the report. */
  lemma FacadeFollows(c: Context, promise: Promise, s: Joint, infra: InfraObs) returns (t: Joint)
    requires Reachable(c, promise, s) && At(c, s, infra) && s.k.world.cp.status.initialized
    requires Print(s.k.world.cp.endpoint) == "" || c.parse(Print(s.k.world.cp.endpoint)).Err?
    ensures Reachable(c, promise, t) && !Safe(t)
  {
    ReadsTheReport(c, s.f);
    var started := s.f.(pass := Start(s.f.cache, s.f.world.owner));
    ByFacade(c, promise, s, started);
    t := FacadeWorks(c, promise, AfterFacade(s, started));
    t := FacadeWorks(c, promise, t);
    FollowsTheReport(c, t.f.world, t.f.pass);
    t := FacadeWorks(c, promise, t);
    t := FacadeWorks(c, promise, t);
  }

  /** An endpoint that is copied and cannot be read: the backend's controller reports itself
      initialized, and the facade follows the report while it refuses the endpoint. */
  lemma UnreadableHost(c: Context, literal: Literals, promise: Promise, infra: InfraObs) returns (s: Joint)
    requires ReadsAs(c, literal) && promise(infra) && Copied(infra) && !Readable(literal, Desired(infra))
    ensures Reachable(c, promise, s) && !Safe(s)
  {
    s := BackendInitialized(c, promise, infra);
    PrintedParses(Desired(infra), literal);
    assert ReadsText(c, literal, Print(Desired(infra)));
    s := FacadeFollows(c, promise, s, infra);
  }

  /** A backend that is initialized loses its port when the infrastructure then gives one that the
      conversion makes zero. */
  lemma LostPort(c: Context, promise: Promise, infra: InfraObs, later: InfraObs) returns (s: Joint)
    requires promise(infra) && Copied(infra) && promise(later) && Known(later) && Desired(later).port == 0
    ensures Reachable(c, promise, s) && !Safe(s)
  {
    s := BackendInitialized(c, promise, infra);
    s := InfrastructureChanges(c, promise, s, infra, later);
    s := EndpointCopied(c, promise, s, later);
    s := FacadeFollows(c, promise, s, later);
  }

  // ---- the exact promise ----

  ghost predicate AlwaysSafe(c: Context, promise: Promise) { forall s :: Reachable(c, promise, s) ==> Safe(s) }

  lemma PromiseIsEnough(c: Context, rule: Rule, promise: Promise)
    requires ReadsAs(c, rule.literal) && Implies(promise, rule)
    ensures AlwaysSafe(c, promise)
  {
    forall s | Reachable(c, promise, s) ensures Safe(s) {
      var t :| Runs.IsRun(JInitOf(promise), JNextOf(c, promise), t) && t[|t| - 1] == s;
      InitializedHasEndpointTogether(c, rule, promise, t, |t| - 1);
    }
  }

  lemma PromiseIsNeeded(c: Context, literal: Literals, promise: Promise)
    requires ReadsAs(c, literal) && !Implies(promise, Rule(literal, false)) && !Implies(promise, Rule(literal, true))
    ensures !AlwaysSafe(c, promise)
  {
    var x :| promise(x) && !InfraPromise(Rule(literal, true), x);
    var y :| promise(y) && !InfraPromise(Rule(literal, false), y);
    var s;
    if Desired(y).port > 0 {
      s := UnreadableHost(c, literal, promise, y);
    } else {
      s := LostPort(c, promise, x, y);
    }
  }

  /** No run of the two controllers initializes the control plane without a valid endpoint exactly when
      the infrastructure keeps one of two promises about the endpoints the API server admits: all can
      be read from a URL and have a port, or none has a port. */
  lemma PromiseIsExact(c: Context, literal: Literals, promise: Promise)
    requires ReadsAs(c, literal)
    ensures AlwaysSafe(c, promise) <==> Implies(promise, Rule(literal, false)) || Implies(promise, Rule(literal, true))
  {
    if Implies(promise, Rule(literal, false)) {
      PromiseIsEnough(c, Rule(literal, false), promise);
    } else if Implies(promise, Rule(literal, true)) {
      PromiseIsEnough(c, Rule(literal, true), promise);
    } else {
      PromiseIsNeeded(c, literal, promise);
    }
  }

  /** The program's own case. */
  lemma ProgramPromiseIsExact(self: Identity, literal: Literals, promise: Promise)
    ensures AlwaysSafe(Program(self, literal), promise) <==>
              Implies(promise, Rule(literal, false)) || Implies(promise, Rule(literal, true))
  {
    ProgramReads(self, literal);
    PromiseIsExact(Program(self, literal), literal, promise);
  }

  const SLASH := InfraEndpoint(Is("h/"), Is(443))

  lemma SlashIsUnreadable(literal: Literals)
    ensures Copied(SLASH) && !Readable(literal, Desired(SLASH))
  {
    assert Desired(SLASH) == ApiEndpoint("h/", 443);
    assert "h/"[1] == '/';
  }

  /** For example, with an infrastructure that may report a host that ends in a slash. */
  lemma InitializedWithoutEndpoint(c: Context, literal: Literals, promise: Promise)
    requires ReadsAs(c, literal) && promise(SLASH)
    ensures !AlwaysSafe(c, promise)
  {
    SlashIsUnreadable(literal);
    var s := UnreadableHost(c, literal, promise, SLASH);
  }
}

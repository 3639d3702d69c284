/** The facade and the kubeadm backend's controller together, over one stored backend: what one
    writes the other reads, at once or later, in any interleaving. */
module SharedBackend {

  import opened Options
  import opened Endpoint
  import opened JsonTree
  import opened OwnerReferences
  import opened ControlPlane
  import opened Backends
  import opened Facade
  import opened FacadeSafety
  import opened KubeadmController
  import opened Runs

  /** `k.world.cp` is the stored backend once the facade has created it, and `past` every version of
      it that was stored. */
  datatype Joint = Joint(f: System, k: KSystem, past: set<KubeadmBackend>)

  predicate Exists(s: Joint) { s.f.world.kubeadm.Some? }

  predicate Coupled(s: Joint) { Exists(s) ==> s.f.world.kubeadm == Some(s.k.world.cp) }

  /** The backend's controller as the facade's write leaves it: a new backend is seen as it is. */
  function AfterFacade(before: Joint, f: System): Joint {
    if f.world.kubeadm.None? then before.(f := f)
    else
      var b := f.world.kubeadm.value;
      var world := before.k.world.(cp := b);
      Joint(f, if Exists(before) then before.k.(world := world) else KSystem(world, b, KIdle), before.past + {b})
  }

  function AfterController(before: Joint, k: KSystem): Joint {
    Joint(before.f.(world := before.f.world.(kubeadm := Some(k.world.cp))), k, before.past + {k.world.cp})
  }

  /** An upsert that finds nothing to update in the version it reads writes nothing, and the facade
      reports that version. */
  ghost predicate ReadsOlder(c: Context, f: System, f': System, b: KubeadmBackend) {
    && f.pass.AtBackend?
    && var plan := PlanOf(f.pass.local.spec, f.pass.owner, f.world.rgds);
       && plan.WithKubeadm?
       && UpsertKubeadm(Some(b), c.self, OwnerCluster(f.pass.owner), f.pass.local.spec, plan.kubeadm) == Some(b)
       && f' == f.(pass := AtKubeconfig(f.pass.local, f.pass.owner, GotKubeadm(b, f.world.watchFails)))
  }

  ghost predicate OlderRead(c: Context, s: Joint, s': Joint) {
    s' == s.(f := s'.f) && exists b :: b in s.past && ReadsOlder(c, s.f, s'.f, b)
  }

  /** A step of the facade's own, or a change around it that leaves the backend alone. */
  ghost predicate FacadeStep(c: Context, f: System, f': System) {
    || ((f.pass.Idle? || f.pass.Done?) && f' == f.(pass := Start(f.cache, f.world.owner)))
    || (HasLocal(f.pass) && f' == System(Step(c, f.world, f.pass).0, f.cache, Step(c, f.world, f.pass).1))
    || f' == f.(pass := Idle)
    || f' == f.(cache := f.world.cp)
    || (f' == f.(world := f'.world) && FacadeSurroundings(f.world, f'.world))
  }

  ghost predicate FacadeSurroundings(w: World, w': World) {
    && w'.cp.status == w.cp.status && w'.events == w.events && w'.kubeadm == w.kubeadm
    && w'.cp.spec.endpoint == w.cp.spec.endpoint
    && (w'.cp.spec == w.cp.spec || ValidateUpdate(w.cp.spec, w'.cp.spec) == [])
  }

  ghost predicate ControllerStep(k: KSystem, k': KSystem) {
    || (!Active(k.pass) && k' == k.(pass := KOwner(k.cache)))
    || (Active(k.pass) && k' == KSystem(KStep(k.world, k.pass).0, k.cache, KStep(k.world, k.pass).1))
    || k' == k.(pass := KIdle)
    || k' == k.(cache := k.world.cp)
  }

  /** What the infrastructure may report. */
  type Promise = InfraObs -> bool

  ghost predicate Infrastructure(promise: Promise, k: KSystem, k': KSystem) {
    k' == k.(world := k'.world) && k'.world.cp == k.world.cp && promise(k'.world.infra)
  }

  ghost predicate JNext(c: Context, promise: Promise, s: Joint, s': Joint) {
    || (FacadeStep(c, s.f, s'.f) && s' == AfterFacade(s, s'.f))
    || (Exists(s) && ControllerStep(s.k, s'.k) && s' == AfterController(s, s'.k))
    || OlderRead(c, s, s')
    || (Infrastructure(promise, s.k, s'.k) && s' == s.(k := s'.k))
  }

  ghost predicate JInit(promise: Promise, s: Joint) {
    && s.f.world.cp.status == NEW_STATUS && s.f.cache == s.f.world.cp && s.f.pass == Idle
    && s.f.world.kubeadm == None && s.k.pass == KIdle && s.past == {}
    && promise(s.k.world.infra)
  }

  ghost function JInitOf(promise: Promise): Joint -> bool {
    (s: Joint) => JInit(promise, s)
  }

  ghost function JNextOf(c: Context, promise: Promise): (Joint, Joint) -> bool {
    (s: Joint, s': Joint) => JNext(c, promise, s, s')
  }

  ghost predicate JRun(c: Context, promise: Promise, t: seq<Joint>) {
    IsRun(JInitOf(promise), JNextOf(c, promise), t)
  }

  // ---- with the promise ----

  ghost predicate Implies(promise: Promise, rule: Rule) { forall infra :: promise(infra) ==> InfraPromise(rule, infra) }

  predicate Safe(s: Joint) { s.f.world.cp.status.initialized ==> EndpointOk(s.f.world.cp.spec.endpoint) }

  ghost predicate JInv(c: Context, rule: Rule, s: Joint) {
    && Coupled(s) && Inv(c, s.f)
    && InfraPromise(rule, s.k.world.infra)
    && (Exists(s) ==> KInv(rule, s.k))
    && (forall b :: b in s.past ==> KOk(rule, b))
  }

  /** The facade can read what the backend's controller reports. */
  ghost predicate Understands(c: Context, rule: Rule) {
    forall b: KubeadmBackend :: KOk(rule, b) ==> BackendPromise(c, b)
  }

  /** The facade's parser is the program's. */
  ghost predicate ReadsAs(c: Context, literal: Literals) {
    forall text :: ReadsText(c, literal, text)
  }

  ghost predicate ReadsText(c: Context, literal: Literals, text: string) { c.parse(text) == Parse(text, literal) }

  lemma ReaderUnderstands(c: Context, rule: Rule)
    requires ReadsAs(c, rule.literal)
    ensures Understands(c, rule)
  {
    forall b: KubeadmBackend | KOk(rule, b) ensures BackendPromise(c, b) {
      PromiseIsKept(c.self, rule, b);
      assert ReadsText(c, rule.literal, Print(b.endpoint));
    }
  }

  /** The facade creates a backend with nothing reported and otherwise leaves endpoint and status alone. */
  predicate LeftAlone(b: Option<KubeadmBackend>, b': Option<KubeadmBackend>) {
    && (b'.None? ==> b.None?)
    && (b'.Some? && b.None? ==> b'.value.endpoint == UNSET && b'.value.status == NEW_STATUS)
    && (b'.Some? && b.Some? ==> b'.value.endpoint == b.value.endpoint && b'.value.status == b.value.status)
  }

  lemma KubeadmLeftAlone(c: Context, w: World, p: Pass, kubeadm: KubeadmSpec)
    requires p.AtBackend?
    ensures LeftAlone(w.kubeadm, KubeadmStep(c, w, p, kubeadm).0.kubeadm)
  {
  }

  lemma StepLeavesAlone(c: Context, w: World, p: Pass)
    requires HasLocal(p)
    ensures LeftAlone(w.kubeadm, Step(c, w, p).0.kubeadm)
  {
    if p.AtBackend? {
      BackendLeftAlone(c, w, p);
    } else {
      OthersLeaveAlone(c, w, p);
    }
  }

  lemma BackendLeftAlone(c: Context, w: World, p: Pass)
    requires p.AtBackend?
    ensures LeftAlone(w.kubeadm, BackendStep(c, w, p).0.kubeadm)
  {
    var plan := PlanOf(p.local.spec, p.owner, w.rgds);
    if plan.WithKubeadm? {
      KubeadmLeftAlone(c, w, p, plan.kubeadm);
    }
  }

  lemma OthersLeaveAlone(c: Context, w: World, p: Pass)
    requires HasLocal(p) && !p.AtBackend?
    ensures Step(c, w, p).0.kubeadm == w.kubeadm
  {
  }

  /** The backend's controller keeps its invariant under the facade's writes. */
  lemma ControllerUnderFacade(rule: Rule, s: Joint, f: System)
    requires Coupled(s) && InfraPromise(rule, s.k.world.infra) && (Exists(s) ==> KInv(rule, s.k))
    requires LeftAlone(s.f.world.kubeadm, f.world.kubeadm) && f.world.kubeadm.Some?
    ensures KInv(rule, AfterFacade(s, f).k)
  {
    var k := AfterFacade(s, f).k;
    if Exists(s) {
      assert KEnvironment(rule, s.k.world, k.world);
      KNextKeeps(rule, s.k, k);
    }
  }

  lemma FacadeStepKeeps(c: Context, rule: Rule, s: Joint, f: System)
    requires JInv(c, rule, s) && FacadeStep(c, s.f, f)
    ensures JInv(c, rule, AfterFacade(s, f))
  {
    assert Next(c, s.f, f);
    NextKeeps(c, s.f, f);
    if HasLocal(s.f.pass) {
      StepLeavesAlone(c, s.f.world, s.f.pass);
    }
    if f.world.kubeadm.Some? {
      ControllerUnderFacade(rule, s, f);
    }
  }

  lemma ControllerStepKeeps(c: Context, rule: Rule, s: Joint, k: KSystem)
    requires JInv(c, rule, s) && Exists(s) && ControllerStep(s.k, k) && Understands(c, rule)
    ensures JInv(c, rule, AfterController(s, k))
  {
    KNextKeeps(rule, s.k, k);
    assert BackendPromise(c, k.world.cp);
    var f := AfterController(s, k).f;
    assert Environment(c, s.f.world, f.world);
    NextKeeps(c, s.f, f);
  }

  lemma InfrastructureKeeps(c: Context, rule: Rule, s: Joint, k: KSystem)
    requires JInv(c, rule, s) && s.k.world.cp == k.world.cp && k == s.k.(world := k.world)
    requires InfraPromise(rule, k.world.infra)
    ensures JInv(c, rule, s.(k := k))
  {
    if Exists(s) {
      assert KEnvironment(rule, s.k.world, k.world);
      KNextKeeps(rule, s.k, k);
    }
  }

  lemma OlderReadKeeps(c: Context, rule: Rule, s: Joint, s': Joint)
    requires JInv(c, rule, s) && OlderRead(c, s, s') && Understands(c, rule)
    ensures JInv(c, rule, s')
  {
    var b :| b in s.past && ReadsOlder(c, s.f, s'.f, b);
    assert KOk(rule, b) && BackendPromise(c, b);
  }

  lemma JNextKeeps(c: Context, rule: Rule, promise: Promise, s: Joint, s': Joint)
    requires JInv(c, rule, s) && JNext(c, promise, s, s') && Implies(promise, rule) && Understands(c, rule)
    ensures JInv(c, rule, s')
  {
    if FacadeStep(c, s.f, s'.f) && s' == AfterFacade(s, s'.f) {
      FacadeStepKeeps(c, rule, s, s'.f);
    } else if Exists(s) && ControllerStep(s.k, s'.k) && s' == AfterController(s, s'.k) {
      ControllerStepKeeps(c, rule, s, s'.k);
    } else if OlderRead(c, s, s') {
      OlderReadKeeps(c, rule, s, s');
    } else {
      InfrastructureKeeps(c, rule, s, s'.k);
    }
  }

  lemma {:induction false} JRunInv(c: Context, rule: Rule, promise: Promise, t: seq<Joint>, i: nat)
    requires JRun(c, promise, t) && Implies(promise, rule) && i < |t| && Understands(c, rule)
    ensures JInv(c, rule, t[i])
  {
    if i > 0 {
      JRunInv(c, rule, promise, t, i - 1);
      assert StepAt(JNextOf(c, promise), t, i);
      JNextKeeps(c, rule, promise, t[i - 1], t[i]);
    }
  }

  /** In every interleaving of the two controllers, with any write failing and outdated copies on both
      sides, an initialized control plane has a stored endpoint, whatever its backend; all that is
      asked for is that the infrastructure keeps a promise and the facade parses as the program does. */
  lemma InitializedHasEndpointTogether(c: Context, rule: Rule, promise: Promise, t: seq<Joint>, i: nat)
    requires ReadsAs(c, rule.literal) && Implies(promise, rule) && JRun(c, promise, t) && i < |t|
    ensures Safe(t[i])
  {
    ReaderUnderstands(c, rule);
    JRunInv(c, rule, promise, t, i);
  }

  lemma ProgramReads(self: Identity, literal: Literals)
    ensures ReadsAs(Program(self, literal), literal)
  {
    forall text ensures ReadsText(Program(self, literal), literal, text) {
    }
  }
}

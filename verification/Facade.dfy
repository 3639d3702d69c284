/** The control plane facade's reconcile as a state machine: every API write is one step that
    may fail, and between steps the environment changes backends, secrets and specs
    (internal/controller/kany8scontrolplane_controller.go). */
module Facade {

  import opened Options
  import opened Text
  import opened Endpoint
  import opened JsonTree
  import opened ControlPlane
  import opened Backends
  import Runs

  // ---- the world ----

  datatype OwnerObs = OwnerNotSet | OwnerNotFound(error: string) | OwnerGetFailed(error: string) | OwnerIs(cluster: Cluster)

  /** What resolving a ResourceGraphDefinition gives, when there is one of that name. */
  datatype RgdObs = RgdFound(gvk: Gvk) | RgdInvalid(error: string)

  /** What reading a source secret gives, when there is one; `loadError` is kubeconfig parsing. */
  datatype Source = SourceGetFailed(error: string) | SourceWithout | SourceWith(content: string, loadError: Option<string>)

  datatype Event = Event(warning: bool, reason: string, message: string)

  datatype World = World(
    cp: Cp,
    instances: map<Gvk, Instance>, kubeadm: Option<KubeadmBackend>,
    sources: map<string, Source>, secrets: map<string, Secret>,
    owner: OwnerObs, rgds: map<string, RgdObs>, watchFails: bool,
    events: seq<Event>)

  // ---- one reconcile ----

  datatype SecretRef = SecretRef(name: Field<string>, namespace: Field<string>)

  /** What reconciling the backend gave: its status, whether it reported initialization itself,
      whether an endpoint means initialization, and where its kubeconfig is. */
  datatype Got = Got(status: InstanceStatus, initialized: bool, onEndpoint: bool, watchFailed: bool, ref: Option<SecretRef>)

  datatype Kube = KubeOff | KubeDone | KubeWaiting

  /** Where a reconcile stands, before its next write; `local` is its copy of the object. */
  datatype Pass =
    | Idle
    | AtBackend(local: Cp, owner: OwnerObs)
    | AtRgd(local: Cp, subject: Subject)
    | AtKubeconfig(local: Cp, owner: OwnerObs, got: Got)
    | AtSecret(local: Cp, got: Got, cluster: string, content: string)
    | AtSecretCondition(local: Cp, got: Got, done: bool, subject: Subject)
    | AtEndpoint(local: Cp, got: Got, kube: Kube)
    | AtInitialized(local: Cp, got: Got, kube: Kube, status: InstanceStatus, valid: bool)
    | AtConditions(local: Cp, status: InstanceStatus, ready: bool, requeue: nat, event: Option<Event>)
    | Done(requeue: nat)

  /** Endpoint parsing, whatever the URI library takes for an IP literal. */
  type Parser = f: string -> Result | f("").Err? && forall s :: f(s).Ok? ==> EndpointOk(f(s).endpoint)
    witness s => Err(EmptyEndpoint)

  /** The constants of one control plane. */
  datatype Context = Context(self: Identity, parse: Parser, words: Wording)

  /** The context of the program itself. */
  ghost function Program(self: Identity, literal: Literals): Context {
    Context(self, s => Parse(s, literal), WORDING)
  }

  const NOT_READY_REQUEUE := 15
  const RGD_REQUEUE := 30
  const WATCH_REQUEUE := 30

  function OwnerCluster(owner: OwnerObs): Option<Cluster> {
    if owner.OwnerIs? then Some(owner.cluster) else None
  }

  function Start(cached: Cp, owner: OwnerObs): Pass { AtBackend(cached, owner) }

  function NotReady(n: Notice): InstanceStatus { InstanceStatus(false, "", n.reason, n.message, false) }

  /** The event of an invalid spec, unless Ready=False says the same already. */
  function InvalidSpecEvent(local: CpStatus, n: Notice): Option<Event> {
    if Told(local, Ready, Condition(false, n.reason, n.message)) then None else Some(Event(true, n.reason, n.message))
  }

  function SpecRefused(c: Context, local: Cp, x: Subject): Pass {
    var n := c.words.notice(x);
    AtConditions(local, NotReady(n), false, 0, InvalidSpecEvent(local.status, n))
  }

  // The backend.

  function GotInstance(i: Instance, watchFailed: bool): Option<Got> {
    var s := ReadStatus(i.status);
    if s.None? then None
    else Some(Got(s.value, false, true, watchFailed, Some(SecretRef(i.status.secretName, i.status.secretNamespace))))
  }

  function GotKubeadm(b: KubeadmBackend, watchFailed: bool): Got {
    Got(ToInstanceStatus(b), b.status.initialized, false, watchFailed, None)
  }

  /** CreateOrUpdate of an instance of the kind, and reading its status. */
  function InstanceStep(c: Context, w: World, p: Pass, gvk: Gvk, spec: map<string, Json>): (r: (World, Pass))
    requires p.AtBackend?
    ensures r.0 == w.(instances := r.0.instances)
    ensures r.1.Idle? || (r.1.AtKubeconfig? && r.1.local == p.local && r.1.owner == p.owner)
  {
    var existing := if gvk in w.instances then Some(w.instances[gvk]) else None;
    var i := UpsertInstance(existing, c.self, OwnerCluster(p.owner), spec);
    if i.None? then (w, Idle)
    else
      var got := GotInstance(i.value, w.watchFails);
      (w.(instances := w.instances[gvk := i.value]),
       if got.None? then Idle else AtKubeconfig(p.local, p.owner, got.value))
  }

  /** What the reads before the first write lead to. */
  datatype Plan =
    | Unselected(subject: Subject)
    | Unresolved(subject: Subject)
    | Refused(subject: Subject)
    | WithInstance(gvk: Gvk, spec: map<string, Json>)
    | WithKubeadm(kubeadm: KubeadmSpec)

  function KroPlan(spec: CpSpec, rgd: string, rgds: map<string, RgdObs>): Plan {
    if rgd !in rgds then Unresolved(RgdMissing(rgd))
    else match rgds[rgd]
      case RgdInvalid(error) => Unresolved(RgdBroken(error))
      case RgdFound(gvk) =>
        var built := KroSpecOf(spec);
        if built.Invalid? then Refused(KroSpecInvalid(built.problem)) else WithInstance(gvk, built.fields)
  }

  function ExternalPlan(spec: CpSpec, external: ExternalSpec, owner: Option<Cluster>): Plan {
    var gv := ParseGroupVersion(external.apiVersion);
    if gv.None? then Refused(ExternalVersionInvalid(external.apiVersion))
    else if external.kind == "" then Refused(ExternalKindMissing)
    else
      var built := ExternalSpecOf(spec, external, owner);
      if built.Invalid? then Refused(ExternalSpecInvalid(built.problem))
      else WithInstance(Gvk(gv.value.0, gv.value.1, external.kind), built.fields)
  }

  function PlanOf(spec: CpSpec, owner: OwnerObs, rgds: map<string, RgdObs>): Plan {
    match Selected(spec)
    case NoBackend => Unselected(if Count(spec) == 0 then NoBackendSelected else ManyBackendsSelected)
    case Kro => KroPlan(spec, spec.rgd.value, rgds)
    case Kubeadm => WithKubeadm(spec.kubeadm.value)
    case External => ExternalPlan(spec, spec.external.value, OwnerCluster(owner))
  }

  function KubeadmStep(c: Context, w: World, p: Pass, kubeadm: KubeadmSpec): (r: (World, Pass))
    requires p.AtBackend?
    ensures r.0 == w.(kubeadm := r.0.kubeadm)
    ensures r.1.Idle? || (r.1.AtKubeconfig? && r.1.local == p.local && r.1.owner == p.owner)
  {
    var b := UpsertKubeadm(w.kubeadm, c.self, OwnerCluster(p.owner), p.local.spec, kubeadm);
    if b.None? then (w, Idle)
    else (w.(kubeadm := b), AtKubeconfig(p.local, p.owner, GotKubeadm(b.value, w.watchFails)))
  }

  function BackendStep(c: Context, w: World, p: Pass): (r: (World, Pass))
    requires p.AtBackend?
    ensures r.0 == w.(instances := r.0.instances, kubeadm := r.0.kubeadm)
    ensures r.1.Idle? || (!r.1.Done? && r.1.local == p.local)
  {
    match PlanOf(p.local.spec, p.owner, w.rgds)
    case Unselected(x) =>
      (w, AtConditions(p.local, NotReady(c.words.notice(x)), false, NOT_READY_REQUEUE, None))
    case Unresolved(x) => (w, AtRgd(p.local, x))
    case Refused(x) => (w, SpecRefused(c, p.local, x))
    case WithInstance(gvk, spec) => InstanceStep(c, w, p, gvk, spec)
    case WithKubeadm(kubeadm) => KubeadmStep(c, w, p, kubeadm)
  }

  /** requeueWithRGDResolutionCondition: a full status update, refused when the object has
      changed since it was read. */
  function RgdStep(c: Context, w: World, p: Pass): (World, Pass)
    requires p.AtRgd?
  {
    if p.local != w.cp then (w, Idle)
    else
      var n := c.words.notice(p.subject);
      var condition := Condition(false, n.reason, n.message);
      (w.(cp := w.cp.(status := Tell(p.local.status, ResourceGraphDefinitionResolved, condition)),
          events := if Told(p.local.status, ResourceGraphDefinitionResolved, condition) then w.events
                    else w.events + [Event(n.warning, n.reason, n.message)]),
       Done(RGD_REQUEUE))
  }

  // The kubeconfig secret.

  function KubeWait(p: Pass, x: Subject): Pass
    requires p.AtKubeconfig?
  {
    AtSecretCondition(p.local, p.got, false, x)
  }

  function SourceStep(p: Pass, sources: map<string, Source>, path: string, source: string, cluster: string): Pass
    requires p.AtKubeconfig?
  {
    if source !in sources then KubeWait(p, SourceMissing(path))
    else match sources[source]
      case SourceGetFailed(error) => KubeWait(p, SourceFailed(path, error))
      case SourceWithout => KubeWait(p, SourceEmpty(path))
      case SourceWith(content, loadError) =>
        if loadError.Some? then KubeWait(p, SourceInvalid(path, loadError.value))
        else if SecretName(cluster).None? then Idle
        else AtSecret(p.local, p.got, cluster, content)
  }

  /** The reads of reconcileKubeconfigSecret, up to its first write. */
  function KubeconfigStep(c: Context, w: World, p: Pass): Pass
    requires p.AtKubeconfig?
  {
    if p.got.ref.None? then AtEndpoint(p.local, p.got, KubeOff)
    else
      var ref := p.got.ref.value;
      if ref.name.WrongType? then Idle
      else if OrElse(ref.name, "") == "" then AtEndpoint(p.local, p.got, KubeOff)
      else match p.owner
        case OwnerNotFound(error) => KubeWait(p, OwnerMissing(error))
        case OwnerGetFailed(error) => KubeWait(p, OwnerFailed(error))
        case OwnerNotSet => KubeWait(p, OwnerUnset)
        case OwnerIs(cluster) =>
          if cluster.ns != c.self.ns then KubeWait(p, OwnerElsewhere(cluster.ns, c.self.ns))
          else if ref.namespace.WrongType? then Idle
          else
            var ns := Default(OrElse(ref.namespace, ""), c.self.ns);
            var path := ns + "/" + ref.name.value;
            if ns != c.self.ns then KubeWait(p, SourceElsewhere(path, c.self.ns))
            else SourceStep(p, w.sources, path, ref.name.value, cluster.name)
  }

  /** kubeconfig.SecretName: a blank cluster name has none. */
  function SecretName(cluster: string): Option<string> {
    var name := TrimSpace(cluster);
    if name == "" then None else Some(name + "-kubeconfig")
  }

  function SecretStep(c: Context, w: World, p: Pass): (World, Pass)
    requires p.AtSecret?
  {
    var name := SecretName(p.cluster);
    if name.None? then (w, Idle)
    else
      var s := UpsertSecret(if name.value in w.secrets then Some(w.secrets[name.value]) else None, c.self, p.cluster, p.content);
      if s.None? then (w, Idle)
      else (w.(secrets := w.secrets[name.value := s.value]), AtSecretCondition(p.local, p.got, true, SecretReconciled))
  }

  /** reconcileKubeconfigSecretCondition: patch, then tell if this was not told before. */
  function SecretConditionStep(c: Context, w: World, p: Pass): (World, Pass)
    requires p.AtSecretCondition?
  {
    var n := c.words.notice(p.subject);
    var condition := Condition(p.done, n.reason, n.message);
    var s := p.local.status;
    var cp := w.cp.(status := PatchStatus(w.cp.status, s, Tell(s, KubeconfigSecretReconciled, condition)));
    (w.(cp := cp, events := if Told(s, KubeconfigSecretReconciled, condition) then w.events
                            else w.events + [Event(n.warning, n.reason, n.message)]),
     AtEndpoint(cp, p.got, if p.done then KubeDone else KubeWaiting))
  }

  // Endpoint, initialization, conditions.

  function EndpointStep(c: Context, w: World, p: Pass): (World, Pass)
    requires p.AtEndpoint?
  {
    var s := p.got.status;
    if s.endpoint == "" then (w, AtInitialized(p.local, p.got, p.kube, s, true))
    else
      var parsed := c.parse(s.endpoint);
      if parsed.Err? then
        var n := c.words.notice(EndpointInvalid(parsed.error));
        (w, AtInitialized(p.local, p.got, p.kube, s.(ready := false, reason := n.reason, message := n.message), false))
      else if p.local.spec.endpoint == parsed.endpoint then (w, AtInitialized(p.local, p.got, p.kube, s, true))
      else
        var patched := PatchEndpoint(w.cp.spec.endpoint, p.local.spec.endpoint, parsed.endpoint);
        var cp := w.cp.(spec := w.cp.spec.(endpoint := patched));
        (w.(cp := cp), AtInitialized(cp, p.got, p.kube, s, true))
  }

  predicate WillInitialize(p: Pass)
    requires p.AtInitialized?
  {
    p.got.initialized || (p.got.onEndpoint && p.valid && p.status.endpoint != "")
  }

  predicate BackendReady(s: InstanceStatus) { s.ready && s.endpoint != "" }

  /** The status to report: a kubeconfig that is still awaited speaks for a ready backend. */
  function ReportedStatus(c: Context, local: Cp, s: InstanceStatus, kube: Kube): InstanceStatus {
    if BackendReady(s) && kube == KubeWaiting then
      if KubeconfigSecretReconciled in local.status.conditions then
        s.(reason := local.status.conditions[KubeconfigSecretReconciled].reason,
           message := local.status.conditions[KubeconfigSecretReconciled].message)
      else s.(reason := c.words.notice(SecretPending).reason, message := c.words.notice(SecretPending).message)
    else s
  }

  function InitializedStep(c: Context, w: World, p: Pass): (World, Pass)
    requires p.AtInitialized?
  {
    var patched := WillInitialize(p) && !p.local.status.initialized;
    var cp := if patched then w.cp.(status := PatchStatus(w.cp.status, p.local.status, p.local.status.(initialized := true))) else w.cp;
    var local := if patched then cp else p.local;
    var requeue := if !BackendReady(p.status) || p.kube == KubeWaiting then NOT_READY_REQUEUE
                   else if p.got.watchFailed then WATCH_REQUEUE else 0;
    (w.(cp := cp),
     AtConditions(local, ReportedStatus(c, local, p.status, p.kube), BackendReady(p.status) && p.kube != KubeWaiting, requeue, None))
  }

  function ConditionsStep(c: Context, w: World, p: Pass): (World, Pass)
    requires p.AtConditions?
  {
    var report := WithReport(c.words, p.local.status, p.local.spec.version, p.status, p.ready);
    (w.(cp := w.cp.(status := PatchStatus(w.cp.status, p.local.status, report)),
        events := if p.event.None? then w.events else w.events + [p.event.value]),
     Done(p.requeue))
  }

  /** One successful write, with the reads that lead up to the next. */
  function Step(c: Context, w: World, p: Pass): (World, Pass)
    requires !p.Idle? && !p.Done?
  {
    match p
    case AtBackend(_, _) => BackendStep(c, w, p)
    case AtRgd(_, _) => RgdStep(c, w, p)
    case AtKubeconfig(_, _, _) => (w, KubeconfigStep(c, w, p))
    case AtSecret(_, _, _, _) => SecretStep(c, w, p)
    case AtSecretCondition(_, _, _, _) => SecretConditionStep(c, w, p)
    case AtEndpoint(_, _, _) => EndpointStep(c, w, p)
    case AtInitialized(_, _, _, _, _) => InitializedStep(c, w, p)
    case AtConditions(_, _, _, _, _) => ConditionsStep(c, w, p)
  }

  // ---- runs ----

  /** `cache` is the informer's copy, which may lag behind the store. */
  datatype System = System(world: World, cache: Cp, pass: Pass)

  /** The backend's promise: what it reports as initialized has an endpoint that can be read back. */
  predicate BackendPromise(c: Context, b: KubeadmBackend) {
    b.status.initialized ==> c.parse(Print(b.endpoint)).Ok?
  }

  predicate WorldPromise(c: Context, w: World) { w.kubeadm.Some? ==> BackendPromise(c, w.kubeadm.value) }

  /** Other actors: spec edits the webhook admits and that leave the endpoint alone, and any
      change to backends, secrets, owner, definitions and watches. */
  ghost predicate Environment(c: Context, w: World, w': World) {
    && w'.cp.status == w.cp.status && w'.events == w.events
    && w'.cp.spec.endpoint == w.cp.spec.endpoint
    && (w'.cp.spec == w.cp.spec || ValidateUpdate(w.cp.spec, w'.cp.spec) == [])
    && WorldPromise(c, w')
  }

  ghost predicate Next(c: Context, s: System, s': System) {
    || ((s.pass.Idle? || s.pass.Done?) && s' == s.(pass := Start(s.cache, s.world.owner)))
    || (!s.pass.Idle? && !s.pass.Done? &&
        s' == System(Step(c, s.world, s.pass).0, s.cache, Step(c, s.world, s.pass).1))
    || s' == s.(pass := Idle)
    || s' == s.(cache := s.world.cp)
    || (s' == s.(world := s'.world) && Environment(c, s.world, s'.world))
  }

  /** The object as created, with nothing reported yet; its user may have set an endpoint. */
  ghost predicate Init(c: Context, s: System) {
    && s.world.cp.status == NEW_STATUS
    && s.cache == s.world.cp && s.pass == Idle && WorldPromise(c, s.world)
  }

  ghost function InitOf(c: Context): System -> bool {
    (s: System) => Init(c, s)
  }

  ghost function NextOf(c: Context): (System, System) -> bool {
    (s: System, s': System) => Next(c, s, s')
  }

  ghost predicate Run(c: Context, t: seq<System>) { Runs.IsRun(InitOf(c), NextOf(c), t) }

  ghost predicate Reached(c: Context, s: System) { Runs.Reachable(InitOf(c), NextOf(c), s) }
}

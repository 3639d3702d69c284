/** The builtin kubeadm backend's own controller as a state machine over its writes
    (internal/controller/controlplane/kany8skubeadmcontrolplane_controller.go): it copies the
    infrastructure's endpoint, reports initialization and then readiness. */
module KubeadmController {

  import opened Options
  import opened Endpoint
  import opened JsonTree
  import opened ControlPlane
  import opened Backends
  import opened Facade
  import Runs

  /** spec.controlPlaneEndpoint of the infrastructure cluster. */
  datatype InfraObs = InfraUnavailable | InfraEndpoint(host: Field<string>, port: Field<int>)

  datatype MachinesObs = ListFailed(error: string) | Listed(anyReady: bool)

  datatype KWorld = KWorld(
    cp: KubeadmBackend, owner: OwnerObs, infra: InfraObs, childrenOk: bool, probe: bool, machines: MachinesObs)

  /** What the controller reports about readiness. */
  datatype Why = WaitingForEndpoint | MachinesUnknown(error: string) | WaitingForProbe | AllGood

  function ReasonOf(why: Why): string {
    match why
    case WaitingForEndpoint => "WaitingForInfrastructureEndpoint"
    case MachinesUnknown(_) => "WaitingForControlPlaneMachineCreated"
    case WaitingForProbe => "WaitingForRemoteConnectionProbe"
    case AllGood => "Ready"
  }

  function MessageOf(why: Why): string {
    match why
    case WaitingForEndpoint => "waiting for infrastructure controlPlaneEndpoint to be set"
    case MachinesUnknown(error) => "list control plane Machines: " + error
    case WaitingForProbe => "waiting for Cluster RemoteConnectionProbe=True"
    case AllGood => "control plane is ready"
  }

  /** reconcileReadyConditions, as it changes the copy. */
  function ReadyReport(local: CpStatus, version: string, ready: bool, reason: string, message: string): CpStatus {
    var condition := Condition(ready, reason, message);
    if ready then
      CpStatus(Default(version, local.version), local.initialized, local.conditions[Ready := condition] - {Creating}, None, None)
    else
      CpStatus(local.version, local.initialized,
               local.conditions[Ready := condition][Creating := condition.(status := true)], None, None)
  }

  datatype KPass =
    | KIdle
    | KOwner(local: KubeadmBackend)
    | KEndpoint(local: KubeadmBackend)
    | KChildren(local: KubeadmBackend)
    | KProbe(local: KubeadmBackend)
    | KMachines(local: KubeadmBackend)
    | KReport(local: KubeadmBackend, why: Why)
    | KDone(requeue: nat)

  predicate Active(p: KPass) { !p.KIdle? && !p.KDone? }

  /** The conversion int32(port). */
  function Int32(n: int): int {
    var m := n % 0x1_0000_0000;
    if m >= 0x8000_0000 then m - 0x1_0000_0000 else m
  }

  function Patched(stored: KubeadmBackend, before: KubeadmBackend, status: CpStatus): KubeadmBackend {
    stored.(status := PatchStatus(stored.status, before.status, status))
  }

  /** The owner Cluster, told in a condition. */
  function OwnerCondition(owner: OwnerObs): Condition {
    match owner
    case OwnerNotSet => Condition(false, "OwnerClusterNotSet", "waiting for owner Cluster reference to be set")
    case OwnerNotFound(error) => Condition(false, "OwnerClusterNotFound", error)
    case OwnerGetFailed(error) => Condition(false, "OwnerClusterGetFailed", "get owner Cluster: " + error)
    case OwnerIs(_) => Condition(true, "OwnerClusterResolved", "owner Cluster resolved")
  }

  function OwnerStep(w: KWorld, p: KPass, condition: Condition): (KWorld, KPass)
    requires p.KOwner?
  {
    var cp := Patched(w.cp, p.local, Tell(p.local.status, OwnerClusterResolved, condition));
    (w.(cp := cp), if condition.status then KEndpoint(cp) else KDone(NOT_READY_REQUEUE))
  }

  predicate EndpointKnown(infra: InfraObs) {
    infra.InfraEndpoint? && OrElse(infra.host, "") != "" && OrElse(infra.port, 0) > 0
  }

  function Desired(infra: InfraObs): ApiEndpoint
    requires EndpointKnown(infra)
  {
    ApiEndpoint(infra.host.value, Int32(infra.port.value))
  }

  /** The bounds of the CustomResourceDefinition; the API server refuses a patch that leaves others.
      An unset host is empty and an unset port zero. */
  predicate InBounds(e: ApiEndpoint) { |e.host| <= 512 && 0 <= e.port <= 65535 }

  /** Certificates and the infrastructure are read; its endpoint is copied when it differs. */
  function EndpointStep(w: KWorld, p: KPass): (KWorld, KPass)
    requires p.KEndpoint?
  {
    if w.infra.InfraUnavailable? then (w, KDone(NOT_READY_REQUEUE))
    else if w.infra.host.WrongType? || w.infra.port.WrongType? then (w, KIdle)
    else if !EndpointKnown(w.infra) then (w, KReport(p.local, WaitingForEndpoint))
    else
      var desired := Desired(w.infra);
      if p.local.endpoint == desired then (w, KChildren(p.local))
      else
        var cp := w.cp.(endpoint := PatchEndpoint(w.cp.endpoint, p.local.endpoint, desired));
        if InBounds(cp.endpoint) then (w.(cp := cp), KChildren(cp)) else (w, KIdle)
  }

  /** Kubeconfig secret, KubeadmConfig, infrastructure machine and Machine. */
  function ChildrenStep(w: KWorld, p: KPass): (KWorld, KPass)
    requires p.KChildren?
  {
    (w, if w.childrenOk then KProbe(p.local) else KDone(NOT_READY_REQUEUE))
  }

  predicate Resolved(e: ApiEndpoint) { e.host != "" && e.port > 0 }

  function Initialize(w: KWorld, p: KPass): KubeadmBackend
    requires Active(p)
  {
    Patched(w.cp, p.local, p.local.status.(initialized := true))
  }

  function ProbeStep(w: KWorld, p: KPass): (KWorld, KPass)
    requires p.KProbe?
  {
    if !Resolved(p.local.endpoint) then (w, KReport(p.local, WaitingForEndpoint))
    else if p.local.status.initialized then (w, KReport(p.local, AllGood))
    else if w.probe then (w.(cp := Initialize(w, p)), KMachines(Initialize(w, p)))
    else (w, KMachines(p.local))
  }

  function MachinesStep(w: KWorld, p: KPass): (KWorld, KPass)
    requires p.KMachines?
  {
    if p.local.status.initialized then (w, KReport(p.local, AllGood))
    else match w.machines
      case ListFailed(error) => (w, KReport(p.local, MachinesUnknown(error)))
      case Listed(anyReady) =>
        if anyReady then (w.(cp := Initialize(w, p)), KReport(Initialize(w, p), AfterMachines(Initialize(w, p))))
        else (w, KReport(p.local, WaitingForProbe))
  }

  function AfterMachines(local: KubeadmBackend): Why {
    if local.status.initialized then AllGood else WaitingForProbe
  }

  function ReportStep(w: KWorld, p: KPass, reason: string, message: string): (KWorld, KPass)
    requires p.KReport?
  {
    var ready := p.why.AllGood?;
    (w.(cp := Patched(w.cp, p.local, ReadyReport(p.local.status, p.local.version, ready, reason, message))),
     KDone(if ready then 0 else NOT_READY_REQUEUE))
  }

  function KStep(w: KWorld, p: KPass): (KWorld, KPass)
    requires Active(p)
  {
    match p
    case KOwner(_) => OwnerStep(w, p, OwnerCondition(w.owner))
    case KEndpoint(_) => EndpointStep(w, p)
    case KChildren(_) => ChildrenStep(w, p)
    case KProbe(_) => ProbeStep(w, p)
    case KMachines(_) => MachinesStep(w, p)
    case KReport(_, why) => ReportStep(w, p, ReasonOf(why), MessageOf(why))
  }

  datatype KSystem = KSystem(world: KWorld, cache: KubeadmBackend, pass: KPass)

  /** Two promises an infrastructure provider can make: that every endpoint it gives can be read from
      a URL, or that none has a port, as one that is a multiple of 2^32 has after the conversion. */
  datatype Rule = Rule(literal: Literals, silent: bool)

  predicate Readable(literal: Literals, e: ApiEndpoint) { HostReads(e.host, literal) && PortOk(e.port) }

  /** What is refused anyway is not promised. */
  predicate InfraPromise(rule: Rule, infra: InfraObs) {
    EndpointKnown(infra) && InBounds(Desired(infra)) ==>
      if rule.silent then Desired(infra).port == 0 else Readable(rule.literal, Desired(infra))
  }

  /** Others, the facade among them, leave the endpoint and the status alone. */
  ghost predicate KEnvironment(rule: Rule, w: KWorld, w': KWorld) {
    w'.cp.endpoint == w.cp.endpoint && w'.cp.status == w.cp.status && InfraPromise(rule, w'.infra)
  }

  ghost predicate KNext(rule: Rule, s: KSystem, s': KSystem) {
    || (!Active(s.pass) && s' == s.(pass := KOwner(s.cache)))
    || (Active(s.pass) && s' == KSystem(KStep(s.world, s.pass).0, s.cache, KStep(s.world, s.pass).1))
    || s' == s.(pass := KIdle)
    || s' == s.(cache := s.world.cp)
    || (s' == s.(world := s'.world) && KEnvironment(rule, s.world, s'.world))
  }

  ghost predicate KInit(rule: Rule, s: KSystem) {
    && s.world.cp.status == NEW_STATUS && s.world.cp.endpoint == UNSET
    && s.cache == s.world.cp && s.pass == KIdle && InfraPromise(rule, s.world.infra)
  }

  ghost function KInitOf(rule: Rule): KSystem -> bool {
    (s: KSystem) => KInit(rule, s)
  }

  ghost function KNextOf(rule: Rule): (KSystem, KSystem) -> bool {
    (s: KSystem, s': KSystem) => KNext(rule, s, s')
  }

  ghost predicate KRun(rule: Rule, t: seq<KSystem>) { Runs.IsRun(KInitOf(rule), KNextOf(rule), t) }

  // ---- invariants ----

  /** A part of the endpoint is unset or as the infrastructure promises it. */
  predicate PartsOk(rule: Rule, e: ApiEndpoint) {
    && InBounds(e)
    && if rule.silent then e.port == 0
       else (e.host == "" || HostReads(e.host, rule.literal)) && (e.port == 0 || PortOk(e.port))
  }

  predicate KGrows(a: KubeadmBackend, b: KubeadmBackend) {
    && (a.endpoint.host != "" ==> b.endpoint.host != "")
    && (a.endpoint.port != 0 ==> b.endpoint.port != 0)
    && (a.status.initialized ==> b.status.initialized)
  }

  /** Ready=True only when initialized, initialized only with a whole endpoint, and no failure ever. */
  predicate KOk(rule: Rule, b: KubeadmBackend) {
    && PartsOk(rule, b.endpoint) && ConditionShape(b.status.conditions)
    && (IsReady(b.status) ==> b.status.initialized)
    && (b.status.initialized ==> Resolved(b.endpoint))
    && b.status.failureReason == None && b.status.failureMessage == None
  }

  predicate KCopyOk(rule: Rule, local: KubeadmBackend, stored: KubeadmBackend) { KOk(rule, local) && KGrows(local, stored) }

  predicate KPassOk(rule: Rule, w: KWorld, p: KPass) {
    && (Active(p) ==> KCopyOk(rule, p.local, w.cp))
    && (p.KMachines? ==> Resolved(p.local.endpoint))
    && (p.KReport? && p.why.AllGood? ==> p.local.status.initialized)
  }

  predicate KInv(rule: Rule, s: KSystem) {
    && KOk(rule, s.world.cp) && InfraPromise(rule, s.world.infra)
    && KCopyOk(rule, s.cache, s.world.cp) && KPassOk(rule, s.world, s.pass)
  }

  predicate KStepOk(rule: Rule, w: KWorld, r: (KWorld, KPass)) {
    KOk(rule, r.0.cp) && r.0.infra == w.infra && KPassOk(rule, r.0, r.1) && KGrows(w.cp, r.0.cp)
  }

  lemma OwnerStepOk(rule: Rule, w: KWorld, p: KPass, condition: Condition)
    requires p.KOwner? && KOk(rule, w.cp) && KPassOk(rule, w, p)
    ensures KStepOk(rule, w, OwnerStep(w, p, condition))
  {
  }

  /** What is copied is admitted, and as promised or refused. */
  lemma CopiedPartsOk(rule: Rule, stored: ApiEndpoint, local: ApiEndpoint, desired: ApiEndpoint)
    requires PartsOk(rule, stored) && PartsOk(rule, local) && desired.host != ""
    requires InBounds(desired) ==> if rule.silent then desired.port == 0 else Readable(rule.literal, desired)
    ensures var e := PatchEndpoint(stored, local, desired);
            InBounds(e) ==> PartsOk(rule, e) && (stored.host != "" ==> e.host != "") && (stored.port != 0 ==> e.port != 0)
  {
  }

  lemma KEndpointStepOk(rule: Rule, w: KWorld, p: KPass)
    requires p.KEndpoint? && KOk(rule, w.cp) && KPassOk(rule, w, p) && InfraPromise(rule, w.infra)
    ensures KStepOk(rule, w, EndpointStep(w, p))
  {
    if EndpointKnown(w.infra) {
      CopiedPartsOk(rule, w.cp.endpoint, p.local.endpoint, Desired(w.infra));
    }
  }

  lemma ProbeStepOk(rule: Rule, w: KWorld, p: KPass)
    requires p.KProbe? && KOk(rule, w.cp) && KPassOk(rule, w, p)
    ensures KStepOk(rule, w, ProbeStep(w, p))
  {
  }

  lemma MachinesStepOk(rule: Rule, w: KWorld, p: KPass)
    requires p.KMachines? && KOk(rule, w.cp) && KPassOk(rule, w, p)
    ensures KStepOk(rule, w, MachinesStep(w, p))
  {
  }

  lemma ReportStepOk(rule: Rule, w: KWorld, p: KPass, reason: string, message: string)
    requires p.KReport? && KOk(rule, w.cp) && KPassOk(rule, w, p)
    ensures KStepOk(rule, w, ReportStep(w, p, reason, message))
  {
  }

  lemma KStepKeeps(rule: Rule, w: KWorld, p: KPass)
    requires Active(p) && KOk(rule, w.cp) && KPassOk(rule, w, p) && InfraPromise(rule, w.infra)
    ensures KStepOk(rule, w, KStep(w, p))
  {
    match p
    case KOwner(_) => OwnerStepOk(rule, w, p, OwnerCondition(w.owner));
    case KEndpoint(_) => KEndpointStepOk(rule, w, p);
    case KChildren(_) =>
    case KProbe(_) => ProbeStepOk(rule, w, p);
    case KMachines(_) => MachinesStepOk(rule, w, p);
    case KReport(_, why) => ReportStepOk(rule, w, p, ReasonOf(why), MessageOf(why));
  }

  lemma KNextKeeps(rule: Rule, s: KSystem, s': KSystem)
    requires KInv(rule, s) && KNext(rule, s, s')
    ensures KInv(rule, s') && KGrows(s.world.cp, s'.world.cp)
  {
    if Active(s.pass) {
      KStepKeeps(rule, s.world, s.pass);
    }
  }

  /** In every reachable state: Ready=True implies initialized, initialized implies a stored
      endpoint as promised by the infrastructure, conditions have their shape, and no failure is
      ever reported; nothing is taken back from one state to the next. */
  lemma {:induction false} KRunInv(rule: Rule, t: seq<KSystem>, i: nat)
    requires KRun(rule, t) && i < |t|
    ensures KInv(rule, t[i])
    ensures i > 0 ==> KGrows(t[i - 1].world.cp, t[i].world.cp)
  {
    if i > 0 {
      KRunInv(rule, t, i - 1);
      assert Runs.StepAt(KNextOf(rule), t, i);
      KNextKeeps(rule, t[i - 1], t[i]);
    }
  }

  /** Exactly when the facade can rely on what a backend reports: an initialized backend has a real
      port and a host that can be read back from a URL. */
  lemma PromiseIff(self: Identity, literal: Literals, b: KubeadmBackend)
    ensures BackendPromise(Program(self, literal), b) <==>
              (b.status.initialized ==> EndpointOk(b.endpoint) && HostReads(b.endpoint.host, literal))
  {
    PrintedParses(b.endpoint, literal);
  }

  /** The kubeadm case of the facade's safety: the backend's invariant gives the promise the facade
      relies on, and the endpoint it stores is the backend's own when its host stands for itself. */
  lemma PromiseIsKept(self: Identity, rule: Rule, b: KubeadmBackend)
    requires KOk(rule, b)
    ensures BackendPromise(Program(self, rule.literal), b)
    ensures b.status.initialized && NeverGrows(rule.literal) ==>
              (Parse(Print(b.endpoint), rule.literal) == Ok(b.endpoint) <==> PlainHost(b.endpoint.host))
  {
    PromiseIff(self, rule.literal, b);
    if b.status.initialized && NeverGrows(rule.literal) {
      RoundTrip(b.endpoint, rule.literal);
    }
  }

  /** What the facade reads from the backend in any reachable state: never a terminal failure, ready
      exactly when the backend's condition says so, and then initialized with an endpoint that
      parses, so that a ready backend makes a ready control plane. */
  lemma ReadyBackendMakesReadyFacade(rule: Rule, t: seq<KSystem>, i: nat)
    requires KRun(rule, t) && i < |t|
    ensures var b := t[i].world.cp; var s := ToInstanceStatus(b);
            && !s.terminal
            && (s.ready <==> IsReady(b.status))
            && (s.ready ==> BackendReady(s) && b.status.initialized && Parse(s.endpoint, rule.literal).Ok?)
  {
    KRunInv(rule, t, i);
    var b := t[i].world.cp;
    if b.status.initialized {
      PrintedParses(b.endpoint, rule.literal);
    }
  }
}

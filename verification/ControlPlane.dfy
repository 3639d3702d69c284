/** The control plane object: its spec, what the admission webhook lets through
    (api/v1alpha1/kany8scontrolplane_webhook.go), its status and conditions, and the
    merge patches the facade writes (internal/controller/kany8scontrolplane_controller.go). */
module ControlPlane {

  import opened Options
  import opened Endpoint
  import opened JsonTree

  // ---- spec ----

  /** An embedded JSON document: no bytes, bytes that do not parse, or a value. */
  datatype RawSpec = Absent | Malformed(error: string) | Document(value: Json)

  datatype KubeadmSpec = KubeadmSpec(replicas: Option<int>, machineTemplate: Json, config: Option<Json>)

  datatype ExternalSpec = ExternalSpec(apiVersion: string, kind: string, spec: RawSpec)

  datatype CpSpec = CpSpec(
    version: string, replicas: Option<int>, rgd: Option<string>, kroSpec: RawSpec,
    kubeadm: Option<KubeadmSpec>, external: Option<ExternalSpec>, endpoint: ApiEndpoint)

  datatype Backend = NoBackend | Kro | Kubeadm | External

  function Count(spec: CpSpec): nat {
    (if spec.rgd.Some? then 1 else 0) + (if spec.kubeadm.Some? then 1 else 0) + (if spec.external.Some? then 1 else 0)
  }

  function Selected(spec: CpSpec): Backend {
    if Count(spec) != 1 then NoBackend
    else if spec.external.Some? then External
    else if spec.kubeadm.Some? then Kubeadm
    else Kro
  }

  // ---- admission ----

  datatype FieldError = NotExactlyOneBackend | BackendChanged(from: Backend, to: Backend)

  function ValidateCreate(spec: CpSpec): seq<FieldError> {
    if Count(spec) != 1 then [NotExactlyOneBackend] else []
  }

  function ValidateUpdate(before: CpSpec, after: CpSpec): seq<FieldError> {
    (if Count(after) != 1 then [NotExactlyOneBackend] else [])
    + (if Count(before) == 1 && Count(after) == 1 && Selected(before) != Selected(after)
       then [BackendChanged(Selected(before), Selected(after))] else [])
  }

  /** A history of one object: admitted on creation, and every update admitted against the one before. */
  ghost predicate Admitted(history: seq<CpSpec>) {
    && history != []
    && ValidateCreate(history[0]) == []
    && forall i :: 0 < i < |history| ==> ValidateUpdate(history[i - 1], history[i]) == []
  }

  /** Whatever is admitted, one backend is selected and it is the same one for life. */
  lemma {:induction false} BackendIsConstant(history: seq<CpSpec>, i: nat)
    requires Admitted(history) && i < |history|
    ensures Count(history[i]) == 1 && Selected(history[i]) == Selected(history[0]) != NoBackend
  {
    if i > 0 {
      BackendIsConstant(history, i - 1);
      assert ValidateUpdate(history[i - 1], history[i]) == [];
    }
  }

  /** An object that predates the webhook can be brought to one backend, whichever it is. */
  lemma AdmittedUpdates(before: CpSpec, after: CpSpec)
    ensures ValidateUpdate(before, after) == [] <==>
              (Selected(after) != NoBackend && (Selected(before) == NoBackend || Selected(before) == Selected(after)))
    ensures Selected(after) == NoBackend <==> ValidateCreate(after) != []
  {
  }

  // ---- status ----

  datatype ConditionType =
    | Ready | Creating | KubeconfigSecretReconciled | ResourceGraphDefinitionResolved | OwnerClusterResolved

  datatype Condition = Condition(status: bool, reason: string, message: string)

  datatype CpStatus = CpStatus(
    version: string, initialized: bool, conditions: map<ConditionType, Condition>,
    failureReason: Option<string>, failureMessage: Option<string>)

  datatype Cp = Cp(spec: CpSpec, status: CpStatus)

  /** kro.InstanceStatus. */
  datatype InstanceStatus = InstanceStatus(ready: bool, endpoint: string, reason: string, message: string, terminal: bool)

  /** Why an embedded document is no JSON object. */
  datatype SpecProblem = NotJson(error: string) | NullDocument | NotAnObject(text: string)

  /** Everything the facade has to say on its own account. */
  datatype Subject =
    | AllReady | StillCreating
    | NoBackendSelected | ManyBackendsSelected
    | RgdMissing(name: string) | RgdBroken(error: string)
    | KroSpecInvalid(problem: SpecProblem)
    | ExternalVersionInvalid(apiVersion: string) | ExternalKindMissing | ExternalSpecInvalid(problem: SpecProblem)
    | EndpointInvalid(parseError: ParseError)
    | OwnerMissing(error: string) | OwnerFailed(error: string) | OwnerUnset | OwnerElsewhere(clusterNs: string, ns: string)
    | SourceElsewhere(path: string, ns: string) | SourceMissing(path: string) | SourceFailed(path: string, error: string)
    | SourceEmpty(path: string) | SourceInvalid(path: string, error: string)
    | SecretPending | SecretReconciled

  /** A reason and a message; the event that tells them is a warning or not. */
  datatype Notice = Notice(reason: string, message: string, warning: bool)

  /** How the facade words what it says, and which reasons are terminal. What is proved about
      the facade holds for any wording in which nothing is left unsaid. */
  datatype Wording = Wording(notice: Subject -> Notice, terminal: string -> bool)
  {
    ghost predicate Valid() {
      forall x: Subject :: !x.RgdBroken? ==> notice(x).reason != "" && notice(x).message != ""
    }
  }

  const BACKEND_NOT_SELECTED := "BackendNotSelected"
  const MULTIPLE_BACKENDS_SELECTED := "MultipleBackendsSelected"
  const INVALID_KRO_SPEC := "InvalidKroSpec"
  const INVALID_EXTERNAL_BACKEND := "InvalidExternalBackend"
  const INVALID_EXTERNAL_BACKEND_SPEC := "InvalidExternalBackendSpec"
  const INVALID_ENDPOINT := "InvalidEndpoint"

  /** isTerminalFailureReason. */
  predicate IsTerminalReason(reason: string) {
    reason in {BACKEND_NOT_SELECTED, MULTIPLE_BACKENDS_SELECTED, INVALID_KRO_SPEC, INVALID_EXTERNAL_BACKEND,
               INVALID_EXTERNAL_BACKEND_SPEC, INVALID_ENDPOINT}
  }

  /** The Go type a non-object JSON value decodes to. */
  function GoType(text: string): string {
    if text == "" then "float64"
    else if text[0] == '"' then "string"
    else if text[0] == '[' then "[]interface {}"
    else if text[0] == 't' || text[0] == 'f' then "bool"
    else "float64"
  }

  function SpecProblemText(field: string, p: SpecProblem): string {
    match p
    case NotJson(error) => "parse " + field + ": " + error
    case NullDocument => field + " must be a JSON object, got null"
    case NotAnObject(text) => field + " must be a JSON object, got " + GoType(text)
  }

  function ParseErrorText(e: ParseError): string {
    match e
    case EmptyEndpoint => "endpoint is empty"
    case BadUrl => "parse endpoint"
    case BadScheme => "unsupported scheme"
    case UserInfo => "userinfo is not supported"
    case BadQuery => "query is not supported"
    case BadFragment => "fragment is not supported"
    case BadPath => "path is not supported"
    case EmptyHost => "host is empty"
    case EmptyPort => "port is empty"
    case BadPort => "invalid port"
  }

  function SpecNotice(x: Subject): (n: Notice)
    requires x.KroSpecInvalid? || x.ExternalVersionInvalid? || x.ExternalKindMissing? || x.ExternalSpecInvalid?
    ensures n.reason != "" && n.message != ""
  {
    match x
    case KroSpecInvalid(p) => Notice(INVALID_KRO_SPEC, SpecProblemText("spec.kroSpec", p), true)
    case ExternalVersionInvalid(v) =>
      Notice(INVALID_EXTERNAL_BACKEND, "parse spec.externalBackend.apiVersion: unexpected GroupVersion string: " + v, true)
    case ExternalKindMissing => Notice(INVALID_EXTERNAL_BACKEND, "spec.externalBackend.kind is required", true)
    case ExternalSpecInvalid(p) => Notice(INVALID_EXTERNAL_BACKEND_SPEC, SpecProblemText("spec.externalBackend.spec", p), true)
  }

  function OwnerNotice(x: Subject): (n: Notice)
    requires x.OwnerMissing? || x.OwnerFailed? || x.OwnerUnset? || x.OwnerElsewhere?
    ensures n.reason != "" && n.message != ""
  {
    match x
    case OwnerMissing(error) => Notice("OwnerClusterNotFound", "owner Cluster not found: " + error, false)
    case OwnerFailed(error) => Notice("OwnerClusterGetFailed", "get owner Cluster: " + error, true)
    case OwnerUnset => Notice("OwnerClusterNotSet", "waiting for owner Cluster reference to be set", false)
    case OwnerElsewhere(clusterNs, ns) =>
      Notice("OwnerClusterGetFailed",
             "owner Cluster namespace \"" + clusterNs + "\" does not match control plane namespace \"" + ns + "\"", true)
  }

  function SourceNotice(x: Subject): (n: Notice)
    requires x.SourceElsewhere? || x.SourceMissing? || x.SourceFailed? || x.SourceEmpty? || x.SourceInvalid?
    ensures n.reason != "" && n.message != ""
  {
    match x
    case SourceElsewhere(path, ns) =>
      Notice("KubeconfigSourceSecretCrossNamespace",
             "cross-namespace source secret " + path + " is not allowed (control plane namespace: " + ns + ")", true)
    case SourceMissing(path) =>
      Notice("KubeconfigSourceSecretNotFound", "waiting for source secret " + path + " to be created", false)
    case SourceFailed(path, error) =>
      Notice("KubeconfigSourceSecretGetFailed", "get source secret " + path + ": " + error, true)
    case SourceEmpty(path) =>
      Notice("KubeconfigSourceSecretDataMissing", "source secret " + path + " missing data[\"value\"]", true)
    case SourceInvalid(path, error) =>
      Notice("InvalidKubeconfig", "source secret " + path + " contains invalid kubeconfig: " + error, true)
  }

  function NoticeOf(x: Subject): (n: Notice)
    ensures n.reason != "" && (x.RgdBroken? || n.message != "")
  {
    if x.KroSpecInvalid? || x.ExternalVersionInvalid? || x.ExternalKindMissing? || x.ExternalSpecInvalid? then SpecNotice(x)
    else if x.OwnerMissing? || x.OwnerFailed? || x.OwnerUnset? || x.OwnerElsewhere? then OwnerNotice(x)
    else if x.SourceElsewhere? || x.SourceMissing? || x.SourceFailed? || x.SourceEmpty? || x.SourceInvalid? then SourceNotice(x)
    else match x
      case AllReady => Notice("Ready", "control plane is ready", false)
      case StillCreating => Notice("Creating", "waiting for control plane to become ready", false)
      case NoBackendSelected => Notice(BACKEND_NOT_SELECTED, "exactly one backend must be selected", false)
      case ManyBackendsSelected => Notice(MULTIPLE_BACKENDS_SELECTED, "exactly one backend must be selected", false)
      case RgdMissing(name) =>
        Notice("ResourceGraphDefinitionNotFound", "ResourceGraphDefinition \"" + name + "\" not found", true)
      case RgdBroken(error) => Notice("ResourceGraphDefinitionInvalid", error, true)
      case EndpointInvalid(e) => Notice(INVALID_ENDPOINT, "invalid status.endpoint: " + ParseErrorText(e), false)
      case SecretPending => Notice("KubeconfigSourceSecretNotFound", "waiting for kubeconfig secret to be reconciled", false)
      case SecretReconciled => Notice("Reconciled", "kubeconfig secret reconciled", false)
  }

  /** The repository's own wording. */
  const WORDING := Wording(NoticeOf, IsTerminalReason)

  lemma WordingSaysAll()
    ensures WORDING.Valid()
  {
    forall x: Subject | !x.RgdBroken? ensures WORDING.notice(x).reason != "" && WORDING.notice(x).message != "" {
      Worded(x, NoticeOf(x));
    }
  }

  lemma Worded(x: Subject, n: Notice)
    requires n == NoticeOf(x)
    ensures WORDING.notice(x) == n
  {
  }

  function Default(s: string, other: string): string { if s == "" then other else s }

  function NonEmpty(s: string): Option<string> { if s == "" then None else Some(s) }

  /** What reconcileConditionsAndFailure writes into the copy it was given. */
  function WithReport(words: Wording, local: CpStatus, version: string, s: InstanceStatus, ready: bool): CpStatus {
    var other := words.notice(if ready then AllReady else StillCreating);
    var condition := Condition(ready, Default(s.reason, other.reason), Default(s.message, other.message));
    if ready then
      CpStatus(Default(version, local.version), local.initialized, local.conditions[Ready := condition] - {Creating}, None, None)
    else
      var terminal := s.terminal || words.terminal(s.reason);
      CpStatus(
        local.version, local.initialized,
        local.conditions[Ready := condition][Creating := condition.(status := true)],
        if terminal then NonEmpty(s.reason) else None,
        if terminal then NonEmpty(s.message) else None)
  }

  predicate IsReady(s: CpStatus) { Ready in s.conditions && s.conditions[Ready].status }

  /** Ready=True excludes Creating; Ready=False comes with Creating=True that says the same;
      Creating never stands without Ready. */
  predicate ConditionShape(conditions: map<ConditionType, Condition>) {
    if Ready !in conditions then Creating !in conditions
    else if conditions[Ready].status then Creating !in conditions
    else Creating in conditions && conditions[Creating] == conditions[Ready].(status := true)
  }

  /** A ready control plane carries no failure. */
  predicate FailureShape(s: CpStatus) {
    IsReady(s) ==> s.failureReason == None && s.failureMessage == None
  }

  /** The condition says this already. */
  predicate Told(s: CpStatus, t: ConditionType, condition: Condition) {
    t in s.conditions && s.conditions[t] == condition
  }

  function Tell(s: CpStatus, t: ConditionType, condition: Condition): CpStatus {
    s.(conditions := s.conditions[t := condition])
  }

  // ---- merge patches ----

  /** A JSON merge patch carries the fields in which the changed copy differs from the copy
      it was made from; the condition list is one field. */
  function PatchStatus(stored: CpStatus, before: CpStatus, after: CpStatus): CpStatus {
    CpStatus(
      if after.version != before.version then after.version else stored.version,
      if after.initialized != before.initialized then after.initialized else stored.initialized,
      if after.conditions != before.conditions then after.conditions else stored.conditions,
      if after.failureReason != before.failureReason then after.failureReason else stored.failureReason,
      if after.failureMessage != before.failureMessage then after.failureMessage else stored.failureMessage)
  }

  function PatchEndpoint(stored: ApiEndpoint, before: ApiEndpoint, after: ApiEndpoint): ApiEndpoint {
    ApiEndpoint(
      if after.host != before.host then after.host else stored.host,
      if after.port != before.port then after.port else stored.port)
  }

  /** The report keeps the shape of the condition list whatever the copy looked like. */
  lemma ReportHasShape(words: Wording, local: CpStatus, version: string, s: InstanceStatus, ready: bool)
    ensures ConditionShape(WithReport(words, local, version, s, ready).conditions)
    ensures FailureShape(WithReport(words, local, version, s, ready))
    ensures IsReady(WithReport(words, local, version, s, ready)) <==> ready
    ensures WithReport(words, local, version, s, ready).initialized == local.initialized
    ensures WithReport(words, WithReport(words, local, version, s, ready), version, s, ready) == WithReport(words, local, version, s, ready)
  {
    var r := WithReport(words, local, version, s, ready);
    if ready {
      assert WithReport(words, r, version, s, ready).conditions == r.conditions;
    } else {
      assert WithReport(words, r, version, s, ready).conditions == r.conditions;
    }
  }

  /** What a report says, field by field: Ready as it is, with the backend's reason and message or the
      facade's own; the failure only of a backend that is not ready and failed for good, its reason and
      message where they are not empty; the version of a ready control plane; everything else kept. */
  lemma ReportTells(words: Wording, local: CpStatus, version: string, s: InstanceStatus, ready: bool, t: ConditionType)
    ensures var r := WithReport(words, local, version, s, ready);
            var own := words.notice(if ready then AllReady else StillCreating);
            var failed := !ready && (s.terminal || words.terminal(s.reason));
            && Ready in r.conditions
            && r.conditions[Ready] == Condition(ready, if s.reason != "" then s.reason else own.reason,
                                                if s.message != "" then s.message else own.message)
            && r.failureReason == (if failed && s.reason != "" then Some(s.reason) else None)
            && r.failureMessage == (if failed && s.message != "" then Some(s.message) else None)
            && r.version == (if ready && version != "" then version else local.version)
            && r.initialized == local.initialized
            && (t != Ready && t != Creating ==>
                  (t in r.conditions <==> t in local.conditions) &&
                  (t in local.conditions ==> r.conditions[t] == local.conditions[t]))
  {
  }

  /** The reasons that are terminal by themselves: a spec or an endpoint that has to be changed. */
  lemma TerminalReasons(reason: string)
    ensures WORDING.terminal(reason) <==>
              || reason == "BackendNotSelected" || reason == "MultipleBackendsSelected" || reason == "InvalidKroSpec"
              || reason == "InvalidExternalBackend" || reason == "InvalidExternalBackendSpec" || reason == "InvalidEndpoint"
  {
  }

  /** When a ready report reaches the store through a patch from a possibly outdated copy,
      the stored failure is gone exactly when the copy showed each stored failure field or
      the store had none. */
  lemma ReadyPatchClearsFailure(words: Wording, stored: CpStatus, local: CpStatus, version: string, s: InstanceStatus)
    ensures var after := PatchStatus(stored, local, WithReport(words, local, version, s, true));
            (after.failureReason == None && after.failureMessage == None <==>
            (stored.failureReason.Some? ==> local.failureReason.Some?) &&
            (stored.failureMessage.Some? ==> local.failureMessage.Some?))
  {
  }

  /** An outdated copy that shows an earlier Ready=True makes a later one keep the failure
      that was stored in between. */
  lemma OutdatedCopyKeepsFailure(words: Wording)
    ensures var copy := CpStatus("v1", true, map[Ready := Condition(true, "A", "m")], None, None);
            var failed := InstanceStatus(false, "e", "F", "m", true);
            var stored := PatchStatus(copy, copy, WithReport(words, copy, "v1", failed, false));
            var after := PatchStatus(stored, copy, WithReport(words, copy, "v1", InstanceStatus(true, "e", "B", "m", false), true));
            FailureShape(copy) && FailureShape(stored) && !FailureShape(after)
  {
    var copy := CpStatus("v1", true, map[Ready := Condition(true, "A", "m")], None, None);
    var report := WithReport(words, copy, "v1", InstanceStatus(true, "e", "B", "m", false), true);
    assert report.conditions[Ready].reason == "B" && copy.conditions[Ready].reason == "A";
  }

  // ---- the copy a reconcile works on ----

  /** The object the API server holds. */
  class ApiObject {
    var spec: CpSpec
    var status: CpStatus

    constructor (spec: CpSpec, status: CpStatus)
      ensures this.spec == spec && this.status == status
    {
      this.spec, this.status := spec, status;
    }

    ghost function Value(): Cp
      reads this
    {
      Cp(spec, status)
    }
  }

  /** The copy a reconcile read; each of its methods changes fields and then patches, which
      refreshes the whole copy from the answer. */
  class Copy {
    var spec: CpSpec
    var status: CpStatus
    const server: ApiObject

    constructor (server: ApiObject, cached: Cp)
      ensures this.server == server && Value() == cached
    {
      this.server := server;
      spec, status := cached.spec, cached.status;
    }

    ghost function Value(): Cp
      reads this
    {
      Cp(spec, status)
    }

    /** Status().Patch(ctx, cp, client.MergeFrom(before)). */
    method PatchStatusFrom(before: CpStatus)
      modifies this, server
      ensures server.status == PatchStatus(old(server.status), before, old(status))
      ensures server.spec == old(server.spec)
      ensures Value() == server.Value()
    {
      server.status := PatchStatus(server.status, before, status);
      spec, status := server.spec, server.status;
    }

    method SetEndpoint(endpoint: ApiEndpoint)
      modifies this, server
      ensures server.spec == old(server.spec).(endpoint := PatchEndpoint(old(server.spec.endpoint), old(spec.endpoint), endpoint))
      ensures server.status == old(server.status)
      ensures Value() == server.Value()
    {
      var before := spec.endpoint;
      spec := spec.(endpoint := endpoint);
      server.spec := server.spec.(endpoint := PatchEndpoint(server.spec.endpoint, before, spec.endpoint));
      spec, status := server.spec, server.status;
    }

    /** Nothing is patched when the copy is initialized already. */
    method SetInitialized()
      modifies this, server
      ensures server.spec == old(server.spec)
      ensures old(status.initialized) ==> Value() == old(Value()) && server.status == old(server.status)
      ensures !old(status.initialized) ==> (
        server.status == old(server.status).(initialized := true) && Value() == server.Value())
    {
      if !status.initialized {
        var before := status;
        status := status.(initialized := true);
        PatchStatusFrom(before);
      }
    }

    /** reconcileKubeconfigSecretCondition, with the event it records unless it was told before. */
    method ReconcileKubeconfigSecretCondition(condition: Condition) returns (tell: bool)
      modifies this, server
      ensures server.spec == old(server.spec)
      ensures server.status == PatchStatus(old(server.status), old(status), Tell(old(status), KubeconfigSecretReconciled, condition))
      ensures tell <==> !Told(old(status), KubeconfigSecretReconciled, condition)
      ensures Value() == server.Value()
    {
      var before := status;
      tell := KubeconfigSecretReconciled !in status.conditions || status.conditions[KubeconfigSecretReconciled] != condition;
      status := status.(conditions := status.conditions[KubeconfigSecretReconciled := condition]);
      PatchStatusFrom(before);
    }

    method ReconcileConditionsAndFailure(words: Wording, s: InstanceStatus, ready: bool)
      modifies this, server
      ensures server.spec == old(server.spec)
      ensures server.status == PatchStatus(old(server.status), old(status), WithReport(words, old(status), old(spec.version), s, ready))
      ensures Value() == server.Value()
    {
      var before := status;
      var reason, message := s.reason, s.message;
      if ready {
        if reason == "" { reason := words.notice(AllReady).reason; }
        if message == "" { message := words.notice(AllReady).message; }
        status := status.(conditions := status.conditions[Ready := Condition(true, reason, message)]);
        status := status.(conditions := status.conditions - {Creating}, failureReason := None, failureMessage := None);
        if spec.version != "" && status.version != spec.version {
          status := status.(version := spec.version);
        }
      } else {
        if reason == "" { reason := words.notice(StillCreating).reason; }
        if message == "" { message := words.notice(StillCreating).message; }
        status := status.(conditions := status.conditions[Ready := Condition(false, reason, message)]);
        status := status.(conditions := status.conditions[Creating := Condition(true, reason, message)]);
        if s.terminal || words.terminal(s.reason) {
          status := status.(failureReason := if s.reason != "" then Some(s.reason) else None);
          status := status.(failureMessage := if s.message != "" then Some(s.message) else None);
        } else {
          status := status.(failureReason := None, failureMessage := None);
        }
      }
      assert status == WithReport(words, before, spec.version, s, ready);
      PatchStatusFrom(before);
    }
  }
}

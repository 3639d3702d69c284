/** The objects the facade keeps for its backends: how it builds their specs, takes ownership of
    them and reads their status (internal/controller/kany8scontrolplane_controller.go,
    internal/kro/status.go). */
module Backends {

  import opened Options
  import opened Endpoint
  import opened JsonTree
  import opened OwnerReferences
  import opened ControlPlane

  /** The control plane object's own identity. */
  datatype Identity = Identity(name: string, ns: string, uid: string)

  datatype Cluster = Cluster(name: string, ns: string, uid: string)

  datatype Gvk = Gvk(group: string, version: string, kind: string)

  function ControllerRef(self: Identity): OwnerRef {
    OwnerRef("controlplane.cluster.x-k8s.io", "v1alpha1", "Kany8sControlPlane", self.name, self.uid, Some(true), Some(true))
  }

  function ClusterRef(c: Cluster): OwnerRef {
    OwnerRef("cluster.x-k8s.io", "v1beta2", "Cluster", c.name, c.uid, None, None)
  }

  function ClusterRefOf(owner: Option<Cluster>): Option<OwnerRef> {
    if owner.None? then None else Some(ClusterRef(owner.value))
  }

  /** A field of an unstructured object. */
  datatype Field<T> = Missing | WrongType | Is(value: T)

  datatype RawStatus = RawStatus(
    ready: Field<bool>, endpoint: Field<string>, reason: Field<string>, message: Field<string>, terminal: Field<bool>,
    secretName: Field<string>, secretNamespace: Field<string>)

  const NO_STATUS := RawStatus(Missing, Missing, Missing, Missing, Missing, Missing, Missing)

  function OrElse<T>(f: Field<T>, other: T): T { if f.Is? then f.value else other }

  /** ReadInstanceStatus: nothing is read when a field has the wrong type. */
  function ReadStatus(s: RawStatus): Option<InstanceStatus> {
    if s.ready.WrongType? || s.endpoint.WrongType? || s.reason.WrongType? || s.message.WrongType? || s.terminal.WrongType?
    then None
    else Some(InstanceStatus(OrElse(s.ready, false), OrElse(s.endpoint, ""), OrElse(s.reason, ""), OrElse(s.message, ""),
                             OrElse(s.terminal, false)))
  }

  // ---- specs ----

  datatype SpecResult = Built(fields: map<string, Json>) | Invalid(problem: SpecProblem)

  function ParseSpecObject(raw: RawSpec): SpecResult {
    match raw
    case Absent => Built(map[])
    case Malformed(error) => Invalid(NotJson(error))
    case Document(Null) => Invalid(NullDocument)
    case Document(Leaf(text)) => Invalid(NotAnObject(text))
    case Document(Obj(fields)) => Built(fields)
  }

  function KroSpecOf(spec: CpSpec): SpecResult {
    var r := ParseSpecObject(spec.kroSpec);
    if r.Invalid? then r else Built(r.fields["version" := Leaf(spec.version)])
  }

  function WithCluster(fields: map<string, Json>, owner: Option<Cluster>): map<string, Json> {
    if owner.None? then fields
    else fields["clusterName" := Leaf(owner.value.name)]["clusterNamespace" := Leaf(owner.value.ns)]
           ["clusterUID" := Leaf(owner.value.uid)]
  }

  function ExternalSpecOf(spec: CpSpec, external: ExternalSpec, owner: Option<Cluster>): SpecResult {
    var r := ParseSpecObject(external.spec);
    if r.Invalid? then r else Built(WithCluster(r.fields["version" := Leaf(spec.version)], owner))
  }

  /** The user's document reaches the backend whole, but for the keys the facade owns. */
  lemma SpecsCarryTheDocument(spec: CpSpec, external: ExternalSpec, owner: Option<Cluster>, k: string)
    requires KroSpecOf(spec).Built? && ExternalSpecOf(spec, external, owner).Built?
    ensures KroSpecOf(spec).fields["version"] == Leaf(spec.version)
    ensures k != "version" ==> (
      k in KroSpecOf(spec).fields <==> spec.kroSpec.Document? && k in spec.kroSpec.value.fields)
    ensures k != "version" && k in KroSpecOf(spec).fields ==> KroSpecOf(spec).fields[k] == spec.kroSpec.value.fields[k]
    ensures var built := ExternalSpecOf(spec, external, owner).fields;
            && built["version"] == Leaf(spec.version)
            && (k !in {"version", "clusterName", "clusterNamespace", "clusterUID"} || (k != "version" && owner.None?) ==>
                  (k in built <==> external.spec.Document? && k in external.spec.value.fields) &&
                  (k in built ==> built[k] == external.spec.value.fields[k]))
  {
  }

  /** schema.ParseGroupVersion. */
  function ParseGroupVersion(s: string): Option<(string, string)> {
    var i := Find(s, '/');
    if s == "" || s == "/" then Some(("", ""))
    else if i == |s| then Some(("", s))
    else if '/' in s[i + 1..] then None
    else Some((s[..i], s[i + 1..]))
  }

  // ---- ownership and CreateOrUpdate ----

  datatype Instance = Instance(owners: seq<OwnerRef>, cluster: Option<string>, spec: map<string, Json>, status: RawStatus)

  /** The builtin backend: the facade writes its metadata and four spec fields, its own
      controller writes the endpoint and the status. */
  datatype KubeadmBackend = KubeadmBackend(
    owners: seq<OwnerRef>, cluster: Option<string>,
    version: string, replicas: Option<int>, machineTemplate: Json, config: Option<Json>,
    endpoint: ApiEndpoint, status: CpStatus)

  const NEW_STATUS := CpStatus("", false, map[], None, None)

  function Label(existing: Option<string>, owner: Option<Cluster>): Option<string> {
    if owner.None? then existing else Some(owner.value.name)
  }

  /** One CreateOrUpdate of a backend instance: refused when something else controls it. */
  function UpsertInstance(existing: Option<Instance>, self: Identity, owner: Option<Cluster>, spec: map<string, Json>): Option<Instance> {
    var was := if existing.Some? then existing.value else Instance([], None, map[], NO_STATUS);
    var owners := FacadeOwners(was.owners, ControllerRef(self), ClusterRefOf(owner));
    if owners.None? then None
    else Some(Instance(owners.value, Label(was.cluster, owner), spec, was.status))
  }

  function ReplicasOf(spec: CpSpec, kubeadm: KubeadmSpec): Option<int> {
    if spec.replicas.Some? then spec.replicas else kubeadm.replicas
  }

  function UpsertKubeadm(existing: Option<KubeadmBackend>, self: Identity, owner: Option<Cluster>, spec: CpSpec, kubeadm: KubeadmSpec)
    : Option<KubeadmBackend>
  {
    var was := if existing.Some? then existing.value
               else KubeadmBackend([], None, "", None, Null, None, UNSET, NEW_STATUS);
    var owners := FacadeOwners(was.owners, ControllerRef(self), ClusterRefOf(owner));
    if owners.None? then None
    else Some(KubeadmBackend(owners.value, Label(was.cluster, owner), spec.version, ReplicasOf(spec, kubeadm),
                             kubeadm.machineTemplate, kubeadm.config, was.endpoint, was.status))
  }

  /** A second CreateOrUpdate finds nothing to update. */
  lemma UpsertInstanceTwice(existing: Option<Instance>, self: Identity, owner: Option<Cluster>, spec: map<string, Json>)
    requires UpsertInstance(existing, self, owner, spec).Some?
    ensures UpsertInstance(UpsertInstance(existing, self, owner, spec), self, owner, spec) == UpsertInstance(existing, self, owner, spec)
    ensures ControllerRef(self) in UpsertInstance(existing, self, owner, spec).value.owners
  {
    var was := if existing.Some? then existing.value else Instance([], None, map[], NO_STATUS);
    FacadeOwnersTwice(was.owners, ControllerRef(self), ClusterRefOf(owner));
  }

  lemma UpsertKubeadmTwice(existing: Option<KubeadmBackend>, self: Identity, owner: Option<Cluster>, spec: CpSpec, kubeadm: KubeadmSpec)
    requires UpsertKubeadm(existing, self, owner, spec, kubeadm).Some?
    ensures UpsertKubeadm(UpsertKubeadm(existing, self, owner, spec, kubeadm), self, owner, spec, kubeadm) ==
            UpsertKubeadm(existing, self, owner, spec, kubeadm)
    ensures ControllerRef(self) in UpsertKubeadm(existing, self, owner, spec, kubeadm).value.owners
  {
    var was := if existing.Some? then existing.value
               else KubeadmBackend([], None, "", None, Null, None, UNSET, NEW_STATUS);
    FacadeOwnersTwice(was.owners, ControllerRef(self), ClusterRefOf(owner));
  }

  /** kubeadmBackendStatusToInstanceStatus. */
  function ToInstanceStatus(b: KubeadmBackend): InstanceStatus {
    var known := Ready in b.status.conditions;
    InstanceStatus(
      known && b.status.conditions[Ready].status,
      Print(b.endpoint),
      if b.status.failureReason.Some? then b.status.failureReason.value
      else if known then b.status.conditions[Ready].reason else "",
      if b.status.failureMessage.Some? then b.status.failureMessage.value
      else if known then b.status.conditions[Ready].message else "",
      b.status.failureReason.Some? || b.status.failureMessage.Some?)
  }

  // ---- the kubeconfig secret ----

  datatype Secret = Secret(owners: seq<OwnerRef>, cluster: Option<string>, kind: string, data: map<string, string>)

  const DATA_KEY := "value"

  function UpsertSecret(existing: Option<Secret>, self: Identity, cluster: string, content: string): Option<Secret> {
    var was := if existing.Some? then existing.value else Secret([], None, "", map[]);
    var owners := SetController(was.owners, ControllerRef(self));
    if owners.None? then None
    else Some(Secret(owners.value, Some(cluster), "cluster.x-k8s.io/secret", was.data[DATA_KEY := content]))
  }

  lemma UpsertSecretTwice(existing: Option<Secret>, self: Identity, cluster: string, content: string)
    requires UpsertSecret(existing, self, cluster, content).Some?
    ensures UpsertSecret(UpsertSecret(existing, self, cluster, content), self, cluster, content) ==
            UpsertSecret(existing, self, cluster, content)
  {
    var was := if existing.Some? then existing.value else Secret([], None, "", map[]);
    FacadeOwnersTwice(was.owners, ControllerRef(self), None);
    assert was.data[DATA_KEY := content][DATA_KEY := content] == was.data[DATA_KEY := content];
  }

  lemma UpsertSecretOwns(existing: Option<Secret>, self: Identity, cluster: string, content: string)
    requires UpsertSecret(existing, self, cluster, content).Some?
    ensures ControllerRef(self) in UpsertSecret(existing, self, cluster, content).value.owners
  {
    var was := if existing.Some? then existing.value else Secret([], None, "", map[]);
    UpsertTwice(was.owners, ControllerRef(self));
  }
}

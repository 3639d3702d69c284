/** What the facade writes to the backend it selects, and what it reads there. */
module FacadeBackend {

  import opened Options
  import opened Endpoint
  import opened JsonTree
  import opened ControlPlane
  import opened Backends
  import opened OwnerReferences
  import opened Facade
  import opened FacadeSafety
  import opened FacadeProgress
  import Runs

  /** Every key the facade does not own reads as in the user's document. */
  predicate CarriesDocument(fields: map<string, Json>, raw: RawSpec, owned: set<string>) {
    forall k <- fields.Keys + DocumentKeys(raw) ::
      k !in owned ==> k in fields && k in DocumentKeys(raw) && fields[k] == raw.value.fields[k]
  }

  function DocumentKeys(raw: RawSpec): set<string> {
    if raw.Document? && raw.value.Obj? then raw.value.fields.Keys else {}
  }

  predicate Text(fields: map<string, Json>, k: string, text: string) { k in fields && fields[k] == Leaf(text) }

  /** The fields of a kro instance. */
  predicate KroFields(fields: map<string, Json>, spec: CpSpec) {
    Text(fields, "version", spec.version) && CarriesDocument(fields, spec.kroSpec, {"version"})
  }

  /** The fields of an external backend: with an owner Cluster, its identity as well. */
  predicate ExternalFields(fields: map<string, Json>, spec: CpSpec, owner: OwnerObs)
    requires spec.external.Some?
  {
    && Text(fields, "version", spec.version)
    && if owner.OwnerIs? then
         && Text(fields, "clusterName", owner.cluster.name) && Text(fields, "clusterNamespace", owner.cluster.ns)
         && Text(fields, "clusterUID", owner.cluster.uid)
         && CarriesDocument(fields, spec.external.value.spec, {"version", "clusterName", "clusterNamespace", "clusterUID"})
       else CarriesDocument(fields, spec.external.value.spec, {"version"})
  }

  /** The kind named by an apiVersion "group/version" or "version". */
  predicate NamesKind(gvk: Gvk, apiVersion: string, kind: string) {
    && gvk.kind == kind && kind != ""
    && (apiVersion == gvk.group + "/" + gvk.version || (gvk.group == "" && apiVersion == gvk.version)
        || (gvk.group == "" && gvk.version == "" && apiVersion == "/"))
  }

  function OwnerRefOf(owner: OwnerObs): Option<OwnerRef> {
    if owner.OwnerIs? then Some(ClusterRef(owner.cluster)) else None
  }

  /** The references: that to the control plane controls the object and keeps it, that to the Cluster does
      neither; both name their objects. */
  lemma ReferencesAre(self: Identity, cluster: Cluster)
    ensures var r := ControllerRef(self);
            && r.name == self.name && r.uid == self.uid && r.kind == "Kany8sControlPlane"
            && r.controller == Some(true) && r.blockOwnerDeletion == Some(true)
    ensures var r := ClusterRef(cluster);
            && r.name == cluster.name && r.uid == cluster.uid && r.kind == "Cluster"
            && r.controller == None && r.blockOwnerDeletion == None
  {
  }

  /** One instance is written: its metadata are the facade's and the owner's, its status is its own
      controller's, and nothing else changes. */
  ghost predicate OneInstanceWritten(c: Context, w: World, w': World, gvk: Gvk, owner: OwnerObs) {
    && gvk in w'.instances && w' == w.(instances := w.instances[gvk := w'.instances[gvk]])
    && var i := w'.instances[gvk];
       && AreSet(if gvk in w.instances then w.instances[gvk].owners else [], i.owners, ControllerRef(c.self), OwnerRefOf(owner))
       && (owner.OwnerIs? ==> i.cluster == Some(owner.cluster.name))
       && (if gvk in w.instances then
             && i.status == w.instances[gvk].status
             && (!owner.OwnerIs? ==> i.cluster == w.instances[gvk].cluster)
           else i.status == NO_STATUS && (!owner.OwnerIs? ==> i.cluster == None))
  }

  /** What is read of an instance's status. */
  predicate ReadFrom(got: Got, status: RawStatus) {
    && (got.status.ready <==> status.ready == Is(true))
    && (got.status.terminal <==> status.terminal == Is(true))
    && got.status.endpoint == (if status.endpoint.Is? then status.endpoint.value else "")
    && got.status.reason == (if status.reason.Is? then status.reason.value else "")
    && got.status.message == (if status.message.Is? then status.message.value else "")
    && !got.initialized && got.onEndpoint
    && got.ref == Some(SecretRef(status.secretName, status.secretNamespace))
  }

  /** The builtin backend is written: version, replicas, template and config from the control plane,
      endpoint and status its own controller's. */
  ghost predicate KubeadmWritten(c: Context, w: World, w': World, spec: CpSpec, owner: OwnerObs)
    requires spec.kubeadm.Some?
  {
    && w'.kubeadm.Some? && w' == w.(kubeadm := w'.kubeadm)
    && var b := w'.kubeadm.value;
       && b.version == spec.version
       && b.replicas == (if spec.replicas.Some? then spec.replicas else spec.kubeadm.value.replicas)
       && b.machineTemplate == spec.kubeadm.value.machineTemplate && b.config == spec.kubeadm.value.config
       && AreSet(if w.kubeadm.Some? then w.kubeadm.value.owners else [], b.owners, ControllerRef(c.self), OwnerRefOf(owner))
       && (owner.OwnerIs? ==> b.cluster == Some(owner.cluster.name))
       && (if w.kubeadm.Some? then
             && b.endpoint == w.kubeadm.value.endpoint && b.status == w.kubeadm.value.status
             && (!owner.OwnerIs? ==> b.cluster == w.kubeadm.value.cluster)
           else b.endpoint == UNSET && b.status == NEW_STATUS && (!owner.OwnerIs? ==> b.cluster == None))
  }

  /** What is read of the builtin backend: a failure's reason and message go before the condition's. */
  predicate ReadFromKubeadm(got: Got, b: KubeadmBackend) {
    var told := Ready in b.status.conditions;
    && (got.status.ready <==> told && b.status.conditions[Ready].status)
    && (got.status.terminal <==> b.status.failureReason.Some? || b.status.failureMessage.Some?)
    && got.status.endpoint == (if b.endpoint.host != "" && b.endpoint.port > 0
                               then "https://" + b.endpoint.host + ":" + Decimal(b.endpoint.port) else "")
    && (b.status.failureReason.Some? ==> got.status.reason == b.status.failureReason.value)
    && (b.status.failureReason.None? && told ==> got.status.reason == b.status.conditions[Ready].reason)
    && (b.status.failureMessage.Some? ==> got.status.message == b.status.failureMessage.value)
    && (b.status.failureMessage.None? && told ==> got.status.message == b.status.conditions[Ready].message)
    && got.initialized == b.status.initialized && !got.onEndpoint && got.ref == None
  }

  lemma KroIsBuilt(spec: CpSpec)
    requires KroSpecOf(spec).Built?
    ensures KroFields(KroSpecOf(spec).fields, spec)
  {
  }

  lemma ExternalIsBuilt(spec: CpSpec, owner: OwnerObs)
    requires spec.external.Some? && ExternalSpecOf(spec, spec.external.value, OwnerCluster(owner)).Built?
    ensures ExternalFields(ExternalSpecOf(spec, spec.external.value, OwnerCluster(owner)).fields, spec, owner)
  {
    KeysDiffer("version", "clusterName", "clusterNamespace", "clusterUID");
  }

  lemma KeysDiffer(a: string, b: string, c: string, d: string)
    requires a == "version" && b == "clusterName" && c == "clusterNamespace" && d == "clusterUID"
    ensures a != b && a != c && a != d && b != c && b != d && c != d
  {
    assert |a| == 7 && |b| == 11 && |c| == 16 && |d| == 10;
  }

  lemma KindIsParsed(apiVersion: string, kind: string)
    requires kind != "" && ParseGroupVersion(apiVersion).Some?
    ensures var gv := ParseGroupVersion(apiVersion).value; NamesKind(Gvk(gv.0, gv.1, kind), apiVersion, kind)
  {
    var i := Find(apiVersion, '/');
    if apiVersion != "" && i < |apiVersion| {
      assert apiVersion == apiVersion[..i] + "/" + apiVersion[i + 1..];
    }
  }

  /** One CreateOrUpdate of an instance. */
  lemma InstanceIsUpserted(existing: Option<Instance>, self: Identity, owner: OwnerObs, spec: map<string, Json>)
    ensures var was := if existing.Some? then existing.value else Instance([], None, map[], NO_STATUS);
            var i := UpsertInstance(existing, self, OwnerCluster(owner), spec);
            && (i.None? <==> ControlledByOther(was.owners, ControllerRef(self)))
            && (i.Some? ==>
                  && AreSet(was.owners, i.value.owners, ControllerRef(self), OwnerRefOf(owner))
                  && i.value.cluster == (if owner.OwnerIs? then Some(owner.cluster.name) else was.cluster)
                  && i.value.spec == spec && i.value.status == was.status)
  {
    OwnersAreSet(if existing.Some? then existing.value.owners else [], ControllerRef(self), OwnerRefOf(owner));
  }

  lemma InstanceIsWritten(c: Context, w: World, p: Pass, gvk: Gvk, spec: map<string, Json>)
    requires p.AtBackend? && InstanceStep(c, w, p, gvk, spec).1.AtKubeconfig?
    ensures var (w', p') := InstanceStep(c, w, p, gvk, spec);
            && OneInstanceWritten(c, w, w', gvk, p.owner) && w'.instances[gvk].spec == spec
            && ReadFrom(p'.got, w'.instances[gvk].status) && p'.got.watchFailed == w.watchFails
  {
    InstanceIsUpserted(if gvk in w.instances then Some(w.instances[gvk]) else None, c.self, p.owner, spec);
  }

  lemma KubeadmIsWritten(c: Context, w: World, p: Pass, kubeadm: KubeadmSpec)
    requires p.AtBackend? && KubeadmStep(c, w, p, kubeadm).1.AtKubeconfig? && p.local.spec.kubeadm == Some(kubeadm)
    ensures var (w', p') := KubeadmStep(c, w, p, kubeadm);
            && KubeadmWritten(c, w, w', p.local.spec, p.owner)
            && ReadFromKubeadm(p'.got, w'.kubeadm.value) && p'.got.watchFailed == w.watchFails
  {
    OwnersAreSet(if w.kubeadm.Some? then w.kubeadm.value.owners else [], ControllerRef(c.self), OwnerRefOf(p.owner));
  }

  /** What a reconcile that got past its backend has done, for the one backend its copy selects: the
      kro instance of the definition's kind, the external object of the named kind, or the builtin
      backend holds what the copy asks for, and what the reconcile goes on with was read there. */
  ghost predicate Reconciled(c: Context, w: World, p: Pass, w': World, got: Got)
    requires p.AtBackend?
  {
    var spec := p.local.spec;
    && got.watchFailed == w.watchFails
    && if spec.rgd.Some? then
         && spec.kubeadm.None? && spec.external.None? && spec.rgd.value in w.rgds && w.rgds[spec.rgd.value].RgdFound?
         && var gvk := w.rgds[spec.rgd.value].gvk;
            && OneInstanceWritten(c, w, w', gvk, p.owner) && KroFields(w'.instances[gvk].spec, spec)
            && ReadFrom(got, w'.instances[gvk].status)
       else if spec.kubeadm.Some? then
         spec.external.None? && KubeadmWritten(c, w, w', spec, p.owner) && ReadFromKubeadm(got, w'.kubeadm.value)
       else
         && spec.external.Some?
         && exists gvk <- w'.instances ::
              && NamesKind(gvk, spec.external.value.apiVersion, spec.external.value.kind)
              && OneInstanceWritten(c, w, w', gvk, p.owner) && ExternalFields(w'.instances[gvk].spec, spec, p.owner)
              && ReadFrom(got, w'.instances[gvk].status)
  }

  lemma KroIsReconciled(c: Context, w: World, p: Pass)
    requires p.AtBackend? && BackendStep(c, w, p).1.AtKubeconfig? && p.local.spec.rgd.Some?
    ensures var (w', p') := BackendStep(c, w, p); Reconciled(c, w, p, w', p'.got)
  {
    var plan := PlanOf(p.local.spec, p.owner, w.rgds);
    InstanceIsWritten(c, w, p, plan.gvk, plan.spec);
    KroIsBuilt(p.local.spec);
  }

  lemma ExternalIsReconciled(c: Context, w: World, p: Pass)
    requires p.AtBackend? && BackendStep(c, w, p).1.AtKubeconfig? && p.local.spec.rgd.None? && p.local.spec.kubeadm.None?
    ensures var (w', p') := BackendStep(c, w, p); Reconciled(c, w, p, w', p'.got)
  {
    var plan := PlanOf(p.local.spec, p.owner, w.rgds);
    InstanceIsWritten(c, w, p, plan.gvk, plan.spec);
    ExternalIsBuilt(p.local.spec, p.owner);
    KindIsParsed(p.local.spec.external.value.apiVersion, p.local.spec.external.value.kind);
  }

  lemma BackendIsReconciled(c: Context, w: World, p: Pass)
    requires p.AtBackend? && BackendStep(c, w, p).1.AtKubeconfig?
    ensures var (w', p') := BackendStep(c, w, p); Reconciled(c, w, p, w', p'.got)
  {
    if p.local.spec.rgd.Some? {
      KroIsReconciled(c, w, p);
    } else if p.local.spec.kubeadm.Some? {
      KubeadmIsWritten(c, w, p, p.local.spec.kubeadm.value);
    } else {
      ExternalIsReconciled(c, w, p);
    }
  }

  lemma BackendStepInRun(c: Context, t: seq<System>, i: nat)
    requires Run(c, t) && 0 < i < |t| && t[i - 1].pass.AtBackend? && t[i].pass.AtKubeconfig?
    ensures (t[i].world, t[i].pass) == BackendStep(c, t[i - 1].world, t[i - 1].pass)
  {
    PassInRun(c, t, i);
  }

  /** In every run, whatever happens around it and however old its copy is. */
  lemma BackendCarriesTheSpec(c: Context, t: seq<System>, i: nat)
    requires Run(c, t) && 0 < i < |t| && t[i - 1].pass.AtBackend? && t[i].pass.AtKubeconfig?
    ensures Reconciled(c, t[i - 1].world, t[i - 1].pass, t[i].world, t[i].pass.got)
    ensures t[i].pass.local == t[i - 1].pass.local && t[i].pass.owner == t[i - 1].pass.owner
  {
    BackendStepInRun(c, t, i);
    BackendIsReconciled(c, t[i - 1].world, t[i - 1].pass);
  }
}

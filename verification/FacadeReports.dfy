/** What a reconcile of the facade stores and reports of what it read, over every run. */
module FacadeReports {

  import opened Options
  import opened Endpoint
  import opened ControlPlane
  import opened Backends
  import opened Facade
  import opened FacadeSafety
  import opened FacadeProgress
  import opened FacadeSecret

  /** A patched field is what it was to become exactly when the copy had it otherwise or it was stored so. */
  predicate Arrives<T(==)>(stored: T, copy: T, desired: T, after: T) {
    after == desired <==> copy != desired || stored == desired
  }

  lemma EndpointStepStores(c: Context, w: World, p: Pass)
    requires p.AtEndpoint?
    ensures var (w', p') := EndpointStep(c, w, p);
            var parsed := c.parse(p.got.status.endpoint);
            && AfterEndpoint(c, p.got.status, p'.status, p'.valid)
            && w'.cp.status == w.cp.status
            && if p.got.status.endpoint != "" && parsed.Ok? then
                 && Arrives(w.cp.spec.endpoint.host, p.local.spec.endpoint.host, parsed.endpoint.host, w'.cp.spec.endpoint.host)
                 && Arrives(w.cp.spec.endpoint.port, p.local.spec.endpoint.port, parsed.endpoint.port, w'.cp.spec.endpoint.port)
               else w'.cp == w.cp
  {
  }

  /** The endpoint the backend reports is stored as it is parsed, host and port each exactly when the
      copy had it otherwise or the store has it; one that is empty or cannot be read stores nothing. */
  lemma EndpointIsStored(c: Context, t: seq<System>, i: nat)
    requires Run(c, t) && 0 < i < |t| && t[i - 1].pass.AtEndpoint? && t[i].pass.AtInitialized?
    ensures LastSource(t, i - 1).Some?
    ensures var s := t[LastSource(t, i - 1).value].pass.got.status;
            var copy, stored, after := t[i - 1].pass.local.spec.endpoint, t[i - 1].world.cp.spec.endpoint, t[i].world.cp.spec.endpoint;
            && t[i].world.cp.status == t[i - 1].world.cp.status
            && if s.endpoint != "" && c.parse(s.endpoint).Ok? then
                 && Arrives(stored.host, copy.host, c.parse(s.endpoint).endpoint.host, after.host)
                 && Arrives(stored.port, copy.port, c.parse(s.endpoint).endpoint.port, after.port)
               else after == stored
  {
    PassInRun(c, t, i);
    SourceStageHolds(c, t, i - 1);
    EndpointStepStores(c, t[i - 1].world, t[i - 1].pass);
  }

  /** What is reported of a status that was read. */
  predicate ReportOf(c: Context, local: Cp, s: InstanceStatus, waits: bool, ready: bool, status: InstanceStatus) {
    var e := c.parse(s.endpoint);
    && (ready <==> s.ready && s.endpoint != "" && e.Ok? && !waits)
    && status.terminal == s.terminal
    && if s.endpoint != "" && e.Err? then
         && status.reason == c.words.notice(EndpointInvalid(e.error)).reason
         && status.message == c.words.notice(EndpointInvalid(e.error)).message
       else if s.ready && s.endpoint != "" && waits then
         var conditions := local.status.conditions;
         if KubeconfigSecretReconciled in conditions then
           && status.reason == conditions[KubeconfigSecretReconciled].reason
           && status.message == conditions[KubeconfigSecretReconciled].message
         else
           && status.reason == c.words.notice(SecretPending).reason
           && status.message == c.words.notice(SecretPending).message
       else status.reason == s.reason && status.message == s.message
  }

  /** The backend says that it is initialized, or has an endpoint and that is what it takes. */
  predicate Initializes(c: Context, got: Got) {
    got.initialized || (got.onEndpoint && got.status.endpoint != "" && c.parse(got.status.endpoint).Ok?)
  }

  lemma InitializedStepReports(c: Context, w: World, p: Pass, s: InstanceStatus)
    requires p.AtInitialized? && AfterEndpoint(c, s, p.status, p.valid) && p.got.status == s
    ensures var (w', p') := InitializedStep(c, w, p);
            && p'.AtConditions? && p'.event == None
            && ReportOf(c, p'.local, s, p.kube == KubeWaiting, p'.ready, p'.status)
            && (w'.cp.status.initialized <==> w.cp.status.initialized || (Initializes(c, p.got) && !p.local.status.initialized))
            && w'.cp == w.cp.(status := w.cp.status.(initialized := w'.cp.status.initialized))
            && p'.requeue == if !p'.ready then 15 else if p.got.watchFailed then 30 else 0
  {
  }

  /** A control plane is told ready exactly when its backend says so with an endpoint that can be read
      and the kubeconfig it refers to could be copied; reason and message are the backend's, unless the
      endpoint or the kubeconfig is what it waits for; and it is initialized when the backend says so. */
  lemma ReportsWhatWasRead(c: Context, t: seq<System>, i: nat)
    requires Run(c, t) && 0 < i < |t| && t[i - 1].pass.AtInitialized? && t[i].pass.AtConditions?
    ensures LastSource(t, i - 1).Some?
    ensures var read := t[LastSource(t, i - 1).value];
            var got := read.pass.got;
            && ReportOf(c, t[i].pass.local, got.status, Refers(got) && !Usable(c, read.world, read.pass), t[i].pass.ready, t[i].pass.status)
            && (t[i].world.cp.status.initialized <==>
                t[i - 1].world.cp.status.initialized || (Initializes(c, got) && !t[i - 1].pass.local.status.initialized))
            && t[i].pass.requeue == if !t[i].pass.ready then 15 else if got.watchFailed then 30 else 0
  {
    PassInRun(c, t, i);
    SourceStageHolds(c, t, i - 1);
    InitializedStepReports(c, t[i - 1].world, t[i - 1].pass, t[i - 1].pass.got.status);
  }

  /** The last write of a reconcile: each field of the report arrives exactly when the copy had it
      otherwise or it was stored so, the endpoint and initialization stay, and an event that is due is
      told. */
  lemma ReportIsStored(c: Context, t: seq<System>, i: nat)
    requires Run(c, t) && 0 < i < |t| && t[i - 1].pass.AtConditions? && t[i].pass.Done?
    ensures var p, w, w' := t[i - 1].pass, t[i - 1].world, t[i].world;
            var copy := p.local.status;
            var report := WithReport(c.words, copy, p.local.spec.version, p.status, p.ready);
            && Arrives(w.cp.status.conditions, copy.conditions, report.conditions, w'.cp.status.conditions)
            && Arrives(w.cp.status.failureReason, copy.failureReason, report.failureReason, w'.cp.status.failureReason)
            && Arrives(w.cp.status.failureMessage, copy.failureMessage, report.failureMessage, w'.cp.status.failureMessage)
            && Arrives(w.cp.status.version, copy.version, report.version, w'.cp.status.version)
            && w'.cp.status.initialized == w.cp.status.initialized && w'.cp.spec == w.cp.spec
            && w'.events == w.events + (if p.event.Some? then [p.event.value] else [])
            && t[i].pass.requeue == p.requeue
  {
    PassInRun(c, t, i);
    ReportTells(c.words, t[i - 1].pass.local.status, t[i - 1].pass.local.spec.version, t[i - 1].pass.status,
                t[i - 1].pass.ready, Ready);
  }
}

/** What a reconcile does about the kubeconfig its backend refers to: over every run, and for one that
    nothing interrupts. */
module FacadeSecret {

  import opened Options
  import opened Text
  import opened ControlPlane
  import opened Backends
  import opened Facade
  import opened FacadeSafety
  import opened FacadeFixedPoint
  import opened FacadeProgress
  import Runs

  /** The backend names a kubeconfig secret. */
  predicate Refers(got: Got) {
    got.ref.Some? && got.ref.value.name.Is? && got.ref.value.name.value != ""
  }

  /** The owner Cluster and the source secret are in the control plane's namespace, and the
      source holds a kubeconfig. */
  predicate Usable(c: Context, w: World, p: Pass)
    requires p.AtKubeconfig? && Refers(p.got)
  {
    var ref := p.got.ref.value;
    && p.owner.OwnerIs? && p.owner.cluster.ns == c.self.ns
    && !ref.namespace.WrongType? && Default(OrElse(ref.namespace, ""), c.self.ns) == c.self.ns
    && ref.name.value in w.sources && w.sources[ref.name.value].SourceWith?
    && w.sources[ref.name.value].loadError.None?
  }

  /** What the reads decide. */
  lemma ReadsDecide(c: Context, w: World, p: Pass)
    requires p.AtKubeconfig? && Refers(p.got)
    ensures var p1 := KubeconfigStep(c, w, p);
            && (p1.Idle? || p1.AtSecretCondition? || p1.AtSecret?)
            && (p1.AtSecretCondition? ==> !p1.done && !Usable(c, w, p) && p1.got == p.got)
            && (p1.AtSecret? ==> Usable(c, w, p) && p1.got == p.got && p1.cluster == p.owner.cluster.name
                                 && p1.content == w.sources[p.got.ref.value.name.value].content)
  {
  }

  lemma ConditionIsTold(c: Context, w: World, p: Pass)
    requires p.AtSecretCondition? && Current(w, p)
    ensures var (w', done) := Finish(c, w, p);
            && w'.secrets == w.secrets
            && KubeconfigSecretReconciled in w'.cp.status.conditions
            && w'.cp.status.conditions[KubeconfigSecretReconciled].status == p.done
            && (done.Done? && !p.done ==> !IsReady(w'.cp.status))
  {
    var (w1, p1) := SecretConditionStep(c, w, p);
    StepKept(c, w, p);
    FinishKept(c, w1, p1);
    if !p.done && Finish(c, w, p).1.Done? {
      WaitingIsNotReady(c, w1, p1);
    }
  }

  lemma WaitingIsNotReady(c: Context, w: World, p: Pass)
    requires p.AtEndpoint? && p.kube == KubeWaiting && Current(w, p) && Finish(c, w, p).1.Done?
    ensures !IsReady(Finish(c, w, p).0.cp.status)
  {
    var (w1, p1) := EndpointStep(c, w, p);
    StepKept(c, w, p);
    var (w2, p2) := InitializedStep(c, w1, p1);
    StepKept(c, w1, p1);
    FinishMeaning(c, w2, p2);
  }

  /** When the backend refers to a kubeconfig, a reconcile that works on the stored object and that
      nothing interrupts has told whether it was copied:
      the condition is True exactly when owner and source can be used, and then the Cluster's secret
      holds the source's kubeconfig and is owned by the control plane; otherwise no secret is
      touched, and the control plane is not ready. */
  lemma KubeconfigIsCopied(c: Context, w: World, p: Pass)
    requires p.AtKubeconfig? && Refers(p.got) && Current(w, p) && Finish(c, w, p).1.Done?
    ensures var w' := Finish(c, w, p).0;
            && KubeconfigSecretReconciled in w'.cp.status.conditions
            && (w'.cp.status.conditions[KubeconfigSecretReconciled].status <==> Usable(c, w, p))
            && (IsReady(w'.cp.status) ==> Usable(c, w, p))
            && (!Usable(c, w, p) ==> w'.secrets == w.secrets)
            && (Usable(c, w, p) ==> Copied(c, w, w', p.owner.cluster.name, w.sources[p.got.ref.value.name.value].content))
  {
    ReadsDecide(c, w, p);
    StepKept(c, w, p);
    var p1 := KubeconfigStep(c, w, p);
    if p1.AtSecretCondition? {
      ConditionIsTold(c, w, p1);
    } else if p1.AtSecret? {
      StepKept(c, w, p1);
      SecretIsWritten(c, w, p1);
      ConditionIsTold(c, SecretStep(c, w, p1).0, SecretStep(c, w, p1).1);
    }
  }

  /** The Cluster's secret holds the kubeconfig and is ours; all others are as they were. */
  predicate Copied(c: Context, w: World, w': World, cluster: string, content: string) {
    var name := SecretName(cluster);
    && TrimSpace(cluster) != "" && name == Some(TrimSpace(cluster) + "-kubeconfig") && name.value in w'.secrets
    && w'.secrets[name.value].kind == "cluster.x-k8s.io/secret"
    && (name.value in w.secrets ==>
          w'.secrets[name.value].data - {DATA_KEY} == w.secrets[name.value].data - {DATA_KEY})
    && DATA_KEY in w'.secrets[name.value].data && w'.secrets[name.value].data[DATA_KEY] == content
    && w'.secrets[name.value].cluster == Some(cluster)
    && ControllerRef(c.self) in w'.secrets[name.value].owners
    && w'.secrets - {name.value} == w.secrets - {name.value}
  }

  lemma SecretIsWritten(c: Context, w: World, p: Pass)
    requires p.AtSecret? && Finish(c, w, p).1.Done?
    ensures var (w1, p1) := SecretStep(c, w, p);
            p1.AtSecretCondition? && p1.done && Copied(c, w, w1, p.cluster, p.content)
  {
    var name := SecretName(p.cluster).value;
    var existing := if name in w.secrets then Some(w.secrets[name]) else None;
    UpsertSecretOwns(existing, c.self, p.cluster, p.content);
  }

  // ---- over runs ----

  /** The last state in which a reconcile was about to read the kubeconfig's source. */
  function LastSource(t: seq<System>, i: nat): (r: Option<nat>)
    requires i < |t|
    ensures r.Some? ==> r.value <= i && t[r.value].pass.AtKubeconfig?
  {
    if t[i].pass.AtKubeconfig? then Some(i) else if i == 0 then None else LastSource(t, i - 1)
  }

  /** Between that read and the report. */
  predicate PastSource(p: Pass) { p.AtKubeconfig? || p.AtSecret? || p.AtSecretCondition? || p.AtEndpoint? || p.AtInitialized? }

  predicate KubeOk(c: Context, read: System, kube: Kube)
    requires read.pass.AtKubeconfig?
  {
    if !Refers(read.pass.got) then kube == KubeOff
    else kube == if Usable(c, read.world, read.pass) then KubeDone else KubeWaiting
  }

  /** What the endpoint step makes of the backend's status: an endpoint that cannot be read makes it not
      ready and says so. */
  predicate AfterEndpoint(c: Context, s: InstanceStatus, status: InstanceStatus, valid: bool) {
    var e := c.parse(s.endpoint);
    if s.endpoint != "" && e.Err? then
      && !valid && !status.ready && status.endpoint == s.endpoint && status.terminal == s.terminal
      && status.reason == c.words.notice(EndpointInvalid(e.error)).reason
      && status.message == c.words.notice(EndpointInvalid(e.error)).message
    else valid && status == s
  }

  /** What the pass of a reconcile tells of what it read. */
  predicate SourceStage(c: Context, read: System, p: Pass)
    requires read.pass.AtKubeconfig? && PastSource(p)
  {
    && p.got == read.pass.got
    && match p
       case AtKubeconfig(_, _, _) => true
       case AtSecret(_, _, cluster, content) =>
         && Refers(read.pass.got) && Usable(c, read.world, read.pass) && cluster == read.pass.owner.cluster.name
         && content == read.world.sources[read.pass.got.ref.value.name.value].content
       case AtSecretCondition(_, _, done, _) => Refers(read.pass.got) && (done <==> Usable(c, read.world, read.pass))
       case AtEndpoint(_, _, kube) => KubeOk(c, read, kube)
       case AtInitialized(_, got, kube, status, valid) => KubeOk(c, read, kube) && AfterEndpoint(c, got.status, status, valid)
  }

  lemma SourceStageAfter(c: Context, read: System, s: System)
    requires read.pass.AtKubeconfig? && PastSource(s.pass) && SourceStage(c, read, s.pass)
    requires s.pass.AtKubeconfig? ==> read == s
    ensures var p := Step(c, s.world, s.pass).1; PastSource(p) ==> SourceStage(c, read, p)
  {
    if s.pass.AtKubeconfig? && Refers(s.pass.got) {
      ReadsDecide(c, s.world, s.pass);
    }
  }

  lemma {:induction false} SourceStageHolds(c: Context, t: seq<System>, i: nat)
    requires Run(c, t) && i < |t| && PastSource(t[i].pass)
    ensures LastSource(t, i).Some? && SourceStage(c, t[LastSource(t, i).value], t[i].pass)
  {
    StartsIdle(c, t);
    if !t[i].pass.AtKubeconfig? {
      PassInRun(c, t, i);
      SourceStageHolds(c, t, i - 1);
      if t[i].pass != t[i - 1].pass {
        SourceStageAfter(c, t[LastSource(t, i - 1).value], t[i - 1]);
      }
    }
  }

  /** In every run, whatever happens between its writes and however old its copy is, a reconcile tells
      that the kubeconfig was copied exactly when owner and source could be used as it read them; the
      store has the condition as told exactly when the copy had it otherwise, or the store has it so. */
  lemma KubeconfigIsTold(c: Context, t: seq<System>, i: nat)
    requires Run(c, t) && 0 < i < |t| && t[i - 1].pass.AtSecretCondition? && t[i].pass.AtEndpoint?
    ensures LastSource(t, i - 1).Some?
    ensures var read, p := t[LastSource(t, i - 1).value], t[i - 1].pass;
            var n := c.words.notice(p.subject);
            var told := Condition(p.done, n.reason, n.message);
            && Refers(read.pass.got) && (p.done <==> Usable(c, read.world, read.pass))
            && (Told(t[i].world.cp.status, KubeconfigSecretReconciled, told) <==>
                !Told(p.local.status, KubeconfigSecretReconciled, told)
                || Told(t[i - 1].world.cp.status, KubeconfigSecretReconciled, told))
  {
    PassInRun(c, t, i);
    SourceStageHolds(c, t, i - 1);
    ConditionIsStored(c, t[i - 1].world, t[i - 1].pass);
  }

  lemma ConditionIsStored(c: Context, w: World, p: Pass)
    requires p.AtSecretCondition?
    ensures var n := c.words.notice(p.subject);
            var told := Condition(p.done, n.reason, n.message);
            Told(SecretConditionStep(c, w, p).0.cp.status, KubeconfigSecretReconciled, told) <==>
              !Told(p.local.status, KubeconfigSecretReconciled, told) || Told(w.cp.status, KubeconfigSecretReconciled, told)
  {
    var n := c.words.notice(p.subject);
    var told := Condition(p.done, n.reason, n.message);
    var before := p.local.status;
    if Told(before, KubeconfigSecretReconciled, told) {
      assert Tell(before, KubeconfigSecretReconciled, told).conditions == before.conditions;
    } else {
      assert Told(Tell(before, KubeconfigSecretReconciled, told), KubeconfigSecretReconciled, told);
    }
  }

  /** A secret is written only where owner and source could be used, and then the Cluster's secret
      holds what was read. */
  lemma KubeconfigIsWritten(c: Context, t: seq<System>, i: nat)
    requires Run(c, t) && 0 < i < |t| && t[i - 1].pass.AtSecret? && t[i].pass.AtSecretCondition?
    ensures LastSource(t, i - 1).Some?
    ensures var read := t[LastSource(t, i - 1).value];
            && Refers(read.pass.got) && Usable(c, read.world, read.pass)
            && Copied(c, t[i - 1].world, t[i].world, read.pass.owner.cluster.name,
                      read.world.sources[read.pass.got.ref.value.name.value].content)
  {
    PassInRun(c, t, i);
    SourceStageHolds(c, t, i - 1);
    WritesTheSecret(c, t[i - 1].world, t[i - 1].pass);
  }

  lemma WritesTheSecret(c: Context, w: World, p: Pass)
    requires p.AtSecret? && SecretStep(c, w, p).1.AtSecretCondition?
    ensures Copied(c, w, SecretStep(c, w, p).0, p.cluster, p.content)
  {
    var name := SecretName(p.cluster).value;
    UpsertSecretOwns(if name in w.secrets then Some(w.secrets[name]) else None, c.self, p.cluster, p.content);
  }

  /** No other step of a reconcile touches a secret. */
  lemma OnlyThereWritten(c: Context, w: World, p: Pass)
    requires HasLocal(p) && Step(c, w, p).0.secrets != w.secrets
    ensures p.AtSecret? && Step(c, w, p).1.AtSecretCondition?
  {
  }

  /** A control plane whose backend refers to a kubeconfig is told ready only when it could be copied. */
  lemma ReadyNeedsKubeconfig(c: Context, t: seq<System>, i: nat)
    requires Run(c, t) && 0 < i < |t| && t[i - 1].pass.AtInitialized? && t[i].pass.AtConditions? && t[i].pass.ready
    ensures LastSource(t, i - 1).Some?
    ensures var read := t[LastSource(t, i - 1).value]; Refers(read.pass.got) ==> Usable(c, read.world, read.pass)
  {
    PassInRun(c, t, i);
    SourceStageHolds(c, t, i - 1);
  }
}

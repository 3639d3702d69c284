/** What a reconcile of the facade says when its spec, its definition or its kubeconfig stops it, over every run. */
module FacadeRefusals {

  import opened Options
  import opened Text
  import opened Endpoint
  import opened JsonTree
  import opened ControlPlane
  import opened Backends
  import opened Facade
  import opened FacadeSafety
  import opened FacadeProgress
  import opened FacadeSecret

  // ---- the spec ----

  /** Why a document cannot be used. */
  predicate HasProblem(raw: RawSpec, problem: SpecProblem) {
    match problem
    case NotJson(error) => raw == Malformed(error)
    case NullDocument => raw == Document(Null)
    case NotAnObject(text) => raw == Document(Leaf(text))
  }

  predicate TwoSlashes(s: string) { exists i, j :: 0 <= i < j < |s| && s[i] == s[j] == '/' }

  /** What is wrong with the spec as far as it can be looked at, the first thing first. */
  predicate Refuses(spec: CpSpec, rgds: map<string, RgdObs>, x: Subject) {
    var kro := spec.rgd.Some? && spec.kubeadm.None? && spec.external.None?;
    var external := spec.rgd.None? && spec.kubeadm.None? && spec.external.Some?;
    match x
    case NoBackendSelected => spec.rgd.None? && spec.kubeadm.None? && spec.external.None?
    case ManyBackendsSelected =>
      || (spec.rgd.Some? && (spec.kubeadm.Some? || spec.external.Some?))
      || (spec.kubeadm.Some? && spec.external.Some?)
    case RgdMissing(name) => kro && spec.rgd == Some(name) && name !in rgds
    case RgdBroken(error) => kro && spec.rgd.value in rgds && rgds[spec.rgd.value] == RgdInvalid(error)
    case KroSpecInvalid(problem) =>
      kro && spec.rgd.value in rgds && rgds[spec.rgd.value].RgdFound? && HasProblem(spec.kroSpec, problem)
    case ExternalVersionInvalid(apiVersion) =>
      external && spec.external.value.apiVersion == apiVersion && TwoSlashes(apiVersion)
    case ExternalKindMissing =>
      external && !TwoSlashes(spec.external.value.apiVersion) && spec.external.value.kind == ""
    case ExternalSpecInvalid(problem) =>
      && external && !TwoSlashes(spec.external.value.apiVersion) && spec.external.value.kind != ""
      && HasProblem(spec.external.value.spec, problem)
    case _ => false
  }

  function Problem(plan: Plan): Option<Subject> {
    match plan
    case Unselected(x) => Some(x)
    case Unresolved(x) => Some(x)
    case Refused(x) => Some(x)
    case _ => None
  }

  lemma SlashesAreRefused(s: string)
    ensures ParseGroupVersion(s).None? <==> TwoSlashes(s)
  {
    var i := Find(s, '/');
    if TwoSlashes(s) {
      var a, b :| 0 <= a < b < |s| && s[a] == s[b] == '/';
      assert i <= a && s[i + 1..][b - i - 1] == '/';
    }
  }

  lemma ProblemIsFound(spec: CpSpec, owner: OwnerObs, rgds: map<string, RgdObs>, x: Subject)
    ensures Problem(PlanOf(spec, owner, rgds)) == Some(x) <==> Refuses(spec, rgds, x)
  {
    if spec.external.Some? {
      SlashesAreRefused(spec.external.value.apiVersion);
    }
  }

  /** What a reconcile that stops at its spec goes on to write: not ready, with the reason; run again only
      where an edit of the spec is not what is waited for, and an event unless Ready says it already. */
  predicate StopsAtSpec(c: Context, local: Cp, x: Subject, p: Pass) {
    var n := c.words.notice(x);
    && p.AtConditions? && p.local == local && !p.ready
    && p.status == InstanceStatus(false, "", n.reason, n.message, false)
    && if x.NoBackendSelected? || x.ManyBackendsSelected? then p.requeue == 15 && p.event == None
       else
         && p.requeue == 0
         && p.event == if Told(local.status, Ready, Condition(false, n.reason, n.message)) then None
                       else Some(Event(true, n.reason, n.message))
  }

  lemma StopsWhereRefused(c: Context, w: World, p: Pass, x: Subject)
    requires p.AtBackend? && Refuses(p.local.spec, w.rgds, x)
    ensures var (w', p') := BackendStep(c, w, p);
            && w' == w
            && if x.RgdMissing? || x.RgdBroken? then p' == AtRgd(p.local, x) else StopsAtSpec(c, p.local, x, p')
  {
    ProblemIsFound(p.local.spec, p.owner, w.rgds, x);
  }

  lemma StopsOnlyWhereRefused(c: Context, w: World, p: Pass) returns (x: Subject)
    requires p.AtBackend? && (BackendStep(c, w, p).1.AtConditions? || BackendStep(c, w, p).1.AtRgd?)
    ensures Refuses(p.local.spec, w.rgds, x)
  {
    x := Problem(PlanOf(p.local.spec, p.owner, w.rgds)).value;
    ProblemIsFound(p.local.spec, p.owner, w.rgds, x);
  }

  /** In every run a reconcile stops at its backend exactly when something is wrong with the spec or the
      definition as it read them, and goes on to say that; it has written nothing before. */
  lemma SpecIsRefused(c: Context, t: seq<System>, i: nat) returns (x: Subject)
    requires Run(c, t) && 0 < i < |t| && t[i - 1].pass.AtBackend? && (t[i].pass.AtConditions? || t[i].pass.AtRgd?)
    ensures Refuses(t[i - 1].pass.local.spec, t[i - 1].world.rgds, x)
    ensures t[i].world == t[i - 1].world
    ensures var local := t[i - 1].pass.local;
            if x.RgdMissing? || x.RgdBroken? then t[i].pass == AtRgd(local, x)
            else StopsAtSpec(c, local, x, t[i].pass)
  {
    PassInRun(c, t, i);
    x := StopsOnlyWhereRefused(c, t[i - 1].world, t[i - 1].pass);
    StopsWhereRefused(c, t[i - 1].world, t[i - 1].pass, x);
  }

  /** A reconcile that gets past its backend has a spec with nothing wrong. */
  lemma NothingWrongBeyond(c: Context, t: seq<System>, i: nat, x: Subject)
    requires Run(c, t) && 0 < i < |t| && t[i - 1].pass.AtBackend? && t[i].pass.AtKubeconfig?
    ensures !Refuses(t[i - 1].pass.local.spec, t[i - 1].world.rgds, x)
  {
    PassInRun(c, t, i);
    if Refuses(t[i - 1].pass.local.spec, t[i - 1].world.rgds, x) {
      StopsWhereRefused(c, t[i - 1].world, t[i - 1].pass, x);
    }
  }

  // ---- the definition ----

  /** What is wrong with the definition is stored in a condition of its own, only over the version that was
      read; an event tells it unless that version did; and the reconcile runs again in 30 seconds. */
  lemma DefinitionIsTold(c: Context, t: seq<System>, i: nat)
    requires Run(c, t) && 0 < i < |t| && t[i - 1].pass.AtRgd? && t[i].pass.Done?
    ensures var (w, w', p) := (t[i - 1].world, t[i].world, t[i - 1].pass);
            var n := c.words.notice(p.subject);
            var told := Condition(false, n.reason, n.message);
            && p.local == w.cp && t[i].pass == Done(30)
            && ResourceGraphDefinitionResolved in w'.cp.status.conditions
            && w'.cp.status.conditions[ResourceGraphDefinitionResolved] == told
            && w'.cp.status.conditions - {ResourceGraphDefinitionResolved} == w.cp.status.conditions - {ResourceGraphDefinitionResolved}
            && w'.cp == w.cp.(status := w.cp.status.(conditions := w'.cp.status.conditions))
            && w'.events == w.events + (if Told(w.cp.status, ResourceGraphDefinitionResolved, told) then []
                                        else [Event(n.warning, n.reason, n.message)])
            && w' == w.(cp := w'.cp, events := w'.events)
  {
    PassInRun(c, t, i);
  }

  // ---- the kubeconfig ----

  /** Why a kubeconfig the backend refers to cannot be copied, the first thing first. */
  predicate Withholds(c: Context, w: World, owner: OwnerObs, ref: SecretRef, x: Subject)
    requires ref.name.Is?
  {
    var home := owner.OwnerIs? && owner.cluster.ns == c.self.ns;
    var ns := if ref.namespace.Is? && ref.namespace.value != "" then ref.namespace.value else c.self.ns;
    var local := home && !ref.namespace.WrongType? && ns == c.self.ns;
    var path := ns + "/" + ref.name.value;
    var read := local && ref.name.value in w.sources;
    match x
    case OwnerMissing(error) => owner == OwnerNotFound(error)
    case OwnerFailed(error) => owner == OwnerGetFailed(error)
    case OwnerUnset => owner == OwnerNotSet
    case OwnerElsewhere(clusterNs, selfNs) =>
      owner.OwnerIs? && owner.cluster.ns == clusterNs && selfNs == c.self.ns && clusterNs != selfNs
    case SourceElsewhere(p, selfNs) =>
      home && !ref.namespace.WrongType? && ns != c.self.ns && p == path && selfNs == c.self.ns
    case SourceMissing(p) => local && ref.name.value !in w.sources && p == path
    case SourceFailed(p, error) => read && w.sources[ref.name.value] == SourceGetFailed(error) && p == path
    case SourceEmpty(p) => read && w.sources[ref.name.value].SourceWithout? && p == path
    case SourceInvalid(p, error) =>
      read && w.sources[ref.name.value].SourceWith? && w.sources[ref.name.value].loadError == Some(error) && p == path
    case _ => false
  }

  /** In every run a reconcile tells why the kubeconfig could not be copied. */
  lemma KubeconfigIsWithheld(c: Context, t: seq<System>, i: nat)
    requires Run(c, t) && 0 < i < |t| && t[i - 1].pass.AtKubeconfig? && t[i].pass.AtSecretCondition?
    ensures Refers(t[i - 1].pass.got) && !t[i].pass.done && t[i].world == t[i - 1].world
    ensures Withholds(c, t[i - 1].world, t[i - 1].pass.owner, t[i - 1].pass.got.ref.value, t[i].pass.subject)
  {
    PassInRun(c, t, i);
  }

  /** The condition says so, as the subject is worded; an event tells it unless the copy said it already. */
  lemma WithheldIsTold(c: Context, t: seq<System>, i: nat)
    requires Run(c, t) && 0 < i < |t| && t[i - 1].pass.AtSecretCondition? && t[i].pass.AtEndpoint?
    ensures var (w, w', p) := (t[i - 1].world, t[i].world, t[i - 1].pass);
            var n := c.words.notice(p.subject);
            && w'.events == w.events +
                 (if Told(p.local.status, KubeconfigSecretReconciled, Condition(p.done, n.reason, n.message)) then []
                  else [Event(n.warning, n.reason, n.message)])
            && w'.cp == w.cp.(status := w.cp.status.(conditions := w'.cp.status.conditions))
            && w' == w.(cp := w'.cp, events := w'.events)
  {
    PassInRun(c, t, i);
  }
}

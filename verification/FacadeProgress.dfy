/** When a completed reconcile asks to be run again: over every run, and for one that nothing
    interrupts. */
module FacadeProgress {

  import opened Options
  import opened ControlPlane
  import opened Backends
  import opened Facade
  import opened FacadeSafety
  import opened FacadeFixedPoint
  import Runs

  /** What the requeue of a completed reconcile says, seen from where it stood at `p`. */
  predicate Meaning(w: World, p: Pass, w': World, requeue: nat) {
    var ready := IsReady(w'.cp.status);
    match p
    case Idle => false
    case Done(r) => requeue == r
    case AtConditions(_, _, r, n, _) => requeue == n && ready == r
    case AtRgd(_, _) => requeue == RGD_REQUEUE
    case AtBackend(_, _) =>
      var plan := PlanOf(p.local.spec, p.owner, w.rgds);
      match plan {
        case Unselected(_) => requeue == NOT_READY_REQUEUE && !ready
        case Unresolved(_) => requeue == RGD_REQUEUE
        case Refused(_) => requeue == 0 && !ready
        case WithInstance(_, _) => Waits(w.watchFails, ready, requeue)
        case WithKubeadm(_) => Waits(w.watchFails, ready, requeue)
      }
    case AtKubeconfig(_, _, got) => Waits(got.watchFailed, ready, requeue)
    case AtSecret(_, got, _, _) => Waits(got.watchFailed, ready, requeue)
    case AtSecretCondition(_, got, _, _) => Waits(got.watchFailed, ready, requeue)
    case AtEndpoint(_, got, _) => Waits(got.watchFailed, ready, requeue)
    case AtInitialized(_, got, _, _, _) => Waits(got.watchFailed, ready, requeue)
  }

  predicate Waits(watchFailed: bool, ready: bool, requeue: nat) {
    requeue == if !ready then NOT_READY_REQUEUE else if watchFailed then WATCH_REQUEUE else 0
  }

  lemma ConditionsMeaning(c: Context, w: World, p: Pass)
    requires p.AtConditions? && Current(w, p)
    ensures Meaning(w, p, ConditionsStep(c, w, p).0, p.requeue)
  {
    ReportHasShape(c.words, p.local.status, p.local.spec.version, p.status, p.ready);
  }

  /** The watch's failure is handed on as it was seen. */
  lemma WatchIsHandedOn(c: Context, w: World, p: Pass)
    requires p.AtBackend? && BackendStep(c, w, p).1.AtKubeconfig?
    ensures BackendStep(c, w, p).1.got.watchFailed == w.watchFails
  {
  }

  lemma StepMeaning(c: Context, w: World, p: Pass, w': World, requeue: nat)
    requires HasLocal(p) && !p.AtConditions?
    requires Meaning(Step(c, w, p).0, Step(c, w, p).1, w', requeue)
    ensures Meaning(w, p, w', requeue)
  {
    if p.AtBackend? && BackendStep(c, w, p).1.AtKubeconfig? {
      WatchIsHandedOn(c, w, p);
    }
  }

  lemma {:induction false} FinishMeaning(c: Context, w: World, p: Pass)
    requires Current(w, p) && Finish(c, w, p).1.Done?
    ensures Meaning(w, p, Finish(c, w, p).0, Finish(c, w, p).1.requeue)
    decreases Rank(p)
  {
    if p.AtConditions? {
      ConditionsMeaning(c, w, p);
    } else if HasLocal(p) {
      StepDescends(c, w, p);
      StepKept(c, w, p);
      var next := Step(c, w, p);
      FinishMeaning(c, next.0, next.1);
      StepMeaning(c, w, p, Finish(c, w, p).0, Finish(c, w, p).1.requeue);
    }
  }

  /** The backend was reached and its watch is in place. */
  predicate WatchEnsured(w: World) {
    var plan := PlanOf(w.cp.spec, w.owner, w.rgds);
    (plan.WithInstance? || plan.WithKubeadm?) && !w.watchFails
  }

  /** A reconcile from the stored object that nothing interrupts ends without a requeue exactly when it
      left the control plane ready with the watch ensured, or recorded that the spec is invalid. */
  lemma UninterruptedRequeue(c: Context, w: World)
    requires Reconcile(c, w).1.Done?
    ensures var (w', done) := Reconcile(c, w);
            (done.requeue == 0 <==>
            (IsReady(w'.cp.status) && WatchEnsured(w)) || PlanOf(w.cp.spec, w.owner, w.rgds).Refused?)
    ensures Reconcile(c, w).1.requeue in {0, 15, 30}
  {
    FinishMeaning(c, w, Start(w.cp, w.owner));
  }

  // ---- over runs ----

  /** The last state in which a reconcile was about to read its backend. */
  function LastRead(t: seq<System>, i: nat): (r: Option<nat>)
    requires i < |t|
    ensures r.Some? ==> r.value <= i && t[r.value].pass.AtBackend?
  {
    if t[i].pass.AtBackend? then Some(i) else if i == 0 then None else LastRead(t, i - 1)
  }

  /** What the reconcile made of its copy's spec and what it read. */
  function ReadPlan(read: System): Plan
    requires read.pass.AtBackend?
  {
    PlanOf(read.pass.local.spec, read.pass.owner, read.world.rgds)
  }

  predicate HasBackend(plan: Plan) { plan.WithInstance? || plan.WithKubeadm? }

  /** What the pass of a reconcile tells of what it read. */
  predicate Stage(read: System, p: Pass)
    requires read.pass.AtBackend?
  {
    var plan := ReadPlan(read);
    match p
    case Idle => true
    case Done(_) => true
    case AtBackend(_, _) => true
    case AtRgd(_, _) => plan.Unresolved?
    case AtKubeconfig(_, _, got) => SeesBackend(read, got)
    case AtSecret(_, got, _, _) => SeesBackend(read, got)
    case AtSecretCondition(_, got, _, _) => SeesBackend(read, got)
    case AtEndpoint(_, got, _) => SeesBackend(read, got)
    case AtInitialized(_, got, _, _, _) => SeesBackend(read, got)
    case AtConditions(_, _, ready, n, _) =>
      match plan {
        case Unselected(_) => n == NOT_READY_REQUEUE && !ready
        case Unresolved(_) => false
        case Refused(_) => n == 0 && !ready
        case WithInstance(_, _) => Waits(read.world.watchFails, ready, n)
        case WithKubeadm(_) => Waits(read.world.watchFails, ready, n)
      }
  }

  predicate SeesBackend(read: System, got: Got)
    requires read.pass.AtBackend?
  {
    HasBackend(ReadPlan(read)) && got.watchFailed == read.world.watchFails
  }

  predicate Worked(c: Context, s: System, s': System) {
    HasLocal(s.pass) && s' == System(Step(c, s.world, s.pass).0, s.cache, Step(c, s.world, s.pass).1)
  }

  /** Where a pass comes from. */
  lemma PassInRun(c: Context, t: seq<System>, i: nat)
    requires Run(c, t) && 0 < i < |t|
    ensures t[i].pass.Idle? || t[i].pass.AtBackend? || t[i].pass == t[i - 1].pass || Worked(c, t[i - 1], t[i])
    ensures HasLocal(t[i - 1].pass) && t[i].pass.Done? ==> Worked(c, t[i - 1], t[i])
  {
    assert Runs.StepAt(NextOf(c), t, i);
  }

  lemma StartsIdle(c: Context, t: seq<System>)
    requires Run(c, t)
    ensures t[0].pass.Idle?
  {
  }

  lemma {:induction false} StageHolds(c: Context, t: seq<System>, i: nat)
    requires Run(c, t) && i < |t| && HasLocal(t[i].pass)
    ensures LastRead(t, i).Some? && Stage(t[LastRead(t, i).value], t[i].pass)
  {
    StartsIdle(c, t);
    if !t[i].pass.AtBackend? {
      PassInRun(c, t, i);
      StageHolds(c, t, i - 1);
      StageAfter(c, t[LastRead(t, i - 1).value], t[i - 1], t[i].pass);
    }
  }

  lemma StageAfter(c: Context, read: System, s: System, p: Pass)
    requires read.pass.AtBackend? && HasLocal(s.pass) && Stage(read, s.pass) && (s.pass.AtBackend? ==> read == s)
    requires p == s.pass || p == Step(c, s.world, s.pass).1
    ensures Stage(read, p)
  {
    if p != s.pass {
      if s.pass.AtBackend? && BackendStep(c, s.world, s.pass).1.AtKubeconfig? {
        WatchIsHandedOn(c, s.world, s.pass);
      }
    }
  }

  /** A reconcile completes with the step to this state. */
  predicate Completed(t: seq<System>, i: nat) { 0 < i < |t| && HasLocal(t[i - 1].pass) && t[i].pass.Done? }

  predicate ToldReady(p: Pass) { p.AtConditions? && p.ready }

  /** What the reconcile read lets it rest: it reached its backend and the watch is in place. */
  predicate Watched(read: System)
    requires read.pass.AtBackend?
  {
    HasBackend(ReadPlan(read)) && !read.world.watchFails
  }

  /** The last step of a reconcile. */
  lemma LastStep(c: Context, t: seq<System>, i: nat)
    requires Run(c, t) && Completed(t, i)
    ensures var p := t[i - 1].pass; (p.AtRgd? || p.AtConditions?) && t[i].world == Step(c, t[i - 1].world, p).0
    ensures var p := t[i - 1].pass; t[i].pass == Done(if p.AtRgd? then RGD_REQUEUE else p.requeue)
    ensures LastRead(t, i - 1).Some? && Stage(t[LastRead(t, i - 1).value], t[i - 1].pass)
  {
    PassInRun(c, t, i);
    StageHolds(c, t, i - 1);
  }

  /** In every run, whatever happens between its writes and however old its copy is: a completed
      reconcile ends without a requeue exactly when it told that the control plane is ready and has
      the watch ensured, or that the spec as it read it is invalid. */
  lemma RequeueUnlessTold(c: Context, t: seq<System>, i: nat)
    requires Run(c, t) && Completed(t, i)
    ensures t[i].pass.requeue in {0, 15, 30} && LastRead(t, i - 1).Some?
    ensures var read := t[LastRead(t, i - 1).value];
            (t[i].pass.requeue == 0 <==>
            (ToldReady(t[i - 1].pass) && Watched(read)) || ReadPlan(read).Refused?)
  {
    LastStep(c, t, i);
  }

  /** The patch carries the conditions, or they are stored as told. */
  predicate TellsTheStore(c: Context, w: World, p: Pass)
    requires p.AtConditions?
  {
    || WithReport(c.words, p.local.status, p.local.spec.version, p.status, p.ready).conditions != p.local.status.conditions
    || (IsReady(w.cp.status) <==> p.ready)
  }

  lemma ToldIsStored(c: Context, w: World, p: Pass)
    requires p.AtConditions?
    ensures (IsReady(ConditionsStep(c, w, p).0.cp.status) <==> p.ready) <==> TellsTheStore(c, w, p)
    ensures p.local.status == w.cp.status ==> TellsTheStore(c, w, p)
  {
    ReportHasShape(c.words, p.local.status, p.local.spec.version, p.status, p.ready);
  }

  /** The stored control plane is ready and watched, or its spec was refused. */
  predicate Settled(w: World, read: System)
    requires read.pass.AtBackend?
  {
    (IsReady(w.cp.status) && Watched(read)) || ReadPlan(read).Refused?
  }

  /** In every run the requeue of a completed reconcile is right about the store, none exactly when the
      control plane is settled, exactly when the last write told the store; only a reconcile that
      reached its backend and has its watch depends on that. */
  lemma RequeueUnlessSettled(c: Context, t: seq<System>, i: nat)
    requires Run(c, t) && Completed(t, i)
    ensures LastRead(t, i - 1).Some? && (t[i - 1].pass.AtRgd? || t[i - 1].pass.AtConditions?)
    ensures var read, p := t[LastRead(t, i - 1).value], t[i - 1].pass;
            (t[i].pass.requeue == 0 <==> Settled(t[i].world, read)) <==>
            (Watched(read) && p.AtConditions? ==> TellsTheStore(c, t[i - 1].world, p))
  {
    LastStep(c, t, i);
    RequeueUnlessTold(c, t, i);
    var p := t[i - 1].pass;
    if p.AtConditions? {
      ToldIsStored(c, t[i - 1].world, p);
    }
  }

  /** No stuck state: in every run whose reconciles start from the stored status, with other actors
      between their writes, a completed reconcile ends without a requeue exactly when the stored
      control plane is settled. */
  lemma NeverStuck(c: Context, t: seq<System>, i: nat)
    requires FreshRun(c, t) && Completed(t, i)
    ensures LastRead(t, i - 1).Some?
    ensures t[i].pass.requeue == 0 <==> Settled(t[i].world, t[LastRead(t, i - 1).value])
  {
    assert Run(c, t);
    RequeueUnlessSettled(c, t, i);
    if t[i - 1].pass.AtConditions? {
      FreshReachesStore(c, t, i - 1);
    }
  }

  lemma FreshReachesStore(c: Context, t: seq<System>, i: nat)
    requires FreshRun(c, t) && i < |t| && t[i].pass.AtConditions?
    ensures TellsTheStore(c, t[i].world, t[i].pass)
  {
    ReadyHasNoFailure(c, t, i);
    ToldIsStored(c, t[i].world, t[i].pass);
  }

  /** The spec is refused exactly when the selected backend's part of it cannot be used. */
  lemma RefusedSpecs(spec: CpSpec, owner: OwnerObs, rgds: map<string, RgdObs>)
    ensures PlanOf(spec, owner, rgds).Refused? <==>
              match Selected(spec)
              case NoBackend => false
              case Kubeadm => false
              case Kro => spec.rgd.value in rgds && rgds[spec.rgd.value].RgdFound? && ParseSpecObject(spec.kroSpec).Invalid?
              case External =>
                ParseGroupVersion(spec.external.value.apiVersion).None? || spec.external.value.kind == ""
                || ParseSpecObject(spec.external.value.spec).Invalid?
  {
  }
}

/** What a reconcile of the builtin kubeadm backend decides, over every run: when it initializes, what it
    reports, and when it asks to be run again. */
module KubeadmProgress {

  import opened Options
  import opened Endpoint
  import opened ControlPlane
  import opened Backends
  import opened Facade
  import opened KubeadmController
  import Runs

  predicate Worked(s: KSystem, s': KSystem) {
    Active(s.pass) && s' == KSystem(KStep(s.world, s.pass).0, s.cache, KStep(s.world, s.pass).1)
  }

  /** Where a pass comes from. */
  lemma PassInRun(rule: Rule, t: seq<KSystem>, i: nat)
    requires KRun(rule, t) && 0 < i < |t|
    ensures Worked(t[i - 1], t[i])
            || (t[i].world.cp.status == t[i - 1].world.cp.status && t[i].world.cp.endpoint == t[i - 1].world.cp.endpoint
                && (t[i].pass.KIdle? || t[i].pass.KOwner? || t[i].pass == t[i - 1].pass))
  {
    assert Runs.StepAt(KNextOf(rule), t, i);
  }

  lemma StartsIdle(rule: Rule, t: seq<KSystem>)
    requires KRun(rule, t)
    ensures t[0].pass.KIdle?
  {
  }

  /** From the owner's condition on, the copy shows the stored endpoint and status. */
  predicate Fresh(s: KSystem) {
    Active(s.pass) && !s.pass.KOwner? ==>
      s.pass.local.status == s.world.cp.status && s.pass.local.endpoint == s.world.cp.endpoint
  }

  lemma StepIsFresh(s: KSystem, s': KSystem)
    requires Worked(s, s') && Fresh(s)
    ensures Fresh(s')
  {
  }

  lemma {:induction false} CopiesAreFresh(rule: Rule, t: seq<KSystem>, i: nat)
    requires KRun(rule, t) && i < |t|
    ensures Fresh(t[i])
  {
    StartsIdle(rule, t);
    if i > 0 {
      CopiesAreFresh(rule, t, i - 1);
      PassInRun(rule, t, i);
      if Worked(t[i - 1], t[i]) {
        StepIsFresh(t[i - 1], t[i]);
      }
    }
  }

  // ---- what a pass has read ----

  /** The state in which the pass that stands at `i` was about to look at the probe. */
  function ProbeOf(t: seq<KSystem>, i: nat): (r: Option<nat>)
    requires i < |t|
    ensures r.Some? ==> r.value <= i && t[r.value].pass.KProbe?
  {
    if t[i].pass.KProbe? then Some(i) else if t[i].pass.KOwner? || i == 0 then None else ProbeOf(t, i - 1)
  }

  /** And at the machines. */
  function MachinesOf(t: seq<KSystem>, i: nat): (r: Option<nat>)
    requires i < |t|
    ensures r.Some? ==> r.value <= i && t[r.value].pass.KMachines?
  {
    if t[i].pass.KMachines? then Some(i) else if t[i].pass.KOwner? || i == 0 then None else MachinesOf(t, i - 1)
  }

  /** The pass had an endpoint, and saw an initialized copy or the probe succeed. */
  predicate SawProbe(t: seq<KSystem>, i: nat)
    requires i < |t|
  {
    var j := ProbeOf(t, i);
    && j.Some? && t[j.value].pass.local.endpoint.host != "" && t[j.value].pass.local.endpoint.port > 0
    && (t[j.value].pass.local.status.initialized || t[j.value].world.probe)
  }

  /** It had an endpoint and saw neither, and looked at the machines. */
  predicate AskedMachines(t: seq<KSystem>, i: nat)
    requires i < |t|
  {
    var j := ProbeOf(t, i);
    && j.Some? && t[j.value].pass.local.endpoint.host != "" && t[j.value].pass.local.endpoint.port > 0
    && !t[j.value].pass.local.status.initialized && !t[j.value].world.probe && MachinesOf(t, i).Some?
  }

  /** What it has to report. */
  predicate IsVerdict(t: seq<KSystem>, i: nat, why: Why)
    requires i < |t|
  {
    if SawProbe(t, i) then why == AllGood
    else if AskedMachines(t, i) then
      match t[MachinesOf(t, i).value].world.machines {
        case ListFailed(error) => why == MachinesUnknown(error)
        case Listed(anyReady) => why == if anyReady then AllGood else WaitingForProbe
      }
    else
      && why == WaitingForEndpoint
      && (ProbeOf(t, i).Some? ==>
            var e := t[ProbeOf(t, i).value].pass.local.endpoint; e.host == "" || e.port <= 0)
  }

  /** What the pass tells of what it read. */
  predicate Stage(t: seq<KSystem>, i: nat)
    requires i < |t|
  {
    match t[i].pass
    case KEndpoint(_) => ProbeOf(t, i).None? && MachinesOf(t, i).None?
    case KChildren(_) => ProbeOf(t, i).None? && MachinesOf(t, i).None?
    case KProbe(_) => MachinesOf(t, i).None?
    case KMachines(local) =>
      var j := ProbeOf(t, i);
      && j.Some? && t[j.value].pass.local.endpoint.host != "" && t[j.value].pass.local.endpoint.port > 0
      && !t[j.value].pass.local.status.initialized && (local.status.initialized <==> t[j.value].world.probe)
    case KReport(_, why) => IsVerdict(t, i, why)
    case _ => true
  }

  /** A step without a new pass reads what the one before had read. */
  lemma ReadsAreKept(t: seq<KSystem>, i: nat)
    requires 0 < i < |t| && !t[i].pass.KOwner?
    ensures !t[i].pass.KProbe? ==> ProbeOf(t, i) == ProbeOf(t, i - 1)
    ensures !t[i].pass.KMachines? ==> MachinesOf(t, i) == MachinesOf(t, i - 1)
  {
  }

  lemma StageAfterStep(t: seq<KSystem>, i: nat)
    requires 0 < i < |t| && Worked(t[i - 1], t[i]) && Stage(t, i - 1)
    ensures Stage(t, i)
  {
    ReadsAreKept(t, i);
  }

  lemma StageWithoutStep(t: seq<KSystem>, i: nat)
    requires 0 < i < |t| && t[i].pass == t[i - 1].pass && Stage(t, i - 1)
    ensures Stage(t, i)
  {
    if !t[i].pass.KOwner? {
      ReadsAreKept(t, i);
    }
  }

  lemma StageNext(t: seq<KSystem>, i: nat)
    requires 0 < i < |t| && Stage(t, i - 1)
    requires Worked(t[i - 1], t[i]) || t[i].pass.KIdle? || t[i].pass.KOwner? || t[i].pass == t[i - 1].pass
    ensures Stage(t, i)
  {
    if t[i].pass.KIdle? || t[i].pass.KOwner? {
    } else if Worked(t[i - 1], t[i]) {
      StageAfterStep(t, i);
    } else {
      StageWithoutStep(t, i);
    }
  }

  lemma {:induction false} StageHolds(rule: Rule, t: seq<KSystem>, i: nat)
    requires KRun(rule, t) && i < |t|
    ensures Stage(t, i)
  {
    StartsIdle(rule, t);
    if i > 0 {
      StageHolds(rule, t, i - 1);
      PassInRun(rule, t, i);
      StageNext(t, i);
    }
  }

  // ---- initialization ----

  /** The backend becomes initialized only in a pass that has an endpoint and looks at a probe that
      succeeds, or at machines of which one is ready. */
  lemma InitializedOnlyWhenSeen(rule: Rule, t: seq<KSystem>, i: nat)
    requires KRun(rule, t) && 0 < i < |t|
    requires !t[i - 1].world.cp.status.initialized && t[i].world.cp.status.initialized
    ensures var s := t[i - 1];
            && ((s.pass.KProbe? && s.world.probe) || (s.pass.KMachines? && s.world.machines == Listed(true)))
            && t[i].world.cp.endpoint.host != "" && t[i].world.cp.endpoint.port > 0
  {
    PassInRun(rule, t, i);
    CopiesAreFresh(rule, t, i - 1);
    KRunInv(rule, t, i);
    StepInitializes(t[i - 1], t[i]);
  }

  lemma StepInitializes(s: KSystem, s': KSystem)
    requires Worked(s, s') && Fresh(s)
    requires !s.world.cp.status.initialized && s'.world.cp.status.initialized
    ensures (s.pass.KProbe? && s.world.probe) || (s.pass.KMachines? && s.world.machines == Listed(true))
  {
  }

  // ---- the endpoint ----

  /** A pass that goes on from the endpoint has stored the infrastructure's, its port converted to 32
      bits, whatever was stored before. */
  lemma EndpointIsStored(rule: Rule, t: seq<KSystem>, i: nat)
    requires KRun(rule, t) && 0 < i < |t| && t[i - 1].pass.KEndpoint? && t[i].pass.KChildren?
    ensures var infra := t[i - 1].world.infra;
            && infra.InfraEndpoint? && infra.host.Is? && infra.port.Is? && infra.host.value != "" && infra.port.value > 0
            && t[i].world.cp.endpoint.host == infra.host.value
            && IsInt32Of(t[i].world.cp.endpoint.port, infra.port.value)
            && |infra.host.value| <= 512 && 0 <= t[i].world.cp.endpoint.port <= 65535
            && t[i].world.cp.status == t[i - 1].world.cp.status
  {
    PassInRun(rule, t, i);
    CopiesAreFresh(rule, t, i - 1);
    KRunInv(rule, t, i);
    ConvertedPort(t[i - 1].world.infra.port.value);
  }

  /** The 32-bit value that agrees with a number in its last 32 bits. */
  predicate IsInt32Of(n: int, port: int) { -0x8000_0000 <= n < 0x8000_0000 && (port - n) % 0x1_0000_0000 == 0 }

  lemma ConvertedPort(port: int)
    ensures IsInt32Of(Int32(port), port)
  {
  }

  // ---- what is reported ----

  /** What a pass that read to its end reports is stored: Ready says whether it saw an initialized copy,
      the probe succeed or a ready machine, and why not otherwise; a ready backend is initialized; and
      the pass asks for no other run exactly when it is ready. */
  lemma ReportIsStored(rule: Rule, t: seq<KSystem>, i: nat)
    requires KRun(rule, t) && 0 < i < |t| && t[i - 1].pass.KReport? && t[i].pass.KDone?
    ensures var why := t[i - 1].pass.why;
            var status := t[i].world.cp.status;
            && IsVerdict(t, i - 1, why)
            && Ready in status.conditions
            && status.conditions[Ready] == Condition(why == AllGood, ReasonOf(why), MessageOf(why))
            && (why == AllGood ==> status.initialized)
            && t[i].pass.requeue == if why == AllGood then 0 else 15
  {
    PassInRun(rule, t, i);
    StageHolds(rule, t, i - 1);
    CopiesAreFresh(rule, t, i - 1);
    KRunInv(rule, t, i - 1);
    StoresTheReport(t[i - 1], t[i]);
  }

  lemma StoresTheReport(s: KSystem, s': KSystem)
    requires Worked(s, s') && Fresh(s) && s.pass.KReport?
    ensures var status := s'.world.cp.status; var why := s.pass.why;
            && Ready in status.conditions
            && status.conditions[Ready] == Condition(why == AllGood, ReasonOf(why), MessageOf(why))
            && status.initialized == s.world.cp.status.initialized
            && status.version == (if why == AllGood && s.pass.local.version != "" then s.pass.local.version
                                  else s.world.cp.status.version)
            && s'.pass == KDone(if why == AllGood then 0 else 15)
  {
    var why := s.pass.why;
    var local := s.pass.local;
    var report := ReadyReport(local.status, local.version, why == AllGood, ReasonOf(why), MessageOf(why));
    assert Ready in report.conditions;
    assert s'.world.cp.status.conditions == report.conditions;
  }

  /** A pass that completed before that asks to be run again in 15 seconds: its owner is not there, its
      infrastructure or the objects it creates are not. */
  lemma CompletedEarly(rule: Rule, t: seq<KSystem>, i: nat)
    requires KRun(rule, t) && 0 < i < |t| && Active(t[i - 1].pass) && !t[i - 1].pass.KReport? && t[i].pass.KDone?
    ensures var s := t[i - 1];
            && t[i].pass.requeue == 15
            && ((s.pass.KOwner? && !s.world.owner.OwnerIs?)
                || (s.pass.KEndpoint? && s.world.infra.InfraUnavailable?)
                || (s.pass.KChildren? && !s.world.childrenOk))
  {
    PassInRun(rule, t, i);
  }

  /** A pass goes on exactly when these are there. */
  lemma GoesOn(rule: Rule, t: seq<KSystem>, i: nat)
    requires KRun(rule, t) && 0 < i < |t|
    ensures t[i - 1].pass.KOwner? && t[i].pass.KEndpoint? ==> t[i - 1].world.owner.OwnerIs?
    ensures t[i - 1].pass.KChildren? && t[i].pass.KProbe? ==> t[i - 1].world.childrenOk
    ensures t[i - 1].pass.KEndpoint? && t[i].pass.KReport? ==>
              var infra := t[i - 1].world.infra;
              && infra.InfraEndpoint? && !infra.host.WrongType? && !infra.port.WrongType?
              && (infra.host.Missing? || infra.host.value == "" || infra.port.Missing? || infra.port.value <= 0)
  {
    PassInRun(rule, t, i);
  }

  /** The owner is told in a condition of its own. */
  lemma OwnerIsTold(rule: Rule, t: seq<KSystem>, i: nat)
    requires KRun(rule, t) && 0 < i < |t| && t[i - 1].pass.KOwner? && (t[i].pass.KEndpoint? || t[i].pass.KDone?)
    ensures var owner := t[i - 1].world.owner; var told := OwnerCondition(owner);
            && told.status == owner.OwnerIs? && (t[i].pass.KEndpoint? <==> owner.OwnerIs?)
            && (Told(t[i].world.cp.status, OwnerClusterResolved, told) <==>
                !Told(t[i - 1].pass.local.status, OwnerClusterResolved, told)
                || Told(t[i - 1].world.cp.status, OwnerClusterResolved, told))
  {
    PassInRun(rule, t, i);
    OwnerIsStored(t[i - 1].world, t[i - 1].pass, OwnerCondition(t[i - 1].world.owner));
  }

  lemma OwnerIsStored(w: KWorld, p: KPass, told: Condition)
    requires p.KOwner?
    ensures Told(OwnerStep(w, p, told).0.cp.status, OwnerClusterResolved, told) <==>
              !Told(p.local.status, OwnerClusterResolved, told) || Told(w.cp.status, OwnerClusterResolved, told)
  {
    var before := p.local.status;
    if Told(before, OwnerClusterResolved, told) {
      assert Tell(before, OwnerClusterResolved, told).conditions == before.conditions;
    } else {
      assert Told(Tell(before, OwnerClusterResolved, told), OwnerClusterResolved, told);
    }
  }
}

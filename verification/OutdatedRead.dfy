/** Why fresh reads matter: runs with one outdated read that end with Ready=True beside a failure, and
    with Ready=False and no requeue. */
module OutdatedRead {

  import opened Options
  import opened Endpoint
  import opened JsonTree
  import opened ControlPlane
  import opened Backends
  import opened Facade
  import opened FacadeSafety
  import opened FacadeFixedPoint
  import opened FacadeReconcile
  import Runs

  lemma Extend(c: Context, s: System, s': System)
    requires Reached(c, s) && Next(c, s, s')
    ensures Reached(c, s')
  {
    Runs.ReachableNext(InitOf(c), NextOf(c), s, s');
  }

  /** A reconcile that nothing interrupts. */
  lemma {:induction false} FinishReached(c: Context, s: System)
    requires Reached(c, s)
    ensures var r := Finish(c, s.world, s.pass); Reached(c, System(r.0, s.cache, r.1))
    decreases Rank(s.pass)
  {
    if HasLocal(s.pass) {
      StepDescends(c, s.world, s.pass);
      var r := Step(c, s.world, s.pass);
      Extend(c, s, System(r.0, s.cache, r.1));
      FinishReached(c, System(r.0, s.cache, r.1));
    } else {
      assert s == System(s.world, s.cache, s.pass);
    }
  }

  /** One control plane with a kro backend: its definition, the endpoint its instance reports and
      the instance as the facade writes it. */
  datatype Setting = Setting(c: Context, rgd: string, gvk: Gvk, endpoint: string) {
    predicate Valid() { endpoint != "" && c.parse(endpoint).Ok? }

    function Spec(): CpSpec
      requires Valid()
    {
      CpSpec("v1", None, Some(rgd), Absent, None, None, c.parse(endpoint).endpoint)
    }

    function Status(ready: bool, reason: string, terminal: bool): RawStatus {
      NO_STATUS.(ready := Is(ready), endpoint := Is(endpoint), reason := Is(reason), terminal := Is(terminal))
    }

    function Fields(): map<string, Json>
      requires Valid()
    {
      map["version" := Leaf("v1")]
    }

    function Instance(status: RawStatus): Instance
      requires Valid()
    {
      var written := UpsertInstance(None, c.self, None, Fields());
      if written.Some? then written.value.(status := status) else Backends.Instance([], None, map[], status)
    }

    function World(cp: CpStatus, status: RawStatus): World
      requires Valid()
    {
      Facade.World(Cp(Spec(), cp), map[gvk := Instance(status)], None, map[], map[],
                   OwnerNotSet, map[rgd := RgdFound(gvk)], false, [])
    }
  }

  lemma WriteChangesNothing(a: Setting, status: RawStatus)
    requires a.Valid()
    ensures UpsertInstance(Some(a.Instance(status)), a.c.self, None, a.Fields()) == Some(a.Instance(status))
    ensures PlanOf(a.Spec(), OwnerNotSet, map[a.rgd := RgdFound(a.gvk)]) == WithInstance(a.gvk, a.Fields())
  {
    UpsertInstanceTwice(None, a.c.self, None, a.Fields());
  }

  lemma BackendIsRead(a: Setting, w: World, cache: Cp, cp: CpStatus, ready: bool, reason: string, terminal: bool)
    requires a.Valid() && w == a.World(cp, a.Status(ready, reason, terminal)) && cache.spec == a.Spec()
    ensures var got := Got(InstanceStatus(ready, a.endpoint, reason, "", terminal), false, true, false,
                           Some(SecretRef(Missing, Missing)));
            Finish(a.c, w, Start(cache, OwnerNotSet)) == Finish(a.c, w, AtEndpoint(cache, got, KubeOff))
  {
    var status := a.Status(ready, reason, terminal);
    WriteChangesNothing(a, status);
    var got := Got(InstanceStatus(ready, a.endpoint, reason, "", terminal), false, true, false,
                   Some(SecretRef(Missing, Missing)));
    assert w.instances[a.gvk := a.Instance(status)] == w.instances;
    assert Step(a.c, w, Start(cache, OwnerNotSet)) == (w, AtKubeconfig(cache, OwnerNotSet, got));
    assert Step(a.c, w, AtKubeconfig(cache, OwnerNotSet, got)) == (w, AtEndpoint(cache, got, KubeOff));
    assert Finish(a.c, w, Start(cache, OwnerNotSet)) == Finish(a.c, w, AtKubeconfig(cache, OwnerNotSet, got));
  }

  /** What one reconcile leaves when it reads a copy that is current, or initialized already. */
  lemma ReconcileStores(a: Setting, cache: Cp, cp: CpStatus, ready: bool, reason: string, terminal: bool)
    requires a.Valid() && cache.spec == a.Spec() && (cache.status == cp || cache.status.initialized)
    ensures var w := a.World(cp, a.Status(ready, reason, terminal));
            var local := cache.status.(initialized := true);
            var stored := if cache.status.initialized then cp else local;
            var r := Finish(a.c, w, Start(cache, OwnerNotSet));
            && r.1 == Done(if ready then 0 else NOT_READY_REQUEUE)
            && r.0 == a.World(PatchStatus(stored, local,
                                          WithReport(a.c.words, local, "v1",
                                                     InstanceStatus(ready, a.endpoint, reason, "", terminal), ready)),
                              a.Status(ready, reason, terminal))
  {
    var w := a.World(cp, a.Status(ready, reason, terminal));
    BackendIsRead(a, w, cache, cp, ready, reason, terminal);
    var got := Got(InstanceStatus(ready, a.endpoint, reason, "", terminal), false, true, false,
                   Some(SecretRef(Missing, Missing)));
    FinishFromEndpoint(a.c, w, AtEndpoint(cache, got, KubeOff));
  }

  /** The backend changes, and the facade reconciles from its cache. */
  lemma Round(a: Setting, s: System, before: RawStatus, ready: bool, reason: string, terminal: bool) returns (s': System)
    requires a.Valid() && Reached(a.c, s) && !HasLocal(s.pass) && s.cache.spec == a.Spec()
    requires s.world == a.World(s.world.cp.status, before)
    requires s.cache.status == s.world.cp.status || s.cache.status.initialized
    ensures Reached(a.c, s') && s'.pass == Done(if ready then 0 else NOT_READY_REQUEUE) && s'.cache == s.cache
    ensures var local := s.cache.status.(initialized := true);
            var stored := if s.cache.status.initialized then s.world.cp.status else local;
            s'.world == a.World(PatchStatus(stored, local,
                                            WithReport(a.c.words, local, "v1",
                                                       InstanceStatus(ready, a.endpoint, reason, "", terminal), ready)),
                                a.Status(ready, reason, terminal))
  {
    s' := s.(world := a.World(s.world.cp.status, a.Status(ready, reason, terminal)));
    Extend(a.c, s, s');
    var started := s'.(pass := Start(s'.cache, OwnerNotSet));
    Extend(a.c, s', started);
    FinishReached(a.c, started);
    ReconcileStores(a, s.cache, s.world.cp.status, ready, reason, terminal);
    var r := Finish(a.c, started.world, started.pass);
    s' := System(r.0, started.cache, r.1);
  }

  lemma Made(a: Setting) returns (s: System)
    requires a.Valid()
    ensures Reached(a.c, s) && !HasLocal(s.pass) && s.world == a.World(NEW_STATUS, NO_STATUS) && s.cache == s.world.cp
  {
    var w := a.World(NEW_STATUS, NO_STATUS);
    s := System(w, w.cp, Idle);
    Runs.ReachableInit(InitOf(a.c), NextOf(a.c), s);
  }

  /** The status of a control plane that was told it is ready. */
  function WasReady(words: Wording): CpStatus {
    CpStatus("v1", true, map[Ready := Condition(true, "A", words.notice(AllReady).message)], None, None)
  }

  /** The patch of a ready report made from that status. */
  function Repatched(words: Wording, stored: CpStatus, endpoint: string, reason: string): CpStatus {
    PatchStatus(stored, WasReady(words),
                WithReport(words, WasReady(words), "v1", InstanceStatus(true, endpoint, reason, "", false), true))
  }

  lemma OtherReason(words: Wording, stored: CpStatus, endpoint: string)
    ensures var s := Repatched(words, stored, endpoint, "B"); IsReady(s) && s.failureReason == stored.failureReason
  {
    var report := WithReport(words, WasReady(words), "v1", InstanceStatus(true, endpoint, "B", "", false), true);
    assert report.conditions[Ready].reason == "B" && WasReady(words).conditions[Ready].reason == "A";
  }

  lemma SameReason(words: Wording, stored: CpStatus, endpoint: string)
    ensures Repatched(words, stored, endpoint, "A").conditions == stored.conditions
  {
    var report := WithReport(words, WasReady(words), "v1", InstanceStatus(true, endpoint, "A", "", false), true);
    assert report.conditions == WasReady(words).conditions;
  }

  /** A control plane was ready, and a reconcile has read it so; then its backend failed for good, and
      that was stored. */
  lemma FailedAfterReady(a: Setting) returns (s: System)
    requires a.Valid()
    ensures Reached(a.c, s) && !HasLocal(s.pass) && s.world == a.World(s.world.cp.status, a.Status(false, "F", true))
    ensures s.cache == Cp(a.Spec(), WasReady(a.c.words))
    ensures Ready in s.world.cp.status.conditions && !s.world.cp.status.conditions[Ready].status
    ensures s.world.cp.status.failureReason == Some("F")
  {
    s := Made(a);
    s := Round(a, s, NO_STATUS, true, "A", false);
    var current := s.(cache := s.world.cp);
    Extend(a.c, s, current);
    assert (map[Ready := Condition(true, "A", a.c.words.notice(AllReady).message)] - {Creating})
        == map[Ready := Condition(true, "A", a.c.words.notice(AllReady).message)];
    s := Round(a, current, a.Status(true, "A", false), false, "F", true);
  }

  /** The backend is ready again with another reason, and a reconcile reads the control plane as it was
      at first: Ready becomes true and the failure stays. */
  lemma OutdatedReadKeepsFailure(c: Context, endpoint: string)
    requires endpoint != "" && c.parse(endpoint).Ok?
    ensures exists s :: Reached(c, s) && IsReady(s.world.cp.status) && s.world.cp.status.failureReason.Some?
  {
    var a := Setting(c, "r", Gvk("g", "v1", "K"), endpoint);
    var s := FailedAfterReady(a);
    OtherReason(c.words, s.world.cp.status, endpoint);
    s := Round(a, s, a.Status(false, "F", true), true, "B", false);
  }

  /** No requeue although the control plane is not ready and nothing is wrong with its spec. */
  predicate Stuck(s: System) {
    && s.pass == Done(0) && Ready in s.world.cp.status.conditions && !IsReady(s.world.cp.status)
    && Selected(s.world.cp.spec) == Kro && ParseSpecObject(s.world.cp.spec.kroSpec).Built?
  }

  /** The backend is ready again as it was at first: the report equals the outdated copy, the patch is
      empty, Ready=False stays, and the reconcile asks for no other. */
  lemma OutdatedReadIsStuck(c: Context, endpoint: string)
    requires endpoint != "" && c.parse(endpoint).Ok?
    ensures exists s :: Reached(c, s) && Stuck(s)
  {
    var a := Setting(c, "r", Gvk("g", "v1", "K"), endpoint);
    var failed := FailedAfterReady(a);
    var s := Round(a, failed, a.Status(false, "F", true), true, "A", false);
    SameReason(c.words, failed.world.cp.status, endpoint);
    assert s.world.cp.spec == a.Spec() && ParseSpecObject(Absent) == Built(map[]);
  }

  lemma SomeEndpointParses(e: ApiEndpoint, literal: Literals)
    requires PlainHost(e.host) && PortOk(e.port)
    ensures Print(e) != "" && Parse(Print(e), literal).Ok?
  {
    PlainReads(e.host, literal);
    PrintedParses(e, literal);
  }

  /** The program itself has such runs. */
  lemma ProgramKeepsFailure(self: Identity, literal: Literals)
    ensures exists s ::
              Reached(Program(self, literal), s) && IsReady(s.world.cp.status) && s.world.cp.status.failureReason.Some?
  {
    var e := ApiEndpoint("h", 6443);
    SomeEndpointParses(e, literal);
    OutdatedReadKeepsFailure(Program(self, literal), Print(e));
  }

  lemma ProgramIsStuck(self: Identity, literal: Literals)
    ensures exists s :: Reached(Program(self, literal), s) && Stuck(s)
  {
    var e := ApiEndpoint("h", 6443);
    SomeEndpointParses(e, literal);
    OutdatedReadIsStuck(Program(self, literal), Print(e));
  }
}

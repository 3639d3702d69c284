/** The infrastructure cluster's reconcile (internal/controller/infrastructure/kany8scluster_controller.go):
    one status patch at the end says provisioned, failed, or to be looked at again. */
module InfraCluster {

  import opened Options
  import opened JsonTree
  import opened OwnerReferences
  import opened ControlPlane
  import opened Backends
  import opened Facade
  import Runs

  /** What the definition says about a spec field "clusterUID". */
  datatype SchemaObs = SchemaFailed(error: string) | HasClusterUid(has: bool)

  /** Everything a reconcile reads besides the cluster itself. The instance's status is read
      after the instance was written; that write may fail. */
  datatype Observed = Observed(
    rgds: map<string, RgdObs>, schema: SchemaObs, owner: OwnerObs, writeOk: bool, status: RawStatus)

  datatype ClusterSpec = ClusterSpec(name: string, ns: string, rgd: Option<string>, kroSpec: RawSpec)

  const REQUEUE := 15

  function InstanceSpec(spec: ClusterSpec, uid: Option<string>): SpecResult {
    var r := ParseSpecObject(spec.kroSpec);
    if r.Invalid? then r
    else
      var named := r.fields["clusterName" := Leaf(spec.name)]["clusterNamespace" := Leaf(spec.ns)];
      Built(if uid.None? then named else named["clusterUID" := Leaf(uid.value)])
  }

  // The conditions a caller can check beforehand.

  predicate DefinitionUsable(spec: ClusterSpec, o: Observed)
    requires spec.rgd.Some?
  {
    && spec.rgd.value in o.rgds && o.rgds[spec.rgd.value].RgdFound?
    && o.schema.HasClusterUid? && (o.schema.has ==> o.owner.OwnerIs?)
  }

  predicate SpecUsable(spec: ClusterSpec) { ParseSpecObject(spec.kroSpec).Built? }

  predicate InstanceReady(o: Observed) { o.status.ready == Is(true) }

  // ---- what a reconcile has to say ----

  datatype ClusterStatus = ClusterStatus(
    provisioned: bool, ready: Option<Condition>, failureReason: Option<string>, failureMessage: Option<string>)

  /** Either an error before the status is patched, or the status and the time to look again. */
  datatype Verdict = GivesUp | Says(status: ClusterStatus, requeue: nat)

  function Saying(provisioned: bool, reason: string, message: string): ClusterStatus {
    ClusterStatus(provisioned, Some(Condition(provisioned, reason, message)), None, None)
  }

  function SayingFailed(n: Notice): ClusterStatus {
    ClusterStatus(false, Some(Condition(false, n.reason, n.message)), Some(n.reason), Some(n.message))
  }

  function SayingStatus(s: InstanceStatus): Verdict {
    if s.ready then Says(Saying(true, Default(s.reason, "Ready"), Default(s.message, "infrastructure is ready")), 0)
    else
      Says(Saying(false, Default(s.reason, "Provisioning"),
                  Default(s.message, "waiting for infrastructure to become ready")), REQUEUE)
  }

  /** Why there is nothing to write yet. */
  function Waiting(words: Wording, rgd: string, o: Observed): Option<Notice> {
    if rgd !in o.rgds then Some(words.notice(RgdMissing(rgd)))
    else if o.rgds[rgd].RgdInvalid? then Some(Broken(words, o.rgds[rgd].error))
    else if o.schema.SchemaFailed? then Some(Broken(words, o.schema.error))
    else if !o.schema.has then None
    else match o.owner
      case OwnerNotFound(error) => Some(NoOwner("waiting for owner Cluster: " + error))
      case OwnerGetFailed(error) => Some(NoOwner("waiting for owner Cluster: " + error))
      case OwnerNotSet => Some(NoOwner("waiting for owner Cluster reference to be set"))
      case OwnerIs(cluster) => None
  }

  function Broken(words: Wording, error: string): Notice { words.notice(RgdBroken(error)).(message := error) }

  function NoOwner(message: string): Notice { Notice("WaitingForOwnerCluster", message, false) }

  function OwnerUid(o: Observed): Option<string> {
    if o.schema.HasClusterUid? && o.schema.has && o.owner.OwnerIs? then Some(o.owner.cluster.uid) else None
  }

  function Decide(words: Wording, spec: ClusterSpec, o: Observed): Verdict {
    if spec.rgd.None? then Says(Saying(true, "Ready", "infrastructure is ready"), 0)
    else
      var waiting := Waiting(words, spec.rgd.value, o);
      if waiting.Some? then Says(Saying(false, waiting.value.reason, waiting.value.message), REQUEUE)
      else
        var built := InstanceSpec(spec, OwnerUid(o));
        if built.Invalid? then Says(SayingFailed(words.notice(KroSpecInvalid(built.problem))), 0)
        else
          var read := ReadStatus(o.status);
          if !o.writeOk || read.None? then GivesUp else SayingStatus(read.value)
  }

  predicate WritesInstance(spec: ClusterSpec, o: Observed) {
    spec.rgd.Some? && DefinitionUsable(spec, o) && SpecUsable(spec)
  }

  /** Exactly one of provisioned, look again, and failed; the failure has both its fields. */
  predicate ExactlyOne(s: ClusterStatus, requeue: nat) {
    && (s.failureReason.Some? <==> s.failureMessage.Some?)
    && if s.provisioned then requeue == 0 && s.failureReason.None? else requeue == 0 <==> s.failureReason.Some?
  }

  /** The Ready condition says the same as provisioned, and a provisioned cluster has no failure. */
  predicate WellFormed(s: ClusterStatus) {
    && s.ready.Some? && (s.ready.value.status <==> s.provisioned)
    && (s.provisioned ==> s.failureReason.None? && s.failureMessage.None?)
    && (s.failureReason.Some? <==> s.failureMessage.Some?)
  }

  /** An error exactly when the instance of a usable definition and document cannot be written or
      its status cannot be read. Otherwise exactly one of provisioned, look again and failed:
      provisioned is a cluster without a definition or with a ready instance; failed is one whose
      document cannot be used, once its definition can. */
  lemma DecisionMeans(words: Wording, spec: ClusterSpec, o: Observed)
    ensures var d := Decide(words, spec, o);
            && (d.GivesUp? <==> WritesInstance(spec, o) && (!o.writeOk || ReadStatus(o.status).None?))
            && (d.Says? ==>
                  && WellFormed(d.status) && ExactlyOne(d.status, d.requeue) && d.requeue in {0, REQUEUE}
                  && (d.status.provisioned <==> spec.rgd.None? || (WritesInstance(spec, o) && InstanceReady(o)))
                  && (d.status.failureReason.Some? <==> spec.rgd.Some? && DefinitionUsable(spec, o) && !SpecUsable(spec)))
  {
    if spec.rgd.Some? {
      assert Waiting(words, spec.rgd.value, o).None? <==> DefinitionUsable(spec, o);
      assert InstanceSpec(spec, OwnerUid(o)).Invalid? <==> !SpecUsable(spec);
    }
  }

  /** Why a cluster with a definition waits: what it says of the definition or of the owner, in order. */
  predicate WaitsFor(words: Wording, rgd: string, o: Observed, reason: string, message: string) {
    if rgd !in o.rgds then
      reason == words.notice(RgdMissing(rgd)).reason && message == words.notice(RgdMissing(rgd)).message
    else if o.rgds[rgd].RgdInvalid? then
      reason == words.notice(RgdBroken(o.rgds[rgd].error)).reason && message == o.rgds[rgd].error
    else if o.schema.SchemaFailed? then
      reason == words.notice(RgdBroken(o.schema.error)).reason && message == o.schema.error
    else
      && o.schema.has && !o.owner.OwnerIs? && reason == "WaitingForOwnerCluster"
      && (o.owner.OwnerNotSet? ==> message == "waiting for owner Cluster reference to be set")
      && (o.owner.OwnerNotFound? || o.owner.OwnerGetFailed? ==> message == "waiting for owner Cluster: " + o.owner.error)
  }

  /** What an instance that was read has to say, or these where it says nothing. */
  predicate SaysOfInstance(status: RawStatus, c: Condition) {
    && (c.status <==> status.ready == Is(true))
    && c.reason == (if status.reason.Is? && status.reason.value != "" then status.reason.value
                    else if c.status then "Ready" else "Provisioning")
    && c.message == (if status.message.Is? && status.message.value != "" then status.message.value
                     else if c.status then "infrastructure is ready" else "waiting for infrastructure to become ready")
  }

  /** The reason and message of each verdict; a failure says the same as Ready. */
  lemma VerdictTells(words: Wording, spec: ClusterSpec, o: Observed)
    requires Decide(words, spec, o).Says?
    ensures var said := Decide(words, spec, o).status;
            && said.ready.Some?
            && var c := said.ready.value;
               && (spec.rgd.None? ==> c == Condition(true, "Ready", "infrastructure is ready"))
               && (spec.rgd.Some? && !DefinitionUsable(spec, o) ==> WaitsFor(words, spec.rgd.value, o, c.reason, c.message))
               && (WritesInstance(spec, o) ==> SaysOfInstance(o.status, c))
               && (said.failureReason.Some? ==>
                     && said.failureReason == Some(c.reason) && said.failureMessage == Some(c.message)
                     && var n := words.notice(KroSpecInvalid(ParseSpecObject(spec.kroSpec).problem));
                        c.reason == n.reason && c.message == n.message)
  {
    if spec.rgd.Some? {
      assert Waiting(words, spec.rgd.value, o).None? <==> DefinitionUsable(spec, o);
      assert InstanceSpec(spec, OwnerUid(o)).Invalid? <==> !SpecUsable(spec);
    }
  }

  // ---- the copy and the stored object ----

  /** The merge patch carries the fields in which the changed copy differs from the copy read. */
  function Patched(stored: ClusterStatus, before: ClusterStatus, after: ClusterStatus): ClusterStatus {
    ClusterStatus(
      if after.provisioned != before.provisioned then after.provisioned else stored.provisioned,
      if after.ready != before.ready then after.ready else stored.ready,
      if after.failureReason != before.failureReason then after.failureReason else stored.failureReason,
      if after.failureMessage != before.failureMessage then after.failureMessage else stored.failureMessage)
  }

  datatype Outcome = Failed | Completed(requeue: nat)

  /** The cluster as the API server holds it, and the spec of its instance when there is one. */
  class StoredCluster {
    var status: ClusterStatus
    var instance: Option<map<string, Json>>

    constructor (status: ClusterStatus)
      ensures this.status == status && instance == None
    {
      this.status, instance := status, None;
    }
  }

  /** The copy a reconcile read, possibly outdated. */
  class ClusterCopy {
    const spec: ClusterSpec
    var status: ClusterStatus
    const server: StoredCluster

    constructor (server: StoredCluster, spec: ClusterSpec, cached: ClusterStatus)
      ensures this.server == server && this.spec == spec && status == cached
    {
      this.server, this.spec, status := server, spec, cached;
    }

    /** Writes the instance and reads its status back. */
    method ReconcileInstance(o: Observed, fields: map<string, Json>) returns (read: Option<InstanceStatus>)
      modifies server`instance
      ensures read == if o.writeOk then ReadStatus(o.status) else None
      ensures server.instance == if o.writeOk then Some(fields) else old(server.instance)
    {
      read := None;
      if o.writeOk {
        server.instance := Some(fields);
        read := ReadStatus(o.status);
      }
    }

    /** The verdict reaches the stored cluster through one patch from the copy, which refreshes the
        copy; an error, that of the patch included, leaves the stored status alone. The instance is
        written exactly when definition and document can be used, whatever becomes of the patch. */
    method Reconcile(words: Wording, o: Observed, patchOk: bool) returns (out: Outcome)
      modifies this, server
      ensures var d := Decide(words, spec, o);
              && out == (if d.Says? && patchOk then Completed(d.requeue) else Failed)
              && server.status == (if out.Completed? then Patched(old(server.status), old(status), d.status)
                                   else old(server.status))
              && (out.Completed? ==> status == server.status)
      ensures server.instance ==
              if WritesInstance(spec, o) && o.writeOk then Some(InstanceSpec(spec, OwnerUid(o)).fields)
              else old(server.instance)
    {
      var provisioned, reason, message := true, "Ready", "infrastructure is ready";
      var failureReason: Option<string>, failureMessage: Option<string> := None, None;
      var requeue := 0;
      if spec.rgd.Some? {
        provisioned, reason, message := false, "Provisioning", "waiting for infrastructure to become ready";
        var waiting := Waiting(words, spec.rgd.value, o);
        if waiting.Some? {
          reason, message, requeue := waiting.value.reason, waiting.value.message, REQUEUE;
        } else {
          var built := InstanceSpec(spec, OwnerUid(o));
          if built.Invalid? {
            var n := words.notice(KroSpecInvalid(built.problem));
            reason, message := n.reason, n.message;
            failureReason, failureMessage := Some(reason), Some(message);
          } else {
            var read := ReconcileInstance(o, built.fields);
            if read.None? {
              return Failed;
            }
            provisioned := read.value.ready;
            if provisioned {
              reason, message := "Ready", "infrastructure is ready";
            } else {
              requeue := REQUEUE;
            }
            if read.value.reason != "" {
              reason := read.value.reason;
            }
            if read.value.message != "" {
              message := read.value.message;
            }
          }
        }
      }
      var before := status;
      status := ClusterStatus(provisioned, Some(Condition(provisioned, reason, message)), failureReason, failureMessage);
      assert Decide(words, spec, o) == Says(status, requeue);
      if !patchOk {
        return Failed;
      }
      server.status := Patched(server.status, before, status);
      status := server.status;
      out := Completed(requeue);
    }
  }

  /** A field the copy shows as it is to be said is left out of the patch; it then has to be
      stored that way already. */
  predicate NothingHidden(stored: ClusterStatus, copy: ClusterStatus, said: ClusterStatus) {
    && (copy.provisioned == said.provisioned ==> stored.provisioned == copy.provisioned)
    && (copy.failureReason == said.failureReason ==> stored.failureReason.Some? == copy.failureReason.Some?)
    && (copy.failureMessage == said.failureMessage ==> stored.failureMessage.Some? == copy.failureMessage.Some?)
    && (copy.ready == said.ready ==> stored.ready.Some? && stored.ready.value.status == said.provisioned)
  }

  /** What is stored agrees with the verdict exactly when the copy hid nothing. A copy with the
      stored status hides nothing, and then the verdict is what is stored. */
  lemma StoredAgrees(words: Wording, spec: ClusterSpec, o: Observed, stored: ClusterStatus, copy: ClusterStatus)
    requires Decide(words, spec, o).Says?
    ensures var d := Decide(words, spec, o);
            var after := Patched(stored, copy, d.status);
            && (NothingHidden(stored, copy, d.status) <==>
                  WellFormed(after) && ExactlyOne(after, d.requeue) && after.provisioned == d.status.provisioned)
            && (copy == stored ==> NothingHidden(stored, copy, d.status) && after == d.status)
  {
    DecisionMeans(words, spec, o);
  }

  // ---- runs ----

  datatype Stored = Stored(spec: ClusterSpec, status: ClusterStatus)

  /** Every version the API server has held, and the latest one a reconcile has read. */
  datatype History = History(versions: seq<Stored>, read: nat)

  function Latest(h: History): Stored
    requires h.versions != []
  {
    h.versions[|h.versions| - 1]
  }

  const UNTOUCHED := ClusterStatus(false, None, None, None)

  ghost predicate HInit(h: History) {
    h.read == 0 && |h.versions| == 1 && h.versions[0].status == UNTOUCHED
  }

  predicate Edit(h: History, h': History, spec: ClusterSpec)
    requires h.versions != []
  {
    h' == h.(versions := h.versions + [Latest(h).(spec := spec)])
  }

  /** A reconcile that read version j, not older than one read before, and completed. */
  predicate Reconciled(words: Wording, current: bool, h: History, h': History, j: nat, o: Observed)
    requires h.versions != []
  {
    && h.read <= j < |h.versions| && (current ==> h.versions[j].status == Latest(h).status)
    && var d := Decide(words, h.versions[j].spec, o);
       && d.Says?
       && h' == History(
                  h.versions + [Latest(h).(status := Patched(Latest(h).status, h.versions[j].status, d.status))], j)
  }

  ghost predicate HNext(words: Wording, current: bool, h: History, h': History) {
    && h.versions != []
    && ((exists spec :: Edit(h, h', spec)) || (exists j, o :: Reconciled(words, current, h, h', j, o)))
  }

  ghost function HNextOf(words: Wording, current: bool): (History, History) -> bool {
    (h, h') => HNext(words, current, h, h')
  }

  /** As long as every reconcile reads the stored status, whatever spec it saw, each version but
      the untouched one is well formed. */
  lemma {:induction false} EveryVersionIsWellFormed(words: Wording, t: seq<History>)
    requires Runs.IsRun(HInit, HNextOf(words, true), t)
    ensures forall v <- t[|t| - 1].versions :: v.status == UNTOUCHED || WellFormed(v.status)
    ensures t[|t| - 1].versions != []
  {
    if |t| > 1 {
      var before := t[..|t| - 1];
      forall i | 0 < i < |before| ensures Runs.StepAt(HNextOf(words, true), before, i) {
        assert Runs.StepAt(HNextOf(words, true), t, i);
      }
      EveryVersionIsWellFormed(words, before);
      assert Runs.StepAt(HNextOf(words, true), t, |t| - 1);
      var h, h' := t[|t| - 2], t[|t| - 1];
      assert h == before[|before| - 1] && HNext(words, true, h, h');
      assert Latest(h) in h.versions;
      if spec :| Edit(h, h', spec) {
      } else {
        var j: nat, o :| Reconciled(words, true, h, h', j, o);
        StoredAgrees(words, h.versions[j].spec, o, Latest(h).status, h.versions[j].status);
        DecisionMeans(words, h.versions[j].spec, o);
      }
    }
  }

  lemma Reach(words: Wording, h: History, h': History)
    requires Runs.Reachable(HInit, HNextOf(words, false), h) && HNext(words, false, h, h')
    ensures Runs.Reachable(HInit, HNextOf(words, false), h')
  {
    Runs.ReachableNext(HInit, HNextOf(words, false), h, h');
  }

  lemma ReachByEdit(words: Wording, h: History, spec: ClusterSpec) returns (h': History)
    requires Runs.Reachable(HInit, HNextOf(words, false), h) && h.versions != []
    ensures h' == h.(versions := h.versions + [Latest(h).(spec := spec)])
    ensures Runs.Reachable(HInit, HNextOf(words, false), h')
  {
    h' := h.(versions := h.versions + [Latest(h).(spec := spec)]);
    assert Edit(h, h', spec);
    Reach(words, h, h');
  }

  lemma ReachByReconcile(words: Wording, h: History, j: nat, o: Observed) returns (h': History)
    requires Runs.Reachable(HInit, HNextOf(words, false), h) && h.read <= j < |h.versions|
    requires Decide(words, h.versions[j].spec, o).Says?
    ensures h' == History(
                    h.versions + [Latest(h).(status := Patched(Latest(h).status, h.versions[j].status,
                                                               Decide(words, h.versions[j].spec, o).status))], j)
    ensures Runs.Reachable(HInit, HNextOf(words, false), h')
  {
    h' := History(
      h.versions + [Latest(h).(status := Patched(Latest(h).status, h.versions[j].status,
                                                 Decide(words, h.versions[j].spec, o).status))], j);
    assert Reconciled(words, false, h, h', j, o);
    Reach(words, h, h');
  }

  /** With outdated copies that fails: a cluster was provisioned; its document was broken and
      repaired again while a reconcile of the broken one was under way; the next reconcile reads
      the repaired cluster with the status from before the failure, and leaves provisioned=false
      and the failure beside the Ready=True it reports. */
  lemma OutdatedCopyKeepsTheFailure(words: Wording, good: ClusterSpec, bad: ClusterSpec, o: Observed, later: RawStatus)
    returns (h: History)
    requires WritesInstance(good, o) && o.writeOk && InstanceReady(o) && ReadStatus(o.status).Some?
    requires bad.rgd.Some? && DefinitionUsable(bad, o) && !SpecUsable(bad)
    requires later.ready == Is(true) && ReadStatus(later).Some?
    requires Decide(words, good, o.(status := later)) != Decide(words, good, o)
    ensures Runs.Reachable(HInit, HNextOf(words, false), h) && h.versions != []
    ensures var last := Latest(h);
            && last.spec == good && last.status.ready.Some? && last.status.ready.value.status
            && !last.status.provisioned && last.status.failureReason.Some? && !WellFormed(last.status)
  {
    var o' := o.(status := later);
    DecisionMeans(words, good, o);
    DecisionMeans(words, bad, o);
    DecisionMeans(words, good, o');
    h := History([Stored(good, UNTOUCHED)], 0);
    Runs.ReachableInit(HInit, HNextOf(words, false), h);
    h := ReachByReconcile(words, h, 0, o);
    assert Latest(h).status == Decide(words, good, o).status;
    h := ReachByEdit(words, h, bad);
    h := ReachByEdit(words, h, good);
    h := ReachByReconcile(words, h, 2, o);
    assert Latest(h).status == Decide(words, bad, o).status;
    assert h.versions[3].status == Decide(words, good, o).status;
    h := ReachByReconcile(words, h, 3, o');
  }

  /** For example: the documents are none, then null, then none again, and the instance is ready
      throughout, with a reason of its own from some point on. */
  lemma FailureKeptForExample(words: Wording, good: ClusterSpec, rgds: map<string, RgdObs>, reason: string)
    returns (h: History)
    requires good.rgd.Some? && good.rgd.value in rgds && rgds[good.rgd.value].RgdFound? && good.kroSpec.Absent?
    requires reason !in {"", "Ready"}
    ensures Runs.Reachable(HInit, HNextOf(words, false), h) && h.versions != []
    ensures !WellFormed(Latest(h).status) && Latest(h).status.failureReason.Some?
  {
    var ready := NO_STATUS.(ready := Is(true));
    var o := Observed(rgds, HasClusterUid(false), OwnerNotSet, true, ready);
    var later := ready.(reason := Is(reason));
    assert Decide(words, good, o).status.ready.value.reason == "Ready";
    assert Decide(words, good, o.(status := later)).status.ready.value.reason == reason;
    h := OutdatedCopyKeepsTheFailure(words, good, good.(kroSpec := Document(Null)), o, later);
  }

  /** The instance that is written: the cluster's identity wins over the user's document, with the owner's
      uid exactly when the definition asks for it; every other key is the user's. */
  lemma IdentityIsInjected(spec: ClusterSpec, o: Observed, k: string)
    requires WritesInstance(spec, o)
    ensures var f := InstanceSpec(spec, OwnerUid(o));
            var user := if spec.kroSpec.Absent? then map[] else spec.kroSpec.value.fields;
            && f.Built? && "clusterName" in f.fields && f.fields["clusterName"] == Leaf(spec.name)
            && "clusterNamespace" in f.fields && f.fields["clusterNamespace"] == Leaf(spec.ns)
            && (o.schema.has ==> "clusterUID" in f.fields && f.fields["clusterUID"] == Leaf(o.owner.cluster.uid))
            && (k !in {"clusterName", "clusterNamespace"} && (o.schema.has ==> k != "clusterUID") ==>
                  (k in f.fields <==> k in user) && (k in f.fields ==> f.fields[k] == user[k]))
  {
    assert "clusterName" != "clusterNamespace" by { assert |"clusterName"| != |"clusterNamespace"|; }
    assert "clusterName" != "clusterUID" by { assert |"clusterName"| != |"clusterUID"|; }
    assert "clusterNamespace" != "clusterUID" by { assert |"clusterNamespace"| != |"clusterUID"|; }
  }
}

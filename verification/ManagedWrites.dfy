/** What the controllers of the EKS plugin write into the objects they manage: the mutate functions
    of karpenter_bootstrapper_controller.go and ocm_awsirsa_bootstrapper_controller.go, the rotator's
    secret and the bootstrapper's config map. */
module ManagedWrites {

  import opened JsonTree
  import opened ManagedObjects
  import opened Options
  import opened OwnerReferences
  import opened Text

  /** One managed object with the values set in it; what is optional is written only when there is some. */
  datatype Managed =
    | OidcProvider(url: Json, clientIDs: Json, thumbprints: Option<Json>, tags: Json)
    | IamPolicy(name: Json, policyDocument: Json, tags: Json)
    | IrsaRole(name: Json, trustPolicy: Json, policyRefs: Json, tags: Json)
    | Ec2Role(name: Json, trustPolicy: Json, policies: Json, inlinePolicies: Option<Json>, tags: Json)
    | InstanceProfile(name: Json, roleRef: Json, tags: Json)
    | AccessEntry(principalARN: Json, entryType: Json, clusterRef: Json, tags: Json)
    | SecurityGroup(name: Json, description: Json, vpcID: Json, ingressRules: Json, egressRules: Json, tags: Json)
    | OciRepository(interval: Json, url: Json, chartTag: Json, layerSelector: Json)
    | HelmRelease(interval: Json, timeout: Json, releaseName: Json, targetNamespace: Json, kubeConfig: Json,
                  chartRef: Json, install: Json, upgrade: Json, values: Json)
    | ResourceSet(clusterSelector: Json, resources: Json, strategy: Json)
    | NodePoolConfigMap(yaml: Json)
    | OcmRole(name: Json, trustPolicy: Json, inlinePolicies: Option<Json>, tags: Json)
    | KubeconfigSecret(secretType: Json, kubeconfig: Json)

  function Optional(field: string, value: Option<Json>): seq<(string, Json)> {
    if value.None? then [] else [(field, value.value)]
  }

  /** The field names and values, in the order they are written. */
  function Fields(x: Managed): seq<(string, Json)> {
    match x
    case OidcProvider(url, clientIDs, thumbprints, tags) =>
      [("url", url), ("clientIDs", clientIDs)] + Optional("thumbprints", thumbprints) + [("tags", tags)]
    case IamPolicy(name, policyDocument, tags) => [("name", name), ("policyDocument", policyDocument), ("tags", tags)]
    case IrsaRole(name, trustPolicy, policyRefs, tags) =>
      [("name", name), ("assumeRolePolicyDocument", trustPolicy), ("policyRefs", policyRefs), ("tags", tags)]
    case Ec2Role(name, trustPolicy, policies, inlinePolicies, tags) =>
      [("name", name), ("assumeRolePolicyDocument", trustPolicy), ("policies", policies)]
      + Optional("inlinePolicies", inlinePolicies) + [("tags", tags)]
    case InstanceProfile(name, roleRef, tags) => [("name", name), ("roleRef", roleRef), ("tags", tags)]
    case AccessEntry(principalARN, entryType, clusterRef, tags) =>
      [("principalARN", principalARN), ("type", entryType), ("clusterRef", clusterRef), ("tags", tags)]
    case SecurityGroup(name, description, vpcID, ingressRules, egressRules, tags) =>
      [("name", name), ("description", description), ("vpcID", vpcID), ("ingressRules", ingressRules),
       ("egressRules", egressRules), ("tags", tags)]
    case OciRepository(interval, url, chartTag, layerSelector) =>
      [("interval", interval), ("url", url), ("ref", Obj(map["tag" := chartTag])), ("layerSelector", layerSelector)]
    case HelmRelease(interval, timeout, releaseName, targetNamespace, kubeConfig, chartRef, install, upgrade, values) =>
      [("interval", interval), ("timeout", timeout), ("releaseName", releaseName), ("targetNamespace", targetNamespace),
       ("kubeConfig", kubeConfig), ("chartRef", chartRef), ("install", install), ("upgrade", upgrade), ("values", values)]
    case ResourceSet(clusterSelector, resources, strategy) =>
      [("clusterSelector", clusterSelector), ("resources", resources), ("strategy", strategy)]
    case NodePoolConfigMap(yaml) => [("resources.yaml", yaml)]
    case OcmRole(name, trustPolicy, inlinePolicies, tags) =>
      [("name", name), ("assumeRolePolicyDocument", trustPolicy)] + Optional("inlinePolicies", inlinePolicies) + [("tags", tags)]
    case KubeconfigSecret(_, kubeconfig) => [("value", kubeconfig)]
  }

  /** Specs are written below "spec", typed objects below "data". */
  function Root(x: Managed): string {
    if x.NodePoolConfigMap? || x.KubeconfigSecret? then "data" else "spec"
  }

  function Below(root: string, fields: seq<(string, Json)>): seq<FieldWrite> {
    seq(|fields|, i requires 0 <= i < |fields| => FieldWrite([root, fields[i].0], fields[i].1))
  }

  /** The nested writes of the object's mutate function. */
  function Writes(x: Managed): seq<FieldWrite> {
    Below(Root(x), Fields(x)) + if x.KubeconfigSecret? then [FieldWrite(["type"], x.secretType)] else []
  }

  function Manager(x: Managed): string {
    if x.OcmRole? then OCM_BOOTSTRAPPER else if x.KubeconfigSecret? then ROTATOR else BOOTSTRAPPER
  }

  function MutationOf(x: Managed, clusterName: string, annotations: map<string, string>): Mutation {
    Mutation(Manager(x), clusterName, annotations, Writes(x))
  }

  predicate DistinctNames(fields: seq<(string, Json)>) {
    forall i, j :: 0 <= i < j < |fields| ==> fields[i].0 != fields[j].0
  }

  /** Names told apart by their length or one of two characters are different. */
  function Tag(s: string): (nat, char, char) {
    (|s|, if s == "" then ' ' else s[0], if |s| < 2 then ' ' else s[1])
  }

  predicate DistinctTags(fields: seq<(string, Json)>) {
    forall i, j :: 0 <= i < j < |fields| ==> Tag(fields[i].0) != Tag(fields[j].0)
  }

  lemma TagsTell(fields: seq<(string, Json)>)
    requires DistinctTags(fields)
    ensures DistinctNames(fields)
  {
  }

  lemma OptionalNames(before: seq<(string, Json)>, field: string, value: Option<Json>, after: (string, Json))
    requires DistinctNames(before + [(field, Null)] + [after])
    ensures DistinctNames(before + Optional(field, value) + [after])
  {
    var all, some := before + [(field, Null)] + [after], before + Optional(field, value) + [after];
    if value.None? {
      forall i, j | 0 <= i < j < |some| ensures some[i].0 != some[j].0 {
        assert some[i] == all[i] && some[j].0 == all[if j < |before| then j else j + 1].0;
      }
    } else {
      assert forall i :: 0 <= i < |some| ==> some[i].0 == all[i].0;
    }
  }

  lemma OptionalFieldsAreDistinct(x: Managed)
    requires x.OidcProvider? || x.Ec2Role? || x.OcmRole?
    ensures DistinctNames(Fields(x))
  {
    match x
    case OidcProvider(url, clientIDs, thumbprints, tags) =>
      OptionalNames([("url", url), ("clientIDs", clientIDs)], "thumbprints", thumbprints, ("tags", tags));
    case Ec2Role(name, trustPolicy, policies, inlinePolicies, tags) =>
      OptionalNames([("name", name), ("assumeRolePolicyDocument", trustPolicy), ("policies", policies)],
                    "inlinePolicies", inlinePolicies, ("tags", tags));
    case OcmRole(name, trustPolicy, inlinePolicies, tags) =>
      OptionalNames([("name", name), ("assumeRolePolicyDocument", trustPolicy)], "inlinePolicies", inlinePolicies, ("tags", tags));
  }

  lemma ReleaseFieldsAreDistinct(x: Managed)
    requires x.HelmRelease?
    ensures DistinctNames(Fields(x))
  {
    TagsTell(Fields(x));
  }

  /** No mutate function writes a field twice. */
  lemma NamesAreDistinct(x: Managed)
    ensures DistinctNames(Fields(x))
  {
    if x.OidcProvider? || x.Ec2Role? || x.OcmRole? {
      OptionalFieldsAreDistinct(x);
    } else if x.HelmRelease? {
      ReleaseFieldsAreDistinct(x);
    } else {
      TagsTell(Fields(x));
    }
  }

  /** Writes of distinct fields below one root are independent, also of a write beside the root. */
  lemma BelowIsIndependent(root: string, fields: seq<(string, Json)>, beside: seq<FieldWrite>)
    requires DistinctNames(fields)
    requires |beside| <= 1 && forall i :: 0 <= i < |beside| ==> |beside[i].path| == 1 && beside[i].path[0] != root
    ensures Independent(Below(root, fields) + beside)
  {
    var writes := Below(root, fields) + beside;
    forall i, j | 0 <= i < j < |writes| ensures Apart(writes[i].path, writes[j].path) {
      if j < |fields| {
        DifferentFieldsAreApart(root, fields[i].0, fields[j].0);
      }
    }
  }

  lemma DifferentFieldsAreApart(root: string, a: string, b: string)
    requires a != b
    ensures Apart([root, a], [root, b])
  {
    assert [root, a][1] == a && [root, b][1] == b;
  }

  lemma WritesAreIndependent(x: Managed)
    ensures Independent(Writes(x))
  {
    NamesAreDistinct(x);
    BelowIsIndependent(Root(x), Fields(x), if x.KubeconfigSecret? then [FieldWrite(["type"], x.secretType)] else []);
  }

  lemma RootIsNoMarker(x: Managed)
    ensures Root(x) != MUTATION_ERROR && "type" != MUTATION_ERROR
  {
    assert |MUTATION_ERROR| > 4;
  }

  lemma ManagersAreTrimmed(x: Managed)
    ensures Manager(x) != "" && Trimmed(Manager(x))
  {
    var m := Manager(x);
    assert m[0] == 'e' && m[|m| - 1] == 'r';
  }

  lemma MutationIsValid(x: Managed, clusterName: string, annotations: map<string, string>)
    requires MANAGED_BY !in annotations
    ensures MutationOf(x, clusterName, annotations).Valid()
  {
    RootIsNoMarker(x);
    ManagersAreTrimmed(x);
  }

  /** Every object the controllers manage settles: upserting it again with the same values performs no
      update, whatever was stored before. */
  lemma ManagedObjectsSettle(x: Managed, existing: Option<Object>, owner: Owner, clusterName: string, annotations: map<string, string>)
    requires MANAGED_BY !in annotations
    requires existing.Some? ==> MUTATION_ERROR !in existing.value.fields
    ensures var m := MutationOf(x, clusterName, annotations);
            var (outcome, stored) := Upserted(existing, owner, m);
            outcome in {Created, Updated, Unchanged} ==> Upserted(stored, owner, m) == (Unchanged, stored)
  {
    var m := MutationOf(x, clusterName, annotations);
    MutationIsValid(x, clusterName, annotations);
    WritesAreIndependent(x);
    if Upserted(existing, owner, m).0 in {Created, Updated, Unchanged} {
      UpsertTwiceIsUnchanged(existing, owner, m);
    }
  }

  // ---- what is stored ----

  /** The field is there with the value. */
  predicate Has(f: map<string, Json>, field: string, v: Json) { field in f && f[field] == v }

  predicate HasOptional(f: map<string, Json>, field: string, v: Option<Json>) { v.Some? ==> Has(f, field, v.value) }

  /** The object's fields below its root are those its mutate function names. */
  predicate Holds(x: Managed, f: map<string, Json>) {
    match x
    case OidcProvider(url, clientIDs, thumbprints, tags) =>
      Has(f, "url", url) && Has(f, "clientIDs", clientIDs) && HasOptional(f, "thumbprints", thumbprints) && Has(f, "tags", tags)
    case IamPolicy(name, policyDocument, tags) =>
      Has(f, "name", name) && Has(f, "policyDocument", policyDocument) && Has(f, "tags", tags)
    case IrsaRole(name, trustPolicy, policyRefs, tags) =>
      && Has(f, "name", name) && Has(f, "assumeRolePolicyDocument", trustPolicy) && Has(f, "policyRefs", policyRefs)
      && Has(f, "tags", tags)
    case Ec2Role(name, trustPolicy, policies, inlinePolicies, tags) =>
      && Has(f, "name", name) && Has(f, "assumeRolePolicyDocument", trustPolicy) && Has(f, "policies", policies)
      && HasOptional(f, "inlinePolicies", inlinePolicies) && Has(f, "tags", tags)
    case InstanceProfile(name, roleRef, tags) => Has(f, "name", name) && Has(f, "roleRef", roleRef) && Has(f, "tags", tags)
    case AccessEntry(principalARN, entryType, clusterRef, tags) =>
      && Has(f, "principalARN", principalARN) && Has(f, "type", entryType) && Has(f, "clusterRef", clusterRef)
      && Has(f, "tags", tags)
    case SecurityGroup(name, description, vpcID, ingressRules, egressRules, tags) =>
      && Has(f, "name", name) && Has(f, "description", description) && Has(f, "vpcID", vpcID)
      && Has(f, "ingressRules", ingressRules) && Has(f, "egressRules", egressRules) && Has(f, "tags", tags)
    case OciRepository(interval, url, chartTag, layerSelector) =>
      && Has(f, "interval", interval) && Has(f, "url", url) && Has(f, "ref", Obj(map["tag" := chartTag]))
      && Has(f, "layerSelector", layerSelector)
    case HelmRelease(interval, timeout, releaseName, targetNamespace, kubeConfig, chartRef, install, upgrade, values) =>
      && Has(f, "interval", interval) && Has(f, "timeout", timeout) && Has(f, "releaseName", releaseName)
      && Has(f, "targetNamespace", targetNamespace) && Has(f, "kubeConfig", kubeConfig) && Has(f, "chartRef", chartRef)
      && Has(f, "install", install) && Has(f, "upgrade", upgrade) && Has(f, "values", values)
    case ResourceSet(clusterSelector, resources, strategy) =>
      Has(f, "clusterSelector", clusterSelector) && Has(f, "resources", resources) && Has(f, "strategy", strategy)
    case NodePoolConfigMap(yaml) => Has(f, "resources.yaml", yaml)
    case OcmRole(name, trustPolicy, inlinePolicies, tags) =>
      && Has(f, "name", name) && Has(f, "assumeRolePolicyDocument", trustPolicy)
      && HasOptional(f, "inlinePolicies", inlinePolicies) && Has(f, "tags", tags)
    case KubeconfigSecret(_, kubeconfig) => Has(f, "value", kubeconfig)
  }

  /** The map below the root has every named field with its value. */
  predicate HasAll(f: map<string, Json>, fields: seq<(string, Json)>) {
    forall i :: 0 <= i < |fields| ==> Has(f, fields[i].0, fields[i].1)
  }

  lemma HasAllSplit(f: map<string, Json>, a: seq<(string, Json)>, b: seq<(string, Json)>)
    ensures HasAll(f, a + b) <==> HasAll(f, a) && HasAll(f, b)
  {
    if HasAll(f, a + b) {
      forall i | 0 <= i < |a| ensures Has(f, a[i].0, a[i].1) { assert (a + b)[i] == a[i]; }
      forall i | 0 <= i < |b| ensures Has(f, b[i].0, b[i].1) { assert (a + b)[|a| + i] == b[i]; }
    }
  }

  lemma HasEach(f: map<string, Json>, fields: seq<(string, Json)>, i: nat)
    requires HasAll(f, fields) && i < |fields|
    ensures Has(f, fields[i].0, fields[i].1)
  {
  }

  lemma HoldsWithOptional(x: Managed, f: map<string, Json>)
    requires (x.OidcProvider? || x.Ec2Role? || x.OcmRole?) && HasAll(f, Fields(x))
    ensures Holds(x, f)
  {
    var (before, field, value, after) :=
      match x
      case OidcProvider(url, clientIDs, thumbprints, tags) =>
        ([("url", url), ("clientIDs", clientIDs)], "thumbprints", thumbprints, ("tags", tags))
      case Ec2Role(name, trustPolicy, policies, inlinePolicies, tags) =>
        ([("name", name), ("assumeRolePolicyDocument", trustPolicy), ("policies", policies)],
         "inlinePolicies", inlinePolicies, ("tags", tags))
      case OcmRole(name, trustPolicy, inlinePolicies, tags) =>
        ([("name", name), ("assumeRolePolicyDocument", trustPolicy)], "inlinePolicies", inlinePolicies, ("tags", tags));
    assert Fields(x) == before + Optional(field, value) + [after];
    HasAllSplit(f, before + Optional(field, value), [after]);
    HasAllSplit(f, before, Optional(field, value));
    HasEach(f, [after], 0);
    HasEach(f, before, 0);
    HasEach(f, before, 1);
    if x.Ec2Role? {
      HasEach(f, before, 2);
    }
    if value.Some? {
      HasEach(f, Optional(field, value), 0);
    }
  }

  lemma ReleaseHolds(x: Managed, f: map<string, Json>)
    requires x.HelmRelease? && HasAll(f, Fields(x))
    ensures Holds(x, f)
  {
    assert Has(f, Fields(x)[0].0, Fields(x)[0].1) && Has(f, Fields(x)[1].0, Fields(x)[1].1);
    assert Has(f, Fields(x)[2].0, Fields(x)[2].1) && Has(f, Fields(x)[3].0, Fields(x)[3].1);
    assert Has(f, Fields(x)[4].0, Fields(x)[4].1) && Has(f, Fields(x)[5].0, Fields(x)[5].1);
    assert Has(f, Fields(x)[6].0, Fields(x)[6].1) && Has(f, Fields(x)[7].0, Fields(x)[7].1);
    assert Has(f, Fields(x)[8].0, Fields(x)[8].1);
  }

  lemma FieldsHold(x: Managed, f: map<string, Json>)
    requires HasAll(f, Fields(x))
    ensures Holds(x, f)
  {
    if x.OidcProvider? || x.Ec2Role? || x.OcmRole? {
      HoldsWithOptional(x, f);
    } else if x.HelmRelease? {
      ReleaseHolds(x, f);
    } else {
      var fields := Fields(x);
      HasEach(f, fields, 0);
      if |fields| > 2 {
        HasEach(f, fields, 1);
        HasEach(f, fields, 2);
      }
      if |fields| > 3 {
        HasEach(f, fields, 3);
      }
      if |fields| > 5 {
        HasEach(f, fields, 4);
        HasEach(f, fields, 5);
      }
    }
  }

  lemma HasBelow(stored: map<string, Json>, root: string, name: string, v: Json)
    requires Lookup(Obj(stored), [root, name]) == Some(v)
    ensures root in stored && stored[root].Obj? && Has(stored[root].fields, name, v)
  {
    assert [root, name][1..] == [name] && [name][1..] == [];
    assert Lookup(stored[root], [name]) == Some(v);
    assert Lookup(stored[root].fields[name], []) == Some(v);
  }

  lemma BelowIsRead(stored: map<string, Json>, root: string, fields: seq<(string, Json)>, writes: seq<FieldWrite>)
    requires fields != [] && |fields| <= |writes|
    requires forall i :: 0 <= i < |fields| ==> writes[i] == FieldWrite([root, fields[i].0], fields[i].1)
    requires forall i :: 0 <= i < |writes| ==> Lookup(Obj(stored), writes[i].path) == Some(writes[i].value)
    ensures root in stored && stored[root].Obj? && HasAll(stored[root].fields, fields)
  {
    forall i | 0 <= i < |fields|
      ensures root in stored && stored[root].Obj? && Has(stored[root].fields, fields[i].0, fields[i].1)
    {
      HasBelow(stored, root, fields[i].0, writes[i].value);
    }
    assert root in stored && stored[root].Obj? by {
      HasBelow(stored, root, fields[0].0, writes[0].value);
    }
  }

  /** Every managed object holds the values its controller was given: specs below "spec", the config
      map's and the secret's content below "data", and the secret's type beside it. */
  lemma ManagedObjectsHoldTheirFields(x: Managed, existing: Option<Object>, owner: Owner, clusterName: string,
                                      annotations: map<string, string>)
    requires MANAGED_BY !in annotations
    requires existing.Some? ==> MUTATION_ERROR !in existing.value.fields
    requires Upserted(existing, owner, MutationOf(x, clusterName, annotations)).0 in {Created, Updated, Unchanged}
    ensures var stored := Upserted(existing, owner, MutationOf(x, clusterName, annotations)).1;
            var root := if x.NodePoolConfigMap? || x.KubeconfigSecret? then "data" else "spec";
            && stored.Some? && root in stored.value.fields && stored.value.fields[root].Obj?
            && Holds(x, stored.value.fields[root].fields)
            && (x.KubeconfigSecret? ==> Has(stored.value.fields, "type", x.secretType))
  {
    var m := MutationOf(x, clusterName, annotations);
    MutationIsValid(x, clusterName, annotations);
    WritesAreIndependent(x);
    UpsertStoresTheWrites(existing, owner, m, []);
    WrittenIsHeld(x, Upserted(existing, owner, m).1.value.fields);
  }

  lemma WrittenIsHeld(x: Managed, stored: map<string, Json>)
    requires forall i :: 0 <= i < |Writes(x)| ==> Lookup(Obj(stored), Writes(x)[i].path) == Some(Writes(x)[i].value)
    ensures var root := if x.NodePoolConfigMap? || x.KubeconfigSecret? then "data" else "spec";
            && root in stored && stored[root].Obj? && Holds(x, stored[root].fields)
            && (x.KubeconfigSecret? ==> Has(stored, "type", x.secretType))
  {
    assert |Fields(x)| > 0;
    BelowIsRead(stored, Root(x), Fields(x), Writes(x));
    FieldsHold(x, stored[Root(x)].fields);
    if x.KubeconfigSecret? {
      TypeIsRead(stored, Writes(x), x);
    }
  }

  /** It carries the value of the controller that writes objects of its kind. */
  lemma ManagedByItsController(x: Managed, existing: Option<Object>, owner: Owner, clusterName: string,
                               annotations: map<string, string>)
    requires MANAGED_BY !in annotations
    requires Upserted(existing, owner, MutationOf(x, clusterName, annotations)).0 in {Created, Updated, Unchanged}
    ensures var stored := Upserted(existing, owner, MutationOf(x, clusterName, annotations)).1;
            && stored.Some? && CLUSTER_LABEL in stored.value.labels && stored.value.labels[CLUSTER_LABEL] == clusterName
            && MANAGED_BY in stored.value.annotations
            && stored.value.annotations[MANAGED_BY] ==
               match x {
                 case OcmRole(_, _, _, _) => "eks-ocm-awsirsa-bootstrapper"
                 case KubeconfigSecret(_, _) => "eks-kubeconfig-rotator"
                 case _ => "eks-karpenter-bootstrapper"
               }
  {
    MutationIsValid(x, clusterName, annotations);
    WrittenObjectsAreMarked(existing, owner, MutationOf(x, clusterName, annotations));
  }

  lemma TypeIsRead(stored: map<string, Json>, writes: seq<FieldWrite>, x: Managed)
    requires x.KubeconfigSecret? && writes == Writes(x)
    requires forall i :: 0 <= i < |writes| ==> Lookup(Obj(stored), writes[i].path) == Some(writes[i].value)
    ensures Has(stored, "type", x.secretType)
  {
    assert writes[1] == FieldWrite(["type"], x.secretType);
    assert ["type"][1..] == [];
    assert Lookup(Obj(stored), ["type"]) == Some(x.secretType);
    assert Lookup(stored["type"], []) == Some(x.secretType);
  }

  // ---- failures ----

  /** A field of the root, or a field beside it. */
  predicate Shallow(root: string, p: Path) { (|p| == 2 && p[0] == root) || (|p| == 1 && p[0] != root) }

  predicate Blocked(fields: map<string, Json>, root: string) { root in fields && !fields[root].Obj? }

  lemma FieldWriteFails(fields: map<string, Json>, root: string, p: Path, v: Json)
    requires |p| == 2 && p[0] == root
    ensures SetNestedField(fields, p, v).None? <==> Blocked(fields, root)
    ensures Blocked(fields, root) ==> Blocker(fields, p) == [root]
    ensures !Blocked(fields, root) ==> var r := SetNestedField(fields, p, v).value; root in r && r[root].Obj?
  {
    assert p[1..] == [p[1]];
  }

  lemma {:induction false} BelowAMap(fields: map<string, Json>, root: string, writes: seq<FieldWrite>)
    requires forall i :: 0 <= i < |writes| ==> writes[i].path != [] && Shallow(root, writes[i].path)
    requires root in fields && fields[root].Obj?
    ensures FirstFailure(fields, writes).None?
    decreases |writes|
  {
    if writes != [] {
      if |writes[0].path| == 2 {
        FieldWriteFails(fields, root, writes[0].path, writes[0].value);
      }
      BelowAMap(MustSet(fields, writes[0]), root, writes[1..]);
    }
  }

  lemma FirstWriteDecides(fields: map<string, Json>, root: string, writes: seq<FieldWrite>)
    requires writes != [] && |writes[0].path| == 2
    requires forall i :: 0 <= i < |writes| ==> writes[i].path != [] && Shallow(root, writes[i].path)
    ensures var f := FirstFailure(fields, writes);
            && (f.Some? <==> Blocked(fields, root))
            && (f.Some? ==> f.value == 0 && Blocker(fields, writes[0].path) == [root])
  {
    FieldWriteFails(fields, root, writes[0].path, writes[0].value);
    if !Blocked(fields, root) {
      BelowAMap(MustSet(fields, writes[0]), root, writes[1..]);
    }
  }

  lemma WritesAreShallow(x: Managed)
    ensures Writes(x) != [] && |Writes(x)[0].path| == 2
    ensures forall i :: 0 <= i < |Writes(x)| ==> Writes(x)[i].path != [] && Shallow(Root(x), Writes(x)[i].path)
  {
    if x.KubeconfigSecret? {
      assert "type"[0] != "data"[0];
    }
    assert |Fields(x)| > 0;
  }

  /** They fail exactly on an object whose root is no map, and say so. */
  lemma ManagedObjectsFail(x: Managed, existing: Object, owner: Owner, clusterName: string, annotations: map<string, string>)
    requires MANAGED_BY !in annotations && MUTATION_ERROR !in existing.fields
    requires IsManagedBy(existing.annotations, Manager(x)) || owner.takeover
    ensures var r := Upserted(Some(existing), owner, MutationOf(x, clusterName, annotations)).0;
            && (r.Failed? <==> Blocked(existing.fields, Root(x)))
            && (r.Failed? ==> r.error == "mutate object fields: " + ErrorText([Root(x)]))
  {
    var m := MutationOf(x, clusterName, annotations);
    MutationIsValid(x, clusterName, annotations);
    FirstErrorIsReported(Some(existing), owner, m);
    WritesAreShallow(x);
    FirstWriteDecides(existing.fields, Root(x), m.writes);
    assert m.writes[..0] == [];
  }
}

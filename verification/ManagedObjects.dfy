/** The upsert protocol the EKS controllers share: read, check the managed-by
    annotation, mutate, collect field errors, set the owner, create or update. */
module ManagedObjects {
  import opened JsonTree
  import opened Options
  import opened OwnerReferences
  import opened Text

  const MANAGED_BY: string := "eks.kany8s.io/managed-by"
  const CLUSTER_LABEL: string := "cluster.x-k8s.io/cluster-name"
  const MUTATION_ERROR: string := "eks.kany8s.io/internal-mutation-error"

  const BOOTSTRAPPER: string := "eks-karpenter-bootstrapper"
  const OCM_BOOTSTRAPPER: string := "eks-ocm-awsirsa-bootstrapper"
  const ROTATOR: string := "eks-kubeconfig-rotator"

  /** An API object; `fields` is the content outside its metadata. */
  datatype Object = Object(
    annotations: map<string, string>, labels: map<string, string>, owners: seq<OwnerRef>, fields: map<string, Json>)

  const EMPTY: Object := Object(map[], map[], [], map[])

  datatype FieldWrite = FieldWrite(path: Path, value: Json)

  /** What a mutate function sets: annotations besides managed-by, the cluster label, nested fields in order. */
  datatype Mutation = Mutation(
    manager: string, clusterName: string, annotations: map<string, string>, writes: seq<FieldWrite>)
  {
    ghost predicate Valid() {
      && manager != "" && Trimmed(manager)
      && MANAGED_BY !in annotations
      && (forall i :: 0 <= i < |writes| ==> writes[i].path != [] && writes[i].path[0] != MUTATION_ERROR)
    }
  }

  predicate IsManagedBy(annotations: map<string, string>, manager: string) {
    MANAGED_BY in annotations && TrimSpace(annotations[MANAGED_BY]) == manager
  }

  /** unstructured.SetNestedField: fails when something on the way is not a map. */
  function SetNestedField(fields: map<string, Json>, p: Path, v: Json): Option<map<string, Json>>
    requires p != []
    decreases |p|
  {
    if |p| == 1 then Some(fields[p[0] := v])
    else if p[0] in fields && !fields[p[0]].Obj? then None
    else
      var sub := SetNestedField(if p[0] in fields then fields[p[0]].fields else map[], p[1..], v);
      if sub.None? then None else Some(fields[p[0] := Obj(sub.value)])
  }

  /** The path to the first thing on the way that is not a map. */
  function Blocker(fields: map<string, Json>, p: Path): Path
    decreases |p|
  {
    if |p| <= 1 then []
    else if p[0] in fields && !fields[p[0]].Obj? then [p[0]]
    else [p[0]] + Blocker(if p[0] in fields then fields[p[0]].fields else map[], p[1..])
  }

  function ErrorText(blocker: Path): string {
    "value cannot be set because ." + Join('.', blocker) + " is not a map[string]interface{}"
  }

  /** mustSetNestedField: the first failure leaves a marker, later ones keep it. */
  function MustSet(fields: map<string, Json>, w: FieldWrite): map<string, Json>
    requires w.path != []
  {
    var r := SetNestedField(fields, w.path, w.value);
    if r.Some? then r.value
    else if MUTATION_ERROR in fields then fields
    else fields[MUTATION_ERROR := Leaf(ErrorText(Blocker(fields, w.path)))]
  }

  function WriteAll(fields: map<string, Json>, writes: seq<FieldWrite>): map<string, Json>
    requires forall i :: 0 <= i < |writes| ==> writes[i].path != []
    decreases |writes|
  {
    if writes == [] then fields else WriteAll(MustSet(fields, writes[0]), writes[1..])
  }

  function Mutate(o: Object, m: Mutation): Object
    requires forall i :: 0 <= i < |m.writes| ==> m.writes[i].path != []
  {
    Object(o.annotations + m.annotations + map[MANAGED_BY := m.manager],
           o.labels[CLUSTER_LABEL := m.clusterName],
           o.owners,
           WriteAll(o.fields, m.writes))
  }

  /** popMutationError: removes the marker and turns it into the error. */
  function PopMutationError(o: Object): (Object, Option<string>) {
    if MUTATION_ERROR !in o.fields then (o, None)
    else
      var raw := o.fields[MUTATION_ERROR];
      var msg := TrimSpace(if raw.Leaf? then raw.text else "");
      (o.(fields := o.fields - {MUTATION_ERROR}),
       Some("mutate object fields: " + if msg == "" then "unknown nested field mutation error" else msg))
  }

  datatype Owner = Owner(ref: OwnerRef, takeover: bool)

  datatype Outcome = Created | Updated | Unchanged | NotManaged | Failed(error: string)

  /** One upsert against the stored object, if any: the outcome and what is then stored. */
  function Upserted(existing: Option<Object>, owner: Owner, m: Mutation): (Outcome, Option<Object>)
    requires forall i :: 0 <= i < |m.writes| ==> m.writes[i].path != []
  {
    if existing.Some? && !IsManagedBy(existing.value.annotations, m.manager) && !owner.takeover then
      (NotManaged, existing)
    else
      var before := if existing.Some? then existing.value else EMPTY;
      var (popped, error) := PopMutationError(Mutate(before, m));
      if error.Some? then (Failed(error.value), existing)
      else
        var after := popped.(owners := Upsert(popped.owners, owner.ref));
        if existing.None? then (Created, Some(after))
        else if after == before then (Unchanged, existing)
        else (Updated, Some(after))
  }

  /** What a controller leaves on every object it writes. */
  ghost predicate Marked(o: Object, owner: Owner, m: Mutation) {
    && MANAGED_BY in o.annotations && o.annotations[MANAGED_BY] == m.manager
    && IsManagedBy(o.annotations, m.manager)
    && CLUSTER_LABEL in o.labels && o.labels[CLUSTER_LABEL] == m.clusterName
    && owner.ref in o.owners
    && MUTATION_ERROR !in o.fields
  }

  lemma WrittenObjectsAreMarked(existing: Option<Object>, owner: Owner, m: Mutation)
    requires m.Valid()
    ensures var (outcome, stored) := Upserted(existing, owner, m);
            outcome in {Created, Updated, Unchanged} ==> stored.Some? && Marked(stored.value, owner, m)
  {
    TrimSpaceIsTrimmed(m.manager);
    var before := if existing.Some? then existing.value else EMPTY;
    UpsertTwice(Mutate(before, m).owners, owner.ref);
  }

  /** A stored object of another manager, or of none, is changed only on takeover. */
  lemma ForeignObjectsNeedTakeover(existing: Object, owner: Owner, m: Mutation)
    requires m.Valid() && !IsManagedBy(existing.annotations, m.manager)
    ensures var (outcome, stored) := Upserted(Some(existing), owner, m);
            stored != Some(existing) ==> owner.takeover && outcome == Updated
    ensures Upserted(Some(existing), owner, m).0 == NotManaged <==> !owner.takeover
  {
  }

  /** A successful write is a plain write at the path. */
  lemma {:induction false} SetNestedFieldIsPut(fields: map<string, Json>, p: Path, v: Json)
    requires p != []
    ensures var r := SetNestedField(fields, p, v); r.Some? ==> Obj(r.value) == Put(Obj(fields), p, v)
    decreases |p|
  {
    if |p| > 1 && !(p[0] in fields && !fields[p[0]].Obj?) {
      var sub := if p[0] in fields then fields[p[0]].fields else map[];
      SetNestedFieldIsPut(sub, p[1..], v);
      assert Put(Obj(map[]), p[1..], v) == Put(Null, p[1..], v);
    }
  }

  /** A write below something that is already there succeeds. */
  lemma {:induction false} SetNestedFieldAgain(fields: map<string, Json>, p: Path, v: Json)
    requires p != [] && Lookup(Obj(fields), p) == Some(v)
    ensures SetNestedField(fields, p, v) == Some(fields)
    decreases |p|
  {
    if |p| == 1 {
      assert Lookup(fields[p[0]], []) == Some(v);
      assert fields[p[0] := v] == fields;
    } else {
      SetNestedFieldAgain(fields[p[0]].fields, p[1..], v);
      assert fields[p[0] := Obj(fields[p[0]].fields)] == fields;
    }
  }

  /** The index of the first write that fails, when each is applied to the result of those before. */
  function FirstFailure(fields: map<string, Json>, writes: seq<FieldWrite>): Option<nat>
    requires forall i :: 0 <= i < |writes| ==> writes[i].path != []
    decreases |writes|
  {
    if writes == [] then None
    else if SetNestedField(fields, writes[0].path, writes[0].value).None? then Some(0)
    else
      var r := FirstFailure(MustSet(fields, writes[0]), writes[1..]);
      if r.None? then None else Some(r.value + 1)
  }

  /** Writes never touch a marker that is there. */
  lemma {:induction false} MarkerKept(fields: map<string, Json>, writes: seq<FieldWrite>)
    requires forall i :: 0 <= i < |writes| ==> writes[i].path != [] && writes[i].path[0] != MUTATION_ERROR
    requires MUTATION_ERROR in fields
    ensures MUTATION_ERROR in WriteAll(fields, writes) && WriteAll(fields, writes)[MUTATION_ERROR] == fields[MUTATION_ERROR]
    decreases |writes|
  {
    if writes != [] {
      MarkerKept(MustSet(fields, writes[0]), writes[1..]);
    }
  }

  /** The text of the first failing write, which is blocked by what the writes before it left. */
  function FirstError(fields: map<string, Json>, writes: seq<FieldWrite>): Option<string>
    requires forall i :: 0 <= i < |writes| ==> writes[i].path != []
    decreases |writes|
  {
    if writes == [] then None
    else if SetNestedField(fields, writes[0].path, writes[0].value).None? then Some(ErrorText(Blocker(fields, writes[0].path)))
    else FirstError(MustSet(fields, writes[0]), writes[1..])
  }

  lemma {:induction false} FirstErrorIs(fields: map<string, Json>, writes: seq<FieldWrite>)
    requires forall i :: 0 <= i < |writes| ==> writes[i].path != []
    ensures var f := FirstFailure(fields, writes);
            && (FirstError(fields, writes).None? <==> f.None?)
            && (f.Some? ==> f.value < |writes| &&
                            FirstError(fields, writes) ==
                            Some(ErrorText(Blocker(WriteAll(fields, writes[..f.value]), writes[f.value].path))))
    decreases |writes|
  {
    if writes != [] && SetNestedField(fields, writes[0].path, writes[0].value).Some? {
      FirstErrorIs(MustSet(fields, writes[0]), writes[1..]);
      var f := FirstFailure(MustSet(fields, writes[0]), writes[1..]);
      if f.Some? {
        assert writes[..f.value + 1][1..] == writes[1..][..f.value];
      }
    }
  }

  /** The marker is present exactly when some write failed, and names the first. */
  lemma {:induction false} MarkerNamesFirstFailure(fields: map<string, Json>, writes: seq<FieldWrite>)
    requires forall i :: 0 <= i < |writes| ==> writes[i].path != [] && writes[i].path[0] != MUTATION_ERROR
    requires MUTATION_ERROR !in fields
    ensures var e := FirstError(fields, writes);
            && (MUTATION_ERROR in WriteAll(fields, writes) <==> e.Some?)
            && (e.Some? ==> WriteAll(fields, writes)[MUTATION_ERROR] == Leaf(e.value))
    decreases |writes|
  {
    if writes != [] {
      var w := writes[0];
      if SetNestedField(fields, w.path, w.value).None? {
        MarkerKept(MustSet(fields, w), writes[1..]);
      } else {
        MarkerNamesFirstFailure(MustSet(fields, w), writes[1..]);
      }
    }
  }

  lemma TextIsTrimmed(blocker: Path)
    ensures ErrorText(blocker) != "" && TrimSpace(ErrorText(blocker)) == ErrorText(blocker)
  {
    var text := ErrorText(blocker);
    assert text[0] == 'v' && text[|text| - 1] == '}';
    TrimSpaceIsTrimmed(text);
  }

  /** An upsert fails exactly when a field write fails, and reports the first failure. */
  lemma FirstErrorIsReported(existing: Option<Object>, owner: Owner, m: Mutation)
    requires m.Valid()
    requires existing.Some? ==> MUTATION_ERROR !in existing.value.fields
    requires existing.Some? ==> IsManagedBy(existing.value.annotations, m.manager) || owner.takeover
    ensures var before := if existing.Some? then existing.value else EMPTY;
            var f := FirstFailure(before.fields, m.writes);
            Upserted(existing, owner, m).0.Failed? == f.Some? &&
            (f.Some? ==> f.value < |m.writes| &&
                         var left := WriteAll(before.fields, m.writes[..f.value]);
                         Upserted(existing, owner, m) ==
                         (Failed("mutate object fields: " + ErrorText(Blocker(left, m.writes[f.value].path))), existing))
  {
    var before := if existing.Some? then existing.value else EMPTY;
    MarkerNamesFirstFailure(before.fields, m.writes);
    FirstErrorIs(before.fields, m.writes);
    var f := FirstFailure(before.fields, m.writes);
    if f.Some? {
      TextIsTrimmed(Blocker(WriteAll(before.fields, m.writes[..f.value]), m.writes[f.value].path));
    }
  }

  ghost predicate Independent(writes: seq<FieldWrite>) {
    forall i, j :: 0 <= i < j < |writes| ==> Apart(writes[i].path, writes[j].path)
  }

  /** When no write fails, every written path reads back. */
  lemma {:induction false} WritesReadBack(fields: map<string, Json>, writes: seq<FieldWrite>, done: seq<FieldWrite>)
    requires forall i :: 0 <= i < |writes| ==> writes[i].path != []
    requires Independent(done + writes) && FirstFailure(fields, writes).None?
    requires forall i :: 0 <= i < |done| ==> done[i].path != [] && Lookup(Obj(fields), done[i].path) == Some(done[i].value)
    ensures forall i :: 0 <= i < |done + writes| ==>
              Lookup(Obj(WriteAll(fields, writes)), (done + writes)[i].path) == Some((done + writes)[i].value)
    decreases |writes|
  {
    if writes == [] {
      assert done + writes == done;
    } else {
      var w := writes[0];
      var next := MustSet(fields, w);
      SetNestedFieldIsPut(fields, w.path, w.value);
      PutGet(Obj(fields), w.path, w.value);
      forall i | 0 <= i < |done| ensures Lookup(Obj(next), done[i].path) == Some(done[i].value) {
        assert (done + writes)[i] == done[i] && (done + writes)[|done|] == w;
        PutFrame(Obj(fields), w.path, w.value, done[i].path);
      }
      assert done + [w] + writes[1..] == done + writes;
      WritesReadBack(next, writes[1..], done + [w]);
    }
  }

  lemma {:induction false} WritesAgain(fields: map<string, Json>, writes: seq<FieldWrite>)
    requires forall i :: 0 <= i < |writes| ==> writes[i].path != []
    requires forall i :: 0 <= i < |writes| ==> Lookup(Obj(fields), writes[i].path) == Some(writes[i].value)
    ensures WriteAll(fields, writes) == fields
    decreases |writes|
  {
    if writes != [] {
      SetNestedFieldAgain(fields, writes[0].path, writes[0].value);
      WritesAgain(fields, writes[1..]);
    }
  }

  lemma WriteAllTwice(fields: map<string, Json>, writes: seq<FieldWrite>)
    requires forall i :: 0 <= i < |writes| ==> writes[i].path != []
    requires Independent(writes) && FirstFailure(fields, writes).None?
    ensures WriteAll(WriteAll(fields, writes), writes) == WriteAll(fields, writes)
  {
    assert [] + writes == writes;
    WritesReadBack(fields, writes, []);
    WritesAgain(WriteAll(fields, writes), writes);
  }

  lemma MetadataTwice(a: map<string, string>, b: map<string, string>, k: string, v: string)
    ensures (a + b + map[k := v]) + b + map[k := v] == a + b + map[k := v]
    ensures a[k := v][k := v] == a[k := v]
  {
  }

  /** Mutating once more what a successful mutation left is the identity. */
  lemma MutateAgain(before: Object, m: Mutation, owners: seq<OwnerRef>)
    requires m.Valid() && Independent(m.writes)
    requires FirstFailure(before.fields, m.writes).None?
    ensures var stored := Mutate(before, m).(owners := owners); Mutate(stored, m) == stored
  {
    WriteAllTwice(before.fields, m.writes);
    MetadataTwice(before.annotations, m.annotations, MANAGED_BY, m.manager);
    MetadataTwice(before.labels, map[], CLUSTER_LABEL, m.clusterName);
  }

  /** Upserting what was just upserted performs no update. */
  lemma UpsertTwiceIsUnchanged(existing: Option<Object>, owner: Owner, m: Mutation)
    requires m.Valid() && Independent(m.writes)
    requires existing.Some? ==> MUTATION_ERROR !in existing.value.fields
    requires Upserted(existing, owner, m).0 in {Created, Updated, Unchanged}
    ensures Upserted(Upserted(existing, owner, m).1, owner, m) == (Unchanged, Upserted(existing, owner, m).1)
  {
    var before := if existing.Some? then existing.value else EMPTY;
    var stored := Upserted(existing, owner, m).1.value;
    WrittenObjectsAreMarked(existing, owner, m);
    MarkerNamesFirstFailure(before.fields, m.writes);
    FirstErrorIs(before.fields, m.writes);
    assert stored == Mutate(before, m).(owners := Upsert(before.owners, owner.ref));
    MutateAgain(before, m, Upsert(before.owners, owner.ref));
    UpsertTwice(before.owners, owner.ref);
  }

  // ---- what an upsert stores ----

  lemma {:induction false} WritesFrame(fields: map<string, Json>, writes: seq<FieldWrite>, q: Path)
    requires forall i :: 0 <= i < |writes| ==> writes[i].path != [] && Apart(writes[i].path, q)
    requires FirstFailure(fields, writes).None?
    ensures Lookup(Obj(WriteAll(fields, writes)), q) == Lookup(Obj(fields), q)
    decreases |writes|
  {
    if writes != [] {
      SetNestedFieldIsPut(fields, writes[0].path, writes[0].value);
      PutFrame(Obj(fields), writes[0].path, writes[0].value, q);
      WritesFrame(MustSet(fields, writes[0]), writes[1..], q);
    }
  }

  lemma NoWriteFailed(existing: Option<Object>, owner: Owner, m: Mutation)
    requires m.Valid() && (existing.Some? ==> MUTATION_ERROR !in existing.value.fields)
    requires Upserted(existing, owner, m).0 in {Created, Updated, Unchanged}
    ensures var before := if existing.Some? then existing.value.fields else map[];
            var stored := Upserted(existing, owner, m).1;
            FirstFailure(before, m.writes).None? && stored.Some? && stored.value.fields == WriteAll(before, m.writes)
  {
    var before := if existing.Some? then existing.value else EMPTY;
    MarkerNamesFirstFailure(before.fields, m.writes);
    FirstErrorIs(before.fields, m.writes);
  }

  predicate ApartFromAll(writes: seq<FieldWrite>, q: Path) {
    forall i :: 0 <= i < |writes| ==> Apart(writes[i].path, q)
  }

  /** What an upsert that did not fail leaves: every field it was asked to write, with every path apart
      from them as it was. */
  lemma UpsertStoresTheWrites(existing: Option<Object>, owner: Owner, m: Mutation, q: Path)
    requires m.Valid() && Independent(m.writes)
    requires existing.Some? ==> MUTATION_ERROR !in existing.value.fields
    requires Upserted(existing, owner, m).0 in {Created, Updated, Unchanged}
    ensures var before := if existing.Some? then existing.value.fields else map[];
            var stored := Upserted(existing, owner, m).1;
            && stored.Some?
            && (forall i :: 0 <= i < |m.writes| ==>
                  Lookup(Obj(stored.value.fields), m.writes[i].path) == Some(m.writes[i].value))
            && (ApartFromAll(m.writes, q) ==> Lookup(Obj(stored.value.fields), q) == Lookup(Obj(before), q))
  {
    var before := if existing.Some? then existing.value.fields else map[];
    NoWriteFailed(existing, owner, m);
    assert [] + m.writes == m.writes;
    WritesReadBack(before, m.writes, []);
    if ApartFromAll(m.writes, q) {
      WritesFrame(before, m.writes, q);
    }
  }

  /** The mutation's annotations are there, all other annotations and labels are kept, and the owner's
      reference is set where it was or at the end. */
  lemma UpsertKeepsMetadata(existing: Option<Object>, owner: Owner, m: Mutation, k: string)
    requires m.Valid() && Upserted(existing, owner, m).0 in {Created, Updated, Unchanged}
    ensures var before := if existing.Some? then existing.value else EMPTY;
            var stored := Upserted(existing, owner, m).1;
            && stored.Some?
            && (k in m.annotations ==> k in stored.value.annotations && stored.value.annotations[k] == m.annotations[k])
            && (k !in m.annotations && k != MANAGED_BY ==>
                  (k in stored.value.annotations <==> k in before.annotations) &&
                  (k in before.annotations ==> stored.value.annotations[k] == before.annotations[k]))
            && (k != CLUSTER_LABEL ==>
                  (k in stored.value.labels <==> k in before.labels) &&
                  (k in before.labels ==> stored.value.labels[k] == before.labels[k]))
            && IsSet(before.owners, stored.value.owners, owner.ref)
  {
    UpsertSets(if existing.Some? then existing.value.owners else [], owner.ref);
  }

  /** Created without an object there, updated when something of it changes, unchanged otherwise. */
  lemma OutcomeSaysWhatHappened(existing: Option<Object>, owner: Owner, m: Mutation)
    requires m.Valid()
    ensures var (outcome, stored) := Upserted(existing, owner, m);
            && (outcome == Created ==> existing.None? && stored.Some?)
            && (outcome == Updated ==> existing.Some? && stored.Some? && stored != existing)
            && (outcome !in {Created, Updated} ==> stored == existing)
            && (outcome == Unchanged ==> existing.Some?)
  {
  }
}

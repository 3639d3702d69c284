/** The API server under three upserting controllers, the bootstrapper's suspension of Flux objects
    and an environment: who writes which object over any run with takeover disabled. */
module Ownership {
  import opened ManagedObjects
  import opened Options
  import opened OwnerReferences
  import opened Text
  import Runs
  import opened JsonTree

  datatype ObjectKey = ObjectKey(kind: string, namespace: string, name: string)

  /** A stored object; the uid names its life, from creation to deletion. */
  datatype Stored = Stored(uid: nat, obj: Object)

  datatype State = State(
    objects: map<ObjectKey, Stored>,
    nextUid: nat,
    writers: map<nat, set<string>>,  // history: the controllers that wrote each uid
    past: set<(ObjectKey, Stored)>)  // history: every version that was stored
  {
    function WritersOf(uid: nat): set<string> { if uid in writers then writers[uid] else {} }

    function At(key: ObjectKey): Option<Object> {
      if key in objects then Some(objects[key].obj) else None
    }
  }

  datatype Step =
    | UpsertBy(key: ObjectKey, owner: Owner, m: Mutation, apiFails: bool)
    | EnvCreate(key: ObjectKey, o: Object)
    | EnvUpdate(key: ObjectKey, o: Object)
    | EnvDelete(key: ObjectKey)
    | Suspend(key: ObjectKey, copy: Stored)

  function Store(s: State, key: ObjectKey, x: Stored): State {
    s.(objects := s.objects[key := x], past := s.past + {(key, x)})
  }

  function Wrote(s: State, uid: nat, manager: string): State {
    s.(writers := s.writers[uid := s.WritersOf(uid) + {manager}])
  }

  function AfterCreate(s: State, key: ObjectKey, o: Object): State {
    Store(s, key, Stored(s.nextUid, o)).(nextUid := s.nextUid + 1)
  }

  function AfterUpdate(s: State, key: ObjectKey, o: Object): State
    requires key in s.objects
  {
    Store(s, key, Stored(s.objects[key].uid, o))
  }

  /** An upsert whose API write succeeds stores the result and records the writer. */
  function AfterUpsert(s: State, key: ObjectKey, owner: Owner, m: Mutation): State
    requires forall i :: 0 <= i < |m.writes| ==> m.writes[i].path != []
  {
    var (outcome, stored) := Upserted(s.At(key), owner, m);
    match outcome
    case Created => Wrote(AfterCreate(s, key, stored.value), s.nextUid, m.manager)
    case Updated => Wrote(AfterUpdate(s, key, stored.value), s.objects[key].uid, m.manager)
    case _ => s
  }

  const SUSPEND: Path := ["spec", "suspend"]

  /** The merge patch of suspendFluxResource sets one field, whatever the object is by then. */
  function Suspended(o: Object): Object { o.(fields := Put(Obj(o.fields), SUSPEND, Leaf("true")).fields) }

  /** What the copy must show for the patch to be sent. */
  predicate SendsSuspension(copy: Object) {
    && IsManagedBy(copy.annotations, BOOTSTRAPPER)
    && var fields := SetNestedField(copy.fields, SUSPEND, Leaf("true")); fields.Some? && fields.value != copy.fields
  }

  function AfterSuspend(s: State, key: ObjectKey): State
    requires key in s.objects
  {
    Wrote(AfterUpdate(s, key, Suspended(s.objects[key].obj)), s.objects[key].uid, BOOTSTRAPPER)
  }

  ghost predicate Next(s: State, step: Step, t: State) {
    match step
    case UpsertBy(key, owner, m, apiFails) =>
      m.Valid() && !owner.takeover && t == if apiFails then s else AfterUpsert(s, key, owner, m)
    case EnvCreate(key, o) =>
      key !in s.objects && MUTATION_ERROR !in o.fields &&
      t == AfterCreate(s, key, o)
    case EnvUpdate(key, o) =>
      // anything may change but the managed-by annotation
      key in s.objects && MUTATION_ERROR !in o.fields &&
      (MANAGED_BY in o.annotations <==> MANAGED_BY in s.objects[key].obj.annotations) &&
      (MANAGED_BY in o.annotations ==> o.annotations[MANAGED_BY] == s.objects[key].obj.annotations[MANAGED_BY]) &&
      t == AfterUpdate(s, key, o)
    case EnvDelete(key) =>
      key in s.objects && t == s.(objects := s.objects - {key})
    case Suspend(key, copy) =>
      // the copy is any version there has been; the patch carries no resource version
      (key, copy) in s.past && SendsSuspension(copy.obj) && key in s.objects && t == AfterSuspend(s, key)
  }

  // ---- what every run keeps ----

  predicate SameManager(a: Object, b: Object) {
    && (MANAGED_BY in a.annotations <==> MANAGED_BY in b.annotations)
    && (MANAGED_BY in a.annotations ==> TrimSpace(a.annotations[MANAGED_BY]) == TrimSpace(b.annotations[MANAGED_BY]))
  }

  /** A uid belongs to one object, whose manager stays the same. */
  ghost predicate OneLife(past: set<(ObjectKey, Stored)>) {
    forall p, q :: p in past && q in past && p.1.uid == q.1.uid ==> p.0 == q.0 && SameManager(p.1.obj, q.1.obj)
  }

  ghost predicate Inv(s: State) {
    && (forall uid :: uid in s.writers ==> uid < s.nextUid)
    && (forall k :: k in s.objects ==> (k, s.objects[k]) in s.past)
    && (forall p :: p in s.past ==> p.1.uid < s.nextUid && MUTATION_ERROR !in p.1.obj.fields)
    && OneLife(s.past)
  }

  /** Each object has been written by one controller at most, whose value it carries. */
  ghost predicate OneWriter(s: State) {
    && (forall k, w :: k in s.objects && w in s.WritersOf(s.objects[k].uid) ==>
          IsManagedBy(s.objects[k].obj.annotations, w))
    && (forall uid, v, w :: v in s.WritersOf(uid) && w in s.WritersOf(uid) ==> v == w)
  }

  lemma CreateKeepsInv(s: State, key: ObjectKey, o: Object)
    requires Inv(s) && key !in s.objects && MUTATION_ERROR !in o.fields
    ensures Inv(AfterCreate(s, key, o))
  {
  }

  lemma UpdateKeepsInv(s: State, key: ObjectKey, o: Object)
    requires Inv(s) && key in s.objects && MUTATION_ERROR !in o.fields && SameManager(s.objects[key].obj, o)
    ensures Inv(AfterUpdate(s, key, o))
  {
    var x := (key, Stored(s.objects[key].uid, o));
    forall p | p in s.past && p.1.uid == x.1.uid ensures p.0 == key && SameManager(p.1.obj, o) && SameManager(o, p.1.obj) {
      assert (key, s.objects[key]) in s.past;
    }
  }

  lemma WroteKeepsInv(s: State, uid: nat, manager: string)
    requires Inv(s) && uid < s.nextUid
    ensures Inv(Wrote(s, uid, manager))
  {
  }

  lemma SuspendedKeeps(o: Object)
    requires MUTATION_ERROR !in o.fields
    ensures MUTATION_ERROR !in Suspended(o).fields && SameManager(o, Suspended(o))
  {
    assert SUSPEND[0] != MUTATION_ERROR by { assert |SUSPEND[0]| != |MUTATION_ERROR|; }
  }

  lemma UpsertKeepsInv(s: State, key: ObjectKey, owner: Owner, m: Mutation)
    requires Inv(s) && m.Valid() && !owner.takeover
    ensures Inv(AfterUpsert(s, key, owner, m))
  {
    WrittenObjectsAreMarked(s.At(key), owner, m);
    var (outcome, stored) := Upserted(s.At(key), owner, m);
    if outcome == Created {
      CreateKeepsInv(s, key, stored.value);
      WroteKeepsInv(AfterCreate(s, key, stored.value), s.nextUid, m.manager);
    } else if outcome == Updated {
      UpdateKeepsInv(s, key, stored.value);
      assert (key, s.objects[key]) in s.past;
      WroteKeepsInv(AfterUpdate(s, key, stored.value), s.objects[key].uid, m.manager);
    }
  }

  lemma SuspendKeepsInv(s: State, key: ObjectKey)
    requires Inv(s) && key in s.objects
    ensures Inv(AfterSuspend(s, key))
  {
    assert (key, s.objects[key]) in s.past;
    SuspendedKeeps(s.objects[key].obj);
    UpdateKeepsInv(s, key, Suspended(s.objects[key].obj));
    WroteKeepsInv(AfterUpdate(s, key, Suspended(s.objects[key].obj)), s.objects[key].uid, BOOTSTRAPPER);
  }

  lemma DeleteKeepsInv(s: State, key: ObjectKey)
    requires Inv(s) && key in s.objects
    ensures Inv(s.(objects := s.objects - {key}))
  {
  }

  lemma NextKeepsInv(s: State, step: Step, t: State)
    requires Inv(s) && Next(s, step, t)
    ensures Inv(t)
  {
    match step
    case UpsertBy(key, owner, m, apiFails) => UpsertKeepsInv(s, key, owner, m);
    case EnvCreate(key, o) => CreateKeepsInv(s, key, o);
    case EnvUpdate(key, o) => UpdateKeepsInv(s, key, o);
    case EnvDelete(key) => DeleteKeepsInv(s, key);
    case Suspend(key, _) => SuspendKeepsInv(s, key);
  }

  // ---- one writer ----

  /** The object a suspension reaches carries the bootstrapper's value. */
  predicate ReachesOurs(s: State, step: Step) {
    step.Suspend? ==> step.key in s.objects && IsManagedBy(s.objects[step.key].obj.annotations, BOOTSTRAPPER)
  }

  lemma CreateKeepsOneWriter(s: State, key: ObjectKey, o: Object)
    requires Inv(s) && OneWriter(s) && key !in s.objects
    ensures OneWriter(AfterCreate(s, key, o)) && AfterCreate(s, key, o).WritersOf(s.nextUid) == {}
  {
    var t := AfterCreate(s, key, o);
    assert forall uid :: t.WritersOf(uid) == s.WritersOf(uid);
  }

  lemma UpdateKeepsOneWriter(s: State, key: ObjectKey, o: Object)
    requires Inv(s) && OneWriter(s) && key in s.objects && SameManager(s.objects[key].obj, o)
    ensures OneWriter(AfterUpdate(s, key, o))
  {
    var t := AfterUpdate(s, key, o);
    assert forall uid :: t.WritersOf(uid) == s.WritersOf(uid);
  }

  /** A write by the controller whose value the object carries. */
  lemma WroteKeepsOneWriter(s: State, key: ObjectKey, manager: string)
    requires Inv(s) && OneWriter(s) && key in s.objects && IsManagedBy(s.objects[key].obj.annotations, manager)
    ensures OneWriter(Wrote(s, s.objects[key].uid, manager))
  {
    var uid := s.objects[key].uid;
    var t := Wrote(s, uid, manager);
    assert forall u :: u != uid ==> t.WritersOf(u) == s.WritersOf(u);
    assert t.WritersOf(uid) == s.WritersOf(uid) + {manager};
    forall w | w in s.WritersOf(uid) ensures w == manager {
      assert IsManagedBy(s.objects[key].obj.annotations, w);
    }
    forall k | k in s.objects && s.objects[k].uid == uid ensures k == key {
      assert (k, s.objects[k]) in s.past && (key, s.objects[key]) in s.past;
    }
  }

  lemma UpsertKeepsOneWriter(s: State, key: ObjectKey, owner: Owner, m: Mutation)
    requires Inv(s) && OneWriter(s) && m.Valid() && !owner.takeover
    ensures OneWriter(AfterUpsert(s, key, owner, m))
  {
    WrittenObjectsAreMarked(s.At(key), owner, m);
    var (outcome, stored) := Upserted(s.At(key), owner, m);
    if outcome == Created {
      CreateKeepsInv(s, key, stored.value);
      CreateKeepsOneWriter(s, key, stored.value);
      WroteKeepsOneWriter(AfterCreate(s, key, stored.value), key, m.manager);
    } else if outcome == Updated {
      UpdateKeepsInv(s, key, stored.value);
      UpdateKeepsOneWriter(s, key, stored.value);
      WroteKeepsOneWriter(AfterUpdate(s, key, stored.value), key, m.manager);
    }
  }

  lemma SuspendKeepsOneWriter(s: State, key: ObjectKey)
    requires Inv(s) && OneWriter(s) && key in s.objects && IsManagedBy(s.objects[key].obj.annotations, BOOTSTRAPPER)
    ensures OneWriter(AfterSuspend(s, key))
  {
    assert (key, s.objects[key]) in s.past;
    var o := Suspended(s.objects[key].obj);
    SuspendedKeeps(s.objects[key].obj);
    UpdateKeepsInv(s, key, o);
    UpdateKeepsOneWriter(s, key, o);
    WroteKeepsOneWriter(AfterUpdate(s, key, o), key, BOOTSTRAPPER);
  }

  lemma DeleteKeepsOneWriter(s: State, key: ObjectKey)
    requires OneWriter(s) && key in s.objects
    ensures OneWriter(s.(objects := s.objects - {key}))
  {
    var t := s.(objects := s.objects - {key});
    assert forall uid :: t.WritersOf(uid) == s.WritersOf(uid);
  }

  /** A suspension that reaches an object of someone else makes the bootstrapper a writer of it. */
  lemma ForeignSuspensionBreaks(s: State, key: ObjectKey)
    requires key in s.objects && !IsManagedBy(s.objects[key].obj.annotations, BOOTSTRAPPER)
    ensures !OneWriter(AfterSuspend(s, key))
  {
    var t := AfterSuspend(s, key);
    assert t.objects[key].uid == s.objects[key].uid && BOOTSTRAPPER in t.WritersOf(t.objects[key].uid);
    assert t.objects[key].obj.annotations == s.objects[key].obj.annotations;
  }

  lemma NextKeepsOneWriter(s: State, step: Step, t: State)
    requires Inv(s) && OneWriter(s) && Next(s, step, t)
    ensures OneWriter(t) <==> ReachesOurs(s, step)
  {
    match step
    case UpsertBy(key, owner, m, apiFails) => UpsertKeepsOneWriter(s, key, owner, m);
    case EnvCreate(key, o) => CreateKeepsOneWriter(s, key, o);
    case EnvUpdate(key, o) => UpdateKeepsOneWriter(s, key, o);
    case EnvDelete(key) => DeleteKeepsOneWriter(s, key);
    case Suspend(key, _) =>
      if ReachesOurs(s, step) {
        SuspendKeepsOneWriter(s, key);
      } else {
        ForeignSuspensionBreaks(s, key);
      }
  }

  const NOTHING := State(map[], 0, map[], {})

  ghost predicate Init(s: State) { s == NOTHING }

  ghost predicate IsRun(run: seq<State>, steps: seq<Step>) { Runs.IsLabelled(Init, Next, run, steps) }

  lemma {:induction false} RunInv(run: seq<State>, steps: seq<Step>, i: nat)
    requires IsRun(run, steps) && i < |run|
    ensures Inv(run[i])
  {
    if i > 0 {
      RunInv(run, steps, i - 1);
      assert Runs.LabelledAt(Next, run, steps, i - 1);
      NextKeepsInv(run[i - 1], steps[i - 1], run[i]);
    }
  }

  /** With takeover disabled every object has one writer for life, whose managed-by value it carries
      as long as it exists, exactly when every suspension reaches an object that carries the
      bootstrapper's value. */
  lemma {:induction false} OneWriterForLife(run: seq<State>, steps: seq<Step>, n: nat)
    requires IsRun(run, steps) && n < |run|
    ensures (forall i :: 0 <= i <= n ==> OneWriter(run[i])) <==> (forall i :: 0 <= i < n ==> ReachesOurs(run[i], steps[i]))
  {
    OneWriterAtFirst();
    if n > 0 {
      OneWriterForLife(run, steps, n - 1);
      OneWriterAfter(run, steps, n - 1);
    }
  }

  lemma OneWriterAfter(run: seq<State>, steps: seq<Step>, i: nat)
    requires IsRun(run, steps) && i < |steps|
    ensures OneWriter(run[i]) ==> (OneWriter(run[i + 1]) <==> ReachesOurs(run[i], steps[i]))
  {
    RunInv(run, steps, i);
    assert Runs.LabelledAt(Next, run, steps, i);
    if OneWriter(run[i]) {
      NextKeepsOneWriter(run[i], steps[i], run[i + 1]);
    }
  }

  lemma OneWriterAtFirst()
    ensures OneWriter(NOTHING)
  {
  }

  /** A suspension misses only when the object at the key is not the one that was read. */
  lemma SameObjectIsStillOurs(run: seq<State>, steps: seq<Step>, i: nat)
    requires IsRun(run, steps) && i < |steps| && steps[i].Suspend?
    requires steps[i].key in run[i].objects && run[i].objects[steps[i].key].uid == steps[i].copy.uid
    ensures ReachesOurs(run[i], steps[i])
  {
    RunInv(run, steps, i);
    assert Runs.LabelledAt(Next, run, steps, i);
    var key := steps[i].key;
    assert (key, run[i].objects[key]) in run[i].past && (key, steps[i].copy) in run[i].past;
  }

  lemma BootstrapperCreates(key: ObjectKey, owner: Owner) returns (m: Mutation, o: Object)
    requires !owner.takeover
    ensures m.Valid() && AfterUpsert(NOTHING, key, owner, m) == Wrote(AfterCreate(NOTHING, key, o), 0, BOOTSTRAPPER)
    ensures SendsSuspension(o)
  {
    m := Mutation(BOOTSTRAPPER, "c", map[], []);
    WrittenObjectsAreMarked(None, owner, m);
    o := Upserted(None, owner, m).1.value;
    assert o.fields == map[];
    var fields := SetNestedField(map[], SUSPEND, Leaf("true"));
    assert SUSPEND[0] in fields.value;
  }

  /** It misses in this run: the bootstrapper creates an object and reads it; someone deletes it and
      creates another of that name; the suspension changes that one. */
  lemma RecreatedObjectIsSuspended(key: ObjectKey, owner: Owner, foreign: Object) returns (run: seq<State>, steps: seq<Step>)
    requires !owner.takeover && MANAGED_BY !in foreign.annotations && MUTATION_ERROR !in foreign.fields
    ensures IsRun(run, steps) && |steps| == 4 && !OneWriter(run[4])
    ensures key in run[4].objects && run[4].objects[key].obj == Suspended(foreign)
    ensures run[4].WritersOf(run[4].objects[key].uid) == {BOOTSTRAPPER}
  {
    var m, o := BootstrapperCreates(key, owner);
    var made := AfterUpsert(NOTHING, key, owner, m);
    var gone := made.(objects := made.objects - {key});
    var again := AfterCreate(gone, key, foreign);
    run, steps := Extend([NOTHING], [], UpsertBy(key, owner, m, false), made);
    run, steps := Extend(run, steps, EnvDelete(key), gone);
    run, steps := Extend(run, steps, EnvCreate(key, foreign), again);
    SuspendingIsAStep(again, key, Stored(0, o));
    run, steps := Extend(run, steps, Suspend(key, Stored(0, o)), AfterSuspend(again, key));
    ForeignSuspensionBreaks(again, key);
  }

  lemma Extend(run: seq<State>, steps: seq<Step>, step: Step, t: State) returns (run': seq<State>, steps': seq<Step>)
    requires IsRun(run, steps) && Next(run[|steps|], step, t)
    ensures IsRun(run', steps') && run' == run + [t] && steps' == steps + [step]
  {
    Runs.ExtendLabelled(Init, Next, run, steps, step, t);
    run', steps' := run + [t], steps + [step];
  }

  lemma SuspendingIsAStep(s: State, key: ObjectKey, copy: Stored)
    requires (key, copy) in s.past && SendsSuspension(copy.obj) && key in s.objects
    ensures Next(s, Suspend(key, copy), AfterSuspend(s, key))
  {
  }

  /** An upsert that goes through stores what its protocol says under its key, as a new object only when
      there was none, and nothing elsewhere; one that fails stores nothing. */
  lemma UpsertIsStored(run: seq<State>, steps: seq<Step>, i: nat, k: ObjectKey)
    requires IsRun(run, steps) && i < |steps| && steps[i].UpsertBy?
    ensures steps[i].m.Valid() && !steps[i].owner.takeover
    ensures var (s, t, step) := (run[i], run[i + 1], steps[i]);
            && (step.apiFails ==> t == s)
            && (!step.apiFails ==> t.At(step.key) == Upserted(s.At(step.key), step.owner, step.m).1)
            && (k != step.key ==> (k in t.objects <==> k in s.objects) && (k in s.objects ==> t.objects[k] == s.objects[k]))
            && (step.key in s.objects ==> step.key in t.objects && t.objects[step.key].uid == s.objects[step.key].uid)
            && (step.key !in s.objects && step.key in t.objects ==> t.objects[step.key].uid == s.nextUid)
  {
    assert Runs.LabelledAt(Next, run, steps, i);
    OutcomeSaysWhatHappened(run[i].At(steps[i].key), steps[i].owner, steps[i].m);
  }

  /** A suspension was decided on a version that the bootstrapper manages and that is not suspended; it
      leaves the object under its key suspended and all else of it, and every other object, as it was. */
  lemma SuspensionIsStored(run: seq<State>, steps: seq<Step>, i: nat, k: ObjectKey, q: Path)
    requires IsRun(run, steps) && i < |steps| && steps[i].Suspend?
    ensures var (key, read) := (steps[i].key, steps[i].copy.obj);
            && (key, steps[i].copy) in run[i].past
            && IsManagedBy(read.annotations, "eks-karpenter-bootstrapper")
            && Lookup(Obj(read.fields), ["spec", "suspend"]) != Some(Leaf("true"))
            && key in run[i].objects && key in run[i + 1].objects
            && var (x, y) := (run[i].objects[key], run[i + 1].objects[key]);
               && y == Stored(x.uid, x.obj.(fields := y.obj.fields))
               && Lookup(Obj(y.obj.fields), ["spec", "suspend"]) == Some(Leaf("true"))
               && (Apart(["spec", "suspend"], q) ==> Lookup(Obj(y.obj.fields), q) == Lookup(Obj(x.obj.fields), q))
    ensures k != steps[i].key ==>
              && (k in run[i + 1].objects <==> k in run[i].objects)
              && (k in run[i].objects ==> run[i + 1].objects[k] == run[i].objects[k])
  {
    assert Runs.LabelledAt(Next, run, steps, i);
    var fields := run[i].objects[steps[i].key].obj.fields;
    PutGet(Obj(fields), SUSPEND, Leaf("true"));
    if Apart(SUSPEND, q) {
      PutFrame(Obj(fields), SUSPEND, Leaf("true"), q);
    }
    if Lookup(Obj(steps[i].copy.obj.fields), SUSPEND) == Some(Leaf("true")) {
      SetNestedFieldAgain(steps[i].copy.obj.fields, SUSPEND, Leaf("true"));
    }
  }

  /** No stored object ever holds the mutation-error marker. */
  lemma MarkerIsNeverStored(run: seq<State>, steps: seq<Step>, i: nat, k: ObjectKey)
    requires IsRun(run, steps) && i < |run| && k in run[i].objects
    ensures MUTATION_ERROR !in run[i].objects[k].obj.fields
  {
    RunInv(run, steps, i);
  }

  /** An upsert of another controller leaves the object and its writers as they are. */
  lemma ForeignUpsertChangesNothing(run: seq<State>, steps: seq<Step>, i: nat)
    requires IsRun(run, steps) && i < |steps| && steps[i].UpsertBy? && steps[i].key in run[i].objects
    requires !IsManagedBy(run[i].objects[steps[i].key].obj.annotations, steps[i].m.manager)
    ensures run[i + 1] == run[i]
  {
    assert Runs.LabelledAt(Next, run, steps, i);
    ForeignObjectsNeedTakeover(run[i].objects[steps[i].key].obj, steps[i].owner, steps[i].m);
  }

  /** With takeover enabled a second writer is possible: the rotator takes an object the
      bootstrapper created. */
  lemma TakeoverBreaksOneWriter(key: ObjectKey, ref: OwnerRef)
    ensures var m := Mutation(BOOTSTRAPPER, "c", map[], []);
            var n := Mutation(ROTATOR, "c", map[], []);
            var s := AfterUpsert(NOTHING, key, Owner(ref, false), m);
            AfterUpsert(s, key, Owner(ref, true), n).WritersOf(0) == {BOOTSTRAPPER, ROTATOR}
  {
    var m := Mutation(BOOTSTRAPPER, "c", map[], []);
    var s := AfterUpsert(NOTHING, key, Owner(ref, false), m);
    var o := s.objects[key].obj;
    assert BOOTSTRAPPER != ROTATOR by { assert BOOTSTRAPPER[4] != ROTATOR[4] || |BOOTSTRAPPER| != |ROTATOR|; }
    TrimSpaceIsTrimmed(BOOTSTRAPPER);
    assert o.annotations[MANAGED_BY] == BOOTSTRAPPER;
    assert !IsManagedBy(o.annotations, ROTATOR);
    var n := Mutation(ROTATOR, "c", map[], []);
    assert Mutate(o, n).annotations[MANAGED_BY] == ROTATOR;
    assert Upserted(Some(o), Owner(ref, true), n).0 == Updated;
  }

  /** The client side: the object read is changed in place, then written. */
  class ApiStore {
    var objects: map<ObjectKey, Object>

    constructor ()
      ensures objects == map[]
    {
      objects := map[];
    }

    /** The nested writes of a mutate function, one after the other. */
    method ApplyWrites(initial: map<string, Json>, writes: seq<FieldWrite>) returns (fields: map<string, Json>)
      requires forall i :: 0 <= i < |writes| ==> writes[i].path != []
      ensures fields == WriteAll(initial, writes)
    {
      fields := initial;
      for i := 0 to |writes|
        invariant WriteAll(fields, writes[i..]) == WriteAll(initial, writes)
      {
        assert writes[i..][1..] == writes[i + 1..];
        fields := MustSet(fields, writes[i]);
      }
    }

    /** upsertManagedUnstructured and upsertManagedSecret; None is an API error. */
    method UpsertManaged(key: ObjectKey, owner: Owner, m: Mutation, apiFails: bool) returns (r: Option<Outcome>)
      requires m.Valid()
      modifies this
      ensures var existing := if key in old(objects) then Some(old(objects)[key]) else None;
              var (outcome, stored) := Upserted(existing, owner, m);
              if apiFails && outcome in {Created, Updated} then r == None && objects == old(objects)
              else r == Some(outcome) &&
                   objects == if stored.Some? then old(objects)[key := stored.value] else old(objects)
    {
      var existing := if key in objects then objects[key] else EMPTY;
      if key in objects && !IsManagedBy(existing.annotations, m.manager) && !owner.takeover {
        assert objects[key := existing] == objects;
        return Some(NotManaged);
      }
      var o := existing;
      o := o.(annotations := o.annotations + m.annotations + map[MANAGED_BY := m.manager]);
      o := o.(labels := o.labels[CLUSTER_LABEL := m.clusterName]);
      var fields := ApplyWrites(o.fields, m.writes);
      o := o.(fields := fields);
      var (popped, error) := PopMutationError(o);
      if error.Some? {
        assert key in objects ==> objects[key := objects[key]] == objects;
        return Some(Failed(error.value));
      }
      o := popped.(owners := Upsert(popped.owners, owner.ref));
      if key in objects && o == existing {
        assert objects[key := existing] == objects;
        return Some(Unchanged);
      }
      var outcome := if key in objects then Updated else Created;
      if apiFails {
        return None;
      }
      objects := objects[key := o];
      return Some(outcome);
    }
  }
}

/** The Helm values of the Karpenter release: merging maps on the heap, and the keys
    the bootstrapper owns (karpenter_bootstrapper_controller.go). */
module HelmValues {
  import opened JsonTree
  import opened Options
  import opened Text

  /** An entry of a map[string]any: a leaf (scalar, null or slice) or a nested map, held by reference. */
  datatype Entry = Value(json: Json) | Nested(node: MapNode)

  /** A Go map[string]any. */
  class MapNode {
    var entries: map<string, Entry>
    ghost var tree: Json
    ghost var repr: set<MapNode>

    constructor ()
      ensures Valid() && fresh(this) && repr == {this} && entries == map[] && tree == Obj(map[])
    {
      entries := map[];
      tree := Obj(map[]);
      repr := {this};
    }

    /** The nodes below this one form a tree: no node is reached twice. */
    ghost predicate Valid()
      reads this, repr
      decreases repr
    {
      && this in repr
      && tree.Obj? && tree.fields.Keys == entries.Keys
      && (forall k :: k in entries && entries[k].Value? ==>
            !entries[k].json.Obj? && tree.fields[k] == entries[k].json)
      && (forall k :: k in entries && entries[k].Nested? ==>
            var n := entries[k].node;
            n in repr && n.repr <= repr && this !in n.repr && n.Valid() && tree.fields[k] == n.tree)
      && (forall j, k :: j in entries && k in entries && j != k && entries[j].Nested? && entries[k].Nested? ==>
            entries[j].node.repr !! entries[k].node.repr)
    }

    /** Assigns a leaf, whatever was there. */
    method SetValue(key: string, v: Json)
      requires Valid() && !v.Obj?
      modifies this
      ensures Valid() && repr == old(repr)
      ensures tree == Put(old(tree), [key], v)
      ensures entries == old(entries)[key := Value(v)]
    {
      entries := entries[key := Value(v)];
      tree := Obj(tree.fields[key := v]);
    }

    /** Brings the ghost state up to date after the map at the key was written in place. */
    ghost method Reattach(key: string)
      requires this in repr && tree.Obj? && tree.fields.Keys == entries.Keys
      requires key in entries && entries[key].Nested?
      requires entries[key].node.Valid() && this !in entries[key].node.repr
      requires forall k :: k in entries && entries[k].Value? ==>
                 !entries[k].json.Obj? && tree.fields[k] == entries[k].json
      requires forall k :: k in entries && entries[k].Nested? && k != key ==>
                 var n := entries[k].node;
                 n in repr && n.repr <= repr && this !in n.repr && n.Valid() && tree.fields[k] == n.tree
      requires forall j, k :: j in entries && k in entries && j != k && entries[j].Nested? && entries[k].Nested? ==>
                 entries[j].node.repr !! entries[k].node.repr
      modifies this
      ensures Valid() && entries == old(entries)
      ensures repr == old(repr) + entries[key].node.repr
      ensures tree == Obj(old(tree).fields[key := entries[key].node.tree])
    {
      tree := Obj(tree.fields[key := entries[key].node.tree]);
      repr := repr + entries[key].node.repr;
    }

    /** Assigns a node that nothing else here refers to. */
    method SetNode(key: string, n: MapNode)
      requires Valid() && n.Valid() && n.repr !! repr
      modifies this
      ensures Valid() && repr == old(repr) + n.repr
      ensures tree == Put(old(tree), [key], n.tree)
      ensures entries == old(entries)[key := Nested(n)]
    {
      entries := entries[key := Nested(n)];
      tree := Obj(tree.fields[key := n.tree]);
      repr := repr + n.repr;
    }
  }

  /** The value of a possibly nil map. */
  ghost function TreeOf(m: MapNode?): Json
    reads m
  {
    if m == null then Obj(map[]) else m.tree
  }

  ghost predicate ValidMap(m: MapNode?)
    reads m, if m == null then {} else m.repr
  {
    m != null ==> m.Valid()
  }

  ghost function Select(t: Json, keys: set<string>): Json
    requires t.Obj? && keys <= t.fields.Keys
  {
    Obj(map k | k in keys :: t.fields[k])
  }

  lemma SelectOneKey(t: Json, done: set<string>, key: string)
    requires t.Obj? && done <= t.fields.Keys && key in t.fields
    ensures Select(t, done + {key}) == Put(Select(t, done), [key], t.fields[key])
    ensures Select(t, {}) == Obj(map[]) && Select(t, t.fields.Keys) == t
  {
    assert Select(t, done + {key}).fields == Select(t, done).fields[key := t.fields[key]];
    assert Select(t, t.fields.Keys).fields == t.fields;
  }

  /** One turn of the loop of deepCopyMapAny. */
  method CopyEntry(out: MapNode, source: MapNode, key: string)
    requires out.Valid() && source.Valid() && key in source.entries && out.repr !! source.repr
    modifies out
    ensures out.Valid() && old(out.repr) <= out.repr && fresh(out.repr - old(out.repr))
    ensures out.tree == Put(old(out.tree), [key], source.tree.fields[key])
    decreases source.repr, 0
  {
    match source.entries[key] {
      case Nested(n) =>
        var copy := DeepCopy(n);
        out.SetNode(key, copy);
      case Value(v) =>
        out.SetValue(key, v);
    }
  }

  /** The copy has the same contents and shares no map with the original. */
  method DeepCopy(source: MapNode?) returns (out: MapNode)
    requires ValidMap(source)
    ensures out.Valid() && fresh(out.repr)
    ensures out.tree == TreeOf(source)
    decreases if source == null then {} else source.repr, 1
  {
    out := new MapNode();
    if source == null {
      return;
    }
    var keys := source.entries.Keys;
    ghost var done: set<string> := {};
    while keys != {}
      invariant keys + done == source.entries.Keys && keys !! done
      invariant out.Valid() && fresh(out.repr)
      invariant out.tree == Select(source.tree, done)
    {
      var key :| key in keys;
      SelectOneKey(source.tree, done, key);
      CopyEntry(out, source, key);
      keys, done := keys - {key}, done + {key};
    }
    assert done == source.tree.fields.Keys;
    assert Select(source.tree, done).fields == source.tree.fields;
  }

  lemma MergeAt(base: Json, over: Json, k: string)
    requires base.Obj? && over.Obj?
    ensures var m := Merge(base, over);
            m.Obj? && (k in m.fields <==> k in base.fields || k in over.fields) &&
            (k in m.fields ==> m.fields[k] == if k in over.fields then MergedField(base, over, k) else base.fields[k])
  {
  }

  /** Merging one more key of the override. */
  lemma MergeOneKey(base: Json, over: Json, done: set<string>, key: string)
    requires base.Obj? && over.Obj? && done <= over.fields.Keys && key in over.fields && key !in done
    ensures Merge(base, Select(over, done)).Obj?
    ensures Merge(base, Select(over, done + {key})) ==
            Put(Merge(base, Select(over, done)), [key], MergedField(Merge(base, Select(over, done)), over, key))
  {
    var m, l := Merge(base, Select(over, done)), Merge(base, Select(over, done + {key}));
    forall k ensures k in l.fields <==> k in m.fields || k == key
             ensures k in m.fields && k != key ==> l.fields[k] == m.fields[k]
             ensures k == key ==> l.fields[k] == MergedField(m, over, key)
    {
      MergeAt(base, Select(over, done), k);
      MergeAt(base, Select(over, done + {key}), k);
    }
    assert l.fields == m.fields[key := MergedField(m, over, key)];
  }

  ghost function MergedField(base: Json, over: Json, key: string): Json
    requires base.Obj? && over.Obj? && key in over.fields
  {
    if key in base.fields then Merge(base.fields[key], over.fields[key]) else over.fields[key]
  }

  /** One turn of the loop of deepMergeMapAny. */
  method MergeEntry(merged: MapNode, over: MapNode, key: string)
    requires merged.Valid() && over.Valid() && key in over.entries && merged.repr !! over.repr
    modifies merged
    ensures merged.Valid() && old(merged.repr) <= merged.repr && fresh(merged.repr - old(merged.repr))
    ensures merged.tree == Put(old(merged.tree), [key], MergedField(old(merged.tree), over.tree, key))
    decreases over.repr, 0
  {
    match over.entries[key] {
      case Nested(n) =>
        if key in merged.entries && merged.entries[key].Nested? {
          var sub := DeepMerge(merged.entries[key].node, n);
          merged.SetNode(key, sub);
        } else {
          var copy := DeepCopy(n);
          merged.SetNode(key, copy);
        }
      case Value(v) =>
        merged.SetValue(key, v);
    }
  }

  /** deepMergeMapAny: the merged contents, in maps shared with neither input. */
  method DeepMerge(base: MapNode?, over: MapNode?) returns (merged: MapNode)
    requires ValidMap(base) && ValidMap(over)
    ensures merged.Valid() && fresh(merged.repr)
    ensures merged.tree == Merge(TreeOf(base), TreeOf(over))
    decreases if over == null then {} else over.repr, 1
  {
    merged := DeepCopy(base);
    ghost var b := TreeOf(base);
    MergeEmpty(b.fields);
    if over == null {
      return;
    }
    var keys := over.entries.Keys;
    ghost var done: set<string> := {};
    assert Select(over.tree, done) == Obj(map[]);
    while keys != {}
      invariant keys + done == over.entries.Keys && keys !! done
      invariant merged.Valid() && fresh(merged.repr)
      invariant merged.tree == Merge(b, Select(over.tree, done))
    {
      var key :| key in keys;
      MergeOneKey(b, over.tree, done, key);
      MergeEntry(merged, over, key);
      keys, done := keys - {key}, done + {key};
    }
    assert Select(over.tree, done).fields == over.tree.fields;
  }

  /** mustEnsureNestedMap: the map at the key, created in place of anything else.
      The result is the very node the root refers to. */
  method EnsureNestedMap(root: MapNode, rawKey: string) returns (nested: MapNode)
    requires root.Valid()
    modifies root
    ensures root.Valid() && fresh(root.repr - old(root.repr)) && old(root.repr) <= root.repr
    ensures var key := TrimSpace(rawKey);
            if key == "" then nested == root && root.tree == old(root.tree)
            else
              && key in root.entries && root.entries[key] == Nested(nested)
              && (if key in old(root.entries) && old(root.entries)[key].Nested?
                  then nested == old(root.entries)[key].node && root.tree == old(root.tree)
                  else root.tree == Put(old(root.tree), [key], Obj(map[])))
  {
    var key := TrimSpace(rawKey);
    if key == "" {
      return root;
    }
    if key in root.entries && root.entries[key].Nested? {
      return root.entries[key].node;
    }
    nested := new MapNode();
    root.SetNode(key, nested);
  }

  /** EnsureNestedMap at a key that trimming leaves alone. */
  method EnsureNestedAt(root: MapNode, key: string) returns (nested: MapNode)
    requires root.Valid() && key != "" && Trimmed(key)
    modifies root
    ensures root.Valid() && fresh(root.repr - old(root.repr)) && old(root.repr) <= root.repr
    ensures key in root.entries && root.entries[key] == Nested(nested)
    ensures key in old(root.entries) && old(root.entries)[key].Nested? ==>
              nested == old(root.entries)[key].node && root.tree == old(root.tree)
    ensures !(key in old(root.entries) && old(root.entries)[key].Nested?) ==>
              root.tree == Put(old(root.tree), [key], Obj(map[]))
  {
    TrimSpaceFixpoint(key);
    nested := EnsureNestedMap(root, key);
  }

  /** Assigns within the map at the key. */
  method AssignBelow(root: MapNode, key: string, rest: seq<string>, v: Json)
    requires root.Valid() && rest != [] && !v.Obj? && key in root.entries && root.entries[key].Nested?
    requires forall i :: 0 <= i < |rest| - 1 ==> rest[i] != "" && Trimmed(rest[i])
    modifies root.repr
    ensures root.Valid() && fresh(root.repr - old(root.repr)) && old(root.repr) <= root.repr
    ensures root.tree == Obj(old(root.tree).fields[key := Put(old(root.tree).fields[key], rest, v)])
    decreases |rest|, 1
  {
    var nested := root.entries[key].node;
    AssignAt(nested, rest, v);
    assert forall k :: k in root.entries && k != key && root.entries[k].Nested? ==>
      root.entries[k].node.repr == old(root.entries[k].node.repr);
    assert forall k :: k in root.entries && k != key && root.entries[k].Nested? ==>
      root.entries[k].node.Valid() && root.entries[k].node.repr !! nested.repr;
    root.Reattach(key);
  }

  /** A chain of EnsureNestedMap calls followed by an assignment of a leaf. */
  method AssignAt(root: MapNode, path: seq<string>, v: Json)
    requires root.Valid() && path != [] && !v.Obj?
    requires forall i :: 0 <= i < |path| - 1 ==> path[i] != "" && Trimmed(path[i])
    modifies root.repr
    ensures root.Valid() && fresh(root.repr - old(root.repr)) && old(root.repr) <= root.repr
    ensures root.tree == Put(old(root.tree), path, v)
    decreases |path|, 0
  {
    if |path| == 1 {
      root.SetValue(path[0], v);
      assert path == [path[0]];
      return;
    }
    var key := path[0];
    var _ := EnsureNestedAt(root, key);
    PutThrough(old(root.tree), root.tree, path, v);
    AssignBelow(root, key, path[1..], v);
  }

  /** Writing below a key is the same before and after a map is put there. */
  lemma PutThrough(t: Json, ensured: Json, path: seq<string>, v: Json)
    requires |path| > 1 && t.Obj?
    requires if path[0] in t.fields && t.fields[path[0]].Obj? then ensured == t
             else ensured == Put(t, [path[0]], Obj(map[]))
    ensures Put(t, path, v) == Obj(ensured.fields[path[0] := Put(ensured.fields[path[0]], path[1..], v)])
  {
    var sub := if path[0] in t.fields then t.fields[path[0]] else Null;
    assert Put(t, path, v) == Obj(t.fields[path[0] := Put(sub, path[1..], v)]);
    if !sub.Obj? {
      assert Put(sub, path[1..], v) == Put(Obj(map[]), path[1..], v);
    }
    assert Put(t, path, v).fields == ensured.fields[path[0] := Put(ensured.fields[path[0]], path[1..], v)];
  }

  const SETTINGS: string := "settings"
  const SERVICE_ACCOUNT: string := "serviceAccount"
  const ANNOTATIONS: string := "annotations"
  const FEATURE_GATES: string := "featureGates"

  const CLUSTER_NAME: Path := [SETTINGS, "clusterName"]
  const CLUSTER_ENDPOINT: Path := [SETTINGS, "clusterEndpoint"]
  const ROLE_ARN: Path := [SERVICE_ACCOUNT, ANNOTATIONS, "eks.amazonaws.com/role-arn"]
  const INTERRUPTION_QUEUE: Path := [SETTINGS, "interruptionQueue"]
  const GATES: Path := [SETTINGS, FEATURE_GATES]

  datatype Owned = Owned(clusterName: string, endpoint: string, roleARN: string)

  function Scalars(): map<string, Json> {
    map["dnsPolicy" := Leaf("Default"), "priorityClassName" := Leaf("system-cluster-critical"),
        "webhook" := Obj(map["enabled" := Leaf("false")])]
  }

  function Settings(o: Owned): Json {
    Obj(map["clusterName" := Leaf(o.clusterName), "clusterEndpoint" := Leaf(o.endpoint)])
  }

  function ServiceAccount(o: Owned): Json {
    Obj(map[ANNOTATIONS := Obj(map["eks.amazonaws.com/role-arn" := Leaf(o.roleARN)])])
  }

  function DefaultValues(o: Owned): (t: Json)
    ensures t.Obj?
  {
    Obj(Scalars()[SETTINGS := Settings(o)][SERVICE_ACCOUNT := ServiceAccount(o)])
  }

  function Flag(b: bool): Json { Leaf(if b then "true" else "false") }

  /** Names that are blank after trimming are skipped; the others are kept as given. */
  function KeptNames(gates: map<string, bool>): set<string> {
    set n | n in gates && !IsBlank(n)
  }

  function GateFields(gates: map<string, bool>, names: set<string>): map<string, Json>
    requires names <= gates.Keys
  {
    map n | n in names :: Flag(gates[n])
  }

  function WithGates(t: Json, gates: map<string, bool>): Json {
    if |gates| > 0 then Put(t, GATES, Obj(GateFields(gates, KeptNames(gates)))) else t
  }

  function WithQueue(t: Json, queue: string): Json {
    if TrimSpace(queue) != "" then Put(t, INTERRUPTION_QUEUE, Leaf(TrimSpace(queue))) else t
  }

  function BaseValues(o: Owned, gates: map<string, bool>, queue: string): Json {
    WithQueue(WithGates(DefaultValues(o), gates), queue)
  }

  function WithOwned(t: Json, o: Owned): Json {
    Put(Put(Put(t, CLUSTER_NAME, Leaf(o.clusterName)), CLUSTER_ENDPOINT, Leaf(o.endpoint)),
        ROLE_ARN, Leaf(o.roleARN))
  }

  /** The override annotation: absent or blank, not a JSON object, or a parsed map (nil for null). */
  datatype Override = NoOverride | Unparseable | Parsed(node: MapNode?)

  ghost function Resolved(o: Owned, gates: map<string, bool>, queue: string, over: Option<Json>): Json {
    var base := BaseValues(o, gates, queue);
    if over.None? then base else WithOwned(Merge(base, over.value), o)
  }

  method NewSettings(o: Owned) returns (m: MapNode)
    ensures m.Valid() && fresh(m.repr)
    ensures m.tree == Settings(o)
  {
    m := new MapNode();
    m.SetValue("clusterName", Leaf(o.clusterName));
    m.SetValue("clusterEndpoint", Leaf(o.endpoint));
  }

  method NewSingleton(key: string, v: Json) returns (m: MapNode)
    requires !v.Obj?
    ensures m.Valid() && fresh(m.repr) && m.tree == Obj(map[key := v])
  {
    m := new MapNode();
    m.SetValue(key, v);
  }

  method NewServiceAccount(o: Owned) returns (m: MapNode)
    ensures m.Valid() && fresh(m.repr)
    ensures m.tree == ServiceAccount(o)
  {
    m := new MapNode();
    var annotations := NewSingleton("eks.amazonaws.com/role-arn", Leaf(o.roleARN));
    m.SetNode(ANNOTATIONS, annotations);
  }

  method NewScalars() returns (m: MapNode)
    ensures m.Valid() && fresh(m.repr)
    ensures m.tree == Obj(Scalars())
  {
    m := NewSingleton("dnsPolicy", Leaf("Default"));
    m.SetValue("priorityClassName", Leaf("system-cluster-critical"));
    var webhook := NewSingleton("enabled", Leaf("false"));
    m.SetNode("webhook", webhook);
  }

  method SetTwo(m: MapNode, a: string, x: MapNode, b: string, y: MapNode)
    requires m.Valid() && x.Valid() && y.Valid() && m.repr !! x.repr !! y.repr
    modifies m
    ensures m.Valid() && m.repr == old(m.repr) + x.repr + y.repr
    ensures m.tree == Obj(old(m.tree).fields[a := x.tree][b := y.tree])
  {
    m.SetNode(a, x);
    m.SetNode(b, y);
  }

  method NewDefaultValues(o: Owned) returns (values: MapNode)
    ensures values.Valid() && fresh(values.repr) && values.tree == DefaultValues(o)
  {
    var settings := NewSettings(o);
    var serviceAccount := NewServiceAccount(o);
    values := NewScalars();
    SetTwo(values, SETTINGS, settings, SERVICE_ACCOUNT, serviceAccount);
  }

  lemma DefaultsHaveSettings(o: Owned)
    ensures var t := DefaultValues(o);
            && SETTINGS in t.fields && t.fields[SETTINGS] == Settings(o)
            && FEATURE_GATES !in t.fields[SETTINGS].fields
  {
    assert SETTINGS != SERVICE_ACCOUNT by { assert |SETTINGS| != |SERVICE_ACCOUNT|; }
    assert FEATURE_GATES[0] == 'f' && CLUSTER_NAME[1][0] == 'c' && CLUSTER_ENDPOINT[1][0] == 'c';
  }

  method AddFlag(values: MapNode, ghost t: Json, path: seq<string>, ghost m: map<string, Json>, name: string, b: bool)
    requires values.Valid() && path != [] && values.tree == Put(t, path, Obj(m))
    requires forall i :: 0 <= i < |path| ==> path[i] != "" && Trimmed(path[i])
    modifies values.repr
    ensures values.Valid() && fresh(values.repr - old(values.repr)) && old(values.repr) <= values.repr
    ensures values.tree == Put(t, path, Obj(m[name := Flag(b)]))
  {
    PutBelow(t, path, m, name, Flag(b));
    AssignAt(values, path + [name], Flag(b));
  }

  /** Adds one entry per gate with a name to the empty map at the path. */
  method AddFlags(values: MapNode, ghost t: Json, path: seq<string>, gates: map<string, bool>, ghost keep: set<string>)
    requires values.Valid() && path != [] && values.tree == Put(t, path, Obj(map[]))
    requires forall i :: 0 <= i < |path| ==> path[i] != "" && Trimmed(path[i])
    requires keep <= gates.Keys && forall n :: n in gates ==> (n in keep <==> !IsBlank(n))
    modifies values.repr
    ensures values.Valid() && fresh(values.repr - old(values.repr)) && old(values.repr) <= values.repr
    ensures values.tree == Put(t, path, Obj(GateFields(gates, keep)))
  {
    var names := gates.Keys;
    ghost var added: set<string> := {};
    while names != {}
      invariant names <= gates.Keys && added == keep - names
      invariant values.Valid() && fresh(values.repr - old(values.repr)) && old(values.repr) <= values.repr
      invariant values.tree == Put(t, path, Obj(GateFields(gates, added)))
    {
      var name :| name in names;
      if !IsBlank(name) {
        AddFlag(values, t, path, GateFields(gates, added), name, gates[name]);
        OneMoreGate(gates, added, name);
        added := added + {name};
      }
      names := names - {name};
    }
    assert added == keep;
  }

  lemma OneMoreGate(gates: map<string, bool>, added: set<string>, name: string)
    requires added <= gates.Keys && name in gates
    ensures GateFields(gates, added + {name}) == GateFields(gates, added)[name := Flag(gates[name])]
  {
  }

  predicate IsBlank(name: string) { TrimSpace(name) == "" }

  /** The chain of two EnsureNestedMap calls. */
  method EnsureNestedPair(values: MapNode, outer: string, inner: string)
    requires values.Valid() && outer != "" && Trimmed(outer) && inner != "" && Trimmed(inner)
    requires outer in values.tree.fields && values.tree.fields[outer].Obj?
    requires inner !in values.tree.fields[outer].fields
    modifies values.repr
    ensures values.Valid() && fresh(values.repr - old(values.repr)) && old(values.repr) <= values.repr
    ensures values.tree == Put(old(values.tree), [outer, inner], Obj(map[]))
  {
    var _ := EnsureNestedAt(values, outer);
    EnsureNestedBelow(values, outer, inner);
    assert [outer, inner][1..] == [inner];
  }

  /** EnsureNestedAt within the map at the key. */
  method EnsureNestedBelow(root: MapNode, key: string, inner: string)
    requires root.Valid() && key in root.entries && root.entries[key].Nested?
    requires inner != "" && Trimmed(inner)
    requires root.tree.fields[key].Obj? && inner !in root.tree.fields[key].fields
    modifies root.repr
    ensures root.Valid() && fresh(root.repr - old(root.repr)) && old(root.repr) <= root.repr
    ensures root.tree == Obj(old(root.tree).fields[key := Put(old(root.tree).fields[key], [inner], Obj(map[]))])
  {
    var nested := root.entries[key].node;
    var _ := EnsureNestedAt(nested, inner);
    root.Reattach(key);
  }

  method AddGates(values: MapNode, gates: map<string, bool>)
    requires values.Valid() && SETTINGS in values.tree.fields && values.tree.fields[SETTINGS].Obj?
    requires FEATURE_GATES !in values.tree.fields[SETTINGS].fields
    modifies values.repr
    ensures values.Valid() && fresh(values.repr - old(values.repr)) && old(values.repr) <= values.repr
    ensures values.tree == WithGates(old(values.tree), gates)
  {
    if |gates| > 0 {
      ghost var t := values.tree;
      EnsureNestedPair(values, SETTINGS, FEATURE_GATES);
      AddFlags(values, t, [SETTINGS, FEATURE_GATES], gates, KeptNames(gates));
    }
  }

  method AddQueue(values: MapNode, queue: string)
    requires values.Valid()
    modifies values.repr
    ensures values.Valid() && fresh(values.repr - old(values.repr)) && old(values.repr) <= values.repr
    ensures values.tree == WithQueue(old(values.tree), queue)
  {
    var name := TrimSpace(queue);
    if name != "" {
      AssignAt(values, [SETTINGS, "interruptionQueue"], Leaf(name));
    }
  }

  method AddExtras(values: MapNode, gates: map<string, bool>, queue: string)
    requires values.Valid() && SETTINGS in values.tree.fields && values.tree.fields[SETTINGS].Obj?
    requires FEATURE_GATES !in values.tree.fields[SETTINGS].fields
    modifies values.repr
    ensures values.Valid() && fresh(values.repr - old(values.repr)) && old(values.repr) <= values.repr
    ensures values.tree == WithQueue(WithGates(old(values.tree), gates), queue)
  {
    AddGates(values, gates);
    AddQueue(values, queue);
  }

  method NewBaseValues(o: Owned, gates: map<string, bool>, queue: string) returns (values: MapNode)
    ensures values.Valid() && fresh(values.repr) && values.tree == BaseValues(o, gates, queue)
  {
    values := NewDefaultValues(o);
    DefaultsHaveSettings(o);
    AddExtras(values, gates, queue);
  }

  method WriteOwnedSettings(values: MapNode, name: Json, endpoint: Json)
    requires values.Valid() && !name.Obj? && !endpoint.Obj?
    modifies values.repr
    ensures values.Valid() && fresh(values.repr - old(values.repr)) && old(values.repr) <= values.repr
    ensures values.tree == Put(Put(old(values.tree), CLUSTER_NAME, name), CLUSTER_ENDPOINT, endpoint)
  {
    AssignAt(values, CLUSTER_NAME, name);
    AssignAt(values, CLUSTER_ENDPOINT, endpoint);
  }

  method WriteOwned(values: MapNode, o: Owned)
    requires values.Valid()
    modifies values.repr
    ensures values.Valid() && fresh(values.repr - old(values.repr)) && old(values.repr) <= values.repr
    ensures values.tree == WithOwned(old(values.tree), o)
  {
    WriteOwnedSettings(values, Leaf(o.clusterName), Leaf(o.endpoint));
    AssignAt(values, ROLE_ARN, Leaf(o.roleARN));
  }

  method MergeOverride(values: MapNode, over: MapNode?, o: Owned) returns (merged: MapNode)
    requires values.Valid() && ValidMap(over)
    ensures merged.Valid() && fresh(merged.repr)
    ensures merged.tree == WithOwned(Merge(values.tree, TreeOf(over)), o)
  {
    merged := DeepMerge(values, over);
    WriteOwned(merged, o);
  }

  /** resolveKarpenterHelmValues: the merged values with the owned keys written back, in
      maps of their own; the override's maps are left alone. */
  method ResolveHelmValues(o: Owned, gates: map<string, bool>, queue: string, over: Override)
    returns (r: Option<MapNode>)
    requires over.Parsed? ==> ValidMap(over.node)
    ensures r.None? <==> over.Unparseable?
    ensures r.Some? ==> r.value.Valid() && fresh(r.value.repr)
    ensures r.Some? ==>
              (r.value.tree == Resolved(o, gates, queue, if over.Parsed? then Some(TreeOf(over.node)) else None))
  {
    var values := NewBaseValues(o, gates, queue);
    match over {
      case NoOverride => return Some(values);
      case Unparseable => return None;
      case Parsed(node) =>
        var merged := MergeOverride(values, node, o);
        return Some(merged);
    }
  }

  predicate IsOwned(p: Path) { p == CLUSTER_NAME || p == CLUSTER_ENDPOINT || p == ROLE_ARN }

  function OwnedValue(o: Owned, p: Path): string
    requires IsOwned(p)
  {
    if p == CLUSTER_NAME then o.clusterName else if p == CLUSTER_ENDPOINT then o.endpoint else o.roleARN
  }

  lemma OwnedPathsApart()
    ensures Apart(CLUSTER_NAME, CLUSTER_ENDPOINT) && Apart(CLUSTER_NAME, ROLE_ARN) && Apart(CLUSTER_ENDPOINT, ROLE_ARN)
    ensures Apart(GATES, CLUSTER_NAME) && Apart(GATES, CLUSTER_ENDPOINT) && Apart(GATES, ROLE_ARN)
    ensures Apart(INTERRUPTION_QUEUE, CLUSTER_NAME) && Apart(INTERRUPTION_QUEUE, CLUSTER_ENDPOINT)
    ensures Apart(INTERRUPTION_QUEUE, ROLE_ARN)
  {
    assert CLUSTER_NAME[1] != CLUSTER_ENDPOINT[1] && CLUSTER_NAME[0] != ROLE_ARN[0] && CLUSTER_ENDPOINT[0] != ROLE_ARN[0];
    assert GATES[1] != CLUSTER_NAME[1] && GATES[1] != CLUSTER_ENDPOINT[1] && GATES[0] != ROLE_ARN[0];
    assert INTERRUPTION_QUEUE[1] != CLUSTER_NAME[1] && INTERRUPTION_QUEUE[1] != CLUSTER_ENDPOINT[1];
    assert INTERRUPTION_QUEUE[0] != ROLE_ARN[0];
  }

  lemma DefaultsHaveOwned(o: Owned, p: Path)
    requires IsOwned(p)
    ensures Lookup(DefaultValues(o), p) == Some(Leaf(OwnedValue(o, p)))
  {
    var t := DefaultValues(o);
    LookupPair(t, SETTINGS, "clusterName");
    LookupPair(t, SETTINGS, "clusterEndpoint");
    LookupPair(t.fields[SERVICE_ACCOUNT], ANNOTATIONS, "eks.amazonaws.com/role-arn");
    assert ROLE_ARN[1..] == [ANNOTATIONS, "eks.amazonaws.com/role-arn"];
  }

  lemma LookupPair(t: Json, a: string, b: string)
    requires t.Obj? && a in t.fields && t.fields[a].Obj? && b in t.fields[a].fields
    ensures Lookup(t, [a, b]) == Some(t.fields[a].fields[b])
  {
    assert [a, b][1..] == [b] && [b][1..] == [];
    assert Lookup(t.fields[a], [b]) == Lookup(t.fields[a].fields[b], []);
  }

  lemma BaseHasOwned(o: Owned, gates: map<string, bool>, queue: string, p: Path)
    requires IsOwned(p)
    ensures Lookup(BaseValues(o, gates, queue), p) == Some(Leaf(OwnedValue(o, p)))
  {
    OwnedPathsApart();
    var t := DefaultValues(o);
    DefaultsHaveOwned(o, p);
    PutFrame(t, GATES, Obj(GateFields(gates, KeptNames(gates))), p);
    PutFrame(WithGates(t, gates), INTERRUPTION_QUEUE, Leaf(TrimSpace(queue)), p);
  }

  /** Whatever the gates, the queue and the override (even one that replaces settings,
      serviceAccount or annotations by a scalar or null), the owned keys hold the
      bootstrapper's values. */
  lemma OwnedKeysWin(o: Owned, gates: map<string, bool>, queue: string, over: Option<Json>, p: Path)
    requires IsOwned(p)
    ensures Lookup(Resolved(o, gates, queue, over), p) == Some(Leaf(OwnedValue(o, p)))
  {
    OwnedPathsApart();
    if over.None? {
      BaseHasOwned(o, gates, queue, p);
    } else {
      var m := Merge(BaseValues(o, gates, queue), over.value);
      var a := Put(m, CLUSTER_NAME, Leaf(o.clusterName));
      var b := Put(a, CLUSTER_ENDPOINT, Leaf(o.endpoint));
      PutGet(m, CLUSTER_NAME, Leaf(o.clusterName));
      PutGet(a, CLUSTER_ENDPOINT, Leaf(o.endpoint));
      PutGet(b, ROLE_ARN, Leaf(o.roleARN));
      if p == CLUSTER_NAME {
        PutFrame(a, CLUSTER_ENDPOINT, Leaf(o.endpoint), p);
        PutFrame(b, ROLE_ARN, Leaf(o.roleARN), p);
      } else if p == CLUSTER_ENDPOINT {
        PutFrame(b, ROLE_ARN, Leaf(o.roleARN), p);
      }
    }
  }

  /** Every path not at, above or below an owned key reads as in the plain merge. */
  lemma OtherKeysAreThePlainMerge(o: Owned, gates: map<string, bool>, queue: string, over: Json, q: Path)
    requires Apart(CLUSTER_NAME, q) && Apart(CLUSTER_ENDPOINT, q) && Apart(ROLE_ARN, q)
    ensures Lookup(Resolved(o, gates, queue, Some(over)), q) == Lookup(Merge(BaseValues(o, gates, queue), over), q)
  {
    var m := Merge(BaseValues(o, gates, queue), over);
    var a := Put(m, CLUSTER_NAME, Leaf(o.clusterName));
    var b := Put(a, CLUSTER_ENDPOINT, Leaf(o.endpoint));
    PutFrame(m, CLUSTER_NAME, Leaf(o.clusterName), q);
    PutFrame(a, CLUSTER_ENDPOINT, Leaf(o.endpoint), q);
    PutFrame(b, ROLE_ARN, Leaf(o.roleARN), q);
  }

  /** An override that agrees with the owned keys is applied as a plain merge. */
  lemma AgreeingOverrideIsThePlainMerge(o: Owned, gates: map<string, bool>, queue: string, over: Json)
    requires forall p :: IsOwned(p) ==>
               Lookup(Merge(BaseValues(o, gates, queue), over), p) == Some(Leaf(OwnedValue(o, p)))
    ensures Resolved(o, gates, queue, Some(over)) == Merge(BaseValues(o, gates, queue), over)
  {
    var m := Merge(BaseValues(o, gates, queue), over);
    assert IsOwned(CLUSTER_NAME) && IsOwned(CLUSTER_ENDPOINT) && IsOwned(ROLE_ARN);
    OwnedPathsApart();
    PutSame(m, CLUSTER_NAME, Leaf(o.clusterName));
    PutSame(m, CLUSTER_ENDPOINT, Leaf(o.endpoint));
    PutSame(m, ROLE_ARN, Leaf(o.roleARN));
  }

  // ---- what the values are, path by path ----

  /** The text at each path the values have before an override, and none elsewhere. */
  function Expected(o: Owned, gates: map<string, bool>, queue: string, p: Path): Option<string> {
    if p == [] then None
    else if p[0] == "settings" then ExpectedSetting(o, gates, queue, p[1..])
    else if p[0] == "serviceAccount" then
      if p[1..] == ["annotations", "eks.amazonaws.com/role-arn"] then Some(o.roleARN) else None
    else if p == ["dnsPolicy"] then Some("Default")
    else if p == ["priorityClassName"] then Some("system-cluster-critical")
    else if p == ["webhook", "enabled"] then Some("false")
    else None
  }

  /** Below settings. */
  function ExpectedSetting(o: Owned, gates: map<string, bool>, queue: string, p: Path): Option<string> {
    if p == ["clusterName"] then Some(o.clusterName)
    else if p == ["clusterEndpoint"] then Some(o.endpoint)
    else if p == ["interruptionQueue"] && TrimSpace(queue) != "" then Some(TrimSpace(queue))
    else if |p| == 2 && p[0] == "featureGates" && p[1] in gates && TrimSpace(p[1]) != "" then
      Some(if gates[p[1]] then "true" else "false")
    else None
  }

  /** The leaf below a map. */
  function TextAt(t: Json, p: Path): Option<string> {
    var v := Lookup(t, p);
    if v.Some? && v.value.Leaf? then Some(v.value.text) else None
  }

  function TextBelow(fields: map<string, Json>, p: Path): Option<string> {
    if p != [] && p[0] in fields then TextAt(fields[p[0]], p[1..]) else None
  }

  lemma TextOfMap(fields: map<string, Json>, p: Path)
    ensures TextAt(Obj(fields), p) == TextBelow(fields, p)
  {
  }

  lemma TextOfLeaf(text: string, p: Path)
    ensures TextAt(Leaf(text), p) == if p == [] then Some(text) else None
  {
  }

  function GatesPart(gates: map<string, bool>): map<string, Json> {
    if |gates| > 0 then map[FEATURE_GATES := Obj(GateFields(gates, KeptNames(gates)))] else map[]
  }

  function QueuePart(queue: string): map<string, Json> {
    if TrimSpace(queue) != "" then map["interruptionQueue" := Leaf(TrimSpace(queue))] else map[]
  }

  function AllSettings(o: Owned, gates: map<string, bool>, queue: string): map<string, Json> {
    Settings(o).fields + GatesPart(gates) + QueuePart(queue)
  }

  lemma PutInMap(t: Json, a: string, b: string, v: Json)
    requires t.Obj? && a in t.fields && t.fields[a].Obj?
    ensures Put(t, [a, b], v) == Obj(t.fields[a := Obj(t.fields[a].fields[b := v])])
  {
    assert [a, b][1..] == [b];
  }

  lemma TopKeysDiffer()
    ensures SETTINGS != SERVICE_ACCOUNT && SETTINGS !in Scalars() && SERVICE_ACCOUNT !in Scalars()
  {
    assert |SETTINGS| == 8 && |SERVICE_ACCOUNT| == 14;
    assert SETTINGS[0] == 's' && SERVICE_ACCOUNT[0] == 's';
    forall k | k in Scalars() ensures k[0] != 's' {
    }
  }

  lemma GatesShape(rest: map<string, Json>, inner: map<string, Json>, gates: map<string, bool>)
    ensures WithGates(Obj(rest[SETTINGS := Obj(inner)]), gates) == Obj(rest[SETTINGS := Obj(inner + GatesPart(gates))])
  {
    var t := Obj(rest[SETTINGS := Obj(inner)]);
    if |gates| > 0 {
      var v := Obj(GateFields(gates, KeptNames(gates)));
      PutInMap(t, SETTINGS, FEATURE_GATES, v);
      assert inner[FEATURE_GATES := v] == inner + GatesPart(gates);
    } else {
      assert inner + GatesPart(gates) == inner;
    }
    Overwritten(rest, SETTINGS, Obj(inner), Obj(inner + GatesPart(gates)));
  }

  lemma QueueShape(rest: map<string, Json>, inner: map<string, Json>, queue: string)
    ensures WithQueue(Obj(rest[SETTINGS := Obj(inner)]), queue) == Obj(rest[SETTINGS := Obj(inner + QueuePart(queue))])
  {
    var t := Obj(rest[SETTINGS := Obj(inner)]);
    if TrimSpace(queue) != "" {
      var v := Leaf(TrimSpace(queue));
      PutInMap(t, SETTINGS, "interruptionQueue", v);
      assert inner["interruptionQueue" := v] == inner + QueuePart(queue);
    } else {
      assert inner + QueuePart(queue) == inner;
    }
    Overwritten(rest, SETTINGS, Obj(inner), Obj(inner + QueuePart(queue)));
  }

  /** The values before an override, as one tree. */
  lemma BaseShape(o: Owned, gates: map<string, bool>, queue: string)
    ensures BaseValues(o, gates, queue) ==
            Obj(Scalars()[SETTINGS := Obj(AllSettings(o, gates, queue))][SERVICE_ACCOUNT := ServiceAccount(o)])
  {
    TopKeysDiffer();
    var rest := Scalars()[SERVICE_ACCOUNT := ServiceAccount(o)];
    Swapped(Scalars(), SETTINGS, Settings(o), SERVICE_ACCOUNT, ServiceAccount(o));
    GatesShape(rest, Settings(o).fields, gates);
    QueueShape(rest, Settings(o).fields + GatesPart(gates), queue);
    Swapped(Scalars(), SETTINGS, Obj(AllSettings(o, gates, queue)), SERVICE_ACCOUNT, ServiceAccount(o));
  }

  lemma Swapped(m: map<string, Json>, a: string, x: Json, b: string, y: Json)
    requires a != b
    ensures m[a := x][b := y] == m[b := y][a := x]
  {
  }

  lemma Overwritten(m: map<string, Json>, k: string, x: Json, y: Json)
    ensures m[k := x][k := y] == m[k := y]
  {
  }

  lemma SettingKeysDiffer()
    ensures "clusterName" != "clusterEndpoint" && "clusterName" != FEATURE_GATES && "clusterEndpoint" != FEATURE_GATES
    ensures "interruptionQueue" != "clusterName" && "interruptionQueue" != "clusterEndpoint"
    ensures "interruptionQueue" != FEATURE_GATES
  {
    assert |"clusterName"| == 11 && |"clusterEndpoint"| == 15 && |FEATURE_GATES| == 12 && |"interruptionQueue"| == 17;
  }

  /** Two fields and two optional ones. */
  function Composed(a: string, x: Json, b: string, y: Json, c: string, z: Option<Json>, d: string, w: Option<Json>)
    : map<string, Json>
  {
    map[a := x, b := y] + (if z.Some? then map[c := z.value] else map[]) + (if w.Some? then map[d := w.value] else map[])
  }

  /** The text at a path in them. */
  lemma TextInComposed(a: string, x: string, b: string, y: string, c: string, z: Option<Json>, d: string, w: Option<string>,
                       p: Path)
    requires a != b && a != c && a != d && b != c && b != d && c != d
    ensures TextAt(Obj(Composed(a, Leaf(x), b, Leaf(y), c, z, d, if w.Some? then Some(Leaf(w.value)) else None)), p) ==
            if p == [] then None
            else if p == [a] then Some(x)
            else if p == [b] then Some(y)
            else if p == [d] then w
            else if p[0] == c && z.Some? then TextAt(z.value, p[1..])
            else None
  {
    var s := Composed(a, Leaf(x), b, Leaf(y), c, z, d, if w.Some? then Some(Leaf(w.value)) else None);
    TextOfMap(s, p);
    if p != [] {
      assert p == [p[0]] + p[1..];
      if p[0] in s && p[0] != c {
        TextOfLeaf(s[p[0]].text, p[1..]);
      }
    }
  }

  lemma TextOfGates(gates: map<string, bool>, p: Path)
    ensures TextAt(Obj(GateFields(gates, KeptNames(gates))), p) ==
            if |p| == 1 && p[0] in gates && TrimSpace(p[0]) != "" then Some(if gates[p[0]] then "true" else "false") else None
  {
    var fields := GateFields(gates, KeptNames(gates));
    TextOfMap(fields, p);
    if p != [] && p[0] in fields {
      TextOfLeaf(if gates[p[0]] then "true" else "false", p[1..]);
    }
  }

  function Switched(gates: map<string, bool>): Option<Json> {
    if |gates| > 0 then Some(Obj(GateFields(gates, KeptNames(gates)))) else None
  }

  function QueueName(queue: string): Option<string> { if TrimSpace(queue) != "" then Some(TrimSpace(queue)) else None }

  lemma SettingsAreComposed(o: Owned, gates: map<string, bool>, queue: string)
    ensures var name := QueueName(queue);
            AllSettings(o, gates, queue) ==
            Composed("clusterName", Leaf(o.clusterName), "clusterEndpoint", Leaf(o.endpoint), FEATURE_GATES, Switched(gates),
                     "interruptionQueue", if name.Some? then Some(Leaf(name.value)) else None)
  {
  }

  lemma TextInSettings(o: Owned, gates: map<string, bool>, queue: string, p: Path)
    ensures TextAt(Obj(AllSettings(o, gates, queue)), p) == ExpectedSetting(o, gates, queue, p)
  {
    SettingKeysDiffer();
    SettingsAreComposed(o, gates, queue);
    TextInComposed("clusterName", o.clusterName, "clusterEndpoint", o.endpoint, FEATURE_GATES, Switched(gates),
                   "interruptionQueue", QueueName(queue), p);
    if p != [] {
      TextOfGates(gates, p[1..]);
    }
  }

  lemma TextInServiceAccount(o: Owned, p: Path)
    ensures TextAt(ServiceAccount(o), p) ==
            if p == ["annotations", "eks.amazonaws.com/role-arn"] then Some(o.roleARN) else None
  {
    TextOfMap(ServiceAccount(o).fields, p);
    if p != [] && p[0] == ANNOTATIONS {
      assert p == [ANNOTATIONS] + p[1..];
      TextOfMap(map["eks.amazonaws.com/role-arn" := Leaf(o.roleARN)], p[1..]);
      if p[1..] != [] {
        assert p[1..] == [p[1]] + p[2..];
        TextOfLeaf(o.roleARN, p[1..][1..]);
      }
    }
  }

  lemma TextInScalars(p: Path)
    ensures TextAt(Obj(Scalars()), p) ==
            if p == ["dnsPolicy"] then Some("Default")
            else if p == ["priorityClassName"] then Some("system-cluster-critical")
            else if p == ["webhook", "enabled"] then Some("false")
            else None
  {
    TextOfMap(Scalars(), p);
    if p != [] {
      assert p == [p[0]] + p[1..];
      if p[0] == "webhook" {
        TextOfMap(map["enabled" := Leaf("false")], p[1..]);
        if p[1..] != [] {
          assert p[1..] == [p[1]] + p[2..];
          TextOfLeaf("false", p[1..][1..]);
        }
      } else if p[0] in Scalars() {
        TextOfLeaf(Scalars()[p[0]].text, p[1..]);
      }
    }
  }

  /** Before an override the values have exactly these texts at exactly these paths: the feature gates
      as they are switched, the trimmed queue, the cluster's name and endpoint, the role, and the
      defaults. */
  lemma BaseIsExpected(o: Owned, gates: map<string, bool>, queue: string, p: Path)
    ensures TextAt(BaseValues(o, gates, queue), p) == Expected(o, gates, queue, p)
  {
    BaseShape(o, gates, queue);
    TopKeysDiffer();
    TextAboveTwo(Scalars(), SETTINGS, Obj(AllSettings(o, gates, queue)), SERVICE_ACCOUNT, ServiceAccount(o), p);
    if p != [] {
      TextInSettings(o, gates, queue, p[1..]);
      TextInServiceAccount(o, p[1..]);
    }
    TextInScalars(p);
  }

  lemma TextAboveTwo(m: map<string, Json>, a: string, x: Json, b: string, y: Json, p: Path)
    requires a != b
    ensures TextAt(Obj(m[a := x][b := y]), p) ==
            if p == [] then None
            else if p[0] == a then TextAt(x, p[1..])
            else if p[0] == b then TextAt(y, p[1..])
            else TextAt(Obj(m), p)
  {
    TextOfMap(m[a := x][b := y], p);
    TextOfMap(m, p);
  }

  /** And with an override, at every path beside the owned ones: its text where it has something, and
      where it has no say the text as it was before. */
  lemma ResolvedIsExpected(o: Owned, gates: map<string, bool>, queue: string, over: Option<Json>, p: Path)
    requires Apart(CLUSTER_NAME, p) && Apart(CLUSTER_ENDPOINT, p) && Apart(ROLE_ARN, p)
    ensures TextAt(Resolved(o, gates, queue, over), p) ==
            if over.None? then Expected(o, gates, queue, p)
            else if Lookup(over.value, p).Some? then TextAt(over.value, p)
            else if Covers(BaseValues(o, gates, queue), over.value, p) then Expected(o, gates, queue, p)
            else None
  {
    BaseIsExpected(o, gates, queue, p);
    if over.Some? {
      OtherKeysAreThePlainMerge(o, gates, queue, over.value, p);
      MergeByPath(BaseValues(o, gates, queue), over.value, p);
    }
  }
}

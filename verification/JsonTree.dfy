/** JSON-like values as map[string]any holds them, the recursive merge of Helm
    values, and writes at a path. Slices and scalars are opaque leaves. */
module JsonTree {

  import opened Options

  datatype Json = Leaf(text: string) | Null | Obj(fields: map<string, Json>)

  type Path = seq<string>

  /** deepMergeMapAny on two values: maps merge key by key, anything else is replaced. */
  function Merge(base: Json, over: Json): Json
    decreases over
  {
    if base.Obj? && over.Obj? then
      Obj(map k | k in base.fields.Keys + over.fields.Keys ::
            if k !in over.fields then base.fields[k]
            else if k in base.fields then Merge(base.fields[k], over.fields[k])
            else over.fields[k])
    else over
  }

  function Lookup(t: Json, p: Path): Option<Json>
    decreases |p|
  {
    if p == [] then Some(t)
    else if t.Obj? && p[0] in t.fields then Lookup(t.fields[p[0]], p[1..])
    else None
  }

  /** What the merge means, path by path: nothing below the root is invented; where
      the override has nothing the base shows through, unless a non-map of the
      override stands above; where both have maps the result is a map; everywhere
      else the override wins. */
  lemma {:induction false} MergeByPath(base: Json, over: Json, p: Path)
    ensures Lookup(over, p).Some? ==>
              Lookup(Merge(base, over), p) ==
              Some(if Lookup(base, p).Some? then Merge(Lookup(base, p).value, Lookup(over, p).value)
                   else Lookup(over, p).value)
    ensures Lookup(over, p).None? ==>
              Lookup(Merge(base, over), p) ==
              if Covers(base, over, p) then Lookup(base, p) else None
    decreases |p|
  {
    if p != [] && base.Obj? && over.Obj? && p[0] in base.fields && p[0] in over.fields {
      MergeByPath(base.fields[p[0]], over.fields[p[0]], p[1..]);
    }
  }

  /** Along the path, as long as the override is present, both are maps: the base
      shows through where the override stops. */
  predicate Covers(base: Json, over: Json, p: Path)
    decreases |p|
  {
    p == [] ||
    (base.Obj? && over.Obj? &&
     (p[0] in over.fields ==> p[0] in base.fields && Covers(base.fields[p[0]], over.fields[p[0]], p[1..])))
  }

  lemma {:induction false} MergeEmpty(b: map<string, Json>)
    ensures Merge(Obj(b), Obj(map[])) == Obj(b)
    ensures Merge(Obj(map[]), Obj(b)) == Obj(b)
  {
    assert Merge(Obj(b), Obj(map[])).fields == b;
    assert Merge(Obj(map[]), Obj(b)).fields == b;
  }

  lemma {:induction false} MergeSelf(b: Json)
    ensures Merge(b, b) == b
    decreases b
  {
    if b.Obj? {
      forall k | k in b.fields ensures Merge(b.fields[k], b.fields[k]) == b.fields[k] {
        MergeSelf(b.fields[k]);
      }
      assert Merge(b, b).fields == b.fields;
    }
  }

  /** Applying the same override again changes nothing. */
  lemma {:induction false} MergeTwice(b: Json, o: Json)
    ensures Merge(Merge(b, o), o) == Merge(b, o)
    decreases o
  {
    if o.Obj? {
      if b.Obj? {
        var m := Merge(b, o);
        forall k | k in o.fields ensures Merge(m.fields[k], o.fields[k]) == m.fields[k] {
          if k in b.fields {
            MergeTwice(b.fields[k], o.fields[k]);
          } else {
            MergeSelf(o.fields[k]);
          }
        }
        assert Merge(m, o).fields == m.fields;
      } else {
        MergeSelf(o);
      }
    }
  }

  /** `t` has every key of `s`, level by level through the common maps. */
  predicate Absorbs(t: Json, s: Json)
    decreases t
  {
    t.Obj? && s.Obj? ==>
      forall k :: k in s.fields ==> k in t.fields && Absorbs(t.fields[k], s.fields[k])
  }

  /** Merging `t` over `s` leaves just `t` exactly when `t` has every key of `s`. */
  lemma {:induction false} MergeAbsorbed(s: Json, t: Json)
    ensures Merge(s, t) == t <==> Absorbs(t, s)
    decreases t
  {
    if s.Obj? && t.Obj? {
      var m := Merge(s, t);
      forall k | k in s.fields && k in t.fields
        ensures m.fields[k] == t.fields[k] <==> Absorbs(t.fields[k], s.fields[k])
      {
        MergeAbsorbed(s.fields[k], t.fields[k]);
      }
      if Absorbs(t, s) {
        assert m.fields == t.fields;
      }
      if m == t {
        forall k | k in s.fields ensures k in t.fields && Absorbs(t.fields[k], s.fields[k]) {
          assert k in m.fields;
        }
      }
    }
  }

  /** Somewhere at a common path the three values are a map, a non-map and a map
      again, and the last does not absorb the first. */
  predicate Clash(a: Json, b: Json, c: Json)
    decreases b, c
  {
    a.Obj? && c.Obj? &&
    if b.Obj?
    then exists k :: k in a.fields && k in b.fields && k in c.fields && Clash(a.fields[k], b.fields[k], c.fields[k])
    else !Absorbs(c, a)
  }

  /** Merging is associative exactly when there is no such clash. */
  lemma {:induction false} MergeAssociative(a: Json, b: Json, c: Json)
    ensures Merge(Merge(a, b), c) == Merge(a, Merge(b, c)) <==> !Clash(a, b, c)
    decreases b, c
  {
    var l, r := Merge(Merge(a, b), c), Merge(a, Merge(b, c));
    if a.Obj? && b.Obj? && c.Obj? {
      forall k | k in a.fields && k in b.fields && k in c.fields
        ensures l.fields[k] == r.fields[k] <==> !Clash(a.fields[k], b.fields[k], c.fields[k])
      {
        MergeAssociative(a.fields[k], b.fields[k], c.fields[k]);
      }
      assert l.fields.Keys == r.fields.Keys == a.fields.Keys + b.fields.Keys + c.fields.Keys;
      forall k | k in l.fields && !(k in a.fields && k in b.fields && k in c.fields)
        ensures l.fields[k] == r.fields[k]
      {
      }
      if !Clash(a, b, c) {
        assert l.fields == r.fields;
      }
    } else if a.Obj? && c.Obj? {
      MergeAbsorbed(a, c);
    }
  }

  /** Writing a value at a path, replacing whatever is not a map on the way:
      the effect of mustEnsureNestedMap followed by an assignment. */
  function Put(t: Json, p: Path, v: Json): Json
    requires p != []
    decreases |p|
  {
    var fields := if t.Obj? then t.fields else map[];
    if |p| == 1 then Obj(fields[p[0] := v])
    else Obj(fields[p[0] := Put(if p[0] in fields then fields[p[0]] else Null, p[1..], v)])
  }

  predicate Prefix(p: Path, q: Path) { p <= q }

  /** Neither path is at, above or below the other. */
  predicate Apart(p: Path, q: Path) { !Prefix(p, q) && !Prefix(q, p) }

  lemma {:induction false} PutGet(t: Json, p: Path, v: Json)
    requires p != []
    ensures Lookup(Put(t, p, v), p) == Some(v)
    decreases |p|
  {
    if |p| > 1 {
      PutGet(if t.Obj? && p[0] in t.fields then t.fields[p[0]] else Null, p[1..], v);
    }
  }

  /** A write is invisible on every path apart from it. */
  lemma {:induction false} PutFrame(t: Json, p: Path, v: Json, q: Path)
    requires p != [] && Apart(p, q)
    ensures Lookup(Put(t, p, v), q) == Lookup(t, q)
    decreases |p|
  {
    if p[0] == q[0] {
      var sub := if t.Obj? && p[0] in t.fields then t.fields[p[0]] else Null;
      PutFrame(sub, p[1..], v, q[1..]);
    }
  }

  /** Writing what is already there changes nothing. */
  lemma {:induction false} PutSame(t: Json, p: Path, v: Json)
    requires p != [] && Lookup(t, p) == Some(v)
    ensures Put(t, p, v) == t
    decreases |p|
  {
    if |p| == 1 {
      assert Lookup(t, p) == Lookup(t.fields[p[0]], []);
    } else {
      PutSame(t.fields[p[0]], p[1..], v);
    }
    assert Put(t, p, v).fields == t.fields;
  }

  lemma PutBelowHere(t: Json, k: string, m: map<string, Json>, key: string, v: Json)
    ensures Put(Put(t, [k], Obj(m)), [k, key], v) == Put(t, [k], Obj(m[key := v]))
  {
    var once := Put(t, [k], Obj(m));
    assert once.fields[k] == Obj(m) && [k, key][1..] == [key];
    assert Put(Obj(m), [key], v) == Obj(m[key := v]);
    assert Put(once, [k, key], v).fields == Put(t, [k], Obj(m[key := v])).fields;
  }

  /** Adding a key below a freshly written map extends that map. */
  lemma {:induction false} PutBelow(t: Json, p: Path, m: map<string, Json>, key: string, v: Json)
    requires p != []
    ensures Put(Put(t, p, Obj(m)), p + [key], v) == Put(t, p, Obj(m[key := v]))
    decreases |p|
  {
    if |p| == 1 {
      PutBelowHere(t, p[0], m, key, v);
      assert p == [p[0]] && p + [key] == [p[0], key];
    } else {
      var fields := if t.Obj? then t.fields else map[];
      var sub := if p[0] in fields then fields[p[0]] else Null;
      var once := Put(t, p, Obj(m));
      assert (p + [key])[1..] == p[1..] + [key] && (p + [key])[0] == p[0];
      assert once.fields[p[0]] == Put(sub, p[1..], Obj(m));
      PutBelow(sub, p[1..], m, key, v);
      assert Put(once, p + [key], v).fields == Put(t, p, Obj(m[key := v])).fields;
    }
  }
}

/** Owner references as controller-runtime sets them and as the facade adds the Cluster. */
module OwnerReferences {

  import opened Options

  datatype OwnerRef = OwnerRef(
    group: string, version: string, kind: string, name: string, uid: string,
    controller: Option<bool>, blockOwnerDeletion: Option<bool>)

  /** referSameObject: the version is not compared. */
  predicate SameObject(a: OwnerRef, b: OwnerRef) {
    a.group == b.group && a.kind == b.kind && a.name == b.name
  }

  /** Replaces the first reference to the same object, or appends. */
  function Upsert(refs: seq<OwnerRef>, ref: OwnerRef): seq<OwnerRef> {
    if refs == [] then [ref]
    else if SameObject(refs[0], ref) then [ref] + refs[1..]
    else [refs[0]] + Upsert(refs[1..], ref)
  }

  function ControllerOf(refs: seq<OwnerRef>): Option<OwnerRef> {
    if refs == [] then None
    else if refs[0].controller == Some(true) then Some(refs[0])
    else ControllerOf(refs[1..])
  }

  /** SetControllerReference: refused when another object is already the controller. */
  function SetController(refs: seq<OwnerRef>, ref: OwnerRef): Option<seq<OwnerRef>> {
    var c := ControllerOf(refs);
    if c.Some? && !SameObject(c.value, ref) then None else Some(Upsert(refs, ref))
  }

  predicate IsClusterRef(r: OwnerRef, cluster: OwnerRef) {
    r.group == cluster.group && r.version == cluster.version && r.kind == cluster.kind && r.name == cluster.name
  }

  function Refreshed(r: OwnerRef, cluster: OwnerRef): OwnerRef {
    r.(uid := cluster.uid, controller := None, blockOwnerDeletion := None)
  }

  /** What ensureClusterOwnerReference leaves: the first matching reference refreshed, or one appended. */
  function EnsureCluster(refs: seq<OwnerRef>, cluster: OwnerRef): seq<OwnerRef> {
    if refs == [] then [cluster]
    else if IsClusterRef(refs[0], cluster) then [Refreshed(refs[0], cluster)] + refs[1..]
    else [refs[0]] + EnsureCluster(refs[1..], cluster)
  }

  lemma {:induction false} EnsureClusterAt(refs: seq<OwnerRef>, cluster: OwnerRef, i: nat)
    requires i <= |refs| && forall k :: 0 <= k < i ==> !IsClusterRef(refs[k], cluster)
    ensures i == |refs| ==> EnsureCluster(refs, cluster) == refs + [cluster]
    ensures i < |refs| && IsClusterRef(refs[i], cluster) ==>
              EnsureCluster(refs, cluster) == refs[i := Refreshed(refs[i], cluster)]
  {
    if i > 0 {
      EnsureClusterAt(refs[1..], cluster, i - 1);
      assert refs == [refs[0]] + refs[1..];
    }
  }

  /** The slice is edited in place when it has a matching reference, and extended otherwise. */
  method EnsureClusterOwnerReference(refs: array<OwnerRef>, cluster: OwnerRef) returns (out: array<OwnerRef>)
    modifies refs
    ensures out[..] == EnsureCluster(old(refs[..]), cluster)
    ensures out == refs || (fresh(out) && refs[..] == old(refs[..]))
  {
    for i := 0 to refs.Length
      invariant refs[..] == old(refs[..])
      invariant forall k :: 0 <= k < i ==> !IsClusterRef(refs[..][k], cluster)
    {
      EnsureClusterAt(refs[..], cluster, i);
      if IsClusterRef(refs[i], cluster) {
        refs[i] := Refreshed(refs[i], cluster);
        return refs;
      }
    }
    EnsureClusterAt(refs[..], cluster, refs.Length);
    out := new OwnerRef[refs.Length + 1](i requires 0 <= i <= refs.Length reads refs =>
      if i < refs.Length then refs[i] else cluster);
    assert out[..] == refs[..] + [cluster];
  }

  lemma {:induction false} UpsertTwice(refs: seq<OwnerRef>, ref: OwnerRef)
    ensures Upsert(Upsert(refs, ref), ref) == Upsert(refs, ref)
    ensures ref in Upsert(refs, ref)
  {
    if refs != [] && !SameObject(refs[0], ref) {
      UpsertTwice(refs[1..], ref);
      assert Upsert(refs, ref)[1..] == Upsert(refs[1..], ref);
    }
  }

  /** Nothing but the reference to that object changes. */
  lemma {:induction false} UpsertKeepsOthers(refs: seq<OwnerRef>, ref: OwnerRef, r: OwnerRef)
    requires !SameObject(r, ref)
    ensures r in Upsert(refs, ref) <==> r in refs
  {
    if refs != [] && !SameObject(refs[0], ref) {
      UpsertKeepsOthers(refs[1..], ref, r);
    }
  }

  /** Both writes of the facade on a backend's references. */
  function FacadeOwners(refs: seq<OwnerRef>, owner: OwnerRef, cluster: Option<OwnerRef>): Option<seq<OwnerRef>> {
    var s := SetController(refs, owner);
    if s.None? then None
    else if cluster.None? then s
    else Some(EnsureCluster(s.value, cluster.value))
  }

  /** A reference to the control plane is never taken for one to the Cluster. */
  predicate Distinct(owner: OwnerRef, cluster: OwnerRef) {
    owner.kind != cluster.kind && owner.controller == Some(true) &&
    cluster.controller == None && cluster.blockOwnerDeletion == None
  }

  lemma {:induction false} UpsertFixed(refs: seq<OwnerRef>, owner: OwnerRef, cluster: OwnerRef)
    requires Distinct(owner, cluster) && Upsert(refs, owner) == refs
    ensures Upsert(EnsureCluster(refs, cluster), owner) == EnsureCluster(refs, cluster)
  {
    var e := EnsureCluster(refs, cluster);
    if refs != [] {
      if SameObject(refs[0], owner) {
        assert refs[0] == owner;
        assert e[0] == owner && e[1..] == EnsureCluster(refs[1..], cluster);
      } else {
        assert Upsert(refs, owner)[1..] == refs[1..];
        if IsClusterRef(refs[0], cluster) {
          assert e[1..] == refs[1..];
        } else {
          UpsertFixed(refs[1..], owner, cluster);
          assert e[1..] == EnsureCluster(refs[1..], cluster);
        }
      }
    }
  }

  lemma {:induction false} EnsureClusterTwice(refs: seq<OwnerRef>, cluster: OwnerRef)
    requires cluster.controller == None && cluster.blockOwnerDeletion == None
    ensures EnsureCluster(EnsureCluster(refs, cluster), cluster) == EnsureCluster(refs, cluster)
  {
    var e := EnsureCluster(refs, cluster);
    if refs != [] && !IsClusterRef(refs[0], cluster) {
      EnsureClusterTwice(refs[1..], cluster);
      assert e[1..] == EnsureCluster(refs[1..], cluster);
    }
  }

  /** After adding the owner and the Cluster, the controller is still the owner. */
  lemma {:induction false} ControllerStays(refs: seq<OwnerRef>, owner: OwnerRef, cluster: OwnerRef)
    requires Distinct(owner, cluster)
    requires ControllerOf(refs).Some? ==> SameObject(ControllerOf(refs).value, owner)
    ensures ControllerOf(EnsureCluster(refs, cluster)).Some? ==>
              SameObject(ControllerOf(EnsureCluster(refs, cluster)).value, owner)
  {
    var e := EnsureCluster(refs, cluster);
    if refs != [] {
      if IsClusterRef(refs[0], cluster) {
        assert e[1..] == refs[1..];
      } else {
        assert e[1..] == EnsureCluster(refs[1..], cluster);
        if refs[0].controller != Some(true) {
          ControllerStays(refs[1..], owner, cluster);
        }
      }
    }
  }

  lemma {:induction false} UpsertController(refs: seq<OwnerRef>, owner: OwnerRef)
    requires ControllerOf(refs).Some? ==> SameObject(ControllerOf(refs).value, owner)
    requires owner.controller == Some(true)
    ensures ControllerOf(Upsert(refs, owner)).Some? && SameObject(ControllerOf(Upsert(refs, owner)).value, owner)
  {
    if refs != [] && !SameObject(refs[0], owner) {
      UpsertController(refs[1..], owner);
      assert Upsert(refs, owner)[1..] == Upsert(refs[1..], owner);
    }
  }

  /** Setting the references a second time succeeds and changes nothing. */
  lemma FacadeOwnersTwice(refs: seq<OwnerRef>, owner: OwnerRef, cluster: Option<OwnerRef>)
    requires cluster.Some? ==> Distinct(owner, cluster.value)
    requires owner.controller == Some(true)
    requires FacadeOwners(refs, owner, cluster).Some?
    ensures FacadeOwners(FacadeOwners(refs, owner, cluster).value, owner, cluster) == FacadeOwners(refs, owner, cluster)
    ensures owner in FacadeOwners(refs, owner, cluster).value
  {
    var s := Upsert(refs, owner);
    UpsertTwice(refs, owner);
    UpsertController(refs, owner);
    if cluster.Some? {
      ControllerStays(s, owner, cluster.value);
      UpsertFixed(s, owner, cluster.value);
      EnsureClusterTwice(s, cluster.value);
      EnsureClusterKeeps(s, cluster.value, owner);
    }
  }

  lemma {:induction false} EnsureClusterKeeps(refs: seq<OwnerRef>, cluster: OwnerRef, r: OwnerRef)
    requires r in refs && !IsClusterRef(r, cluster)
    ensures r in EnsureCluster(refs, cluster)
  {
    if !IsClusterRef(refs[0], cluster) && r != refs[0] {
      EnsureClusterKeeps(refs[1..], cluster, r);
    }
  }

  // ---- what is written ----

  /** The first reference to the same object gives way to this one, which is appended when there is none. */
  ghost predicate IsSet(refs: seq<OwnerRef>, after: seq<OwnerRef>, ref: OwnerRef) {
    || ((forall k :: 0 <= k < |refs| ==> !SameObject(refs[k], ref)) && after == refs + [ref])
    || exists i :: IsFirstSame(refs, ref, i) && after == refs[i := ref]
  }

  predicate IsFirstSame(refs: seq<OwnerRef>, ref: OwnerRef, i: int) {
    0 <= i < |refs| && SameObject(refs[i], ref) && forall k :: 0 <= k < i ==> !SameObject(refs[k], ref)
  }

  /** The first reference to the Cluster gets its uid and controls nothing; the Cluster's is appended when
      there is none. */
  ghost predicate IsClusterSet(refs: seq<OwnerRef>, after: seq<OwnerRef>, cluster: OwnerRef) {
    || ((forall k :: 0 <= k < |refs| ==> !IsClusterRef(refs[k], cluster)) && after == refs + [cluster])
    || exists i :: IsFirstCluster(refs, cluster, i)
                   && after == refs[i := refs[i].(uid := cluster.uid, controller := None, blockOwnerDeletion := None)]
  }

  predicate IsFirstCluster(refs: seq<OwnerRef>, cluster: OwnerRef, i: int) {
    0 <= i < |refs| && IsClusterRef(refs[i], cluster) && forall k :: 0 <= k < i ==> !IsClusterRef(refs[k], cluster)
  }

  /** Both, the Cluster's on top of the owner's. */
  ghost predicate AreSet(refs: seq<OwnerRef>, after: seq<OwnerRef>, owner: OwnerRef, cluster: Option<OwnerRef>) {
    exists between :: IsSet(refs, between, owner)
                      && if cluster.None? then after == between else IsClusterSet(between, after, cluster.value)
  }

  lemma {:induction false} UpsertSets(refs: seq<OwnerRef>, ref: OwnerRef)
    ensures IsSet(refs, Upsert(refs, ref), ref)
  {
    if refs != [] {
      if SameObject(refs[0], ref) {
        assert IsFirstSame(refs, ref, 0) && Upsert(refs, ref) == refs[0 := ref];
      } else {
        var rest := refs[1..];
        UpsertSets(rest, ref);
        assert refs == [refs[0]] + rest;
        if i :| IsFirstSame(rest, ref, i) && Upsert(rest, ref) == rest[i := ref] {
          assert IsFirstSame(refs, ref, i + 1) && Upsert(refs, ref) == refs[i + 1 := ref];
        } else {
          assert forall k :: 0 < k < |refs| ==> refs[k] == rest[k - 1];
          assert Upsert(refs, ref) == refs + [ref];
        }
      }
    }
  }

  lemma ClusterIsSet(refs: seq<OwnerRef>, cluster: OwnerRef)
    ensures IsClusterSet(refs, EnsureCluster(refs, cluster), cluster)
  {
    if i :| IsFirstCluster(refs, cluster, i) {
      EnsureClusterAt(refs, cluster, i);
    } else {
      forall k | 0 <= k < |refs| ensures !IsClusterRef(refs[k], cluster) {
        NoFirstCluster(refs, cluster, k);
      }
      EnsureClusterAt(refs, cluster, |refs|);
    }
  }

  lemma {:induction false} NoFirstCluster(refs: seq<OwnerRef>, cluster: OwnerRef, k: nat)
    requires k < |refs| && forall i :: !IsFirstCluster(refs, cluster, i)
    ensures !IsClusterRef(refs[k], cluster)
    decreases k
  {
    forall j | 0 <= j < k ensures !IsClusterRef(refs[j], cluster) {
      NoFirstCluster(refs, cluster, j);
    }
    assert !IsFirstCluster(refs, cluster, k);
  }

  /** Something else controls the object: its first controller reference is to another one. */
  predicate ControlledByOther(refs: seq<OwnerRef>, owner: OwnerRef) {
    exists i :: 0 <= i < |refs| && refs[i].controller == Some(true) && !SameObject(refs[i], owner)
                && forall k :: 0 <= k < i ==> refs[k].controller != Some(true)
  }

  lemma {:induction false} ControllerIsFirst(refs: seq<OwnerRef>, i: nat)
    requires i < |refs| && refs[i].controller == Some(true) && forall k :: 0 <= k < i ==> refs[k].controller != Some(true)
    ensures ControllerOf(refs) == Some(refs[i])
  {
    if i > 0 {
      ControllerIsFirst(refs[1..], i - 1);
    }
  }

  lemma {:induction false} ControllerIsThere(refs: seq<OwnerRef>) returns (i: nat)
    requires ControllerOf(refs).Some?
    ensures i < |refs| && refs[i].controller == Some(true) && forall k :: 0 <= k < i ==> refs[k].controller != Some(true)
  {
    i := 0;
    if refs[0].controller != Some(true) {
      i := ControllerIsThere(refs[1..]);
      i := i + 1;
    }
  }

  /** The references of a backend are refused exactly when something else controls it, and are otherwise
      as they were with the owner's and the Cluster's set. */
  lemma OwnersAreSet(refs: seq<OwnerRef>, owner: OwnerRef, cluster: Option<OwnerRef>)
    ensures FacadeOwners(refs, owner, cluster).None? <==> ControlledByOther(refs, owner)
    ensures FacadeOwners(refs, owner, cluster).Some? ==>
              AreSet(refs, FacadeOwners(refs, owner, cluster).value, owner, cluster)
  {
    if i: nat :| i < |refs| && refs[i].controller == Some(true) && !SameObject(refs[i], owner)
                 && forall k :: 0 <= k < i ==> refs[k].controller != Some(true)
    {
      ControllerIsFirst(refs, i);
    }
    if ControllerOf(refs).Some? {
      var i := ControllerIsThere(refs);
      ControllerIsFirst(refs, i);
    }
    UpsertSets(refs, owner);
    if cluster.Some? {
      ClusterIsSet(Upsert(refs, owner), cluster.value);
    }
  }
}

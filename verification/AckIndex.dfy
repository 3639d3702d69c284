/** From an ACK cluster to the CAPI clusters that use it: the name index and the fallback list
    (internal/controller/plugin/eks/cluster_index.go, rotator_controller.go). */
module AckIndex {

  import opened Text

  /** A CAPI cluster as far as its names are resolved; an absent annotation is empty. */
  datatype CapiCluster = CapiCluster(
    ns: string, name: string, enabled: bool,
    refGroup: string, refKind: string, refName: string,
    eksAnnotation: string, ackAnnotation: string)

  /** The control plane reference names one of ours. */
  predicate RefersToControlPlane(c: CapiCluster) {
    TrimSpace(c.refGroup) == "controlplane.cluster.x-k8s.io" && TrimSpace(c.refKind) == "Kany8sControlPlane"
  }

  function FirstNamed(s: string, other: string): string { if TrimSpace(s) != "" then TrimSpace(s) else other }

  function DefaultName(c: CapiCluster): string {
    if RefersToControlPlane(c) then FirstNamed(c.refName, c.name) else c.name
  }

  function EksName(c: CapiCluster): string { FirstNamed(c.eksAnnotation, DefaultName(c)) }

  function AckName(c: CapiCluster): string { FirstNamed(c.ackAnnotation, EksName(c)) }

  /** Only a cluster's own name can resolve to a name with outer white space. */
  lemma ResolvedNames(c: CapiCluster)
    ensures Trimmed(AckName(c)) || AckName(c) == EksName(c) == c.name
    ensures TrimSpace(c.ackAnnotation) != "" ==> AckName(c) == TrimSpace(c.ackAnnotation)
    ensures TrimSpace(c.ackAnnotation) == "" ==> AckName(c) == EksName(c)
  {
    TrimSpaceIsTrimmed(c.ackAnnotation);
    TrimSpaceIsTrimmed(c.eksAnnotation);
    TrimSpaceIsTrimmed(c.refName);
  }

  /** Which of its names a cluster resolves to: the ACK annotation, the EKS annotation, the name of a
      control plane of ours, or its own, the first that is there. */
  lemma NamesInOrder(c: CapiCluster)
    ensures var ours := TrimSpace(c.refGroup) == "controlplane.cluster.x-k8s.io" && TrimSpace(c.refKind) == "Kany8sControlPlane";
            && (TrimSpace(c.ackAnnotation) != "" ==> AckName(c) == TrimSpace(c.ackAnnotation))
            && (TrimSpace(c.ackAnnotation) == "" && TrimSpace(c.eksAnnotation) != "" ==>
                  AckName(c) == TrimSpace(c.eksAnnotation))
            && (TrimSpace(c.ackAnnotation) == "" && TrimSpace(c.eksAnnotation) == "" ==>
                  AckName(c) == if ours && TrimSpace(c.refName) != "" then TrimSpace(c.refName) else c.name)
  {
  }

  function IndexValues(c: CapiCluster): seq<string> {
    if TrimSpace(AckName(c)) == "" then [] else [TrimSpace(AckName(c))]
  }

  datatype Key = Key(ns: string, name: string)

  function KeyOf(c: CapiCluster): Key { Key(c.ns, c.name) }

  predicate Wanted(c: CapiCluster, ackName: string) { c.enabled && AckName(c) == ackName }

  /** One request per wanted cluster, in the order of the list. */
  function Requests(clusters: seq<CapiCluster>, ackName: string): seq<Key> {
    if clusters == [] then []
    else
      var c := clusters[|clusters| - 1];
      var r := Requests(clusters[..|clusters| - 1], ackName);
      if Wanted(c, ackName) && KeyOf(c) !in r then r + [KeyOf(c)] else r
  }

  predicate Asks(clusters: seq<CapiCluster>, ackName: string, k: Key) {
    exists i :: 0 <= i < |clusters| && Wanted(clusters[i], ackName) && KeyOf(clusters[i]) == k
  }

  lemma AsksSnoc(init: seq<CapiCluster>, c: CapiCluster, ackName: string, k: Key)
    ensures Asks(init + [c], ackName, k) <==> Asks(init, ackName, k) || (Wanted(c, ackName) && KeyOf(c) == k)
  {
    var all := init + [c];
    assert all[|init|] == c;
    if Asks(init, ackName, k) {
      var i :| 0 <= i < |init| && Wanted(init[i], ackName) && KeyOf(init[i]) == k;
      assert all[i] == init[i];
    }
  }

  /** None is missing, and none resolves to another name. */
  lemma {:induction false} RequestsAreExact(clusters: seq<CapiCluster>, ackName: string, k: Key)
    ensures k in Requests(clusters, ackName) <==> Asks(clusters, ackName, k)
  {
    if clusters != [] {
      var init, c := clusters[..|clusters| - 1], clusters[|clusters| - 1];
      assert clusters == init + [c];
      RequestsAreExact(init, ackName, k);
      AsksSnoc(init, c, ackName, k);
    }
  }

  lemma {:induction false} RequestsAreDistinct(clusters: seq<CapiCluster>, ackName: string, i: nat, j: nat)
    requires i < j < |Requests(clusters, ackName)|
    ensures Requests(clusters, ackName)[i] != Requests(clusters, ackName)[j]
  {
    if clusters != [] {
      var init := clusters[..|clusters| - 1];
      if j < |Requests(init, ackName)| {
        RequestsAreDistinct(init, ackName, i, j);
      }
    }
  }

  /** The list the API gives for a namespace, and for a namespace and an index value. */
  function InNamespace(clusters: seq<CapiCluster>, ns: string): seq<CapiCluster> {
    if clusters == [] then []
    else
      var c := clusters[|clusters| - 1];
      InNamespace(clusters[..|clusters| - 1], ns) + if c.ns == ns then [c] else []
  }

  function Indexed(clusters: seq<CapiCluster>, ns: string, ackName: string): seq<CapiCluster> {
    if clusters == [] then []
    else
      var c := clusters[|clusters| - 1];
      Indexed(clusters[..|clusters| - 1], ns, ackName) + if c.ns == ns && ackName in IndexValues(c) then [c] else []
  }

  method CollectRequests(clusters: seq<CapiCluster>, ackName: string) returns (requests: seq<Key>)
    ensures requests == Requests(clusters, ackName)
  {
    requests := [];
    var seen: set<Key> := {};
    for i := 0 to |clusters|
      invariant requests == Requests(clusters[..i], ackName)
      invariant forall k :: k in seen <==> k in requests
    {
      assert clusters[..i + 1][..i] == clusters[..i];
      var c := clusters[i];
      if c.enabled {
        if AckName(c) == ackName {
          var key := KeyOf(c);
          if key !in seen {
            seen := seen + {key};
            requests := requests + [key];
          }
        }
      }
    }
    assert clusters[..|clusters|] == clusters;
  }

  /** mapACKClusterToCAPIClusters: the index, or the whole namespace when the index fails, or
      nothing when that list fails as well. */
  method MapAckCluster(clusters: seq<CapiCluster>, ns: string, ackName: string, indexOk: bool, listOk: bool)
      returns (requests: seq<Key>)
    ensures TrimSpace(ackName) == "" || (!indexOk && !listOk) ==> requests == []
    ensures TrimSpace(ackName) != "" && indexOk ==> requests == Requests(Indexed(clusters, ns, ackName), ackName)
    ensures TrimSpace(ackName) != "" && !indexOk && listOk ==> requests == Requests(InNamespace(clusters, ns), ackName)
  {
    if TrimSpace(ackName) == "" {
      return [];
    }
    if indexOk {
      requests := CollectRequests(Indexed(clusters, ns, ackName), ackName);
    } else if listOk {
      requests := CollectRequests(InNamespace(clusters, ns), ackName);
    } else {
      requests := [];
    }
  }

  lemma WantedIsIndexed(c: CapiCluster, ackName: string)
    requires Wanted(c, ackName) && TrimSpace(ackName) != ""
    ensures ackName in IndexValues(c) <==> TrimSpace(ackName) == ackName
  {
  }

  lemma AskedInNamespace(clusters: seq<CapiCluster>, c: CapiCluster, ackName: string)
    ensures Requests(clusters + [c], ackName) ==
            if Wanted(c, ackName) && KeyOf(c) !in Requests(clusters, ackName)
            then Requests(clusters, ackName) + [KeyOf(c)] else Requests(clusters, ackName)
  {
    assert (clusters + [c])[..|clusters|] == clusters;
  }

  /** For a name without outer white space the index gives what the scan gives. */
  lemma {:induction false} IndexAgreesWithScan(clusters: seq<CapiCluster>, ns: string, ackName: string)
    requires TrimSpace(ackName) == ackName && ackName != ""
    ensures Requests(Indexed(clusters, ns, ackName), ackName) == Requests(InNamespace(clusters, ns), ackName)
  {
    if clusters != [] {
      var n := |clusters| - 1;
      var init, c := clusters[..n], clusters[n];
      IndexAgreesWithScan(init, ns, ackName);
      AskedInNamespace(Indexed(init, ns, ackName), c, ackName);
      AskedInNamespace(InNamespace(init, ns), c, ackName);
      if Wanted(c, ackName) {
        WantedIsIndexed(c, ackName);
      }
      assert Indexed(init, ns, ackName) + [] == Indexed(init, ns, ackName);
      assert InNamespace(init, ns) + [] == InNamespace(init, ns);
    }
  }

  lemma {:induction false} NothingIndexed(clusters: seq<CapiCluster>, ns: string, ackName: string)
    requires TrimSpace(ackName) != ackName
    ensures Indexed(clusters, ns, ackName) == []
  {
    if clusters != [] {
      var c := clusters[|clusters| - 1];
      NothingIndexed(clusters[..|clusters| - 1], ns, ackName);
      TrimSpaceFixpoint(AckName(c));
    }
  }

  /** For a name with outer white space the index finds nothing, so the two agree exactly when
      no enabled cluster of the namespace resolves to it. */
  lemma UntrimmedNames(clusters: seq<CapiCluster>, ns: string, ackName: string)
    requires TrimSpace(ackName) != ackName
    ensures Requests(Indexed(clusters, ns, ackName), ackName) == Requests(InNamespace(clusters, ns), ackName) <==>
            forall k :: !Asks(InNamespace(clusters, ns), ackName, k)
  {
    NothingIndexed(clusters, ns, ackName);
    forall k ensures k in Requests(InNamespace(clusters, ns), ackName) <==> Asks(InNamespace(clusters, ns), ackName, k) {
      RequestsAreExact(InNamespace(clusters, ns), ackName, k);
    }
    var r := Requests(InNamespace(clusters, ns), ackName);
    if r != [] {
      assert r[0] in r;
    }
  }
}

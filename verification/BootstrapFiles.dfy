/** The bootstrap files of a control plane machine
    (internal/controller/controlplane/kany8skubeadmcontrolplane_controller.go): certificate files
    replace user files of the same path, and are moved out of kubeadm's default directory. */
module BootstrapFiles {

  import opened Text

  datatype File = File(path: string, content: string)

  // ---- merging ----

  predicate HasPath(files: seq<File>, path: string) {
    exists i :: 0 <= i < |files| && files[i].path == path
  }

  /** An injected file overrides by its path, unless that is empty. */
  predicate Overridden(f: File, inject: seq<File>) { f.path != "" && HasPath(inject, f.path) }

  /** The files that stay, in order. */
  function Staying(base: seq<File>, inject: seq<File>): seq<File> {
    if base == [] then []
    else if Overridden(base[0], inject) then Staying(base[1..], inject)
    else [base[0]] + Staying(base[1..], inject)
  }

  function Merged(base: seq<File>, inject: seq<File>): seq<File> {
    if inject == [] then base else Staying(base, inject) + inject
  }

  lemma {:induction false} StayingSnoc(base: seq<File>, f: File, inject: seq<File>)
    ensures Staying(base + [f], inject) == Staying(base, inject) + if Overridden(f, inject) then [] else [f]
  {
    if base == [] {
      assert (base + [f])[1..] == [];
    } else {
      assert (base + [f])[1..] == base[1..] + [f];
      StayingSnoc(base[1..], f, inject);
    }
  }

  method MergeBootstrapFiles(base: seq<File>, inject: seq<File>) returns (out: seq<File>)
    ensures out == Merged(base, inject)
  {
    if |inject| == 0 {
      return base;
    }
    var overrides: set<string> := {};
    for i := 0 to |inject|
      invariant forall p :: p in overrides <==> p != "" && HasPath(inject[..i], p)
    {
      assert forall p :: HasPath(inject[..i + 1], p) <==> HasPath(inject[..i], p) || p == inject[i].path by {
        HasPathSnoc(inject[..i], inject[i]);
        assert inject[..i + 1] == inject[..i] + [inject[i]];
      }
      if inject[i].path != "" {
        overrides := overrides + {inject[i].path};
      }
    }
    assert inject[..|inject|] == inject;
    out := [];
    for i := 0 to |base|
      invariant out == Staying(base[..i], inject)
    {
      assert base[..i + 1] == base[..i] + [base[i]];
      StayingSnoc(base[..i], base[i], inject);
      if base[i].path !in overrides {
        out := out + [base[i]];
      }
    }
    assert base[..|base|] == base;
    out := out + inject;
  }

  lemma HasPathSnoc(files: seq<File>, f: File)
    ensures forall p :: HasPath(files + [f], p) <==> HasPath(files, p) || p == f.path
  {
    forall p ensures HasPath(files + [f], p) <==> HasPath(files, p) || p == f.path {
      if HasPath(files, p) {
        var i :| 0 <= i < |files| && files[i].path == p;
        assert (files + [f])[i].path == p;
      }
      assert (files + [f])[|files|] == f;
    }
  }

  /** Exactly the files that are not overridden stay. */
  lemma {:induction false} StayingIs(base: seq<File>, inject: seq<File>, f: File)
    ensures f in Staying(base, inject) <==> f in base && !Overridden(f, inject)
  {
    if base != [] {
      StayingIs(base[1..], inject, f);
    }
  }

  /** Which base files stay where: in their order, each as often as it was there. */
  lemma MergedInOrder(base: seq<File>, inject: seq<File>) returns (kept: seq<nat>)
    ensures forall i, j :: 0 <= i < j < |kept| ==> kept[i] < kept[j]
    ensures forall k: nat :: k in kept <==> k < |base| && !(base[k].path != "" && HasPath(inject, base[k].path))
    ensures |Merged(base, inject)| == |kept| + |inject|
    ensures forall i :: 0 <= i < |kept| ==> kept[i] < |base| && Merged(base, inject)[i] == base[kept[i]]
    ensures Merged(base, inject)[|kept|..] == inject
  {
    kept := StayingAt(base, inject);
    if inject == [] {
      NothingOverridden(base);
    }
    assert Merged(base, inject) == Staying(base, inject) + inject;
  }

  lemma {:induction false} NothingOverridden(base: seq<File>)
    ensures Staying(base, []) == base
  {
    if base != [] {
      NothingOverridden(base[1..]);
    }
  }

  lemma {:induction false} StayingAt(base: seq<File>, inject: seq<File>) returns (kept: seq<nat>)
    ensures |kept| == |Staying(base, inject)|
    ensures forall i, j :: 0 <= i < j < |kept| ==> kept[i] < kept[j]
    ensures forall i :: 0 <= i < |kept| ==> kept[i] < |base| && Staying(base, inject)[i] == base[kept[i]]
    ensures forall k: nat :: k in kept <==> k < |base| && !Overridden(base[k], inject)
  {
    kept := [];
    if base != [] {
      var n := |base| - 1;
      kept := StayingAt(base[..n], inject);
      StayingSnoc(base[..n], base[n], inject);
      assert base[..n] + [base[n]] == base;
      if !Overridden(base[n], inject) {
        kept := kept + [n];
      }
    }
  }

  predicate DistinctPaths(files: seq<File>) {
    forall i, j :: 0 <= i < j < |files| ==> files[i].path != files[j].path
  }

  lemma {:induction false} StayingDistinct(base: seq<File>, inject: seq<File>)
    requires DistinctPaths(base)
    ensures DistinctPaths(Staying(base, inject))
    ensures forall f :: f in Staying(base, inject) ==> f in base && !Overridden(f, inject)
  {
    if base != [] {
      var rest := base[1..];
      assert forall i :: 0 <= i < |rest| ==> rest[i] == base[i + 1];
      StayingDistinct(rest, inject);
      var s := Staying(rest, inject);
      if !Overridden(base[0], inject) {
        forall i, j | 0 <= i < j < |[base[0]] + s| ensures ([base[0]] + s)[i].path != ([base[0]] + s)[j].path {
          if i == 0 {
            assert s[j - 1] in rest;
          }
        }
      }
    }
  }

  /** The merged list holds every injected file and exactly the base files no injected path
      overrides; with distinct paths on both sides and no empty injected path its paths are distinct. */
  lemma MergedHolds(base: seq<File>, inject: seq<File>, f: File)
    ensures f in Merged(base, inject) <==> f in inject || (f in base && !Overridden(f, inject))
    ensures DistinctPaths(base) && DistinctPaths(inject) && !HasPath(inject, "") ==> DistinctPaths(Merged(base, inject))
  {
    StayingIs(base, inject, f);
    if DistinctPaths(base) && DistinctPaths(inject) && !HasPath(inject, "") {
      StayingDistinct(base, inject);
      var s, m := Staying(base, inject), Merged(base, inject);
      if inject != [] {
        forall i, j | 0 <= i < j < |m| ensures m[i].path != m[j].path {
          if i < |s| <= j {
            assert m[i] in s && m[j] == inject[j - |s|] && !Overridden(m[i], inject);
          }
        }
      }
    }
  }

  lemma {:induction false} StayingTwice(base: seq<File>, inject: seq<File>)
    ensures Staying(Staying(base, inject), inject) == Staying(base, inject)
  {
    if base != [] {
      StayingTwice(base[1..], inject);
      if !Overridden(base[0], inject) {
        assert Staying(base, inject)[1..] == Staying(base[1..], inject);
      }
    }
  }

  lemma {:induction false} StayingAppend(a: seq<File>, b: seq<File>, inject: seq<File>)
    ensures Staying(a + b, inject) == Staying(a, inject) + Staying(b, inject)
  {
    if a == [] {
      assert a + b == b;
    } else {
      assert (a + b)[1..] == a[1..] + b;
      StayingAppend(a[1..], b, inject);
    }
  }

  /** Of the injected files only those without a path survive their own injection. */
  lemma StayingSelf(inject: seq<File>)
    ensures Staying(inject, inject) == [] <==> !HasPath(inject, "")
  {
    if HasPath(inject, "") {
      var i :| 0 <= i < |inject| && inject[i].path == "";
      StayingIs(inject, inject, inject[i]);
    } else if Staying(inject, inject) != [] {
      var f := Staying(inject, inject)[0];
      StayingIs(inject, inject, f);
    }
  }

  lemma SameWhenNothingBetween(a: seq<File>, b: seq<File>, d: seq<File>)
    ensures a + b + d == a + d <==> b == []
  {
    assert |a + b + d| == |a| + |b| + |d|;
    if b == [] {
      assert a + b == a;
    }
  }

  /** Merging a second time changes nothing exactly when no injected path is empty: a file
      without a path is appended anew each time. */
  lemma MergedTwice(base: seq<File>, inject: seq<File>)
    ensures Merged(Merged(base, inject), inject) == Merged(base, inject) <==> !HasPath(inject, "")
  {
    if inject != [] {
      StayingAppend(Staying(base, inject), inject, inject);
      StayingTwice(base, inject);
      StayingSelf(inject);
      SameWhenNothingBetween(Staying(base, inject), Staying(inject, inject), inject);
    }
  }

  // ---- moving certificates ----

  /** strings.TrimRight(s, "/"). */
  function TrimSlashes(s: string): (r: string)
    ensures r <= s && (r != "" ==> r[|r| - 1] != '/')
    ensures forall i :: |r| <= i < |s| ==> s[i] == '/'
  {
    if s != "" && s[|s| - 1] == '/' then TrimSlashes(s[..|s| - 1]) else s
  }

  predicate Under(path: string, dir: string) { dir + "/" <= path }

  function Moved(f: File, from: string, to: string): File {
    if Under(f.path, from) then f.(path := TrimSlashes(to) + f.path[|from|..]) else f
  }

  /** Nothing moves to a blank directory or to the one the files are in. */
  predicate Moves(from: string, to: string) { TrimSpace(to) != "" && to != from }

  /** `from` is kubeadm's default directory, "/etc/kubernetes/pki". */
  method RewriteKubeadmCertificatesDir(files: seq<File>, from: string, to: string) returns (out: seq<File>)
    ensures |out| == |files|
    ensures forall i :: 0 <= i < |files| ==> out[i] == if Moves(from, to) then Moved(files[i], from, to) else files[i]
    ensures TrimSpace(to) == "" || to == from ==> out == files
    ensures forall i :: 0 <= i < |files| ==>
              out[i].content == files[i].content && (!Under(files[i].path, from) ==> out[i] == files[i])
  {
    if |files| == 0 {
      return files;
    }
    if TrimSpace(to) == "" || to == from {
      return files;
    }
    out := [];
    for i := 0 to |files|
      invariant |out| == i
      invariant forall j :: 0 <= j < i ==> out[j] == Moved(files[j], from, to)
    {
      var nf := files[i];
      if from + "/" <= nf.path {
        nf := nf.(path := TrimSlashes(to) + nf.path[|from|..]);
      }
      out := out + [nf];
    }
  }

  /** Files under the directory keep what follows it and stay apart; they end up under the new
      directory, written without trailing slashes. */
  lemma MovedKeepsSuffix(a: File, b: File, from: string, to: string)
    requires Under(a.path, from) && Under(b.path, from)
    ensures Moved(a, from, to).path == TrimSlashes(to) + a.path[|from|..]
    ensures Under(Moved(a, from, to).path, TrimSlashes(to))
    ensures Moved(a, from, to) == Moved(b, from, to) <==> a == b
    ensures Moved(a, from, to).path == Moved(b, from, to).path <==> a.path == b.path
  {
    var t := TrimSlashes(to);
    assert a.path == from + a.path[|from|..] && b.path == from + b.path[|from|..];
    assert a.path[|from|..][0] == '/';
    if Moved(a, from, to).path == Moved(b, from, to).path {
      assert a.path[|from|..] == (t + a.path[|from|..])[|t|..] == (t + b.path[|from|..])[|t|..] == b.path[|from|..];
    }
  }

  /** Moving back gives the files as they were, when neither directory ends in a slash. */
  lemma MovedBack(f: File, from: string, to: string)
    requires Under(f.path, from) && TrimSlashes(from) == from && TrimSlashes(to) == to
    ensures Moved(Moved(f, from, to), to, from) == f
  {
    MovedKeepsSuffix(f, f, from, to);
    assert f.path == from + f.path[|from|..];
    assert (to + f.path[|from|..])[|to|..] == f.path[|from|..];
  }
}

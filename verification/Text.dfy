/** String helpers shared by the controllers: Go's strings.TrimSpace and
    separator-joined keys. */
module Text {

  /** unicode.IsSpace. */
  predicate IsSpace(c: char) {
    || c == '\t' || c == '\n' || c == '\U{0B}' || c == '\U{0C}' || c == '\r' || c == ' '
    || c == '\U{85}' || c == '\U{A0}' || c == '\U{1680}'
    || '\U{2000}' <= c <= '\U{200A}'
    || c == '\U{2028}' || c == '\U{2029}' || c == '\U{202F}' || c == '\U{205F}' || c == '\U{3000}'
  }

  /** The first index from `i` on that holds no white space. */
  function SkipSpaces(s: string, i: nat): (r: nat)
    requires i <= |s|
    ensures i <= r <= |s|
    decreases |s| - i
  {
    if i < |s| && IsSpace(s[i]) then SkipSpaces(s, i + 1) else i
  }

  /** The end of the text when white space before `j` is dropped, but none before `i`. */
  function SkipSpacesBack(s: string, i: nat, j: nat): (r: nat)
    requires i <= j <= |s|
    ensures i <= r <= j
    decreases j
  {
    if i < j && IsSpace(s[j - 1]) then SkipSpacesBack(s, i, j - 1) else j
  }

  /** strings.TrimSpace. */
  function TrimSpace(s: string): string {
    var i := SkipSpaces(s, 0);
    s[i..SkipSpacesBack(s, i, |s|)]
  }

  /** No white space at either end. */
  predicate Trimmed(s: string) {
    s == "" || (!IsSpace(s[0]) && !IsSpace(s[|s| - 1]))
  }

  lemma {:induction false} SkipSpacesStops(s: string, i: nat)
    requires i <= |s|
    ensures var r := SkipSpaces(s, i); r == |s| || !IsSpace(s[r])
    decreases |s| - i
  {
    if i < |s| && IsSpace(s[i]) {
      SkipSpacesStops(s, i + 1);
    }
  }

  lemma {:induction false} SkipSpacesBackStops(s: string, i: nat, j: nat)
    requires i <= j <= |s|
    ensures var r := SkipSpacesBack(s, i, j); r == i || !IsSpace(s[r - 1])
    decreases j
  {
    if i < j && IsSpace(s[j - 1]) {
      SkipSpacesBackStops(s, i, j - 1);
    }
  }

  lemma TrimSpaceIsTrimmed(s: string)
    ensures Trimmed(TrimSpace(s))
    ensures Trimmed(s) ==> TrimSpace(s) == s
  {
    var i := SkipSpaces(s, 0);
    var j := SkipSpacesBack(s, i, |s|);
    SkipSpacesStops(s, 0);
    SkipSpacesBackStops(s, i, |s|);
    if i < j {
      assert TrimSpace(s)[0] == s[i] && TrimSpace(s)[j - i - 1] == s[j - 1];
    }
    if Trimmed(s) {
      assert s[0..|s|] == s;
    }
  }

  lemma TrimSpaceFixpoint(s: string)
    ensures TrimSpace(s) == s <==> Trimmed(s)
    ensures TrimSpace(TrimSpace(s)) == TrimSpace(s)
  {
    TrimSpaceIsTrimmed(s);
    TrimSpaceIsTrimmed(TrimSpace(s));
  }

  /** Not blank. */
  predicate Given(x: string) { exists i :: 0 <= i < |x| && !IsSpace(x[i]) }

  lemma GivenIff(x: string)
    ensures TrimSpace(x) != "" <==> Given(x)
    ensures Given(TrimSpace(x)) <==> Given(x)
  {
    SkipsOnlySpaces(x, 0);
    SkipSpacesStops(x, 0);
    SkipsBackOnlySpaces(x, SkipSpaces(x, 0), |x|);
    TrimSpaceIsTrimmed(x);
    if Given(x) {
      var i :| 0 <= i < |x| && !IsSpace(x[i]);
      assert TrimSpace(x)[i - SkipSpaces(x, 0)] == x[i];
    }
    if Given(TrimSpace(x)) {
      var i :| 0 <= i < |TrimSpace(x)| && !IsSpace(TrimSpace(x)[i]);
      assert x[i + SkipSpaces(x, 0)] == TrimSpace(x)[i];
    }
  }

  lemma {:induction false} SkipsOnlySpaces(x: string, i: nat)
    requires i <= |x|
    ensures forall k :: i <= k < SkipSpaces(x, i) ==> IsSpace(x[k])
    decreases |x| - i
  {
    if i < |x| && IsSpace(x[i]) {
      SkipsOnlySpaces(x, i + 1);
    }
  }

  lemma {:induction false} SkipsBackOnlySpaces(x: string, i: nat, j: nat)
    requires i <= j <= |x|
    ensures forall k :: SkipSpacesBack(x, i, j) <= k < j ==> IsSpace(x[k])
    decreases j
  {
    if i < j && IsSpace(x[j - 1]) {
      SkipsBackOnlySpaces(x, i, j - 1);
    }
  }

  /** Only white space is dropped, at both ends, and all of it there. */
  lemma TrimSpaceParts(s: string) returns (i: nat, j: nat)
    ensures i <= j <= |s| && TrimSpace(s) == s[i..j] && Trimmed(s[i..j])
    ensures forall k :: 0 <= k < i || j <= k < |s| ==> IsSpace(s[k])
  {
    i := SkipSpaces(s, 0);
    j := SkipSpacesBack(s, i, |s|);
    SkipsOnlySpaces(s, 0);
    SkipsBackOnlySpaces(s, i, |s|);
    TrimSpaceIsTrimmed(s);
  }

  lemma TrimmedGiven(x: string)
    ensures TrimSpace(x) != "" <==> Given(x)
    ensures TrimSpace(TrimSpace(x)) == TrimSpace(x)
  {
    GivenIff(x);
    TrimSpaceFixpoint(x);
  }

  function Lower(c: char): char { if 'A' <= c <= 'Z' then (c as int + 32) as char else c }

  function ToLower(s: string): string { seq(|s|, i requires 0 <= i < |s| => Lower(s[i])) }

  function Join(sep: char, parts: seq<string>): string {
    if parts == [] then ""
    else if |parts| == 1 then parts[0]
    else parts[0] + [sep] + Join(sep, parts[1..])
  }

  /** Every part but the last is free of the separator. */
  predicate Separable(sep: char, parts: seq<string>) {
    forall i :: 0 <= i < |parts| - 1 ==> sep !in parts[i]
  }

  lemma FirstSeparator(sep: char, a: string, b: string, restA: string, restB: string)
    requires sep !in a && sep !in b
    requires a + [sep] + restA == b + [sep] + restB
    ensures a == b && restA == restB
  {
    var l, r := a + [sep] + restA, b + [sep] + restB;
    assert l[|a|] == sep && r[|b|] == sep;
    assert forall i :: 0 <= i < |a| ==> l[i] == a[i] && l[i] != sep;
    assert forall i :: 0 <= i < |b| ==> r[i] == b[i] && r[i] != sep;
    assert |a| == |b|;
    assert a == l[..|a|] == r[..|b|] == b;
    assert restA == l[|a| + 1..] == r[|b| + 1..] == restB;
  }

  /** Joining is injective on parts of equal number that only the last of which
      may contain the separator. */
  lemma {:induction false} JoinInjective(sep: char, xs: seq<string>, ys: seq<string>)
    requires |xs| == |ys| && Separable(sep, xs) && Separable(sep, ys)
    requires Join(sep, xs) == Join(sep, ys)
    ensures xs == ys
  {
    if |xs| > 1 {
      FirstSeparator(sep, xs[0], ys[0], Join(sep, xs[1..]), Join(sep, ys[1..]));
      assert forall i :: 0 <= i < |xs| - 2 ==> xs[1..][i] == xs[i + 1] && ys[1..][i] == ys[i + 1];
      JoinInjective(sep, xs[1..], ys[1..]);
      assert xs == [xs[0]] + xs[1..] && ys == [ys[0]] + ys[1..];
    }
  }
}

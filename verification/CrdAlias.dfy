/** The text transformation that adds a v1beta2 alias to a CRD (hack/add-v1beta2-alias.py). */
module CrdAlias {

  import opened Options
  import opened Text

  // ---- lines ----

  /** The pieces between breaks; an empty text is one empty piece. */
  function Split(s: string, breaks: set<char>): (r: seq<string>)
    ensures r != []
  {
    if s == "" then [""]
    else if s[0] in breaks then [""] + Split(s[1..], breaks)
    else
      var r := Split(s[1..], breaks);
      [[s[0]] + r[0]] + r[1..]
  }

  const NEWLINE: set<char> := {'\n'}

  /** Where str.splitlines breaks. It takes "\r\n" as one break and drops a last empty line,
      which only concerns empty lines. */
  const BREAKS: set<char> := {'\n', '\r', '\U{0B}', '\U{0C}', '\U{1C}', '\U{1D}', '\U{1E}', '\U{85}', '\U{2028}', '\U{2029}'}

  lemma {:induction false} SplitAt(a: string, b: char, rest: string, breaks: set<char>)
    requires b in breaks
    ensures Split(a + [b] + rest, breaks) == Split(a, breaks) + Split(rest, breaks)
  {
    var s := a + [b] + rest;
    if a == "" {
      assert s[1..] == rest;
    } else {
      assert s[1..] == a[1..] + [b] + rest;
      SplitAt(a[1..], b, rest, breaks);
    }
  }

  lemma {:induction false} SplitNone(a: string, breaks: set<char>)
    requires forall i :: 0 <= i < |a| ==> a[i] !in breaks
    ensures Split(a, breaks) == [a]
  {
    if a != "" {
      SplitNone(a[1..], breaks);
      assert [a[0]] + a[1..] == a;
    }
  }

  predicate Lines(lines: seq<string>) {
    lines != [] && forall i :: 0 <= i < |lines| ==> '\n' !in lines[i]
  }

  lemma {:induction false} SplitJoin(lines: seq<string>)
    requires Lines(lines)
    ensures Split(Join('\n', lines), NEWLINE) == lines
  {
    SplitNone(lines[0], NEWLINE);
    if |lines| > 1 {
      SplitAt(lines[0], '\n', Join('\n', lines[1..]), NEWLINE);
      SplitJoin(lines[1..]);
    }
  }

  /** A character more in the first line is one more in front of the text. */
  lemma JoinPrepends(c: char, lines: seq<string>)
    requires lines != []
    ensures Join('\n', [[c] + lines[0]] + lines[1..]) == [c] + Join('\n', lines)
  {
    var more := [[c] + lines[0]] + lines[1..];
    assert more[1..] == lines[1..];
    if |lines| > 1 {
      assert [c] + lines[0] + ['\n'] + Join('\n', lines[1..]) == [c] + (lines[0] + ['\n'] + Join('\n', lines[1..]));
    }
  }

  lemma JoinEmptyLine(lines: seq<string>)
    requires lines != []
    ensures Join('\n', [""] + lines) == ['\n'] + Join('\n', lines)
  {
    assert ([""] + lines)[1..] == lines;
  }

  lemma {:induction false} JoinSplit(s: string)
    ensures Lines(Split(s, NEWLINE)) && Join('\n', Split(s, NEWLINE)) == s
  {
    if s != "" {
      var r := Split(s[1..], NEWLINE);
      JoinSplit(s[1..]);
      assert s == [s[0]] + s[1..];
      if s[0] == '\n' {
        JoinEmptyLine(r);
      } else {
        JoinPrepends(s[0], r);
      }
    }
  }

  // ---- what the lines are ----

  /** What the regular expressions call white space. */
  predicate PySpace(c: char) { IsSpace(c) || '\U{1C}' <= c <= '\U{1F}' }

  /** The line is the text, but for white space at its end. */
  predicate Matches(line: string, text: string) {
    text <= line && forall i :: |text| <= i < |line| ==> PySpace(line[i])
  }

  predicate IsHeader(line: string) { |line| >= 4 && line[0] == ' ' && line[1] == ' ' && line[2] == '-' && line[3] == ' ' }

  predicate IsSiblingKey(line: string) {
    |line| >= 3 && line[0] == ' ' && line[1] == ' ' && ('a' <= line[2] <= 'z' || 'A' <= line[2] <= 'Z')
  }

  predicate IsBoundary(line: string) { IsHeader(line) || IsSiblingKey(line) }

  const ALPHA_INLINE := "  - name: v1alpha1"
  const ALPHA := "    name: v1alpha1"
  const BETA_INLINE := "  - name: v1beta2"
  const BETA := "    name: v1beta2"
  const STORED := "    storage: true"
  const NOT_STORED := "    storage: false"

  predicate IsAlpha(line: string) { Matches(line, ALPHA_INLINE) || Matches(line, ALPHA) }

  predicate IsBeta(line: string) { Matches(line, BETA_INLINE) || Matches(line, BETA) }

  function ToBeta(line: string): string {
    if Matches(line, ALPHA_INLINE) then BETA_INLINE
    else if Matches(line, ALPHA) then BETA
    else if line == STORED then NOT_STORED
    else line
  }

  predicate AllSpaces(s: string) { forall i :: 0 <= i < |s| ==> PySpace(s[i]) }

  /** What becomes of a line: the two forms of the v1alpha1 name line become the same forms of the
      v1beta2 one, without white space at the end; the line that says the version is stored says it is
      not; every other line stays. */
  lemma LinesBecome(line: string, space: string)
    requires AllSpaces(space)
    ensures line == "  - name: v1alpha1" + space ==> ToBeta(line) == "  - name: v1beta2"
    ensures line == "    name: v1alpha1" + space ==> ToBeta(line) == "    name: v1beta2"
    ensures line == "    storage: true" ==> ToBeta(line) == "    storage: false"
    ensures line != "    storage: true" && !IsAlpha(line) ==> ToBeta(line) == line
  {
    assert ALPHA_INLINE[2] == '-' && ALPHA[2] == ' ' && STORED[4] == 's' && ALPHA[4] == 'n';
  }

  /** The name lines are those two forms followed by white space, in either version. */
  lemma NameLines(line: string)
    ensures IsAlpha(line) <==>
              exists n: nat :: n <= |line| && AllSpaces(line[n..]) && line[..n] in {"  - name: v1alpha1", "    name: v1alpha1"}
    ensures IsBeta(line) <==>
              exists n: nat :: n <= |line| && AllSpaces(line[n..]) && line[..n] in {"  - name: v1beta2", "    name: v1beta2"}
  {
    MatchIs(line, ALPHA_INLINE);
    MatchIs(line, ALPHA);
    MatchIs(line, BETA_INLINE);
    MatchIs(line, BETA);
  }

  lemma MatchIs(line: string, text: string)
    ensures Matches(line, text) <==> exists n: nat :: n <= |line| && AllSpaces(line[n..]) && line[..n] == text
  {
    if Matches(line, text) {
      assert AllSpaces(line[|text|..]) && line[..|text|] == text;
    }
    if n: nat :| n <= |line| && AllSpaces(line[n..]) && line[..n] == text {
      assert forall i :: n <= i < |line| ==> line[i] == line[n..][i - n];
    }
  }

  /** A list item begins with two spaces, a dash and a space, a sibling key with two spaces and a letter. */
  lemma BoundaryLines(line: string)
    ensures IsHeader(line) <==> "  - " <= line
    ensures IsSiblingKey(line) <==> |line| > 2 && line[..2] == "  " && ('a' <= line[2] <= 'z' || 'A' <= line[2] <= 'Z')
  {
  }

  // ---- finding the block ----

  /** The first v1alpha1 name line, or the number of lines. */
  function FirstAlpha(lines: seq<string>, i: nat): (r: nat)
    requires i <= |lines|
    ensures i <= r <= |lines|
    ensures forall k :: i <= k < r ==> !IsAlpha(lines[k])
    ensures r < |lines| ==> IsAlpha(lines[r])
    decreases |lines| - i
  {
    if i == |lines| || IsAlpha(lines[i]) then i else FirstAlpha(lines, i + 1)
  }

  /** The last list-item header before `i`. */
  function LastHeader(lines: seq<string>, i: nat): (r: Option<nat>)
    requires i <= |lines|
    ensures r.Some? ==> r.value < i && IsHeader(lines[r.value]) && forall k :: r.value < k < i ==> !IsHeader(lines[k])
    ensures r.None? ==> forall k :: 0 <= k < i ==> !IsHeader(lines[k])
  {
    if i == 0 then None
    else if IsHeader(lines[i - 1]) then Some(i - 1)
    else LastHeader(lines, i - 1)
  }

  /** The first boundary from `i` on, or the number of lines. */
  function NextBoundary(lines: seq<string>, i: nat): (r: nat)
    requires i <= |lines|
    ensures i <= r <= |lines|
    ensures forall k :: i <= k < r ==> !IsBoundary(lines[k])
    ensures r < |lines| ==> IsBoundary(lines[r])
    decreases |lines| - i
  {
    if i == |lines| || IsBoundary(lines[i]) then i else NextBoundary(lines, i + 1)
  }

  /** A block: a header and everything up to the next boundary. */
  predicate IsBlock(lines: seq<string>, start: nat, end: nat) {
    && start < end <= |lines| && IsHeader(lines[start])
    && (forall k :: start < k < end ==> !IsBoundary(lines[k]))
    && (end < |lines| ==> IsBoundary(lines[end]))
  }

  /** The block around a name line. */
  function BlockAround(lines: seq<string>, name: nat): (r: Option<(nat, nat)>)
    requires name <= |lines|
    ensures r.Some? ==> IsBlock(lines, r.value.0, r.value.1)
  {
    if name == |lines| then None
    else
      var header := LastHeader(lines, name + 1);
      if header.None? then None else Some((header.value, NextBoundary(lines, header.value + 1)))
  }

  function Span(lines: seq<string>): (r: Option<(nat, nat)>)
    ensures r.Some? ==> r.value.0 < r.value.1 <= |lines|
  {
    BlockAround(lines, FirstAlpha(lines, 0))
  }

  method FindAlphaBlock(lines: seq<string>) returns (span: Option<(nat, nat)>)
    ensures span == Span(lines)
  {
    var name := 0;
    while name < |lines| && !IsAlpha(lines[name])
      invariant name <= |lines|
      invariant FirstAlpha(lines, 0) == FirstAlpha(lines, name)
    {
      name := name + 1;
    }
    if name == |lines| {
      return None;
    }
    var start := name;
    while !IsHeader(lines[start])
      invariant start <= name
      invariant LastHeader(lines, name + 1) == LastHeader(lines, start + 1)
      decreases start
    {
      if start == 0 {
        return None;
      }
      start := start - 1;
    }
    var end := start + 1;
    while end < |lines| && !IsBoundary(lines[end])
      invariant start < end <= |lines|
      invariant NextBoundary(lines, start + 1) == NextBoundary(lines, end)
    {
      end := end + 1;
    }
    return Some((start, end));
  }

  lemma NextBoundaryIs(lines: seq<string>, i: nat, end: nat)
    requires i <= end <= |lines|
    requires forall k :: i <= k < end ==> !IsBoundary(lines[k])
    requires end < |lines| ==> IsBoundary(lines[end])
    ensures NextBoundary(lines, i) == end
  {
  }

  lemma BlockAroundIs(lines: seq<string>, name: nat, start: nat, end: nat)
    requires name <= |lines|
    ensures BlockAround(lines, name) == Some((start, end)) <==>
              name < |lines| && IsBlock(lines, start, end) && start <= name && NoHeader(lines, start + 1, name)
    ensures BlockAround(lines, name).None? <==> name == |lines| || NoHeader(lines, 0, name)
  {
    if name < |lines| && IsBlock(lines, start, end) && start <= name && NoHeader(lines, start + 1, name) {
      assert LastHeader(lines, name + 1).value == start;
      NextBoundaryIs(lines, start + 1, end);
    }
  }

  /** No header from `i` to `j`. */
  predicate NoHeader(lines: seq<string>, i: nat, j: nat)
    requires j < |lines|
  {
    forall k :: i <= k <= j ==> !IsHeader(lines[k])
  }

  /** The span is the one block that begins at the last header up to the first v1alpha1 name
      line: it has exactly one header, no sibling key, and cannot be made longer. */
  lemma SpanIsTheBlock(lines: seq<string>, start: nat, end: nat)
    ensures var name := FirstAlpha(lines, 0);
            && (Span(lines) == Some((start, end)) <==>
                name < |lines| && IsBlock(lines, start, end) && start <= name && NoHeader(lines, start + 1, name))
            && (Span(lines).None? <==> name == |lines| || NoHeader(lines, 0, name))
  {
    BlockAroundIs(lines, FirstAlpha(lines, 0), start, end);
  }

  // ---- the alias ----

  function Alias(block: seq<string>): (r: seq<string>)
    ensures |r| == |block|
  {
    seq(|block|, i requires 0 <= i < |block| => ToBeta(block[i]))
  }

  method TransformToBeta(block: seq<string>) returns (out: seq<string>)
    ensures out == Alias(block)
  {
    out := [];
    for i := 0 to |block|
      invariant |out| == i && forall j :: 0 <= j < i ==> out[j] == ToBeta(block[j])
    {
      var line := block[i];
      if Matches(line, ALPHA_INLINE) {
        out := out + [BETA_INLINE];
      } else if Matches(line, ALPHA) {
        out := out + [BETA];
      } else if line == STORED {
        out := out + [NOT_STORED];
      } else {
        out := out + [line];
      }
    }
  }

  predicate HasBeta(text: string) {
    exists i :: 0 <= i < |Split(text, BREAKS)| && IsBeta(Split(text, BREAKS)[i])
  }

  function Inserted(lines: seq<string>, at: nat, more: seq<string>): seq<string>
    requires at <= |lines|
  {
    lines[..at] + more + lines[at..]
  }

  function WithAliasOf(lines: seq<string>, span: Option<(nat, nat)>): seq<string>
    requires span.Some? ==> span.value.0 < span.value.1 <= |lines|
  {
    if span.None? then lines
    else Inserted(lines, span.value.1, Alias(lines[span.value.0..span.value.1]))
  }

  function WithAlias(lines: seq<string>): seq<string> { WithAliasOf(lines, Span(lines)) }

  /** The text the file holds afterwards. */
  function Processed(text: string): string {
    if HasBeta(text) then text else Join('\n', WithAlias(Split(text, NEWLINE)))
  }

  predicate EndsWithNewline(s: string) { s != "" && s[|s| - 1] == '\n' }

  method Process(text: string) returns (written: bool, newText: string)
    ensures newText == Processed(text)
    ensures written <==> !HasBeta(text) && Span(Split(text, NEWLINE)).Some?
  {
    newText := text;
    var pieces := Split(text, BREAKS);
    for i := 0 to |pieces|
      invariant forall j :: 0 <= j < i ==> !IsBeta(pieces[j])
    {
      if IsBeta(pieces[i]) {
        return false, text;
      }
    }
    var lines := Split(text, NEWLINE);
    var span := FindAlphaBlock(lines);
    if span.None? {
      JoinSplit(text);
      return false, text;
    }
    var (start, end) := span.value;
    BlockAroundIs(lines, FirstAlpha(lines, 0), start, end);
    var alias := TransformToBeta(lines[start..end]);
    newText := Join('\n', Inserted(lines, end, alias));
    JoinSplit(text);
    SameNewline(text);
    if !EndsWithNewline(newText) && EndsWithNewline(text) {
      newText := newText + "\n";
    }
    written := true;
  }

  // ---- what it does to a file ----

  lemma ToBetaIsALine(line: string)
    requires '\n' !in line
    ensures '\n' !in ToBeta(line)
    ensures ToBeta(line) == "" <==> line == ""
  {
  }

  lemma AliasIsLines(block: seq<string>)
    requires Lines(block)
    ensures Lines(Alias(block))
    ensures Alias(block)[|block| - 1] == "" <==> block[|block| - 1] == ""
  {
    forall i | 0 <= i < |block| ensures '\n' !in Alias(block)[i] && (Alias(block)[i] == "" <==> block[i] == "") {
      ToBetaIsALine(block[i]);
    }
  }

  lemma InsertedIsLines(lines: seq<string>, at: nat, more: seq<string>)
    requires Lines(lines) && Lines(more) && 0 < at <= |lines|
    requires more[|more| - 1] == "" <==> lines[at - 1] == ""
    ensures var all := Inserted(lines, at, more);
            Lines(all) && |all| > |lines| && (all[|all| - 1] == "" <==> lines[|lines| - 1] == "")
  {
  }

  lemma NoHeaderNoBlock(lines: seq<string>)
    requires lines != [] && NoHeader(lines, 0, |lines| - 1)
    ensures WithAlias(lines) == lines
  {
    var name := FirstAlpha(lines, 0);
    assert name < |lines| ==> NoHeader(lines, 0, name);
    BlockAroundIs(lines, name, 0, 0);
  }

  lemma BlockIsLines(lines: seq<string>, start: nat, end: nat)
    requires Lines(lines) && start < end <= |lines|
    ensures Lines(lines[start..end]) && lines[start..end][end - start - 1] == lines[end - 1]
  {
  }

  lemma InsertedAliasIsLines(lines: seq<string>, start: nat, end: nat)
    requires Lines(lines) && start < end <= |lines|
    ensures var all := Inserted(lines, end, Alias(lines[start..end]));
            Lines(all) && |all| > |lines| && (all[|all| - 1] == "" <==> lines[|lines| - 1] == "")
  {
    BlockIsLines(lines, start, end);
    AliasIsLines(lines[start..end]);
    InsertedIsLines(lines, end, Alias(lines[start..end]));
  }

  lemma WithAliasOfIsLines(lines: seq<string>, span: Option<(nat, nat)>)
    requires Lines(lines) && (span.Some? ==> span.value.0 < span.value.1 <= |lines|)
    ensures var all := WithAliasOf(lines, span);
            Lines(all) && |all| >= |lines| && (all[|all| - 1] == "" <==> lines[|lines| - 1] == "")
  {
    if span.Some? {
      InsertedAliasIsLines(lines, span.value.0, span.value.1);
    }
  }

  lemma WithAliasIsLines(lines: seq<string>)
    requires Lines(lines)
    ensures var all := WithAlias(lines);
            Lines(all) && |all| >= |lines| && (all[|all| - 1] == "" <==> lines[|lines| - 1] == "")
  {
    WithAliasOfIsLines(lines, Span(lines));
  }

  lemma {:induction false} JoinEnd(lines: seq<string>)
    requires Lines(lines)
    ensures EndsWithNewline(Join('\n', lines)) <==> |lines| > 1 && lines[|lines| - 1] == ""
  {
    if |lines| > 1 {
      JoinEnd(lines[1..]);
      var rest := Join('\n', lines[1..]);
      if |lines| == 2 && lines[1] == "" {
        assert rest == "";
      }
    } else {
      assert lines[0] == "" || lines[0][|lines[0]| - 1] in lines[0];
    }
  }

  lemma SameEnd(lines: seq<string>, all: seq<string>)
    requires Lines(lines) && Lines(all) && |all| >= |lines| && (all[|all| - 1] == "" <==> lines[|lines| - 1] == "")
    requires |lines| == 1 && lines[0] == "" ==> all == lines
    ensures EndsWithNewline(Join('\n', all)) <==> EndsWithNewline(Join('\n', lines))
  {
    JoinEnd(lines);
    JoinEnd(all);
  }

  /** The final newline needs no repair: the new text ends as the old one does. */
  lemma SameNewline(text: string)
    ensures EndsWithNewline(Join('\n', WithAlias(Split(text, NEWLINE)))) <==> EndsWithNewline(text)
  {
    var lines := Split(text, NEWLINE);
    JoinSplit(text);
    WithAliasIsLines(lines);
    if |lines| == 1 && lines[0] == "" {
      NoHeaderNoBlock(lines);
    }
    SameEnd(lines, WithAlias(lines));
  }

  /** Deleting the inserted lines gives back the original. */
  lemma InsertionCanBeUndone(text: string)
    requires !HasBeta(text) && Span(Split(text, NEWLINE)).Some?
    ensures var (start, end) := Span(Split(text, NEWLINE)).value;
            var now := Split(Processed(text), NEWLINE);
            && end + (end - start) <= |now|
            && now[..end] + now[end + (end - start)..] == Split(text, NEWLINE)
            && now[end..end + (end - start)] == Alias(now[start..end])
  {
    var lines := Split(text, NEWLINE);
    var (start, end) := Span(lines).value;
    BlockAroundIs(lines, FirstAlpha(lines, 0), start, end);
    JoinSplit(text);
    WithAliasIsLines(lines);
    SplitJoin(WithAlias(lines));
    InsertedRemoved(lines, end, Alias(lines[start..end]));
    assert Inserted(lines, end, Alias(lines[start..end]))[start..end] == lines[start..end];
  }

  lemma InsertedRemoved(lines: seq<string>, at: nat, more: seq<string>)
    requires at <= |lines|
    ensures var all := Inserted(lines, at, more);
            all[..at] + all[at + |more|..] == lines && all[at..at + |more|] == more
  {
  }

  lemma StoredIsNeverAliased(line: string)
    ensures ToBeta(line) != STORED
    ensures ToBeta(line) != line ==> IsAlpha(line) || line == STORED
  {
  }

  lemma AliasIsNotStored(block: seq<string>)
    ensures STORED !in Alias(block)
    ensures forall i :: 0 <= i < |block| ==> Alias(block)[i] == block[i] || IsAlpha(block[i]) || block[i] == STORED
  {
    forall i | 0 <= i < |block|
      ensures Alias(block)[i] != STORED && (Alias(block)[i] == block[i] || IsAlpha(block[i]) || block[i] == STORED)
    {
      StoredIsNeverAliased(block[i]);
    }
  }

  /** The alias differs from the block only on name and storage lines, and no line of it says it
      is stored: the number of stored versions stays the same. */
  lemma OneStoredVersion(lines: seq<string>)
    ensures multiset(WithAlias(lines))[STORED] == multiset(lines)[STORED]
    ensures Span(lines).Some? ==>
              var block := lines[Span(lines).value.0..Span(lines).value.1];
              forall i :: 0 <= i < |block| ==> Alias(block)[i] == block[i] || IsAlpha(block[i]) || block[i] == STORED
  {
    if Span(lines).Some? {
      var (start, end) := Span(lines).value;
      AliasIsNotStored(lines[start..end]);
      InsertedCount(lines, end, Alias(lines[start..end]), STORED);
    }
  }

  lemma InsertedCount(lines: seq<string>, at: nat, more: seq<string>, x: string)
    requires at <= |lines| && x !in more
    ensures multiset(Inserted(lines, at, more))[x] == multiset(lines)[x]
  {
    assert lines == lines[..at] + lines[at..];
    assert x !in multiset(more);
  }

  // ---- doing it again ----

  predicate AnyBeta(pieces: seq<string>) { exists i :: 0 <= i < |pieces| && IsBeta(pieces[i]) }

  predicate LineHasBeta(line: string) { AnyBeta(Split(line, BREAKS)) }

  lemma AnyBetaConcat(a: seq<string>, b: seq<string>)
    ensures AnyBeta(a + b) <==> AnyBeta(a) || AnyBeta(b)
  {
    if i :| 0 <= i < |a| && IsBeta(a[i]) {
      assert IsBeta((a + b)[i]);
    }
    if i :| 0 <= i < |b| && IsBeta(b[i]) {
      assert IsBeta((a + b)[|a| + i]);
    }
  }

  /** The whole text has a v1beta2 name line when one of its lines has. */
  lemma {:induction false} BetaByLines(lines: seq<string>)
    requires lines != []
    ensures AnyBeta(Split(Join('\n', lines), BREAKS)) <==> exists i :: 0 <= i < |lines| && LineHasBeta(lines[i])
  {
    if |lines| > 1 {
      BetaByLines(lines[1..]);
      SplitAt(lines[0], '\n', Join('\n', lines[1..]), BREAKS);
      AnyBetaConcat(Split(lines[0], BREAKS), Split(Join('\n', lines[1..]), BREAKS));
      assert lines == [lines[0]] + lines[1..];
    }
  }

  predicate NoBreaks(line: string) { forall i :: 0 <= i < |line| ==> line[i] !in BREAKS }

  lemma UnbrokenLine(line: string)
    requires NoBreaks(line)
    ensures LineHasBeta(line) <==> IsBeta(line)
  {
    SplitNone(line, BREAKS);
    assert Split(line, BREAKS)[0] == line;
  }

  lemma BetaNames()
    ensures NoBreaks(BETA) && IsBeta(BETA)
    ensures NoBreaks(BETA_INLINE) && IsBeta(BETA_INLINE)
  {
  }

  lemma StorageLines()
    ensures NoBreaks(STORED) && !IsBeta(STORED)
    ensures NoBreaks(NOT_STORED) && !IsBeta(NOT_STORED)
  {
    assert STORED[4] == 's' && NOT_STORED[4] == 's' && BETA[4] == 'n' && BETA_INLINE[4] == 'n';
  }

  lemma ToBetaIs(line: string)
    ensures IsAlpha(line) ==> ToBeta(line) == BETA || ToBeta(line) == BETA_INLINE
    ensures !IsAlpha(line) ==> ToBeta(line) == line || (line == STORED && ToBeta(line) == NOT_STORED)
  {
  }

  lemma ToBetaOfAlpha(line: string)
    requires IsAlpha(line)
    ensures LineHasBeta(ToBeta(line))
  {
    ToBetaIs(line);
    BetaNames();
    UnbrokenLine(ToBeta(line));
  }

  lemma ToBetaOfOther(line: string)
    requires !IsAlpha(line)
    ensures LineHasBeta(ToBeta(line)) <==> LineHasBeta(line)
  {
    ToBetaIs(line);
    StorageLines();
    if line == STORED {
      UnbrokenLine(STORED);
      UnbrokenLine(NOT_STORED);
    }
  }

  predicate NoBeta(lines: seq<string>) { forall i :: 0 <= i < |lines| ==> !LineHasBeta(lines[i]) }

  predicate NoAlpha(lines: seq<string>) { forall i :: 0 <= i < |lines| ==> !IsAlpha(lines[i]) }

  lemma AliasBeta(block: seq<string>)
    requires NoBeta(block)
    ensures NoBeta(Alias(block)) <==> NoAlpha(block)
  {
    if i :| 0 <= i < |block| && IsAlpha(block[i]) {
      ToBetaOfAlpha(block[i]);
      assert LineHasBeta(Alias(block)[i]);
    } else {
      forall i | 0 <= i < |block| ensures !LineHasBeta(Alias(block)[i]) {
        ToBetaOfOther(block[i]);
      }
    }
  }

  lemma InsertedBeta(lines: seq<string>, at: nat, more: seq<string>)
    requires at <= |lines| && NoBeta(lines)
    ensures NoBeta(Inserted(lines, at, more)) <==> NoBeta(more)
  {
    if NoBeta(Inserted(lines, at, more)) {
      forall i | 0 <= i < |more| ensures !LineHasBeta(more[i]) {
        assert Inserted(lines, at, more)[at + i] == more[i];
      }
    }
  }

  predicate NoAlphaBefore(lines: seq<string>, i: nat)
    requires i <= |lines|
  {
    forall k :: 0 <= k < i ==> !IsAlpha(lines[k])
  }

  lemma FirstAlphaBetween(lines: seq<string>, i: nat, j: nat)
    requires i <= j < |lines| && NoAlphaBefore(lines, i) && IsAlpha(lines[j])
    ensures i <= FirstAlpha(lines, 0) <= j
  {
  }

  lemma SamePrefix(lines: seq<string>, at: nat, more: seq<string>)
    requires at <= |lines| && NoAlphaBefore(lines, at)
    ensures NoAlphaBefore(Inserted(lines, at, more), at)
  {
  }

  /** An alias without the name line leaves the search as it was: there is still a block to copy. */
  lemma StillABlock(lines: seq<string>, at: nat, start: nat, name: nat, more: seq<string>)
    requires start < at <= name < |lines| && IsHeader(lines[start])
    requires NoAlphaBefore(lines, at) && IsAlpha(lines[name])
    ensures Span(Inserted(lines, at, more)).Some?
  {
    var all := Inserted(lines, at, more);
    assert all[name + |more|] == lines[name];
    assert all[start] == lines[start];
    SamePrefix(lines, at, more);
    FirstAlphaBetween(all, at, name + |more|);
    BlockAroundIs(all, FirstAlpha(all, 0), 0, 0);
  }

  predicate NameInSpan(lines: seq<string>) {
    Span(lines).Some? && FirstAlpha(lines, 0) < Span(lines).value.1
  }

  lemma SpanAlpha(lines: seq<string>)
    requires Span(lines).Some?
    ensures var (start, end) := Span(lines).value;
            NoAlpha(lines[start..end]) <==> !NameInSpan(lines)
  {
    var (start, end) := Span(lines).value;
    var name := FirstAlpha(lines, 0);
    BlockAroundIs(lines, name, start, end);
    if name < end {
      assert lines[start..end][name - start] == lines[name];
    }
  }

  lemma BetaAfterwards(lines: seq<string>)
    requires Lines(lines) && NoBeta(lines) && Span(lines).Some?
    ensures NoBeta(WithAlias(lines)) <==> !NameInSpan(lines)
    ensures !NameInSpan(lines) ==> Span(WithAlias(lines)).Some?
  {
    var (start, end) := Span(lines).value;
    var name := FirstAlpha(lines, 0);
    BlockAroundIs(lines, name, start, end);
    SpanAlpha(lines);
    var block := lines[start..end];
    AliasBeta(block);
    InsertedBeta(lines, end, Alias(block));
    if !NameInSpan(lines) {
      assert NoAlphaBefore(lines, end);
      StillABlock(lines, end, start, name, Alias(block));
    }
  }

  lemma WithAliasGrows(lines: seq<string>)
    requires Span(lines).Some?
    ensures |WithAlias(lines)| > |lines|
  {
    BlockAroundIs(lines, FirstAlpha(lines, 0), Span(lines).value.0, Span(lines).value.1);
  }

  /** Running it again changes nothing exactly when the file had a v1beta2 name line, has no
      v1alpha1 block to copy, or the block that is copied holds its name line; otherwise each
      run appends another copy. */
  lemma ProcessedTwice(text: string)
    ensures Processed(Processed(text)) == Processed(text) <==>
              var lines := Split(text, NEWLINE);
              HasBeta(text) || Span(lines).None? || NameInSpan(lines)
  {
    var lines := Split(text, NEWLINE);
    JoinSplit(text);
    if !HasBeta(text) && Span(lines).Some? {
      var all := WithAlias(lines);
      BetaByLines(lines);
      assert AnyBeta(Split(text, BREAKS)) <==> HasBeta(text);
      WithAliasIsLines(lines);
      BetaByLines(all);
      assert AnyBeta(Split(Processed(text), BREAKS)) <==> HasBeta(Processed(text));
      BetaAfterwards(lines);
      SplitJoin(all);
      if !NameInSpan(lines) {
        WithAliasGrows(all);
        WithAliasIsLines(all);
        SplitJoin(WithAlias(all));
      }
    }
  }

  /** A file of a list item, a sibling key after it, and the name line. */
  lemma NameAfterSibling(header: string, sibling: string, name: string)
    requires IsHeader(header) && IsSiblingKey(sibling) && IsAlpha(name) && !IsHeader(name)
    requires !IsAlpha(header) && !IsAlpha(sibling) && !IsHeader(sibling)
    requires forall line :: line in [header, sibling, name] ==> NoBreaks(line) && !IsBeta(line)
    ensures var text := Join('\n', [header, sibling, name]);
            Span(Split(text, NEWLINE)) == Some((0, 1)) && Processed(Processed(text)) != Processed(text)
  {
    var lines := [header, sibling, name];
    var text := Join('\n', lines);
    forall i | 0 <= i < |lines| ensures '\n' !in lines[i] && !LineHasBeta(lines[i]) {
      assert lines[i] in lines && '\n' in BREAKS;
      UnbrokenLine(lines[i]);
    }
    assert Lines(lines);
    SplitJoin(lines);
    BetaByLines(lines);
    assert AnyBeta(Split(text, BREAKS)) <==> HasBeta(text);
    assert NoAlphaBefore(lines, 2);
    FirstAlphaBetween(lines, 2, 2);
    BlockAroundIs(lines, 2, 0, 1);
    ProcessedTwice(text);
  }

  lemma AlphaIsNoBeta()
    ensures IsAlpha(ALPHA) && !IsBeta(ALPHA) && NoBreaks(ALPHA) && !IsHeader(ALPHA)
  {
    assert ALPHA[2] == ' ' && BETA_INLINE[2] == '-';
    assert ALPHA[12] == 'a' && BETA[12] == 'b';
  }

  lemma ShortLine(line: string)
    requires |line| <= 6
    ensures !IsAlpha(line) && !IsBeta(line)
  {
  }

  /** Such a file gets a copy of its item on every run. */
  lemma EachRunAppends()
    ensures var text := Join('\n', ["  - a", "  b: c", ALPHA]);
            Span(Split(text, NEWLINE)).Some? && Processed(Processed(text)) != Processed(text)
  {
    AlphaIsNoBeta();
    ShortLine("  - a");
    ShortLine("  b: c");
    NameAfterSibling("  - a", "  b: c", ALPHA);
  }
}

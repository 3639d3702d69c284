/** Printing and parsing control-plane endpoints (internal/endpoint/parse.go), with the
    splitting that net/url does for URIs with an authority (RFC 3986, section 3.2). */
module Endpoint {
  import opened Options
  import opened Text

  datatype ApiEndpoint = ApiEndpoint(host: string, port: int)

  const UNSET: ApiEndpoint := ApiEndpoint("", 0)

  predicate PortOk(p: int) { 1 <= p <= 65535 }

  predicate EndpointOk(e: ApiEndpoint) { e.host != "" && PortOk(e.port) }

  // ---- decimal numbers ----

  predicate IsDigit(c: char) { '0' <= c <= '9' }

  predicate AllDigits(s: string) { forall i :: 0 <= i < |s| ==> IsDigit(s[i]) }

  function Decimal(n: nat): string {
    if n < 10 then [('0' as int + n) as char] else Decimal(n / 10) + [('0' as int + n % 10) as char]
  }

  /** strconv.Atoi on digits; a value too large for the machine is out of range for a port anyway. */
  function Value(s: string): nat
    requires AllDigits(s)
  {
    if s == "" then 0 else 10 * Value(s[..|s| - 1]) + (s[|s| - 1] as int - '0' as int)
  }

  lemma {:induction false} DecimalRoundTrip(n: nat)
    ensures AllDigits(Decimal(n)) && Decimal(n) != "" && Value(Decimal(n)) == n
  {
    var s := Decimal(n);
    if n < 10 {
      assert s[..0] == "";
    } else {
      DecimalRoundTrip(n / 10);
      assert s[..|s| - 1] == Decimal(n / 10);
    }
  }

  // ---- searching ----

  /** The first index of the character, or the length. */
  function Find(s: string, c: char): (i: nat)
    ensures i <= |s| && c !in s[..i] && (i < |s| ==> s[i] == c)
  {
    if s == "" || s[0] == c then 0
    else
      var j := Find(s[1..], c);
      assert s[..j + 1] == [s[0]] + s[1..][..j];
      j + 1
  }

  /** The last index of the character. */
  function FindLast(s: string, c: char): (r: Option<nat>)
    ensures r.None? ==> c !in s
    ensures r.Some? ==> r.value < |s| && s[r.value] == c && c !in s[r.value + 1..]
  {
    if s == "" then None
    else if s[|s| - 1] == c then Some(|s| - 1)
    else
      var r := FindLast(s[..|s| - 1], c);
      assert r.Some? ==> s[r.value + 1..] == s[..|s| - 1][r.value + 1..] + [s[|s| - 1]];
      assert s == s[..|s| - 1] + [s[|s| - 1]];
      r
  }

  lemma FindLastAt(s: string, c: char, i: nat)
    requires i < |s| && s[i] == c && c !in s[i + 1..]
    ensures FindLast(s, c) == Some(i)
  {
    assert c in s;
  }

  lemma FindAt(s: string, c: char, i: nat)
    requires i <= |s| && c !in s[..i] && (i < |s| ==> s[i] == c)
    ensures Find(s, c) == i
  {
  }

  predicate StartsWithSlashes(s: string) { |s| >= 2 && s[0] == '/' && s[1] == '/' }

  predicate OccursAt(s: string, p: string, i: nat) {
    i + |p| <= |s| && s[i..i + |p|] == p
  }

  predicate Contains(s: string, p: string) {
    exists i :: 0 <= i <= |s| && OccursAt(s, p, i)
  }

  // ---- hosts ----

  predicate IsLetter(c: char) { 'a' <= c <= 'z' || 'A' <= c <= 'Z' }

  /** Characters net/url lets stand for themselves in a host. */
  predicate HostChar(c: char) {
    c as int >= 0x80 || IsLetter(c) || IsDigit(c) || c in {'-', '_', '.', '~', '!', '$', '&', '\'', '(', ')', '*', '+', ',', ';', '=', ':', '[', ']', '<', '>', '"'}
  }

  function HexValue(c: char): Option<nat> {
    if IsDigit(c) then Some(c as int - '0' as int)
    else if 'a' <= c <= 'f' then Some(c as int - 'a' as int + 10)
    else if 'A' <= c <= 'F' then Some(c as int - 'A' as int + 10)
    else None
  }

  /** One escape in a host: only octets from 0x80 on and the percent sign may be escaped. */
  function DecodeEscape(a: char, b: char): Option<char> {
    if HexValue(a).None? || HexValue(b).None? then None
    else if HexValue(a).value < 8 && !(a == '2' && b == '5') then None
    else Some((16 * HexValue(a).value + HexValue(b).value) as char)
  }

  function Prepend(c: Option<char>, rest: Option<string>): Option<string> {
    if c.None? || rest.None? then None else Some([c.value] + rest.value)
  }

  /** Percent-decoding of a host. */
  function Unescape(s: string): Option<string> {
    if s == "" then Some("")
    else if s[0] == '%' then
      if |s| < 3 then None else Prepend(DecodeEscape(s[1], s[2]), Unescape(s[3..]))
    else Prepend(if HostChar(s[0]) then Some(s[0]) else None, Unescape(s[1..]))
  }

  /** Empty, or a colon and digits. */
  predicate ValidOptionalPort(p: string) {
    p == "" || (p[0] == ':' && AllDigits(p[1..]))
  }

  /** The library's reading of what stands between brackets: decoded, if that is an IPv6 address. */
  type Literals = string -> Option<string>

  /** Decoding makes nothing longer. */
  ghost predicate NeverGrows(literal: Literals) {
    forall x :: literal(x).Some? ==> |literal(x).value| <= |x|
  }

  /** With a bracket, what precedes the last opening one is dropped. A closing bracket before it is
      followed by more than a port. */
  function ParseBracketed(h: string, open: nat, close: Option<nat>, literal: Literals): Option<string>
    requires open < |h| && (close.Some? ==> close.value < |h|)
  {
    if close.None? || !ValidOptionalPort(h[close.value + 1..]) || close.value < open + 1 then None
    else
      var inner := literal(h[open + 1..close.value]);
      if inner.None? then None else Some("[" + inner.value + "]" + h[close.value + 1..])
  }

  function ParseHost(h: string, literal: Literals): Option<string> {
    var open := FindLast(h, '[');
    if open.Some? then ParseBracketed(h, open.value, FindLast(h, ']'), literal)
    else
      var colon := FindLast(h, ':');
      if colon.Some? && !ValidOptionalPort(h[colon.value..]) then None else Unescape(h)
  }

  /** Cuts off a port, if what follows the last colon is one. */
  function SplitPort(hostPort: string): (string, string) {
    var colon := FindLast(hostPort, ':');
    if colon.Some? && ValidOptionalPort(hostPort[colon.value..])
    then (hostPort[..colon.value], hostPort[colon.value + 1..]) else (hostPort, "")
  }

  function Unbracket(h: string): string {
    if |h| >= 2 && h[0] == '[' && h[|h| - 1] == ']' then h[1..|h| - 1] else h
  }

  /** URL.Hostname and URL.Port. */
  function SplitHostPort(hostPort: string): (string, string) {
    var (h, p) := SplitPort(hostPort);
    (Unbracket(h), p)
  }

  // ---- Parse ----

  datatype ParseError =
    | EmptyEndpoint | BadUrl | BadScheme | UserInfo | BadQuery | BadFragment | BadPath | EmptyHost | EmptyPort | BadPort

  datatype Result = Ok(endpoint: ApiEndpoint) | Err(error: ParseError)

  predicate IsSchemeChar(c: char) { IsLetter(c) || IsDigit(c) || c in {'+', '-', '.'} }

  /** The scheme is what precedes the first colon, a letter followed by scheme characters. */
  predicate HasScheme(u: string, end: nat)
    requires end <= |u|
  {
    0 < end < |u| && IsLetter(u[0]) && forall i :: 0 <= i < end ==> IsSchemeChar(u[i])
  }

  predicate HasControl(s: string) {
    exists i :: 0 <= i < |s| && (s[i] as int < 0x20 || s[i] as int == 0x7f)
  }

  function ParsePort(p: string): Option<int> {
    if p == "" then Some(443)
    else if AllDigits(p) && PortOk(Value(p)) then Some(Value(p))
    else None
  }

  /** The checks on host and port. */
  function ReadHostPort(hostPort: string): (r: Result)
    ensures r.Ok? ==> EndpointOk(r.endpoint)
  {
    if hostPort == "" then Err(EmptyHost)
    else if hostPort[|hostPort| - 1] == ':' then Err(EmptyPort)
    else
      var (name, portText) := SplitHostPort(hostPort);
      if name == "" then Err(EmptyHost)
      else
        var port := ParsePort(portText);
        if port.None? then Err(BadPort) else Ok(ApiEndpoint(name, port.value))
  }

  /** The checks on the authority component. */
  function ParseAuthority(authority: string, literal: Literals): (r: Result)
    ensures r.Ok? ==> EndpointOk(r.endpoint)
  {
    if '@' in authority then Err(UserInfo)
    else
      var host := ParseHost(authority, literal);
      if host.None? then Err(BadUrl) else ReadHostPort(host.value)
  }

  /** Authority and path, after the two slashes. */
  function ParseSlashed(hier: string, literal: Literals): (r: Result)
    ensures r.Ok? ==> EndpointOk(r.endpoint)
  {
    var slash := Find(hier, '/');
    var path := hier[slash..];
    if path != "" && path != "/" then Err(BadPath)
    else ParseAuthority(hier[..slash], literal)
  }

  /** What follows "scheme:", up to the fragment: query, authority and path. */
  function ParseHierarchy(rest: string, hasFragment: bool, literal: Literals): (r: Result)
    ensures r.Ok? ==> EndpointOk(r.endpoint)
  {
    var question := Find(rest, '?');
    var hier := rest[..question];
    if hasFragment then Err(BadFragment)
    else if question + 1 < |rest| then Err(BadQuery)
    else if !StartsWithSlashes(hier) then Err(EmptyHost)
    else ParseSlashed(hier[2..], literal)
  }

  function ParseCandidate(candidate: string, literal: Literals): (r: Result)
    ensures r.Ok? ==> EndpointOk(r.endpoint)
  {
    var hash := Find(candidate, '#');
    var u := candidate[..hash];
    var colon := Find(u, ':');
    if HasControl(u) then Err(BadUrl)
    else if !HasScheme(u, colon) || ToLower(u[..colon]) != "https" then Err(BadScheme)
    else ParseHierarchy(u[colon + 1..], hash + 1 < |candidate|, literal)
  }

  function Parse(raw: string, literal: Literals): (r: Result)
    ensures r.Ok? ==> EndpointOk(r.endpoint)
  {
    var endpoint := TrimSpace(raw);
    if endpoint == "" then Err(EmptyEndpoint)
    else ParseCandidate(if Contains(endpoint, "://") then endpoint else "https://" + endpoint, literal)
  }

  /** endpointToStatusString. */
  function Print(e: ApiEndpoint): string {
    if e.host == "" || e.port <= 0 then "" else "https://" + e.host + ":" + Decimal(e.port)
  }

  /** A host that stands for itself: no delimiter, escape, bracket, space or control character. */
  predicate PlainHost(h: string) {
    h != "" && '[' !in h && forall i :: 0 <= i < |h| ==> HostChar(h[i])
  }

  lemma FindAfter(p: string, x: string, c: char)
    requires c !in p
    ensures Find(p + x, c) == |p| + Find(x, c)
  {
    var i := Find(x, c);
    assert (p + x)[..|p| + i] == p + x[..i];
    FindAt(p + x, c, |p| + i);
  }

  lemma NoPath(y: string, literal: Literals)
    requires y != "" && y[|y| - 1] != '/'
    ensures ParseSlashed(y, literal) == if '/' in y then Err(BadPath) else ParseAuthority(y, literal)
  {
    var slash := Find(y, '/');
    if '/' in y {
      assert slash < |y| && y[slash..][|y| - slash - 1] == y[|y| - 1];
    } else {
      assert slash == |y| && y[slash..] == "" && y[..slash] == y;
    }
  }

  lemma NoQuery(p: string, y: string, literal: Literals)
    requires '?' !in p && StartsWithSlashes(p) && |p| == 2 && y != "" && y[|y| - 1] != '?'
    ensures ParseHierarchy(p + y, false, literal) == if '?' in y then Err(BadQuery) else ParseSlashed(y, literal)
  {
    var rest := p + y;
    FindAfter(p, y, '?');
    if '?' !in y {
      assert Find(y, '?') == |y| && rest[..|rest|] == rest && rest[2..] == y;
    }
  }

  lemma AuthorityOnly(y: string, literal: Literals)
    requires y != "" && IsDigit(y[|y| - 1])
    ensures '?' !in y && '/' !in y ==> ParseHierarchy("//" + y, false, literal) == ParseAuthority(y, literal)
    ensures '?' in y || '/' in y ==> ParseHierarchy("//" + y, false, literal).Err?
  {
    NoQuery("//", y, literal);
    NoPath(y, literal);
  }

  lemma SchemeFound(u: string, y: string)
    requires u == "https://" + y
    ensures Find(u, ':') == 5 && HasScheme(u, 5) && ToLower(u[..5]) == "https" && u[6..] == "//" + y
  {
    assert u == "https" + (":" + ("//" + y));
    FindAfter("https", ":" + ("//" + y), ':');
    assert u[..5] == "https";
    assert ToLower("https") == "https";
  }

  predicate Clean(x: string) { '#' !in x && '?' !in x && '/' !in x && !HasControl(x) }

  lemma FragmentIsRefused(c: string, literal: Literals)
    requires Find(c, '#') + 1 < |c|
    ensures ParseCandidate(c, literal).Err?
  {
  }

  lemma CandidateWithFragment(p: string, x: string, literal: Literals)
    requires '#' !in p && '#' in x && x[|x| - 1] != '#'
    ensures ParseCandidate(p + x, literal).Err?
  {
    FindAfter(p, x, '#');
    FragmentIsRefused(p + x, literal);
  }

  lemma CandidateWithoutFragment(x: string, literal: Literals)
    requires '#' !in x
    ensures ParseCandidate("https://" + x, literal) ==
            if HasControl(x) then Err(BadUrl) else ParseHierarchy("//" + x, false, literal)
  {
    var c := "https://" + x;
    FindAfter("https://", x, '#');
    assert Find(x, '#') == |x| && c[..8 + |x|] == c;
    SchemeFound(c, x);
    ControlsOf(x, c);
  }

  /** After the scheme the text is all authority exactly when it has no delimiter in it. */
  lemma CandidateIsAuthority(x: string, literal: Literals)
    requires x != "" && IsDigit(x[|x| - 1])
    ensures Clean(x) ==> ParseCandidate("https://" + x, literal) == ParseAuthority(x, literal)
    ensures !Clean(x) ==> ParseCandidate("https://" + x, literal).Err?
  {
    if '#' in x {
      CandidateWithFragment("https://", x, literal);
    } else {
      CandidateWithoutFragment(x, literal);
      AuthorityOnly(x, literal);
    }
  }

  lemma ControlsOf(x: string, u: string)
    requires u == "https://" + x
    ensures HasControl(u) <==> HasControl(x)
  {
    if i :| 0 <= i < |x| && (x[i] as int < 0x20 || x[i] as int == 0x7f) {
      assert u[8 + i] == x[i];
    }
    if i :| 0 <= i < |u| && (u[i] as int < 0x20 || u[i] as int == 0x7f) {
      assert i >= 8 && u[i] == x[i - 8];
    }
  }

  /** A text that holds the scheme separator and no outer white space is parsed as it stands. */
  lemma ParsedAsItStands(raw: string, at: nat, literal: Literals)
    requires Trimmed(raw) && raw != "" && at <= |raw| && OccursAt(raw, "://", at)
    ensures Parse(raw, literal) == ParseCandidate(raw, literal)
  {
    TrimSpaceIsTrimmed(raw);
  }

  lemma PrintedIsTrimmed(p: string, d: string)
    requires p != "" && !IsSpace(p[0]) && d != "" && AllDigits(d)
    ensures Trimmed(p + d)
  {
  }

  lemma OccursInPrefix(p: string, rest: string, x: string, at: nat)
    requires at <= |p| && OccursAt(p, x, at)
    ensures OccursAt(p + rest, x, at)
  {
    assert (p + rest)[at..at + |x|] == p[at..at + |x|];
  }

  lemma PrintedCandidate(p: string, h: string, d: string, literal: Literals)
    requires 5 <= |p| && p[0] == 'h' && OccursAt(p, "://", 5)
    requires h != "" && d != "" && AllDigits(d)
    ensures Parse(p + h + ":" + d, literal) == ParseCandidate(p + (h + ":" + d), literal)
  {
    var q := p + h + ":";
    OccursInPrefix(p, h + ":" + d, "://", 5);
    assert q + d == p + (h + ":" + d);
    PrintedIsTrimmed(q, d);
    ParsedAsItStands(q + d, 5, literal);
  }

  lemma {:induction false} UnescapePlain(s: string)
    ensures Unescape(s) == Some(s) <==> forall i :: 0 <= i < |s| ==> s[i] != '%' && HostChar(s[i])
    ensures Unescape(s).Some? ==> |Unescape(s).value| <= |s|
  {
    if s != "" {
      if s[0] == '%' {
        if |s| >= 3 {
          UnescapePlain(s[3..]);
        }
      } else {
        UnescapePlain(s[1..]);
        assert Unescape(s) == Some(s) ==> Unescape(s).value[1..] == s[1..];
        assert s == [s[0]] + s[1..];
        if forall i :: 0 <= i < |s| ==> s[i] != '%' && HostChar(s[i]) {
          assert forall i :: 0 <= i < |s| - 1 ==> s[1..][i] == s[i + 1];
        }
        if forall i :: 0 <= i < |s| - 1 ==> s[1..][i] != '%' && HostChar(s[1..][i]) {
          assert forall i :: 1 <= i < |s| ==> s[i] == s[1..][i - 1];
        }
      }
    }
  }

  lemma PrependThenAppend(c: Option<char>, rest: Option<string>, tail: string)
    ensures Prepend(c, if rest.None? then None else Some(rest.value + tail)) ==
            if Prepend(c, rest).None? then None else Some(Prepend(c, rest).value + tail)
  {
    if c.Some? && rest.Some? {
      assert [c.value] + (rest.value + tail) == [c.value] + rest.value + tail;
    }
  }

  lemma PortUnescapes(port: string)
    requires port != "" && port[0] == ':' && AllDigits(port[1..])
    ensures Unescape(port) == Some(port)
  {
    forall i | 0 <= i < |port| ensures port[i] != '%' && HostChar(port[i]) {
      if i > 0 {
        assert port[i] == port[1..][i - 1];
      }
    }
    UnescapePlain(port);
  }

  /** A port in digits is untouched by decoding, and nothing before it reaches into it. */
  lemma {:induction false} UnescapeBeforePort(h: string, port: string)
    requires port != "" && port[0] == ':' && AllDigits(port[1..])
    ensures Unescape(h + port) == if Unescape(h).None? then None else Some(Unescape(h).value + port)
  {
    var s := h + port;
    if h == "" {
      assert s == port;
      PortUnescapes(port);
    } else if h[0] == '%' {
      if |h| >= 3 {
        UnescapeBeforePort(h[3..], port);
        assert s[3..] == h[3..] + port && s[0] == h[0] && s[1] == h[1] && s[2] == h[2];
        PrependThenAppend(DecodeEscape(h[1], h[2]), Unescape(h[3..]), port);
      } else {
        assert s[|h|] == ':' && HexValue(':').None?;
      }
    } else {
      UnescapeBeforePort(h[1..], port);
      assert s[1..] == h[1..] + port && s[0] == h[0];
      PrependThenAppend(if HostChar(h[0]) then Some(h[0]) else None, Unescape(h[1..]), port);
    }
  }

  lemma {:induction false} UnescapeAddsNo(c: char, s: string)
    requires c in {'[', ':'} && c !in s && Unescape(s).Some?
    ensures c !in Unescape(s).value
  {
    if s != "" {
      UnescapeAddsNo(c, if s[0] == '%' then s[3..] else s[1..]);
    }
  }

  lemma SplitPrinted(h: string, d: string)
    requires AllDigits(d)
    ensures SplitPort(h + ":" + d) == (h, d)
    ensures SplitHostPort(h + ":" + d) == (Unbracket(h), d)
  {
    var s := h + ":" + d;
    FindLastAt(s, ':', |h|);
    assert s[|h|..] == ":" + d && s[|h|..][1..] == d;
    assert s[..|h|] == h && s[|h| + 1..] == d;
  }

  /** Only the last of two colons can begin a port. */
  lemma PortAfterNothing(x: string, port: string)
    requires port != "" && port[0] == ':' && AllDigits(port[1..])
    ensures ValidOptionalPort(x + port) <==> x == ""
  {
    if x != "" {
      assert (x + port)[1..][|x| - 1] == ':';
    } else {
      assert x + port == port;
    }
  }

  predicate PortText(port: string) {
    port != "" && port[0] == ':' && AllDigits(port[1..]) && '[' !in port && ']' !in port
  }

  lemma IsPortText(d: string)
    requires AllDigits(d)
    ensures PortText(":" + d)
  {
    assert (":" + d)[1..] == d;
  }

  lemma BracketedParse(pre: string, inner: string, port: string, literal: Literals)
    requires '[' !in inner && PortText(port)
    ensures ParseHost(pre + "[" + inner + "]" + port, literal) ==
              if literal(inner).None? then None else Some("[" + literal(inner).value + "]" + port)
  {
    var s := pre + "[" + inner + "]" + port;
    var open, close := |pre|, |pre| + 1 + |inner|;
    assert s[open + 1..] == inner + "]" + port && s[close + 1..] == port && s[open + 1..close] == inner;
    FindLastAt(s, '[', open);
    FindLastAt(s, ']', close);
  }

  /** Without a closing bracket right before the port, nothing is read. */
  lemma UnclosedParse(pre: string, rest: string, port: string, literal: Literals)
    requires '[' !in rest && PortText(port) && (rest == "" || rest[|rest| - 1] != ']')
    ensures ParseHost(pre + "[" + rest + port, literal).None?
  {
    var s := pre + "[" + rest + port;
    var open := |pre|;
    assert s[open + 1..] == rest + port;
    FindLastAt(s, '[', open);
    var close := FindLast(s, ']');
    if close.Some? && close.value > open {
      var k := close.value - open - 1;
      assert s[open + 1..][k] == ']';
      assert k < |rest|;
      assert s[close.value + 1..] == rest[k + 1..] + port;
      PortAfterNothing(rest[k + 1..], port);
    }
  }

  /** The text after the last opening bracket. */
  function AfterBracket(h: string): string
    requires '[' in h
  {
    h[FindLast(h, '[').value + 1..]
  }

  /** What stands between the last opening bracket and a closing one at the end. */
  function Bracketed(h: string): Option<string> {
    if '[' !in h then None
    else
      var rest := AfterBracket(h);
      if rest == "" || rest[|rest| - 1] != ']' then None else Some(rest[..|rest| - 1])
  }

  lemma HostInParts(h: string)
    requires '[' in h
    ensures '[' !in AfterBracket(h) && h == h[..FindLast(h, '[').value] + "[" + AfterBracket(h)
  {
    var i := FindLast(h, '[').value;
    assert h == h[..i] + [h[i]] + h[i + 1..];
  }

  lemma EndsWith(rest: string, c: char)
    requires rest != "" && rest[|rest| - 1] == c
    ensures rest == rest[..|rest| - 1] + [c]
    ensures forall x :: x !in rest ==> x !in rest[..|rest| - 1]
  {
  }

  lemma BracketedHostParse(h: string, port: string, literal: Literals)
    requires '[' in h && PortText(port)
    ensures ParseHost(h + port, literal) ==
              if Bracketed(h).None? || literal(Bracketed(h).value).None? then None
              else Some("[" + literal(Bracketed(h).value).value + "]" + port)
  {
    var pre := h[..FindLast(h, '[').value];
    HostInParts(h);
    if Bracketed(h).None? {
      UnclosedParse(pre, AfterBracket(h), port, literal);
    } else {
      EndsWith(AfterBracket(h), ']');
      assert h == pre + "[" + Bracketed(h).value + "]";
      BracketedParse(pre, Bracketed(h).value, port, literal);
    }
  }

  lemma ReadPrinted(h: string, d: string)
    requires AllDigits(d) && d != ""
    ensures ReadHostPort(h + ":" + d) ==
              if Unbracket(h) == "" then Err(EmptyHost)
              else if PortOk(Value(d)) then Ok(ApiEndpoint(Unbracket(h), Value(d))) else Err(BadPort)
  {
    var x := h + ":" + d;
    SplitPrinted(h, d);
    assert x[|x| - 1] == d[|d| - 1] && IsDigit(d[|d| - 1]);
  }

  lemma ReadBracketed(v: string, d: string)
    requires AllDigits(d) && d != ""
    ensures ReadHostPort("[" + v + "]" + (":" + d)) ==
              if v == "" then Err(EmptyHost)
              else if PortOk(Value(d)) then Ok(ApiEndpoint(v, Value(d))) else Err(BadPort)
  {
    var h := "[" + v + "]";
    ReadPrinted(h, d);
    assert h + (":" + d) == h + ":" + d && h[1..|h| - 1] == v;
  }

  /** A host that ends in a bracketed literal the library can read. */
  predicate BracketReads(h: string, literal: Literals) {
    Bracketed(h).Some? && literal(Bracketed(h).value).Some? && literal(Bracketed(h).value).value != ""
  }

  /** With brackets, an authority with a port reads as the literal and the port. */
  lemma BracketedAuthority(h: string, d: string, literal: Literals)
    requires '[' in h && AllDigits(d) && d != ""
    ensures ParseAuthority(h + ":" + d, literal).Ok? <==> '@' !in h && BracketReads(h, literal) && PortOk(Value(d))
    ensures ParseAuthority(h + ":" + d, literal).Ok? ==>
              ParseAuthority(h + ":" + d, literal).endpoint == ApiEndpoint(literal(Bracketed(h).value).value, Value(d))
  {
    var x, port := h + ":" + d, ":" + d;
    assert x == h + port;
    assert '@' in x <==> '@' in h;
    IsPortText(d);
    BracketedHostParse(h, port, literal);
    if Bracketed(h).Some? && literal(Bracketed(h).value).Some? {
      ReadBracketed(literal(Bracketed(h).value).value, d);
    }
  }

  lemma BracketedIsShorter(h: string)
    requires Bracketed(h).Some?
    ensures |Bracketed(h).value| < |h|
  {
  }

  /** A bracketed host never reads back with its brackets. */
  lemma BracketedHost(h: string, d: string, literal: Literals)
    requires NeverGrows(literal) && AllDigits(d) && d != "" && '[' in h
    ensures var r := ParseAuthority(h + ":" + d, literal); r.Ok? ==> r.endpoint.host != h
  {
    BracketedAuthority(h, d, literal);
    if Bracketed(h).Some? {
      BracketedIsShorter(h);
    }
  }

  lemma UnbracketedHost(h: string, port: string, literal: Literals)
    requires '[' !in h && port != "" && port[0] == ':' && AllDigits(port[1..])
    ensures ParseHost(h + port, literal) == if Unescape(h).None? then None else Some(Unescape(h).value + port)
  {
    var x := h + port;
    assert forall i :: 0 < i < |port| ==> port[i] == port[1..][i - 1];
    assert '[' !in x;
    assert x[|h| + 1..] == port[1..] && x[|h|..] == port;
    FindLastAt(x, ':', |h|);
    UnescapeBeforePort(h, port);
  }

  /** Without brackets, an authority with a port reads as the decoded host and the port. */
  lemma UnbracketedAuthority(h: string, d: string, literal: Literals)
    requires '[' !in h && AllDigits(d) && d != "" && h != ""
    ensures '@' !in h && Unescape(h).Some? && Unescape(h).value != "" ==>
              ParseAuthority(h + ":" + d, literal) ==
              if PortOk(Value(d)) then Ok(ApiEndpoint(Unescape(h).value, Value(d))) else Err(BadPort)
    ensures '@' in h || Unescape(h).None? || Unescape(h).value == "" ==>
              ParseAuthority(h + ":" + d, literal).Err?
  {
    var x, port := h + ":" + d, ":" + d;
    assert x == h + port && port[1..] == d;
    assert '@' in x <==> '@' in h;
    UnbracketedHost(h, port, literal);
    var u := Unescape(h);
    if '@' !in h && u.Some? {
      assert u.value + port == u.value + ":" + d;
      UnescapeAddsNo('[', h);
      ReadPrinted(u.value, d);
    }
  }

  /** Printing an endpoint and parsing it back gives the endpoint exactly when the host
      stands for itself. */
  lemma RoundTrip(e: ApiEndpoint, literal: Literals)
    requires e.host != "" && PortOk(e.port) && NeverGrows(literal)
    ensures Parse(Print(e), literal) == Ok(e) <==> PlainHost(e.host)
  {
    var h, d := e.host, Decimal(e.port);
    DecimalRoundTrip(e.port);
    PrintedCandidate("https://", h, d, literal);
    CandidateIsAuthority(h + ":" + d, literal);
    if '[' in h {
      BracketedHost(h, d, literal);
    } else {
      UnbracketedAuthority(h, d, literal);
      UnescapePlain(h);
      PlainIsClean(h, d);
    }
  }

  lemma PlainIsClean(h: string, d: string)
    requires AllDigits(d)
    ensures (forall i :: 0 <= i < |h| ==> HostChar(h[i])) ==>
              Clean(h + ":" + d) && '@' !in h && '%' !in h
  {
    var x := h + ":" + d;
    if forall i :: 0 <= i < |h| ==> HostChar(h[i]) {
      assert forall i :: 0 <= i < |x| ==> HostChar(x[i]);
    }
  }

  /** A host that a printed endpoint can be read back from. */
  predicate HostReads(h: string, literal: Literals) {
    && Clean(h) && '@' !in h
    && if '[' in h then BracketReads(h, literal) else Unescape(h).Some? && Unescape(h).value != ""
  }

  /** Exactly which printed endpoints parse at all: those with a real port and a host that holds no
      delimiter and can be decoded. */
  lemma PrintedParses(e: ApiEndpoint, literal: Literals)
    ensures Parse(Print(e), literal).Ok? <==> e.host != "" && PortOk(e.port) && HostReads(e.host, literal)
  {
    if e.host == "" || e.port <= 0 {
      NothingPrinted(literal);
    } else {
      var h, d := e.host, Decimal(e.port);
      DecimalRoundTrip(e.port);
      PrintedCandidate("https://", h, d, literal);
      CandidateIsAuthority(h + ":" + d, literal);
      CleanBeforePort(h, d);
      if '[' in h {
        BracketedAuthority(h, d, literal);
      } else {
        UnbracketedAuthority(h, d, literal);
      }
    }
  }

  lemma NothingPrinted(literal: Literals)
    ensures Parse("", literal).Err?
  {
    TrimSpaceIsTrimmed("");
  }

  lemma CleanBeforePort(h: string, d: string)
    requires AllDigits(d)
    ensures Clean(h + ":" + d) <==> Clean(h)
  {
    var x := h + ":" + d;
    if i :| 0 <= i < |h| && (h[i] as int < 0x20 || h[i] as int == 0x7f) {
      assert x[i] == h[i];
    }
    if i :| 0 <= i < |x| && (x[i] as int < 0x20 || x[i] as int == 0x7f) {
      assert i < |h| && h[i] == x[i];
    }
  }

  /** A plain host is read as it stands. */
  lemma PlainReads(h: string, literal: Literals)
    requires PlainHost(h)
    ensures HostReads(h, literal)
  {
    HostAloneIsClean(h);
    assert '%' !in h;
    UnescapePlain(h);
  }

  /** A plain host without a port is given the port 443, with the scheme before it or without. */
  lemma DefaultPort(h: string, literal: Literals)
    requires PlainHost(h) && ':' !in h && Trimmed(h)
    ensures Parse(h, literal) == Ok(ApiEndpoint(h, 443))
  {
    DefaultCandidate(h, literal);
    WithoutScheme(h, literal);
  }

  lemma DefaultPortWithScheme(h: string, literal: Literals)
    requires PlainHost(h) && ':' !in h && Trimmed(h)
    ensures Parse("https://" + h, literal) == Ok(ApiEndpoint(h, 443))
  {
    DefaultCandidate(h, literal);
    IsScheme("https://");
    WithScheme("https://", h, literal);
  }

  lemma IsScheme(p: string)
    requires p == "https://"
    ensures 5 <= |p| && p[0] == 'h' && OccursAt(p, "://", 5)
  {
    assert p[5..] == "://";
  }

  lemma NoSeparator(h: string, x: string)
    requires x != "" && x[0] !in h
    ensures !Contains(h, x)
  {
    forall i | 0 <= i <= |h| ensures !OccursAt(h, x, i) {
      assert i + |x| <= |h| ==> h[i..i + |x|][0] == h[i];
    }
  }

  lemma WithoutScheme(h: string, literal: Literals)
    requires h != "" && Trimmed(h) && ':' !in h
    ensures Parse(h, literal) == ParseCandidate("https://" + h, literal)
  {
    TrimSpaceIsTrimmed(h);
    NoSeparator(h, "://");
  }

  lemma WithScheme(p: string, h: string, literal: Literals)
    requires 5 <= |p| && p[0] == 'h' && OccursAt(p, "://", 5) && h != "" && Trimmed(h)
    ensures Parse(p + h, literal) == ParseCandidate(p + h, literal)
  {
    OccursInPrefix(p, h, "://", 5);
    assert Trimmed(p + h);
    ParsedAsItStands(p + h, 5, literal);
  }

  lemma DefaultCandidate(h: string, literal: Literals)
    requires PlainHost(h) && ':' !in h
    ensures ParseCandidate("https://" + h, literal) == Ok(ApiEndpoint(h, 443))
  {
    HostAloneIsClean(h);
    CandidateWithoutFragment(h, literal);
    NoQuery("//", h, literal);
    NoPath(h, literal);
    assert '%' !in h;
    UnescapePlain(h);
    HostWithoutPort(h, literal);
  }

  lemma HostAloneIsClean(h: string)
    requires forall i :: 0 <= i < |h| ==> HostChar(h[i])
    ensures Clean(h) && '@' !in h
  {
  }

  lemma HostWithoutPort(h: string, literal: Literals)
    requires h != "" && '[' !in h && ':' !in h && '@' !in h && Unescape(h) == Some(h)
    ensures ParseAuthority(h, literal) == Ok(ApiEndpoint(h, 443))
  {
    assert h[|h| - 1] in h;
    assert h[0] in h;
  }

  /** A printed endpoint that parses at all keeps its port. */
  lemma PrintedPortIsKept(e: ApiEndpoint, literal: Literals)
    ensures Parse(Print(e), literal).Ok? ==>
              PortOk(e.port) && Parse(Print(e), literal).endpoint.port == e.port
  {
    if e.host == "" || e.port <= 0 {
      NothingPrinted(literal);
    } else {
      var h, d := e.host, Decimal(e.port);
      DecimalRoundTrip(e.port);
      PrintedCandidate("https://", h, d, literal);
      CandidateIsAuthority(h + ":" + d, literal);
      if '[' in h {
        BracketedAuthority(h, d, literal);
      } else {
        UnbracketedAuthority(h, d, literal);
      }
    }
  }
}

/** Which texts the endpoint parser accepts (internal/endpoint/parse.go). */
module EndpointTexts {

  import opened Options
  import opened Text
  import opened Endpoint

  /** What may follow the authority: nothing, or empty path, query and fragment. */
  predicate IsTail(path: string, query: string, fragment: string) {
    path in {"", "/"} && query in {"", "?"} && fragment in {"", "#"}
  }

  /** The text is a scheme that spells https in any case, an authority without delimiters, and such a tail. */
  predicate Splits(text: string, scheme: string, authority: string, path: string, query: string, fragment: string) {
    && ToLower(scheme) == "https" && Clean(authority) && IsTail(path, query, fragment)
    && text == scheme + "://" + (authority + path + query) + fragment
  }

  lemma SlashedSplits(authority: string, path: string, literal: Literals)
    requires '/' !in authority && path in {"", "/"}
    ensures ParseSlashed(authority + path, literal) == ParseAuthority(authority, literal)
  {
    FindAt(authority + path, '/', |authority|);
  }

  lemma HierarchySplits(authority: string, path: string, query: string, literal: Literals)
    requires '/' !in authority && '?' !in authority && path in {"", "/"} && query in {"", "?"}
    ensures ParseHierarchy("//" + (authority + path + query), false, literal) == ParseAuthority(authority, literal)
  {
    var hier := "//" + (authority + path);
    var rest := "//" + (authority + path + query);
    assert rest == hier + query;
    FindAt(rest, '?', |hier|);
    assert rest[..|hier|] == hier && hier[2..] == authority + path;
    SlashedSplits(authority, path, literal);
  }

  lemma SchemeLetters(scheme: string)
    requires ToLower(scheme) == "https"
    ensures |scheme| == 5 && forall i :: 0 <= i < 5 ==> IsLetter(scheme[i])
  {
    assert |ToLower(scheme)| == |scheme| == 5;
    forall i | 0 <= i < 5 ensures IsLetter(scheme[i]) {
      assert ToLower(scheme)[i] == Lower(scheme[i]) && IsLetter("https"[i]);
    }
  }

  /** Such a text is parsed as its authority. */
  lemma SplitTextIsParsed(text: string, scheme: string, authority: string, path: string, query: string, fragment: string,
                          literal: Literals)
    requires Splits(text, scheme, authority, path, query, fragment)
    ensures ParseCandidate(text, literal) == ParseAuthority(authority, literal)
  {
    SchemeLetters(scheme);
    var rest := "//" + (authority + path + query);
    var u := scheme + ":" + rest;
    assert text == u + fragment;
    assert '#' !in u;
    FindAt(text, '#', |u|);
    assert text[..|u|] == u;
    FindAt(u, ':', 5);
    assert u[..5] == scheme && u[6..] == rest;
    NoControls(scheme, authority, path, query, u);
    HierarchySplits(authority, path, query, literal);
  }

  lemma NoControls(scheme: string, authority: string, path: string, query: string, u: string)
    requires u == scheme + ":" + ("//" + (authority + path + query)) && !HasControl(authority)
    requires forall i :: 0 <= i < |scheme| ==> IsLetter(scheme[i])
    requires path in {"", "/"} && query in {"", "?"}
    ensures !HasControl(u)
  {
    forall i | 0 <= i < |u| ensures !(u[i] as int < 0x20 || u[i] as int == 0x7f) {
      var at := i - |scheme| - 3;
      if 0 <= at < |authority| {
        assert u[i] == authority[at];
      }
    }
  }

  lemma SlashedAccepted(slashed: string, literal: Literals) returns (authority: string, path: string)
    requires ParseSlashed(slashed, literal).Ok?
    ensures slashed == authority + path && path in {"", "/"} && '/' !in authority
    ensures ParseSlashed(slashed, literal) == ParseAuthority(authority, literal)
  {
    var slash := Find(slashed, '/');
    authority, path := slashed[..slash], slashed[slash..];
  }

  lemma HierarchyParts(rest: string, literal: Literals) returns (slashed: string, query: string)
    requires ParseHierarchy(rest, false, literal).Ok?
    ensures rest == "//" + slashed + query && query in {"", "?"} && '?' !in "//" + slashed
    ensures ParseHierarchy(rest, false, literal) == ParseSlashed(slashed, literal)
  {
    var question := Find(rest, '?');
    var hier := rest[..question];
    query := rest[question..];
    CutAtMostOne(rest, '?', question);
    slashed := hier[2..];
    assert hier == "//" + slashed && rest == hier + query;
  }

  lemma HierarchyAccepted(rest: string, literal: Literals) returns (authority: string, path: string, query: string)
    requires ParseHierarchy(rest, false, literal).Ok?
    ensures rest == "//" + (authority + path + query)
    ensures path in {"", "/"} && query in {"", "?"} && '/' !in authority && '?' !in authority
    ensures ParseHierarchy(rest, false, literal) == ParseAuthority(authority, literal)
  {
    var slashed;
    slashed, query := HierarchyParts(rest, literal);
    authority, path := SlashedAccepted(slashed, literal);
    NotInMiddle('?', "//", authority, path);
  }

  lemma NotInMiddle(c: char, before: string, middle: string, after: string)
    requires c !in before + (middle + after)
    ensures c !in middle
  {
    assert forall i :: 0 <= i < |middle| ==> (before + (middle + after))[|before| + i] == middle[i];
  }

  /** And every candidate that is accepted is of that form. */
  lemma AcceptedSplits(text: string, literal: Literals)
      returns (scheme: string, authority: string, path: string, query: string, fragment: string)
    requires ParseCandidate(text, literal).Ok?
    ensures Splits(text, scheme, authority, path, query, fragment)
    ensures ParseCandidate(text, literal) == ParseAuthority(authority, literal)
  {
    var hash := Find(text, '#');
    var u := text[..hash];
    fragment := text[hash..];
    CutAtMostOne(text, '#', hash);
    var colon := Find(u, ':');
    scheme := u[..colon];
    authority, path, query := HierarchyAccepted(u[colon + 1..], literal);
    SchemeAndRest(text, u, fragment, scheme, u[colon + 1..], authority + path + query);
    AuthorityIsClean(u, scheme, authority, path, query);
  }

  lemma SchemeAndRest(text: string, u: string, fragment: string, scheme: string, rest: string, more: string)
    requires text == u + fragment && rest == "//" + more && |scheme| < |u| && u[..|scheme|] == scheme
    requires u[|scheme|] == ':' && u[|scheme| + 1..] == rest
    ensures text == scheme + "://" + more + fragment && u == scheme + "://" + more
  {
    assert u == scheme + ":" + rest;
  }

  lemma AuthorityIsClean(u: string, scheme: string, authority: string, path: string, query: string)
    requires u == scheme + "://" + (authority + path + query) && '#' !in u && !HasControl(u)
    requires '/' !in authority && '?' !in authority
    ensures Clean(authority)
  {
    forall i | 0 <= i < |authority| ensures authority[i] == u[|scheme| + 3 + i] {
    }
  }

  lemma CutAtMostOne(s: string, c: char, at: nat)
    requires at == Find(s, c) && !(at + 1 < |s|)
    ensures s[at..] == "" || s[at..] == [c]
  {
  }

  // ---- authorities ----

  /** Host and port of an authority: a port follows the last colon, and stands after the bracket if there
      is one. */
  predicate AuthorityParts(authority: string, host: string, port: string) {
    && AllDigits(port)
    && if port != "" then authority == host + ":" + port
       else authority == host && if '[' in host then host[|host| - 1] == ']' else ':' !in host
  }

  /** The literal between brackets, or the decoded host. */
  function HostOf(host: string, literal: Literals): Option<string> {
    if '[' !in host then Unescape(host)
    else if Bracketed(host).None? then None
    else literal(Bracketed(host).value)
  }

  /** What such an authority reads as. */
  predicate PartsRead(authority: string, literal: Literals, endpoint: ApiEndpoint, host: string, port: string) {
    && AuthorityParts(authority, host, port) && '@' !in host
    && HostOf(host, literal) == Some(endpoint.host) && endpoint.host != ""
    && endpoint.port == (if port == "" then 443 else Value(port)) && PortOk(endpoint.port)
  }

  lemma PlainAlone(h: string, literal: Literals)
    requires '[' !in h && ':' !in h && '@' !in h
    ensures ParseAuthority(h, literal) ==
            if Unescape(h).None? then Err(BadUrl)
            else if Unescape(h).value == "" then Err(EmptyHost)
            else Ok(ApiEndpoint(Unescape(h).value, 443))
  {
    if Unescape(h).Some? && Unescape(h).value != "" {
      UnescapeAddsNo('[', h);
      UnescapeAddsNo(':', h);
      var x := Unescape(h).value;
      assert x[|x| - 1] in x && x[0] in x;
    }
  }

  lemma LiteralAlone(v: string)
    ensures ReadHostPort("[" + v + "]") == if v == "" then Err(EmptyHost) else Ok(ApiEndpoint(v, 443))
  {
    var x := "[" + v + "]";
    var colon := FindLast(x, ':');
    assert colon.Some? ==> x[colon.value..][|x| - colon.value - 1] == ']';
    assert x[1..|x| - 1] == v;
  }

  lemma BracketHost(h: string, literal: Literals)
    requires '[' in h && h[|h| - 1] == ']'
    ensures ParseHost(h, literal) ==
            if HostOf(h, literal).None? then None else Some("[" + HostOf(h, literal).value + "]")
  {
    var open := FindLast(h, '[').value;
    FindLastAt(h, ']', |h| - 1);
    assert h[open + 1..][|h| - open - 2] == ']';
    assert h[open + 1..|h| - 1] == AfterBracket(h)[..|AfterBracket(h)| - 1];
    assert forall v: string :: "[" + v + "]" + "" == "[" + v + "]";
  }

  lemma BracketAlone(h: string, literal: Literals)
    requires '[' in h && h[|h| - 1] == ']' && '@' !in h
    ensures ParseAuthority(h, literal) ==
            if HostOf(h, literal).None? then Err(BadUrl)
            else if HostOf(h, literal).value == "" then Err(EmptyHost)
            else Ok(ApiEndpoint(HostOf(h, literal).value, 443))
  {
    BracketHost(h, literal);
    if HostOf(h, literal).Some? {
      LiteralAlone(HostOf(h, literal).value);
    }
  }

  /** Authorities in parts read as their host and port. */
  lemma PartsAreRead(authority: string, literal: Literals, endpoint: ApiEndpoint, host: string, port: string)
    requires PartsRead(authority, literal, endpoint, host, port)
    ensures ParseAuthority(authority, literal) == Ok(endpoint)
  {
    if '[' in host {
      if port == "" {
        BracketAlone(host, literal);
      } else {
        BracketedAuthority(host, port, literal);
      }
    } else {
      if port == "" {
        PlainAlone(host, literal);
      } else {
        UnbracketedAuthority(host, port, literal);
      }
    }
  }

  /** An authority that ends in a colon is refused. */
  lemma EmptyPortIsRefused(h: string, literal: Literals)
    ensures ParseAuthority(h + ":", literal).Err?
  {
    IsPortText("");
    assert ":" + "" == ":";
    if '[' in h {
      BracketedHostParse(h, ":", literal);
    } else {
      UnbracketedHost(h, ":", literal);
    }
  }

  /** One that begins with its port as well. */
  lemma NoHostIsRefused(port: string, literal: Literals)
    requires AllDigits(port) && port != ""
    ensures ParseAuthority(":" + port, literal).Err?
  {
    var tail := ":" + port;
    assert tail[1..] == port && "" + tail == tail && "" + ":" + port == tail;
    if '[' !in tail {
      UnbracketedHost("", tail, literal);
      ReadPrinted("", port);
    }
  }

  lemma LastColon(authority: string) returns (host: string, port: string)
    requires '[' !in authority && ':' in authority && ParseHost(authority, _ => None).Some?
    ensures authority == host + ":" + port && AllDigits(port) && '[' !in host
  {
    var colon := FindLast(authority, ':').value;
    host, port := authority[..colon], authority[colon + 1..];
    assert authority[colon..][1..] == port;
  }

  /** What follows the last closing bracket. */
  lemma AfterBrackets(authority: string, literal: Literals) returns (host: string, tail: string)
    requires '[' in authority && ParseHost(authority, literal).Some?
    ensures authority == host + tail && '[' in host && host[|host| - 1] == ']' && ValidOptionalPort(tail)
  {
    var open, close := FindLast(authority, '[').value, FindLast(authority, ']').value;
    host, tail := authority[..close + 1], authority[close + 1..];
    assert host[open] == '[' && host[close] == ']';
  }

  lemma AfterLiteral(authority: string, literal: Literals) returns (host: string, port: string)
    requires '[' in authority && ParseAuthority(authority, literal).Ok?
    ensures '[' in host && host[|host| - 1] == ']' && AllDigits(port)
    ensures authority == if port == "" then host else host + ":" + port
  {
    var tail;
    host, tail := AfterBrackets(authority, literal);
    port := "";
    if tail != "" {
      port := tail[1..];
      assert tail == ":" + port;
      assert authority == host + ":" + port;
      EmptyPortIsRefused(host, literal);
      assert authority != host + ":";
    }
  }

  /** An authority is accepted exactly when it is a host that can be decoded, or a literal in brackets the
      URI library reads, alone or with a port from 1 to 65535 after a colon; there is no user
      information, and without a port it is 443. */
  lemma AcceptedAuthorities(authority: string, literal: Literals, endpoint: ApiEndpoint)
    ensures ParseAuthority(authority, literal) == Ok(endpoint) <==>
              exists host, port :: PartsRead(authority, literal, endpoint, host, port)
  {
    if ParseAuthority(authority, literal) == Ok(endpoint) {
      AcceptedHasParts(authority, literal, endpoint);
    }
    if host, port :| PartsRead(authority, literal, endpoint, host, port) {
      PartsAreRead(authority, literal, endpoint, host, port);
    }
  }

  lemma AcceptedHasParts(authority: string, literal: Literals, endpoint: ApiEndpoint)
    requires ParseAuthority(authority, literal) == Ok(endpoint)
    ensures exists host, port :: PartsRead(authority, literal, endpoint, host, port)
  {
    if '[' in authority {
      BracketedHasParts(authority, literal, endpoint);
    } else if ':' in authority {
      PlainHasParts(authority, literal, endpoint);
    } else {
      PlainAlone(authority, literal);
      assert PartsRead(authority, literal, endpoint, authority, "");
    }
  }

  lemma BracketedHasParts(authority: string, literal: Literals, endpoint: ApiEndpoint)
    requires '[' in authority && ParseAuthority(authority, literal) == Ok(endpoint)
    ensures exists host, port :: PartsRead(authority, literal, endpoint, host, port)
  {
    var host, port := AfterLiteral(authority, literal);
    if port == "" {
      BracketAlone(host, literal);
    } else {
      BracketedAuthority(host, port, literal);
    }
    assert PartsRead(authority, literal, endpoint, host, port);
  }

  lemma PlainHasParts(authority: string, literal: Literals, endpoint: ApiEndpoint)
    requires '[' !in authority && ':' in authority && ParseAuthority(authority, literal) == Ok(endpoint)
    ensures exists host, port :: PartsRead(authority, literal, endpoint, host, port)
  {
    var host, port := LastColon(authority);
    if port == "" {
      assert authority == host + ":";
      EmptyPortIsRefused(host, literal);
    } else if host == "" {
      assert authority == ":" + port;
      NoHostIsRefused(port, literal);
    } else {
      UnbracketedAuthority(host, port, literal);
      assert PartsRead(authority, literal, endpoint, host, port);
    }
  }

  // ---- texts ----

  /** The text that is parsed: trimmed, and with https:// before it unless it has a scheme separator. */
  predicate IsCandidate(raw: string, text: string) {
    && TrimSpace(raw) != ""
    && text == if Contains(TrimSpace(raw), "://") then TrimSpace(raw) else "https://" + TrimSpace(raw)
  }

  lemma CandidateIsParsed(raw: string, literal: Literals) returns (text: string)
    requires Parse(raw, literal).Ok?
    ensures IsCandidate(raw, text) && Parse(raw, literal) == ParseCandidate(text, literal)
  {
    text := if Contains(TrimSpace(raw), "://") then TrimSpace(raw) else "https://" + TrimSpace(raw);
  }

  /** The parts of a text, and its authority's endpoint. */
  ghost predicate Reads(raw: string, literal: Literals, endpoint: ApiEndpoint, text: string, scheme: string,
                        authority: string, path: string, query: string, fragment: string)
  {
    && IsCandidate(raw, text) && Splits(text, scheme, authority, path, query, fragment)
    && exists host, port :: PartsRead(authority, literal, endpoint, host, port)
  }

  /** A text is accepted exactly when what is parsed of it is an https scheme in any case, an authority
      whose host and port can be read, at most a slash for a path, and an empty query and fragment; it
      then has that host and port. */
  lemma AcceptedTexts(raw: string, literal: Literals, endpoint: ApiEndpoint)
    ensures Parse(raw, literal) == Ok(endpoint) <==>
              exists text, scheme, authority, path, query, fragment ::
                Reads(raw, literal, endpoint, text, scheme, authority, path, query, fragment)
  {
    if Parse(raw, literal) == Ok(endpoint) {
      AcceptedIsRead(raw, literal, endpoint);
    }
    if text, scheme, authority, path, query, fragment :|
      Reads(raw, literal, endpoint, text, scheme, authority, path, query, fragment)
    {
      AcceptedAuthorities(authority, literal, endpoint);
      SplitTextIsParsed(text, scheme, authority, path, query, fragment, literal);
    }
  }

  lemma AcceptedIsRead(raw: string, literal: Literals, endpoint: ApiEndpoint)
    requires Parse(raw, literal) == Ok(endpoint)
    ensures exists text, scheme, authority, path, query, fragment ::
              Reads(raw, literal, endpoint, text, scheme, authority, path, query, fragment)
  {
    var text := CandidateIsParsed(raw, literal);
    var scheme, authority, path, query, fragment := AcceptedSplits(text, literal);
    AcceptedAuthorities(authority, literal, endpoint);
    assert Reads(raw, literal, endpoint, text, scheme, authority, path, query, fragment);
  }
}

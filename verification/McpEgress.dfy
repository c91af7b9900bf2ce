/** Whether the proxy lets calls to an HTTP tool imported from an MCP server through: the
    importer (internal/sources/mcp/source.go) cuts the allowed host off the base URL in its
    own way, the proxy (internal/proxy/proxy.go) off the parsed endpoint. */
module McpEgress {
  import opened Wrappers
  import opened Text
  import opened Urls
  import opened Proxy
  import opened McpSource

  // ----- The endpoint's host -----

  /** Trimming slashes leaves alone what does not end in one. */
  lemma {:induction false} TrimsTail(head: string, rest: string)
    requires rest != "" && rest[0] != '/'
    ensures WithoutSlashes(head + rest) == head + WithoutSlashes(rest)
    decreases |rest|
  {
    var last := |rest| - 1;
    if rest[last] != '/' {
    } else {
      assert (head + rest)[..|head + rest| - 1] == head + rest[..last];
      TrimsTail(head, rest[..last]);
    }
  }

  lemma {:induction false} SlashEnds(a: string, b: string, cut: set<char>)
    requires '/' in cut
    ensures UpTo(a + ("/" + b), cut) == UpTo(a, cut)
  {
    if a == "" || a[0] in cut {
    } else {
      assert (a + ("/" + b))[1..] == a[1..] + ("/" + b);
      SlashEnds(a[1..], b, cut);
    }
  }

  lemma {:induction false} SlashesPlayNoPart(rest: string, cut: set<char>)
    requires '/' in cut
    ensures UpTo(WithoutSlashes(rest), cut) == UpTo(rest, cut)
    decreases |rest|
  {
    if !HasSuffix(rest, "/") {
    } else {
      var init := rest[..|rest| - 1];
      SlashesPlayNoPart(init, cut);
      SlashEnds(init, "", cut);
      assert rest == init + ("/" + "");
    }
  }

  /** Trimming slashes stops at anything else. */
  lemma {:induction false} TrimsBehind(head: string, rest: string)
    requires head != "" && head[|head| - 1] != '/'
    ensures WithoutSlashes(head + rest) == head + WithoutSlashes(rest)
    decreases |rest|
  {
    if rest == "" {
      assert head + rest == head;
    } else {
      var last := |rest| - 1;
      if rest[last] == '/' {
        assert (head + rest)[..|head + rest| - 1] == head + rest[..last];
        TrimsBehind(head, rest[..last]);
      }
    }
  }

  lemma {:induction false} TrimmedIsPrefix(s: string)
    ensures WithoutSlashes(s) <= s && (WithoutSlashes(s) == "" || WithoutSlashes(s)[|WithoutSlashes(s)| - 1] != '/')
  {
    if HasSuffix(s, "/") {
      TrimmedIsPrefix(s[..|s| - 1]);
    } else {
      assert s != "" ==> s[|s| - 1..] == [s[|s| - 1]];
    }
  }

  /** A scheme ends at the first colon. */
  lemma {:induction false} FirstColon(s: string, n: nat)
    requires n < |s| && s[n] == ':' && ':' !in s[..n]
    ensures UpTo(s, {':'}) == s[..n]
  {
    assert s == s[..n] + [':'] + s[n + 1..];
    UpToStops(s[..n], ':', s[n + 1..], {':'});
  }

  lemma ColonBehind(url: string)
    requires |UpTo(url, {':'})| < |url|
    ensures var head := UpTo(url, {':'}); url[|head|] == ':' && url == head + ":" + url[|head| + 1..]
  {
    ColonStops(url);
    var head := UpTo(url, {':'});
    assert url == url[..|head|] + [url[|head|]] + url[|head| + 1..];
  }

  lemma {:induction false} ColonStops(url: string)
    requires |UpTo(url, {':'})| < |url|
    ensures url[|UpTo(url, {':'})|] == ':'
  {
    if url[0] == ':' {
    } else {
      ColonStops(url[1..]);
    }
  }

  lemma SchemeRead(head: string, rest: string)
    requires ':' !in head && IsScheme(head)
    ensures AfterScheme((head + ":") + rest) == rest
  {
    UpToStops(head, ':', rest, {':'});
    assert ((head + ":") + rest)[|head| + 1..] == rest;
  }

  lemma SchemeInFront(head: string, t: string, tail: string)
    requires ':' !in head && IsScheme(head)
    ensures AfterScheme(WithoutSlashes(head + ":" + t) + ("/" + tail)) == WithoutSlashes(t) + ("/" + tail)
  {
    TrimsBehind(head + ":", t);
    Assoc(head + ":", WithoutSlashes(t), "/" + tail);
    SchemeRead(head, WithoutSlashes(t) + ("/" + tail));
  }

  lemma NoSchemeInFront(base: string, tail: string)
    requires !(|UpTo(base, {':'})| < |base| && IsScheme(UpTo(base, {':'})))
    ensures var url := WithoutSlashes(base) + ("/" + tail); AfterScheme(url) == url
  {
    var url := WithoutSlashes(base) + ("/" + tail);
    assert !SchemeChar('/');
    if |UpTo(url, {':'})| < |url| && '/' !in UpTo(url, {':'}) { SchemeIsOld(base, tail); }
  }

  /** The scheme of an endpoint is that of its base URL. */
  lemma SchemeKept(base: string, tail: string)
    ensures AfterScheme(WithoutSlashes(base) + ("/" + tail)) == WithoutSlashes(AfterScheme(base)) + ("/" + tail)
  {
    var head := UpTo(base, {':'});
    if |head| < |base| && IsScheme(head) {
      ColonBehind(base);
      SchemeInFront(head, base[|head| + 1..], tail);
    } else {
      NoSchemeInFront(base, tail);
    }
  }

  lemma PrefixHolds(s: string, head: string, n: nat)
    requires head <= s && n < |s|
    ensures n < |head| ==> s[n] in head
  {
    if n < |head| { assert head[n] == s[n]; }
  }

  /** A colon before the path was there before. */
  lemma SchemeIsOld(base: string, tail: string)
    requires var url := WithoutSlashes(base) + ("/" + tail); |UpTo(url, {':'})| < |url| && '/' !in UpTo(url, {':'})
    ensures UpTo(base, {':'}) == UpTo(WithoutSlashes(base) + ("/" + tail), {':'}) && |UpTo(base, {':'})| < |base|
  {
    var trimmed := WithoutSlashes(base);
    var url := trimmed + ("/" + tail);
    var head := UpTo(url, {':'});
    TrimmedIsPrefix(base);
    ColonStops(url);
    PrefixHolds(url, head, |trimmed|);
    assert |head| < |trimmed| by { assert url[|trimmed|] == '/'; }
    assert base[|head|] == url[|head|] && base[..|head|] == url[..|head|] == head;
    FirstColon(base, |head|);
  }

  /** What follows the slashes before the authority of a tool's endpoint. */
  function Target(rest: string, name: string): string { WithoutSlashes(rest) + ("/" + ("tools/call/" + name)) }

  lemma ShortTrimmed(t: string, tail: string)
    requires tail != "" && tail[0] != '/'
    ensures HasPrefix(WithoutSlashes(t) + ("/" + tail), "//") ==> |WithoutSlashes(t)| > 2
  {
    TrimmedIsPrefix(t);
    var trimmed := WithoutSlashes(t);
    assert |trimmed| == 0 ==> (trimmed + ("/" + tail))[1] == tail[0];
    assert |trimmed| > 0 ==> (trimmed + ("/" + tail))[|trimmed| - 1] == trimmed[|trimmed| - 1];
  }

  lemma TwoSlashes(t: string, tail: string)
    requires |WithoutSlashes(t)| > 2 && HasPrefix(WithoutSlashes(t) + ("/" + tail), "//")
    ensures HasPrefix(t, "//") && t[2..] != "" && t[2..][0] == (WithoutSlashes(t) + ("/" + tail))[2..][0]
  {
    TrimmedIsPrefix(t);
    var u := WithoutSlashes(t) + ("/" + tail);
    assert t[0] == u[0] && t[1] == u[1] && t[2] == u[2];
  }

  /** A base URL with something after its two slashes that is no further slash. */
  predicate Based(base: string) {
    AfterSlashes(base).Some? && AfterSlashes(base).value != "" && AfterSlashes(base).value[0] != '/'
  }

  lemma BasedEndpoint(base: string, name: string)
    requires Based(base)
    ensures AfterSlashes(HttpEndpoint(base, name)) == Some(Target(AfterSlashes(base).value, name))
  {
    var rest, tail := AfterSlashes(base).value, "tools/call/" + name;
    EndpointSpelled(base, name);
    SchemeKept(base, tail);
    AfterTwoSlashes(AfterScheme(base), rest, tail);
  }

  lemma AfterTwoSlashes(t: string, rest: string, tail: string)
    requires HasPrefix(t, "//") && rest == t[2..] && rest != "" && rest[0] != '/'
    ensures var u := WithoutSlashes(t) + ("/" + tail); HasPrefix(u, "//") && u[2..] == WithoutSlashes(rest) + ("/" + tail)
  {
    assert t == "//" + rest;
    TrimsTail("//", rest);
  }

  lemma TargetAuthority(rest: string, name: string)
    ensures Authority(Target(rest, name)) == Authority(rest)
  {
    SlashEnds(WithoutSlashes(rest), "tools/call/" + name, AUTHORITY_ENDS);
    SlashesPlayNoPart(rest, AUTHORITY_ENDS);
  }

  lemma NoAuthority(t: string, tail: string)
    requires tail != "" && tail[0] != '/'
    requires !(HasPrefix(t, "//") && t[2..] != "" && t[2..][0] != '/')
    ensures var u := WithoutSlashes(t) + ("/" + tail); HasPrefix(u, "//") ==> Authority(u[2..]) == ""
  {
    ShortTrimmed(t, tail);
    if HasPrefix(WithoutSlashes(t) + ("/" + tail), "//") { TwoSlashes(t, tail); }
  }

  /** Without one the endpoint names no host. */
  lemma BaselessEndpoint(base: string, name: string)
    requires !Based(base)
    ensures UrlHost(HttpEndpoint(base, name)) == ""
  {
    var tail := "tools/call/" + name;
    EndpointSpelled(base, name);
    SchemeKept(base, tail);
    assert tail[0] == 't';
    NoAuthority(AfterScheme(base), tail);
    NothingInFront();
  }

  lemma NothingInFront()
    ensures HostOfAuthority("") == ""
  {
  }

  lemma EndpointSpelled(baseUrl: string, name: string)
    ensures HttpEndpoint(baseUrl, name) == WithoutSlashes(baseUrl) + ("/" + ("tools/call/" + name))
  {
    assert "/tools/call/" == "/" + "tools/call/";
  }

  // ----- The proxy's comparison -----

  lemma {:induction false} LowerUpTo(s: string)
    ensures UpTo(ToLower(s), {':'}) == ToLower(UpTo(s, {':'}))
  {
    if s == "" || s[0] == ':' {
    } else {
      LowerUpTo(s[1..]);
      assert ToLower(s)[1..] == ToLower(s[1..]);
    }
  }

  lemma OneHostListed(h: string, host: string)
    ensures HostListed([h], host) <==> ToLower(h) == UpTo(ToLower(host), {':'})
  {
    assert h in [h];
  }

  /** The name a URL's host goes by, without user and port. */
  function HostName(rest: string): string { UpTo(HostOfAuthority(Authority(rest)), {':'}) }

  /** The endpoint is one url.Parse accepts, and names a host. */
  predicate Reachable(rest: string, name: string) {
    Accepted(Target(rest, name)) && HostOfAuthority(Authority(rest)) != ""
  }

  /** IP literals and escaped hosts are not modelled. */
  predicate NoLiteral(base: string) {
    match AfterSlashes(base)
    case None => true
    case Some(rest) => '[' !in HostOfAuthority(Authority(rest)) && '%' !in HostOfAuthority(Authority(rest))
  }

  /** An HTTP tool's own egress entry admits its own endpoint exactly when that endpoint
      parses and the host its importer cut off the base URL is the URL's host, up to case. */
  lemma EndpointListed(src: Source, d: Descriptor)
    requires !IsStdio(src) && NoLiteral(src.baseUrl)
    ensures Passes(ToolFrom(src, d).egress, ToolFrom(src, d).endpoint) <==>
            Based(src.baseUrl) &&
            var rest := AfterSlashes(src.baseUrl).value;
            Reachable(rest, d.name) && ToLower(HostOf(src.baseUrl)) == ToLower(HostName(rest))
  {
    if Based(src.baseUrl) {
      var rest := AfterSlashes(src.baseUrl).value;
      BasedEndpoint(src.baseUrl, d.name);
      TargetAuthority(rest, d.name);
      OneHostListed(HostOf(src.baseUrl), HostOfAuthority(Authority(rest)));
      LowerUpTo(HostOfAuthority(Authority(rest)));
    } else {
      BaselessEndpoint(src.baseUrl, d.name);
    }
  }

  // ----- Which base URLs do -----

  /** Where the importer ends a host. */
  const IMPORTER_ENDS := {'/', ':', '?'}

  lemma HostOfHttp(scheme: string, rest: string)
    requires scheme == "http" || scheme == "https"
    requires !HasPrefix(rest, "http://")
    ensures HostOf(scheme + ("://" + rest)) == UpTo(rest, IMPORTER_ENDS)
  {
    var url := scheme + ("://" + rest);
    if scheme == "http" {
      assert url == "http://" + rest && url[4] == ':';
      assert TrimPrefix(url, "https://") == url;
      assert TrimPrefix(url, "http://") == rest;
    } else {
      assert url == "https://" + rest;
      assert TrimPrefix(url, "https://") == rest;
    }
  }

  /** Cutting at `#` too makes no difference exactly when there is none. */
  lemma HashMatters(host: string)
    ensures ToLower(host) == ToLower(UpTo(host, {'#'})) <==> '#' !in host
  {
    if '#' !in host {
      UpToWhole(host, {'#'});
    } else {
      ShorterAtHash(host);
    }
  }

  lemma {:induction false} ShorterAtHash(s: string)
    requires '#' in s
    ensures |UpTo(s, {'#'})| < |s|
  {
    if s[0] == '#' {
    } else {
      ShorterAtHash(s[1..]);
    }
  }

  lemma BasedOnScheme(scheme: string, rest: string)
    requires IsScheme(scheme) && rest != "" && rest[0] != '/'
    ensures Based(scheme + ("://" + rest)) && AfterSlashes(scheme + ("://" + rest)) == Some(rest)
  {
    SlashesAfterScheme(scheme, rest);
  }

  lemma HttpIsScheme()
    ensures IsScheme("http") && IsScheme("https")
  {
  }

  lemma WithoutUser(rest: string)
    requires '@' !in Authority(rest)
    ensures HostName(rest) == UpTo(UpTo(rest, IMPORTER_ENDS), {'#'})
  {
    UpToUpTo(rest, AUTHORITY_ENDS, {':'});
    UpToUpTo(rest, IMPORTER_ENDS, {'#'});
    assert AUTHORITY_ENDS + {':'} == IMPORTER_ENDS + {'#'};
  }

  /** With an http or https base URL: when it names a user, exactly if what the importer
      cut is by chance the name after the `@`; otherwise exactly if no `#` follows the
      host before a slash, a colon or a question mark, where the importer does not end
      the host. */
  lemma HttpEndpointListed(src: Source, d: Descriptor, scheme: string, rest: string)
    requires !IsStdio(src) && src.baseUrl == scheme + ("://" + rest) && (scheme == "http" || scheme == "https")
    requires rest != "" && rest[0] != '/' && !HasPrefix(rest, "http://") && NoLiteral(src.baseUrl)
    ensures Passes(ToolFrom(src, d).egress, ToolFrom(src, d).endpoint) <==>
            Reachable(rest, d.name) &&
            var cut := UpTo(rest, IMPORTER_ENDS);
            if '@' in Authority(rest) then ToLower(cut) == ToLower(HostName(rest)) else '#' !in cut
  {
    HttpIsScheme();
    BasedOnScheme(scheme, rest);
    EndpointListed(src, d);
    HostOfHttp(scheme, rest);
    if '@' !in Authority(rest) {
      WithoutUser(rest);
      HashMatters(UpTo(rest, IMPORTER_ENDS));
    }
  }

  lemma SchemeHasNoEnds(scheme: string)
    requires IsScheme(scheme)
    ensures forall c :: c in scheme ==> c !in IMPORTER_ENDS
  {
    assert !SchemeChar('/') && !SchemeChar(':') && !SchemeChar('?');
  }

  /** Any other scheme, also `HTTP` in capitals, is taken for the host. */
  lemma OtherSchemeListed(src: Source, d: Descriptor, scheme: string, rest: string)
    requires !IsStdio(src) && src.baseUrl == scheme + ("://" + rest) && IsScheme(scheme)
    requires scheme != "http" && scheme != "https" && rest != "" && rest[0] != '/' && NoLiteral(src.baseUrl)
    ensures Passes(ToolFrom(src, d).egress, ToolFrom(src, d).endpoint) <==>
            Reachable(rest, d.name) && ToLower(scheme) == ToLower(HostName(rest))
  {
    BasedOnScheme(scheme, rest);
    EndpointListed(src, d);
    SchemeHasNoEnds(scheme);
    HostOfOther(scheme, rest);
  }

  lemma HostOfOther(scheme: string, rest: string)
    requires forall c :: c in scheme ==> c !in IMPORTER_ENDS
    requires scheme != "http" && scheme != "https"
    ensures HostOf(scheme + ("://" + rest)) == scheme
  {
    NoSchemeCut(scheme, rest);
    assert scheme + ("://" + rest) == scheme + [':'] + ("//" + rest);
    UpToStops(scheme, ':', "//" + rest, IMPORTER_ENDS);
  }

  lemma NoSchemeCut(scheme: string, rest: string)
    requires ':' !in scheme && scheme != "http" && scheme != "https"
    ensures var url := scheme + ("://" + rest); !HasPrefix(url, "http://") && !HasPrefix(url, "https://")
  {
    assert "http" + "://" == "http://" && "https" + "://" == "https://";
    SchemeIsFirst(scheme, rest, "http");
    SchemeIsFirst(scheme, rest, "https");
  }

  /** The first colon ends the scheme. */
  lemma SchemeIsFirst(scheme: string, rest: string, other: string)
    requires ':' !in scheme && ':' !in other
    ensures HasPrefix(scheme + ("://" + rest), other + "://") ==> scheme == other
  {
    var url := scheme + ("://" + rest);
    if HasPrefix(url, other + "://") {
      var tail := url[|other| + 1..];
      assert url == other + [':'] + tail && url == scheme + [':'] + ("//" + rest);
      UpToStops(other, ':', tail, {':'});
      UpToStops(scheme, ':', "//" + rest, {':'});
    }
  }
}

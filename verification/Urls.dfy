/** Absolute URLs as the proxy reads them: what Go's url.Parse makes of host and path.
    Bracketed IP literals and escapes in a host are not modelled and count as refused. */
module Urls {
  import opened Wrappers
  import opened Text

  // ----- Characters -----

  predicate Letter(c: char) { 'a' <= c <= 'z' || 'A' <= c <= 'Z' }

  predicate DigitChar(c: char) { '0' <= c <= '9' }

  predicate Alnum(c: char) { Letter(c) || DigitChar(c) }

  predicate Control(c: char) { c < ' ' || c == 127 as char }

  predicate SchemeChar(c: char) { Alnum(c) || c in {'+', '-', '.'} }

  predicate HostChar(c: char) {
    Alnum(c) || c in {'-', '_', '.', '~', '!', '$', '&', '\'', '(', ')', '*', '+', ',', ';', '=', ':', '<', '>', '"'}
  }

  predicate UserChar(c: char) {
    Alnum(c) || c in {'-', '.', '_', ':', '~', '!', '$', '&', '\'', '(', ')', '*', '+', ',', ';', '=', '%', '@'}
  }

  // ----- Percent escapes -----

  function HexValue(c: char): Option<int> {
    if '0' <= c <= '9' then Some((c - '0') as int)
    else if 'a' <= c <= 'f' then Some((c - 'a') as int + 10)
    else if 'A' <= c <= 'F' then Some((c - 'A') as int + 10)
    else None
  }

  /** The character two hexadecimal digits stand for. */
  function HexPair(a: char, b: char): Option<char> {
    match (HexValue(a), HexValue(b))
    case (Some(x), Some(y)) => if 0 <= 16 * x + y < 256 then Some((16 * x + y) as char) else None
    case _ => None
  }

  /** The text with its escapes replaced; none if one is malformed. */
  function Unescape(s: string): Option<string> {
    if s == "" then Some("")
    else if s[0] == '%' then
      if |s| < 3 then None
      else match (HexPair(s[1], s[2]), Unescape(s[3..]))
        case (Some(c), Some(rest)) => Some([c] + rest)
        case _ => None
    else match Unescape(s[1..])
      case None => None
      case Some(rest) => Some([s[0]] + rest)
  }

  /** Unescaping never lengthens a text, and leaves alone exactly the texts without `%`. */
  lemma {:induction false} UnescapeShrinks(s: string)
    ensures Unescape(s).Some? ==> |Unescape(s).value| <= |s|
    ensures '%' in s && Unescape(s).Some? ==> |Unescape(s).value| < |s|
    ensures '%' !in s ==> Unescape(s) == Some(s)
    decreases |s|
  {
    if s == "" {
    } else if s[0] == '%' {
      if |s| >= 3 { UnescapeShrinks(s[3..]); }
    } else {
      UnescapeShrinks(s[1..]);
      assert s == [s[0]] + s[1..];
    }
  }

  // ----- The parts of a URL -----

  const AUTHORITY_ENDS := {'/', '?', '#'}

  /** A scheme: a letter, then letters, digits, `+`, `-` and `.`. */
  predicate IsScheme(s: string) { s != "" && Letter(s[0]) && forall c :: c in s ==> SchemeChar(c) }

  /** What follows the scheme and its colon, or everything if there is no scheme. */
  function AfterScheme(url: string): string {
    var head := UpTo(url, {':'});
    if |head| < |url| && IsScheme(head) then url[|head| + 1..] else url
  }

  /** What follows the two slashes before the authority. */
  function AfterSlashes(url: string): Option<string> {
    var rest := AfterScheme(url);
    if HasPrefix(rest, "//") then Some(rest[2..]) else None
  }

  function Authority(rest: string): string { UpTo(rest, AUTHORITY_ENDS) }

  function PathPart(rest: string): string { UpTo(rest[|Authority(rest)|..], {'?', '#'}) }

  function Fragment(rest: string): string {
    var head := UpTo(rest, {'#'});
    if head == rest then "" else rest[|head| + 1..]
  }

  /** What follows the last c, or everything if there is none. */
  function AfterLast(s: string, c: char): (r: string)
    ensures |r| <= |s| && r == s[|s| - |r|..] && c !in r
  {
    if c in s then AfterLast(s[1..], c) else s
  }

  // ----- What is refused -----

  predicate HostAccepted(host: string) {
    && (forall c :: c in host ==> HostChar(c))
    && (':' in host ==> forall c :: c in AfterLast(host, ':') ==> DigitChar(c))
  }

  predicate UserAccepted(user: string) { (forall c :: c in user ==> UserChar(c)) && Unescape(user).Some? }

  /** User and host of an authority: the last `@` parts them. */
  predicate AuthorityAccepted(authority: string) {
    && HostAccepted(AfterLast(authority, '@'))
    && UserAccepted(authority[..|authority| - |AfterLast(authority, '@')|])
  }

  predicate PathAccepted(rest: string) { Unescape(PathPart(rest)).Some? && Unescape(Fragment(rest)).Some? }

  predicate NoControl(s: string) { forall c :: c in s ==> !Control(c) }

  predicate Accepted(rest: string) {
    && NoControl(UpTo(rest, {'#'}))
    && AuthorityAccepted(Authority(rest))
    && PathAccepted(rest)
  }

  /** The host[:port] of the authority, whatever user it names. */
  function HostOfAuthority(authority: string): string { AfterLast(authority, '@') }

  /** Host and port of a parsed URL; empty if it is refused or has none. */
  function UrlHost(url: string): string {
    match AfterSlashes(url)
    case None => ""
    case Some(rest) => if Accepted(rest) then HostOfAuthority(Authority(rest)) else ""
  }

  /** The path of a parsed URL, its escapes replaced. */
  function UrlPath(url: string): Option<string> {
    match AfterSlashes(url)
    case None => None
    case Some(rest) => Unescape(PathPart(rest))
  }

  lemma SchemeHasNoColon(scheme: string)
    requires IsScheme(scheme)
    ensures ':' !in scheme
  {
    assert !SchemeChar(':');
  }

  lemma SlashesAfterScheme(scheme: string, rest: string)
    requires IsScheme(scheme)
    ensures AfterSlashes(scheme + ("://" + rest)) == Some(rest)
  {
    var url := scheme + ("://" + rest);
    SchemeHasNoColon(scheme);
    assert url == scheme + [':'] + ("//" + rest);
    UpToStops(scheme, ':', "//" + rest, {':'});
    assert url[|scheme| + 1..] == "//" + rest && ("//" + rest)[2..] == rest;
  }

  lemma {:induction false} UpToWhole(s: string, cut: set<char>)
    requires forall c :: c in s ==> c !in cut
    ensures UpTo(s, cut) == s
  {
    if s == "" {
    } else {
      UpToWhole(s[1..], cut);
    }
  }

  /** An authority and a path put together come apart again. */
  lemma PartsOfRest(authority: string, path: string)
    requires forall c :: c in authority ==> c !in AUTHORITY_ENDS
    requires path != "" && path[0] == '/'
    ensures Authority(authority + path) == authority && PathPart(authority + path) == UpTo(path, {'?', '#'})
  {
    assert authority + path == authority + ['/'] + path[1..];
    UpToStops(authority, '/', path[1..], AUTHORITY_ENDS);
    assert (authority + path)[|authority|..] == path;
  }

  /** What a path has to keep to. */
  predicate PathReads(path: string) {
    && NoControl(UpTo(path, {'#'}))
    && Unescape(UpTo(path, {'?', '#'})).Some?
    && Unescape(Fragment(path)).Some?
  }

  lemma {:induction false} UpToAppend(a: string, b: string, cut: set<char>)
    requires forall c :: c in a ==> c !in cut
    ensures UpTo(a + b, cut) == a + UpTo(b, cut)
  {
    if a == "" {
      assert a + b == b;
    } else {
      assert (a + b)[1..] == a[1..] + b;
      UpToAppend(a[1..], b, cut);
    }
  }

  lemma SameTail(a: string, b: string, c: string)
    ensures a + b == a + c <==> b == c
  {
    assert (a + b)[|a|..] == b && (a + c)[|a|..] == c;
  }

  lemma FragmentAppend(a: string, b: string)
    requires '#' !in a
    ensures Fragment(a + b) == Fragment(b)
  {
    UpToAppend(a, b, {'#'});
    var head := UpTo(b, {'#'});
    assert UpTo(a + b, {'#'}) == a + head;
    SameTail(a, head, b);
    if head != b { assert (a + b)[|a + head| + 1..] == b[|head| + 1..]; }
  }

  lemma NoControlConcat(a: string, b: string)
    ensures NoControl(a + b) <==> NoControl(a) && NoControl(b)
  {
    assert forall c :: c in a + b <==> c in a || c in b;
  }

  lemma NoControlInAuthority(authority: string)
    requires AuthorityAccepted(authority)
    ensures NoControl(authority)
  {
    var host := AfterLast(authority, '@');
    assert authority == authority[..|authority| - |host|] + host;
    forall c | HostChar(c) || UserChar(c) ensures !Control(c) {
    }
    NoControlConcat(authority[..|authority| - |host|], host);
  }

  /** An authority and a path are accepted together exactly when each is. */
  lemma AcceptedParts(authority: string, path: string)
    requires forall c :: c in authority ==> c !in AUTHORITY_ENDS
    requires path != "" && path[0] == '/'
    ensures Accepted(authority + path) <==> AuthorityAccepted(authority) && PathReads(path)
  {
    PartsOfRest(authority, path);
    FragmentAppend(authority, path);
    UpToAppend(authority, path, {'#'});
    NoControlConcat(authority, UpTo(path, {'#'}));
    if AuthorityAccepted(authority) { NoControlInAuthority(authority); }
  }
}

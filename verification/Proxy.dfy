/** The decisions of the auth-injection proxy (internal/proxy/proxy.go) on the calls the
    adapters make (adapters/python/acp_common/__init__.py, upstream_url_for). */
module Proxy {
  import opened Wrappers
  import opened Text
  import opened Sorting
  import opened Urls
  import opened Manifest
  import opened Registry
  import opened Builder

  const EXEC_PREFIX := "/v1/exec/"

  // ----- The URL the adapters call -----

  function UpstreamUrl(base: string, manifestId: string, actionId: string): string {
    WithoutSlashes(base) + UpstreamPath(manifestId, actionId)
  }

  function UpstreamPath(manifestId: string, actionId: string): string {
    EXEC_PREFIX + manifestId + "/" + actionId
  }

  // ----- The proxy's reading of a request -----

  function SplitExecPath(rest: string): Option<(string, string)> {
    var parts := Split(rest, '/');
    if |parts| < 2 || parts[0] == "" || parts[1] == "" then None else Some((parts[0], parts[1]))
  }

  /** The first action with the given id. */
  function ActionWithId(actions: seq<Action>, id: string): (r: Option<Action>)
    ensures r.Some? ==> r.value in actions && r.value.id == id
    ensures r.None? ==> forall a :: a in actions ==> a.id != id
  {
    if actions == [] then None
    else if actions[0].id == id then Some(actions[0])
    else ActionWithId(actions[1..], id)
  }

  method FindAction(mf: ExecutionManifest, id: string) returns (r: Option<Action>)
    ensures r == ActionWithId(mf.actions, id)
  {
    assert mf.actions[0..] == mf.actions;
    for i := 0 to |mf.actions|
      invariant ActionWithId(mf.actions, id) == ActionWithId(mf.actions[i..], id)
    {
      if mf.actions[i].id == id { return Some(mf.actions[i]); }
      assert mf.actions[i..][1..] == mf.actions[i + 1..];
    }
    return None;
  }

  method RequiresApproval(mf: ExecutionManifest, actionId: string) returns (b: bool)
    ensures b == (actionId in mf.boundaries.requireApproval)
  {
    var ids := mf.boundaries.requireApproval;
    for i := 0 to |ids|
      invariant actionId !in ids[..i]
    {
      if ids[i] == actionId { return true; }
    }
    return false;
  }

  predicate HostListed(egress: seq<string>, host: string) {
    exists h :: h in egress && ToLower(h) == UpTo(ToLower(host), {':'})
  }

  method EgressAllowed(mf: ExecutionManifest, host: string) returns (b: bool)
    ensures b == HostListed(mf.boundaries.egress, host)
  {
    var h := UpTo(ToLower(host), {':'});
    FoldedIsLower(host);
    var egress := mf.boundaries.egress;
    for i := 0 to |egress|
      invariant forall k :: 0 <= k < i ==> ToLower(egress[k]) != h
    {
      if ToLower(egress[i]) == ToLower(h) { return true; }
    }
    return false;
  }

  lemma {:induction false} UpToKeepsLower(s: string, cut: set<char>)
    requires ToLower(s) == s
    ensures ToLower(UpTo(s, cut)) == UpTo(s, cut)
  {
    if s == "" || s[0] in cut {
    } else {
      assert s == [s[0]] + s[1..] && ToLower(s) == [LowerChar(s[0])] + ToLower(s[1..]);
      UpToKeepsLower(s[1..], cut);
      assert UpTo(s, cut)[1..] == UpTo(s[1..], cut);
    }
  }

  lemma FoldedIsLower(host: string)
    ensures ToLower(UpTo(ToLower(host), {':'})) == UpTo(ToLower(host), {':'})
  {
    LowerIdempotent(host);
    UpToKeepsLower(ToLower(host), {':'});
  }

  /** The endpoint names a host, and one on the list. */
  predicate Passes(egress: seq<string>, endpoint: string) {
    UrlHost(endpoint) != "" && HostListed(egress, UrlHost(endpoint))
  }

  // ----- ServeHTTP -----

  datatype Decision =
    | NotFound
    | BadPath
    | ManifestUnknown
    | ActionUnknown
    | ApprovalRequired
    | InvalidEndpoint
    | EgressDenied
    | InjectionFailed
    | Forward(action: Action, host: string)

  function Decide(manifests: map<string, ExecutionManifest>, path: string, approved: bool, injects: bool): Decision {
    if !HasPrefix(path, EXEC_PREFIX) then NotFound
    else
      match SplitExecPath(TrimPrefix(path, EXEC_PREFIX))
      case None => BadPath
      case Some((manifestId, actionId)) =>
        if manifestId !in manifests then ManifestUnknown
        else
          var mf := manifests[manifestId];
          match ActionWithId(mf.actions, actionId)
          case None => ActionUnknown
          case Some(action) =>
            var host := UrlHost(action.endpoint);
            if actionId in mf.boundaries.requireApproval && !approved then ApprovalRequired
            else if host == "" then InvalidEndpoint
            else if !HostListed(mf.boundaries.egress, host) then EgressDenied
            else if !injects then InjectionFailed
            else Forward(action, host)
  }

  // ----- What a decision means -----

  /** The path names a manifest and an action of it; what follows the action plays no part. */
  ghost predicate Names(path: string, manifestId: string, actionId: string) {
    manifestId != "" && '/' !in manifestId && actionId != "" && '/' !in actionId &&
    exists tail :: (tail == "" || tail[0] == '/') && path == "/v1/exec/" + (manifestId + ['/'] + (actionId + tail))
  }

  /** The first action under an id. */
  predicate FirstUnder(actions: seq<Action>, id: string, a: Action) {
    exists i :: 0 <= i < |actions| && actions[i] == a && a.id == id && forall j :: 0 <= j < i ==> actions[j].id != id
  }

  /** The list has the host without its port, whatever the case. */
  predicate Admits(egress: seq<string>, host: string) {
    exists h :: h in egress && ToLower(h) == ToLower(UpTo(host, {':'}))
  }

  predicate Gated(mf: ExecutionManifest, a: Action, approved: bool) { a.id in mf.boundaries.requireApproval && !approved }

  /** What a decision about an action found says. */
  predicate DecidedFor(mf: ExecutionManifest, a: Action, approved: bool, injects: bool, d: Decision) {
    var host := UrlHost(a.endpoint);
    match d
    case ApprovalRequired => Gated(mf, a, approved)
    case InvalidEndpoint => !Gated(mf, a, approved) && host == ""
    case EgressDenied => !Gated(mf, a, approved) && host != "" && !Admits(mf.boundaries.egress, host)
    case InjectionFailed => !Gated(mf, a, approved) && host != "" && Admits(mf.boundaries.egress, host) && !injects
    case Forward(b, h) =>
      !Gated(mf, a, approved) && host != "" && Admits(mf.boundaries.egress, host) && injects && b == a && h == host
    case _ => false
  }

  /** What a decision on a path says. */
  ghost predicate Decided(manifests: map<string, ExecutionManifest>, path: string, approved: bool, injects: bool, d: Decision) {
    match d
    case NotFound => !HasPrefix(path, "/v1/exec/")
    case BadPath => HasPrefix(path, "/v1/exec/") && forall m, a :: !Names(path, m, a)
    case ManifestUnknown => exists m, a :: Names(path, m, a) && m !in manifests
    case ActionUnknown => exists m, a :: Names(path, m, a) && m in manifests && forall x :: x in manifests[m].actions ==> x.id != a
    case _ => exists m, a, x :: Names(path, m, a) && m in manifests && FirstUnder(manifests[m].actions, a, x) &&
                                DecidedFor(manifests[m], x, approved, injects, d)
  }

  lemma {:induction false} LowerUpTo(s: string, c: char)
    requires LowerChar(c) == c && !('a' <= c <= 'z')
    ensures ToLower(UpTo(s, {c})) == UpTo(ToLower(s), {c})
  {
    if s == "" || s[0] == c {
    } else {
      LowerUpTo(s[1..], c);
      assert UpTo(s, {c})[1..] == UpTo(s[1..], {c}) && ToLower(s)[1..] == ToLower(s[1..]);
    }
  }

  lemma ListedIsAdmitted(egress: seq<string>, host: string)
    ensures HostListed(egress, host) <==> Admits(egress, host)
  {
    LowerUpTo(host, ':');
  }

  lemma {:induction false} FirstIsFirst(actions: seq<Action>, id: string)
    ensures ActionWithId(actions, id).Some? ==> FirstUnder(actions, id, ActionWithId(actions, id).value)
  {
    if actions == [] {
    } else if actions[0].id == id {
      assert FirstUnder(actions, id, actions[0]);
    } else {
      FirstIsFirst(actions[1..], id);
      if ActionWithId(actions[1..], id).Some? {
        var a := ActionWithId(actions[1..], id).value;
        var i :| 0 <= i < |actions[1..]| && actions[1..][i] == a && a.id == id && forall j :: 0 <= j < i ==> actions[1..][j].id != id;
        assert forall j :: 1 <= j < |actions| ==> actions[j] == actions[1..][j - 1];
        assert actions[i + 1] == a;
      }
    }
  }

  /** A path without a first slash in what follows it starts with that piece. */
  lemma SplitTwo(m: string, a: string, tail: string)
    requires '/' !in m && '/' !in a && (tail == "" || tail[0] == '/')
    ensures var parts := Split(m + ['/'] + (a + tail), '/'); |parts| >= 2 && parts[0] == m && parts[1] == a
  {
    SplitHead(m, a + tail, '/');
    SplitPrefix(a, tail, '/');
    assert a + "" == a;
  }

  lemma TwoOfSplit(rest: string)
    requires |Split(rest, '/')| >= 2
    ensures var parts := Split(rest, '/');
      exists tail :: (tail == "" || tail[0] == '/') && rest == parts[0] + ['/'] + (parts[1] + tail)
  {
    var parts := Split(rest, '/');
    JoinSplit(rest, '/');
    var more := parts[1..];
    assert rest == parts[0] + ['/'] + Join(more, '/');
    if |more| == 1 {
      assert Join(more, '/') == parts[1] + "";
    } else {
      var tail := ['/'] + Join(more[1..], '/');
      assert Join(more, '/') == parts[1] + tail;
    }
  }

  lemma AfterPrefix(path: string, rest: string)
    ensures HasPrefix(path, EXEC_PREFIX) ==> (TrimPrefix(path, EXEC_PREFIX) == rest <==> path == EXEC_PREFIX + rest)
    ensures path == EXEC_PREFIX + rest ==> HasPrefix(path, EXEC_PREFIX)
  {
    if path == EXEC_PREFIX + rest { assert path[|EXEC_PREFIX|..] == rest; }
    if HasPrefix(path, EXEC_PREFIX) { assert path == EXEC_PREFIX + path[|EXEC_PREFIX|..]; }
  }

  /** The proxy reads the two ids a path names. */
  lemma SplitNames(path: string, m: string, a: string)
    requires HasPrefix(path, EXEC_PREFIX)
    ensures SplitExecPath(TrimPrefix(path, EXEC_PREFIX)) == Some((m, a)) <==> Names(path, m, a)
  {
    var rest := TrimPrefix(path, EXEC_PREFIX);
    AfterPrefix(path, rest);
    if SplitExecPath(rest) == Some((m, a)) { TwoOfSplit(rest); }
    if Names(path, m, a) {
      var tail :| (tail == "" || tail[0] == '/') && path == "/v1/exec/" + (m + ['/'] + (a + tail));
      AfterPrefix(path, m + ['/'] + (a + tail));
      SplitTwo(m, a, tail);
    }
  }

  lemma FoundIsDecided(manifests: map<string, ExecutionManifest>, path: string, m: string, a: string, x: Action, approved: bool,
                       injects: bool, d: Decision)
    requires Names(path, m, a) && m in manifests && FirstUnder(manifests[m].actions, a, x)
    requires DecidedFor(manifests[m], x, approved, injects, d)
    ensures Decided(manifests, path, approved, injects, d)
  {
  }

  lemma DecideFound(manifests: map<string, ExecutionManifest>, path: string, m: string, a: string, approved: bool, injects: bool)
    requires HasPrefix(path, EXEC_PREFIX) && SplitExecPath(TrimPrefix(path, EXEC_PREFIX)) == Some((m, a)) && Names(path, m, a)
    ensures Decided(manifests, path, approved, injects, Decide(manifests, path, approved, injects))
  {
    if m in manifests && ActionWithId(manifests[m].actions, a).Some? {
      var mf, x := manifests[m], ActionWithId(manifests[m].actions, a).value;
      FirstIsFirst(mf.actions, a);
      ListedIsAdmitted(mf.boundaries.egress, UrlHost(x.endpoint));
      FoundIsDecided(manifests, path, m, a, x, approved, injects, Decide(manifests, path, approved, injects));
    }
  }

  /** Every decision is for the reason it gives. */
  lemma DecisionsAreRight(manifests: map<string, ExecutionManifest>, path: string, approved: bool, injects: bool)
    ensures Decided(manifests, path, approved, injects, Decide(manifests, path, approved, injects))
  {
    if HasPrefix(path, EXEC_PREFIX) {
      match SplitExecPath(TrimPrefix(path, EXEC_PREFIX))
      case None =>
        forall m, a ensures !Names(path, m, a) { SplitNames(path, m, a); }
      case Some(p) =>
        SplitNames(path, p.0, p.1);
        DecideFound(manifests, path, p.0, p.1, approved, injects);
    }
  }

  class MemoryStore {
    var manifests: map<string, ExecutionManifest>

    constructor ()
      ensures manifests == map[]
    {
      manifests := map[];
    }

    method Put(mf: ExecutionManifest)
      modifies this
      ensures manifests == if mf.manifestId == "" then old(manifests) else old(manifests)[mf.manifestId := mf]
    {
      if mf.manifestId == "" {
        return;
      }
      manifests := manifests[mf.manifestId := mf];
    }

    /** approved is what the approval gate answers, injects whether credentials came. */
    method ServeHTTP(path: string, approved: bool, injects: bool) returns (d: Decision)
      ensures d == Decide(manifests, path, approved, injects) && Decided(manifests, path, approved, injects, d)
    {
      DecisionsAreRight(manifests, path, approved, injects);
      if !HasPrefix(path, EXEC_PREFIX) {
        return NotFound;
      }
      var ids := SplitExecPath(TrimPrefix(path, EXEC_PREFIX));
      if ids.None? {
        return BadPath;
      }
      if ids.value.0 !in manifests {
        return ManifestUnknown;
      }
      var mf := manifests[ids.value.0];
      var found := FindAction(mf, ids.value.1);
      if found.None? {
        return ActionUnknown;
      }
      var gated := RequiresApproval(mf, ids.value.1);
      if gated && !approved {
        return ApprovalRequired;
      }
      var host := UrlHost(found.value.endpoint);
      if host == "" {
        return InvalidEndpoint;
      }
      var allowed := EgressAllowed(mf, host);
      if !allowed {
        return EgressDenied;
      }
      if !injects {
        return InjectionFailed;
      }
      return Forward(found.value, host);
    }
  }

  // ----- What the proxy makes of a built manifest -----

  lemma ActionIdPlain(i: nat)
    ensures ActionId(i) != "" && '/' !in ActionId(i)
  {
    DecimalHasNo(i + 1, '/');
  }

  /** As the proxy reads it, its escapes replaced, the path the adapters write splits back
      to its ids exactly when the manifest id is a non-empty path segment. */
  lemma PathSplitsBack(manifestId: string, i: nat)
    ensures var path := UpstreamPath(manifestId, ActionId(i));
      HasPrefix(path, EXEC_PREFIX) &&
      (SplitExecPath(TrimPrefix(path, EXEC_PREFIX)) == Some((manifestId, ActionId(i))) <==>
       manifestId != "" && '/' !in manifestId)
  {
    var path, aid := UpstreamPath(manifestId, ActionId(i)), ActionId(i);
    assert path == EXEC_PREFIX + (manifestId + ['/'] + aid);
    var rest := TrimPrefix(path, EXEC_PREFIX);
    assert rest == manifestId + ['/'] + aid;
    ActionIdPlain(i);
    if '/' !in manifestId {
      SplitHead(manifestId, aid, '/');
      SplitWhole(aid, '/');
    } else {
      var parts := Split(rest, '/');
      assert '/' !in parts[0];
    }
  }

  /** Characters that end a path or stand for others in it. */
  const PATH_MARKS := {'?', '#', '%'}

  lemma PathIsPlain(manifestId: string, i: nat)
    ensures (forall c :: c in UpstreamPath(manifestId, ActionId(i)) ==> c !in PATH_MARKS) <==>
            (forall c :: c in manifestId ==> c !in PATH_MARKS)
  {
    DecimalHasNo(i + 1, '?');
    DecimalHasNo(i + 1, '#');
    DecimalHasNo(i + 1, '%');
    assert forall c :: c in EXEC_PREFIX ==> c !in PATH_MARKS;
    assert forall c :: c in manifestId ==> c in UpstreamPath(manifestId, ActionId(i));
  }

  /** What is read of a path is as long as the path only without such characters. */
  lemma PathKeptWhole(path: string)
    ensures var read := Unescape(UpTo(path, {'?', '#'}));
      (read.Some? ==> |read.value| <= |path|) &&
      (read.Some? && |read.value| == |path| <==> forall c :: c in path ==> c !in PATH_MARKS) &&
      ((forall c :: c in path ==> c !in PATH_MARKS) ==> read == Some(path))
  {
    var kept := UpTo(path, {'?', '#'});
    UnescapeShrinks(kept);
    if forall c :: c in path ==> c !in PATH_MARKS {
      UpToWhole(path, {'?', '#'});
    } else if kept == path {
      assert '%' in path;
    }
  }

  lemma UpstreamParts(base: string, scheme: string, authority: string, manifestId: string, i: nat)
    requires WithoutSlashes(base) == scheme + ("://" + authority) && IsScheme(scheme)
    requires forall c :: c in authority ==> c !in AUTHORITY_ENDS
    ensures var rest := AfterSlashes(UpstreamUrl(base, manifestId, ActionId(i)));
      rest.Some? && Authority(rest.value) == authority &&
      PathPart(rest.value) == UpTo(UpstreamPath(manifestId, ActionId(i)), {'?', '#'})
  {
    var path := UpstreamPath(manifestId, ActionId(i));
    Regrouped(scheme, authority, path);
    SlashesAfterScheme(scheme, authority + path);
    PathStarts(manifestId, ActionId(i));
    PartsOfRest(authority, path);
  }

  lemma Regrouped(scheme: string, authority: string, path: string)
    ensures (scheme + ("://" + authority)) + path == scheme + ("://" + (authority + path))
  {
  }

  lemma PathStarts(manifestId: string, actionId: string)
    ensures UpstreamPath(manifestId, actionId) != "" && UpstreamPath(manifestId, actionId)[0] == '/'
  {
  }

  /** The URL the adapters call goes to the proxy's own host, and the path read there is
      the one written exactly when the manifest id holds no `?`, `#` or `%`. */
  lemma UrlCarriesPath(base: string, scheme: string, authority: string, manifestId: string, i: nat)
    requires WithoutSlashes(base) == scheme + ("://" + authority) && IsScheme(scheme)
    requires forall c :: c in authority ==> c !in AUTHORITY_ENDS
    ensures var url := UpstreamUrl(base, manifestId, ActionId(i));
      AfterSlashes(url).Some? && Authority(AfterSlashes(url).value) == authority &&
      (UrlPath(url) == Some(UpstreamPath(manifestId, ActionId(i))) <==> forall c :: c in manifestId ==> c !in PATH_MARKS)
  {
    UpstreamParts(base, scheme, authority, manifestId, i);
    PathKeptWhole(UpstreamPath(manifestId, ActionId(i)));
    PathIsPlain(manifestId, i);
  }

  /** A request for this URL is read as one for the action of the manifest. */
  predicate Addresses(url: string, manifestId: string, actionId: string) {
    UrlPath(url).Some? &&
    var path := UrlPath(url).value;
    HasPrefix(path, EXEC_PREFIX) && SplitExecPath(TrimPrefix(path, EXEC_PREFIX)) == Some((manifestId, actionId))
  }

  lemma SplitLength(rest: string)
    requires SplitExecPath(rest).Some?
    ensures var ids := SplitExecPath(rest).value; |rest| >= |ids.0| + 1 + |ids.1| && ids.0 != "" && '/' !in ids.0
  {
    var parts := Split(rest, '/');
    JoinSplit(rest, '/');
    assert parts[1..][0] == parts[1];
    assert |Join(parts[1..], '/')| >= |parts[1]|;
  }

  /** The call the adapters make for an action is read as one for that action exactly
      when the manifest id is a non-empty path segment without marks. */
  lemma CallReadsBack(base: string, scheme: string, authority: string, manifestId: string, i: nat)
    requires WithoutSlashes(base) == scheme + ("://" + authority) && IsScheme(scheme)
    requires forall c :: c in authority ==> c !in AUTHORITY_ENDS
    ensures Addresses(UpstreamUrl(base, manifestId, ActionId(i)), manifestId, ActionId(i)) <==>
            manifestId != "" && forall c :: c in manifestId ==> c != '/' && c !in PATH_MARKS
  {
    var url, path := UpstreamUrl(base, manifestId, ActionId(i)), UpstreamPath(manifestId, ActionId(i));
    UpstreamParts(base, scheme, authority, manifestId, i);
    PathKeptWhole(path);
    PathIsPlain(manifestId, i);
    PathSplitsBack(manifestId, i);
    if Addresses(url, manifestId, ActionId(i)) { SplitLength(TrimPrefix(UrlPath(url).value, EXEC_PREFIX)); }
  }

  lemma BuiltActionFound(tools: seq<Tool>, i: nat)
    requires i < |tools|
    ensures ActionWithId(ActionsOf(tools), ActionId(i)) == Some(ActionAt(tools, i))
  {
    var actions := ActionsOf(tools);
    assert actions[i] in actions;
    var found := ActionWithId(actions, ActionId(i)).value;
    var j :| 0 <= j < |actions| && actions[j] == found;
    ActionIdInjective(i, j);
  }

  lemma ActionIdsDiffer(i: nat, j: nat)
    ensures ActionId(i) == ActionId(j) <==> i == j
  {
    if ActionId(i) == ActionId(j) { ActionIdInjective(i, j); }
  }

  lemma {:induction false} ApprovalListed(tools: seq<Tool>, n: nat, i: nat)
    requires i < |tools| && n <= |tools|
    ensures ActionId(i) in ApprovalsOf(tools, n) <==> i < n && tools[i].requireApproval
  {
    if n == 0 {
    } else {
      ApprovalListed(tools, n - 1, i);
      ActionIdsDiffer(n - 1, i);
    }
  }

  lemma EgressHas(tools: seq<Tool>, i: nat, h: string)
    requires i < |tools| && h in tools[i].egress
    ensures h in SortedSeq(EgressOf(tools))
  {
    assert tools[i] in tools;
    assert h in Elems(SortedSeq(EgressOf(tools)));
  }

  /** A call made by the book is answered for its own tool: gated exactly by that tool's
      flag, and past the gate never lost on the way to its endpoint check. */
  lemma CallReachesItsTool(manifests: map<string, ExecutionManifest>, tools: seq<Tool>, manifestId: string, opts: Options,
                           i: nat, approved: bool, injects: bool)
    requires manifestId != "" && '/' !in manifestId
    requires manifestId in manifests && manifests[manifestId] == ManifestOf(tools, manifestId, opts)
    requires i < |tools|
    ensures var host := UrlHost(tools[i].endpoint);
      Decide(manifests, UpstreamPath(manifestId, ActionId(i)), approved, injects) ==
      if tools[i].requireApproval && !approved then ApprovalRequired
      else if host == "" then InvalidEndpoint
      else if !HostListed(SortedSeq(EgressOf(tools)), host) then EgressDenied
      else if !injects then InjectionFailed
      else Forward(ActionAt(tools, i), host)
  {
    PathSplitsBack(manifestId, i);
    BuiltActionFound(tools, i);
    ApprovalListed(tools, |tools|, i);
  }
}

/** The manifest builder: capability tags become a depends_on graph over action ids
    (internal/builder/builder.go). */
module Builder {
  import opened Text
  import opened Sorting
  import opened Manifest
  import opened Registry

  const PROTOCOL_VERSION := "acp/v1"

  datatype Options = Options(ttl: string, feedbackEndpoint: string, maxTokensPerAction: int, auditLevel: string)

  const DEFAULT_OPTIONS := Options("300s", "/v1/feedback", 15000, "full")

  datatype BuildResult = Built(mf: ExecutionManifest) | NoMatchingTools

  // ----- What a manifest says -----

  function ActionId(i: nat): string { "a" + Decimal(i + 1) }

  lemma ActionIdInjective(i: nat, j: nat)
    requires ActionId(i) == ActionId(j)
    ensures i == j
  {
    assert ActionId(i)[1..] == Decimal(i + 1) && ActionId(j)[1..] == Decimal(j + 1);
    DecimalInjective(i + 1, j + 1);
  }

  predicate HasTag(capabilities: seq<string>, tag: string) {
    exists c :: c in capabilities && ToLower(c) == tag
  }

  predicate ProvidesTag(u: Tool, tag: string) { HasTag(u.capabilities, tag) }

  /** u provides, up to case, a capability t depends on. */
  predicate Needs(t: Tool, u: Tool) {
    exists cap :: cap in t.dependsOnCaps && ProvidesTag(u, ToLower(cap))
  }

  /** The action ids action i waits for. */
  function DependencyIds(tools: seq<Tool>, i: nat): set<string>
    requires i < |tools|
  {
    set j: nat | j < |tools| && j != i && Needs(tools[i], tools[j]) :: ActionId(j)
  }

  function ActionAt(tools: seq<Tool>, i: nat): Action
    requires i < |tools|
  {
    var t := tools[i];
    Action(ActionId(i), t.kind, t.endpoint, t.verb, t.schema, t.auth, t.timeout, SortedSeq(DependencyIds(tools, i)))
  }

  function ActionsOf(tools: seq<Tool>): (r: seq<Action>)
    ensures |r| == |tools| && forall i :: 0 <= i < |r| ==> r[i] == ActionAt(tools, i)
  {
    seq(|tools|, i requires 0 <= i < |tools| => ActionAt(tools, i))
  }

  function EgressOf(tools: seq<Tool>): set<string> {
    set t, h | t in tools && h in t.egress :: h
  }

  /** The ids of the first n actions that need approval, in action order. */
  function ApprovalsOf(tools: seq<Tool>, n: nat): seq<string>
    requires n <= |tools|
  {
    if n == 0 then []
    else ApprovalsOf(tools, n - 1) + if tools[n - 1].requireApproval then [ActionId(n - 1)] else []
  }

  function ManifestOf(tools: seq<Tool>, manifestId: string, opts: Options): ExecutionManifest {
    ExecutionManifest(
      manifestId, PROTOCOL_VERSION, opts.ttl, ActionsOf(tools),
      Boundary(SortedSeq(EgressOf(tools)), opts.maxTokensPerAction, ApprovalsOf(tools, |tools|), opts.auditLevel),
      opts.feedbackEndpoint)
  }

  lemma ActionsDistinct(tools: seq<Tool>)
    ensures DistinctIds(ActionsOf(tools))
  {
    forall i, j | 0 <= i < j < |tools| ensures ActionId(i) != ActionId(j) {
      if ActionId(i) == ActionId(j) { ActionIdInjective(i, j); }
    }
  }

  // ----- What a built manifest carries -----

  /** The tool provides a requested tag. */
  predicate Requested(t: Tool, capabilities: seq<string>) {
    exists c, r :: c in t.capabilities && r in capabilities && Normalize(r) != "" && ToLower(c) == Normalize(r)
  }

  /** The registered tools that provide a requested tag, in the order of their ids. */
  ghost predicate AreRequested(tools: map<string, Tool>, capabilities: seq<string>, ts: seq<Tool>) {
    && (forall i, j :: 0 <= i < j < |ts| ==> ts[i].id != ts[j].id && StrLe(ts[i].id, ts[j].id))
    && (forall t :: t in ts <==> t.id in tools && tools[t.id] == t && Requested(t, capabilities))
  }

  predicate Carries(a: Action, t: Tool) {
    && a.kind == t.kind && a.endpoint == t.endpoint && a.verb == t.verb
    && a.schema == t.schema && a.auth == t.auth && a.timeout == t.timeout
  }

  /** u provides a tag t depends on, whatever the case. */
  predicate Feeds(u: Tool, t: Tool) {
    exists c, d :: c in u.capabilities && d in t.dependsOnCaps && ToLower(c) == ToLower(d)
  }

  /** The i-th action waits for exactly the other actions whose tools feed its own. */
  ghost predicate WaitsRight(ts: seq<Tool>, i: nat, deps: seq<string>)
    requires i < |ts|
  {
    StrictlySorted(deps) && forall x :: x in deps <==> exists j: nat :: j < |ts| && j != i && x == ActionId(j) && Feeds(ts[j], ts[i])
  }

  ghost predicate ActionsFor(ts: seq<Tool>, actions: seq<Action>) {
    |actions| == |ts| &&
    forall i {:trigger actions[i]} :: 0 <= i < |ts| ==>
      actions[i].id == "a" + Decimal(i + 1) && Carries(actions[i], ts[i]) && WaitsRight(ts, i, actions[i].dependsOn)
  }

  ghost predicate HostsOf(ts: seq<Tool>, egress: seq<string>) {
    StrictlySorted(egress) && forall h :: h in egress <==> exists t :: t in ts && h in t.egress
  }

  /** The ids of exactly the actions whose tools ask for approval, in order. */
  ghost predicate ApprovalsFor(ts: seq<Tool>, ids: seq<string>) {
    && (forall x :: x in ids <==> exists i: nat :: i < |ts| && x == ActionId(i) && ts[i].requireApproval)
    && InIdOrder(ids)
  }

  ghost predicate InIdOrder(ids: seq<string>) {
    forall k, l, i: nat, j: nat :: 0 <= k < l < |ids| && ids[k] == ActionId(i) && ids[l] == ActionId(j) ==> i < j
  }

  ghost predicate BoundaryFor(ts: seq<Tool>, opts: Options, b: Boundary) {
    HostsOf(ts, b.egress) && ApprovalsFor(ts, b.requireApproval) &&
    b.maxTokensPerAction == opts.maxTokensPerAction && b.auditLevel == opts.auditLevel
  }

  /** The manifest of a request: one action per registered tool that provides a requested
      tag, each with what its own tool says. */
  ghost predicate Describes(mf: ExecutionManifest, ts: seq<Tool>, newId: string, opts: Options) {
    && ActionsFor(ts, mf.actions) && BoundaryFor(ts, opts, mf.boundaries)
    && mf.manifestId == newId && mf.version == PROTOCOL_VERSION && mf.ttl == opts.ttl
    && mf.feedbackEndpoint == opts.feedbackEndpoint
  }

  lemma MatchingAreRequested(tools: map<string, Tool>, capabilities: seq<string>)
    requires WellKeyed(tools)
    ensures AreRequested(tools, capabilities, Matching(tools, capabilities))
  {
    var ids, ts := MatchIds(tools, capabilities), Matching(tools, capabilities);
    ToolsAtMembers(tools, ids);
    forall t ensures t in ts <==> t.id in tools && tools[t.id] == t && Requested(t, capabilities) {
      ProvidesIsRequested(t, capabilities);
      if t.id in ids && tools[t.id] == t { var i := ToolsAtHas(tools, ids, t.id); }
    }
  }

  lemma ProvidesIsRequested(t: Tool, capabilities: seq<string>)
    ensures Provides(t, Wanted(capabilities)) <==> Requested(t, capabilities)
  {
  }

  lemma NeedsIsFeeds(t: Tool, u: Tool)
    ensures Needs(t, u) <==> Feeds(u, t)
  {
    if Needs(t, u) {
      var cap :| cap in t.dependsOnCaps && ProvidesTag(u, ToLower(cap));
      var c :| c in u.capabilities && ToLower(c) == ToLower(cap);
    }
    if Feeds(u, t) {
      var c, d :| c in u.capabilities && d in t.dependsOnCaps && ToLower(c) == ToLower(d);
      assert ProvidesTag(u, ToLower(d));
    }
  }

  lemma DependenciesWaitRight(ts: seq<Tool>, i: nat)
    requires i < |ts|
    ensures WaitsRight(ts, i, SortedSeq(DependencyIds(ts, i)))
  {
    var deps := SortedSeq(DependencyIds(ts, i));
    forall j: nat | j < |ts| ensures Needs(ts[i], ts[j]) <==> Feeds(ts[j], ts[i]) { NeedsIsFeeds(ts[i], ts[j]); }
    assert forall x :: x in deps <==> x in Elems(deps);
  }

  lemma ActionsAreFor(ts: seq<Tool>)
    ensures ActionsFor(ts, ActionsOf(ts))
  {
    forall i: nat | i < |ts| ensures WaitsRight(ts, i, ActionsOf(ts)[i].dependsOn) { DependenciesWaitRight(ts, i); }
  }

  lemma HostsAreOf(ts: seq<Tool>)
    ensures HostsOf(ts, SortedSeq(EgressOf(ts)))
  {
    var egress := SortedSeq(EgressOf(ts));
    assert forall h :: h in egress <==> h in Elems(egress);
  }

  /** The ids of those of the first n actions whose tools ask for approval. */
  ghost predicate ApprovedUpTo(ts: seq<Tool>, n: nat, ids: seq<string>)
    requires n <= |ts|
  {
    forall x :: x in ids <==> exists i: nat :: i < n && x == ActionId(i) && ts[i].requireApproval
  }

  lemma ApprovedStep(ts: seq<Tool>, n: nat, ids: seq<string>)
    requires n < |ts| && ApprovedUpTo(ts, n, ids)
    ensures ApprovedUpTo(ts, n + 1, ids + if ts[n].requireApproval then [ActionId(n)] else [])
  {
    var more := ids + if ts[n].requireApproval then [ActionId(n)] else [];
    forall x ensures x in more <==> exists i: nat :: i < n + 1 && x == ActionId(i) && ts[i].requireApproval {
      assert x in more <==> x in ids || (ts[n].requireApproval && x == ActionId(n));
    }
  }

  lemma {:induction false} ApprovalsAre(ts: seq<Tool>, n: nat)
    requires n <= |ts|
    ensures ApprovedUpTo(ts, n, ApprovalsOf(ts, n)) && InIdOrder(ApprovalsOf(ts, n))
  {
    if n == 0 {
    } else {
      var before := ApprovalsOf(ts, n - 1);
      ApprovalsAre(ts, n - 1);
      ApprovedStep(ts, n - 1, before);
      assert before + [] == before;
      if ts[n - 1].requireApproval { OrderExtends(before, n - 1); }
    }
  }

  lemma OrderExtends(ids: seq<string>, n: nat)
    requires InIdOrder(ids) && forall x :: x in ids ==> exists i: nat :: i < n && x == ActionId(i)
    ensures InIdOrder(ids + [ActionId(n)])
  {
    var more := ids + [ActionId(n)];
    forall k, l, i: nat, j: nat | 0 <= k < l < |more| && more[k] == ActionId(i) && more[l] == ActionId(j) ensures i < j {
      if l == |ids| {
        ActionIdInjective(j, n);
        assert ids[k] in ids && more[k] == ids[k];
        var h: nat :| h < n && ids[k] == ActionId(h);
        ActionIdInjective(h, i);
      }
    }
  }

  lemma ApprovalsAreFor(ts: seq<Tool>)
    ensures ApprovalsFor(ts, ApprovalsOf(ts, |ts|))
  {
    ApprovalsAre(ts, |ts|);
  }

  /** What is built is the manifest of the request. */
  lemma ManifestDescribes(ts: seq<Tool>, newId: string, opts: Options)
    ensures Describes(ManifestOf(ts, newId, opts), ts, newId, opts)
  {
    ActionsAreFor(ts);
    HostsAreOf(ts);
    ApprovalsAreFor(ts);
  }

  /** What a request is answered with, in terms of the registered tools. */
  ghost predicate Answers(tools: map<string, Tool>, capabilities: seq<string>, newId: string, opts: Options, r: BuildResult) {
    match r
    case NoMatchingTools => forall k :: k in tools ==> !Requested(tools[k], capabilities)
    case Built(mf) => exists ts :: ts != [] && AreRequested(tools, capabilities, ts) && Describes(mf, ts, newId, opts)
  }

  lemma BuiltAnswers(tools: map<string, Tool>, capabilities: seq<string>, newId: string, opts: Options)
    requires WellKeyed(tools)
    ensures var ts := Matching(tools, capabilities);
      Answers(tools, capabilities, newId, opts, if ts == [] then NoMatchingTools else Built(ManifestOf(ts, newId, opts)))
  {
    var ts := Matching(tools, capabilities);
    MatchingAreRequested(tools, capabilities);
    ManifestDescribes(ts, newId, opts);
    if ts == [] {
      forall k | k in tools ensures !Requested(tools[k], capabilities) { assert tools[k] !in ts; }
    }
  }

  // ----- The builder -----

  /** availableCaps after the first n tools: tag to the ids of the actions providing it. */
  ghost predicate Indexes(available: map<string, seq<string>>, tools: seq<Tool>, n: nat)
    requires n <= |tools|
  {
    forall tag, id :: id in Under(available, tag) <==> exists j: nat :: j < n && id == ActionId(j) && ProvidesTag(tools[j], tag)
  }

  function Under(available: map<string, seq<string>>, tag: string): seq<string> {
    if tag in available then available[tag] else []
  }

  class Builder {
    const tools: MemoryRegistry
    const opts: Options

    constructor (tools: MemoryRegistry, opts: Options)
      ensures this.tools == tools
      ensures this.opts.ttl == if opts.ttl == "" then DEFAULT_OPTIONS.ttl else opts.ttl
      ensures this.opts.feedbackEndpoint == if opts.feedbackEndpoint == "" then DEFAULT_OPTIONS.feedbackEndpoint else opts.feedbackEndpoint
      ensures this.opts.maxTokensPerAction == if opts.maxTokensPerAction == 0 then DEFAULT_OPTIONS.maxTokensPerAction else opts.maxTokensPerAction
      ensures this.opts.auditLevel == if opts.auditLevel == "" then DEFAULT_OPTIONS.auditLevel else opts.auditLevel
    {
      this.tools := tools;
      this.opts := Options(
        if opts.ttl == "" then DEFAULT_OPTIONS.ttl else opts.ttl,
        if opts.feedbackEndpoint == "" then DEFAULT_OPTIONS.feedbackEndpoint else opts.feedbackEndpoint,
        if opts.maxTokensPerAction == 0 then DEFAULT_OPTIONS.maxTokensPerAction else opts.maxTokensPerAction,
        if opts.auditLevel == "" then DEFAULT_OPTIONS.auditLevel else opts.auditLevel);
    }

    /** Builds the manifest of a capability request; newId is what the id source mints. */
    method Build(capabilities: seq<string>, newId: string) returns (r: BuildResult)
      requires tools.Valid()
      ensures var matched := Matching(tools.tools, capabilities);
        r == if matched == [] then NoMatchingTools else Built(ManifestOf(matched, newId, opts))
      ensures Answers(tools.tools, capabilities, newId, opts, r)
    {
      BuiltAnswers(tools.tools, capabilities, newId, opts);
      var matched := tools.Lookup(capabilities);
      if |matched| == 0 {
        return NoMatchingTools;
      }
      matched := Resort(tools.tools, MatchIds(tools.tools, capabilities), matched);

      var actions, egress, approvals := Assemble(matched);
      return Built(ExecutionManifest(
        newId, PROTOCOL_VERSION, opts.ttl, actions,
        Boundary(egress, opts.maxTokensPerAction, approvals, opts.auditLevel),
        opts.feedbackEndpoint));
    }
  }

  /** The loop over the matched tools: actions, egress hosts and approval list. */
  method Assemble(tools: seq<Tool>) returns (actions: seq<Action>, egress: seq<string>, approvals: seq<string>)
    ensures actions == ActionsOf(tools)
    ensures egress == SortedSeq(EgressOf(tools))
    ensures approvals == ApprovalsOf(tools, |tools|)
  {
    var available := IndexCapabilities(tools);
    actions, approvals := [], [];
    var egressSet: set<string> := {};
    for i := 0 to |tools|
      invariant |actions| == i && forall k :: 0 <= k < i ==> actions[k] == ActionAt(tools, k)
      invariant egressSet == EgressOf(tools[..i])
      invariant approvals == ApprovalsOf(tools, i)
    {
      var t := tools[i];
      var dep := DependsOnFor(ActionId(i), t, available, tools, i);
      actions := actions + [Action(ActionId(i), t.kind, t.endpoint, t.verb, t.schema, t.auth, t.timeout, dep)];
      egressSet := egressSet + set h | h in t.egress;
      EgressStep(tools, i);
      if t.requireApproval {
        approvals := approvals + [ActionId(i)];
      }
    }
    assert tools[..|tools|] == tools;
    egress := SortSet(egressSet);
  }

  lemma EgressStep(tools: seq<Tool>, i: nat)
    requires i < |tools|
    ensures EgressOf(tools[..i + 1]) == EgressOf(tools[..i]) + set h | h in tools[i].egress
  {
    assert tools[..i + 1] == tools[..i] + [tools[i]];
  }

  /** The builder sorts again what the registry has sorted already. */
  method Resort(ghost all: map<string, Tool>, ghost ids: set<string>, s: seq<Tool>) returns (r: seq<Tool>)
    requires WellKeyed(all) && ids <= all.Keys && s == ToolsAt(all, ids)
    ensures r == s
  {
    ghost var keys := SortedSeq(ids);
    assert Collected(all, keys, s) by {
      assert forall k :: k in keys ==> k in Elems(keys);
    }
    r := SortById(all, keys, s);
  }

  method IndexCapabilities(tools: seq<Tool>) returns (available: map<string, seq<string>>)
    ensures Indexes(available, tools, |tools|)
  {
    available := map[];
    for i := 0 to |tools|
      invariant Indexes(available, tools, i)
    {
      available := IndexTool(tools, i, available);
    }
  }

  method IndexTool(tools: seq<Tool>, i: nat, available0: map<string, seq<string>>) returns (available: map<string, seq<string>>)
    requires i < |tools| && Indexes(available0, tools, i)
    ensures Indexes(available, tools, i + 1)
  {
    available := available0;
    var caps := tools[i].capabilities;
    for k := 0 to |caps|
      invariant forall tag, id :: id in Under(available, tag) <==>
        id in Under(available0, tag) || (id == ActionId(i) && HasTag(caps[..k], tag))
    {
      var c := ToLower(caps[k]);
      HasTagStep(caps, k);
      available := available[c := Under(available, c) + [ActionId(i)]];
    }
    assert caps[..|caps|] == caps;
  }

  lemma HasTagStep(caps: seq<string>, k: nat)
    requires k < |caps|
    ensures forall tag :: HasTag(caps[..k + 1], tag) <==> HasTag(caps[..k], tag) || ToLower(caps[k]) == tag
  {
    assert caps[..k + 1] == caps[..k] + [caps[k]];
  }

  /** id stands under one of the tags. */
  predicate UnderAny(available: map<string, seq<string>>, tags: seq<string>, id: string) {
    exists tag :: tag in tags && id in Under(available, ToLower(tag))
  }

  lemma UnderAnyStep(available: map<string, seq<string>>, tags: seq<string>, k: nat)
    requires k < |tags|
    ensures forall id :: UnderAny(available, tags[..k + 1], id) <==>
      UnderAny(available, tags[..k], id) || id in Under(available, ToLower(tags[k]))
  {
    assert tags[..k + 1] == tags[..k] + [tags[k]];
  }

  method DependsOnFor(selfId: string, t: Tool, available: map<string, seq<string>>, ghost tools: seq<Tool>, ghost i: nat)
    returns (out: seq<string>)
    requires i < |tools| && t == tools[i] && selfId == ActionId(i) && Indexes(available, tools, |tools|)
    ensures out == SortedSeq(DependencyIds(tools, i))
  {
    var seen: set<string> := {};
    var tags := t.dependsOnCaps;
    for k := 0 to |tags|
      invariant forall id :: id in seen <==> id != selfId && UnderAny(available, tags[..k], id)
    {
      var ids := Under(available, ToLower(tags[k]));
      UnderAnyStep(available, tags, k);
      seen := seen + set id | id in ids && id != selfId;
    }
    assert tags[..|tags|] == tags;
    SeenIsDependencies(seen, available, tools, i);
    out := SortSet(seen);
  }

  lemma SeenIsDependencies(seen: set<string>, available: map<string, seq<string>>, tools: seq<Tool>, i: nat)
    requires i < |tools| && Indexes(available, tools, |tools|)
    requires forall id :: id in seen <==> id != ActionId(i) && UnderAny(available, tools[i].dependsOnCaps, id)
    ensures seen == DependencyIds(tools, i)
  {
    forall id | id in seen ensures id in DependencyIds(tools, i) {
      var cap :| cap in tools[i].dependsOnCaps && id in Under(available, ToLower(cap));
      var j: nat :| j < |tools| && id == ActionId(j) && ProvidesTag(tools[j], ToLower(cap));
    }
    forall id | id in DependencyIds(tools, i) ensures id in seen {
      var j: nat :| j < |tools| && j != i && Needs(tools[i], tools[j]) && id == ActionId(j);
      var cap :| cap in tools[i].dependsOnCaps && ProvidesTag(tools[j], ToLower(cap));
      assert id in Under(available, ToLower(cap));
      if id == ActionId(i) { ActionIdInjective(i, j); }
    }
  }
}

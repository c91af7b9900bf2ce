/** The demo registry (internal/registry/seed.go) and why its manifests always order. */
module Seed {
  import opened Text
  import opened Graphs
  import opened Registry
  import opened Builder
  import opened Pipeline

  const DB_QUERY := Tool(
    "db.query", "http", "grpc://db-proxy.svc:50051/query", "POST", map["sql" := "string", "limit" := "int?"],
    "pre-injected", "30s", ["sql", "database"], ["db-proxy.svc"], [], false)

  const TEMPLATE_RENDER := Tool(
    "template.render", "http", "http://template-svc.svc:8080/render", "POST",
    map["template_id" := "string", "data" := "json"],
    "pre-injected", "10s", ["template"], ["template-svc.svc"], ["sql"], false)

  const EMAIL_SEND := Tool(
    "email.send", "http", "https://email-gw.svc:443/send", "POST",
    map["to" := "string[]", "subject" := "string", "body" := "string", "attachment_ref" := "string?"],
    "pre-injected", "15s", ["email"], ["email-gw.svc"], ["template", "sql"], true)

  const SLACK_SEND := Tool(
    "slack.send_message", "http", "https://slack-gw.svc:443/messages", "POST",
    map["channel" := "string", "text" := "string"],
    "pre-injected", "10s", ["messaging", "slack"], ["slack-gw.svc"], [], false)

  const AUDIT_LOG := Tool(
    "audit.log_event", "http", "http://audit.svc:8080/events", "POST",
    map["actor" := "string", "action" := "string", "payload" := "json"],
    "pre-injected", "5s", ["audit"], ["audit.svc"], [], false)

  const SEED_TOOLS := [DB_QUERY, TEMPLATE_RENDER, EMAIL_SEND, SLACK_SEND, AUDIT_LOG]

  /** Tools keyed by id, a later tool replacing an earlier one. */
  function Keyed(tools: seq<Tool>): (m: map<string, Tool>)
    ensures forall k :: k in m ==> m[k].id == k && m[k] in tools
  {
    if tools == [] then map[]
    else
      var last := tools[|tools| - 1];
      Keyed(tools[..|tools| - 1])[last.id := last]
  }

  function RankOf(id: string): int {
    if id == "email.send" then 2 else if id == "template.render" then 1 else 0
  }

  predicate LowerWord(s: string) { s != "" && forall i :: 0 <= i < |s| ==> 'a' <= s[i] <= 'z' }

  /** What the table says of each tool: its tags are lower-case words, queries provide
      "sql" and rank lowest, templates come next and wait for "sql" only, emails wait
      for both. */
  predicate FitsRanking(t: Tool) {
    && t.id != "" && !IsSpace(t.id[0]) && !IsSpace(t.id[|t.id| - 1]) && t.capabilities != []
    && (forall c :: c in t.capabilities ==> LowerWord(c))
    && ("sql" in t.capabilities ==> RankOf(t.id) == 0)
    && ("template" in t.capabilities ==> RankOf(t.id) == 1)
    && (forall c :: c in t.dependsOnCaps ==>
         LowerWord(c) && ((c == "sql" && RankOf(t.id) >= 1) || (c == "template" && RankOf(t.id) >= 2)))
  }

  lemma QueryFits() ensures FitsRanking(DB_QUERY) {}

  lemma RenderFits() ensures FitsRanking(TEMPLATE_RENDER) {}

  lemma EmailFits() ensures FitsRanking(EMAIL_SEND) {}

  lemma SlackFits() ensures FitsRanking(SLACK_SEND) {}

  lemma AuditFits() ensures FitsRanking(AUDIT_LOG) {}

  lemma SeedToolsFit()
    ensures forall t :: t in SEED_TOOLS ==> FitsRanking(t)
  {
    QueryFits();
    RenderFits();
    EmailFits();
    SlackFits();
    AuditFits();
  }

  method Seed(r: MemoryRegistry) returns (result: RegisterResult)
    requires r.Valid()
    modifies r
    ensures r.Valid() && result == Registered
    ensures r.tools == old(r.tools) + Keyed(SEED_TOOLS)
  {
    var tools := SEED_TOOLS;
    SeedToolsFit();
    forall t | t in tools ensures TrimSpace(t.id) != "" && t.capabilities != [] {
      FitsRegisters(t);
    }
    result := RegisterEach(r, tools);
  }

  lemma FitsRegisters(t: Tool)
    requires FitsRanking(t)
    ensures TrimSpace(t.id) != "" && t.capabilities != []
  {
    TrimSpaceTrims(t.id);
  }

  lemma KeyedStep(m: map<string, Tool>, tools: seq<Tool>, i: nat)
    requires i < |tools|
    ensures m + Keyed(tools[..i + 1]) == (m + Keyed(tools[..i]))[tools[i].id := tools[i]]
  {
    assert tools[..i + 1][..i] == tools[..i];
    assert Keyed(tools[..i + 1]) == Keyed(tools[..i])[tools[i].id := tools[i]];
  }

  method RegisterEach(r: MemoryRegistry, tools: seq<Tool>) returns (result: RegisterResult)
    requires r.Valid() && forall t :: t in tools ==> TrimSpace(t.id) != "" && t.capabilities != []
    modifies r
    ensures r.Valid() && result == Registered
    ensures r.tools == old(r.tools) + Keyed(tools)
  {
    for i := 0 to |tools|
      invariant r.Valid() && r.tools == old(r.tools) + Keyed(tools[..i])
    {
      KeyedStep(old(r.tools), tools, i);
      assert tools[i] in tools;
      result := r.Register(tools[i]);
      if result != Registered {
        return;
      }
    }
    assert tools[..|tools|] == tools;
    result := Registered;
  }

  lemma {:induction false} LowerWordIsLower(s: string)
    requires forall i :: 0 <= i < |s| ==> 'a' <= s[i] <= 'z'
    ensures ToLower(s) == s
  {
  }

  /** Dependencies between such tools go strictly down. */
  lemma SeedNeeds(t: Tool, u: Tool)
    requires FitsRanking(t) && FitsRanking(u) && Needs(t, u)
    ensures RankOf(u.id) < RankOf(t.id)
  {
    var cap :| cap in t.dependsOnCaps && ProvidesTag(u, ToLower(cap));
    var c :| c in u.capabilities && ToLower(c) == ToLower(cap);
    LowerWordIsLower(cap);
    LowerWordIsLower(c);
  }

  /** Every capability request against the demo registry yields an orderable manifest. */
  lemma SeededAlwaysSchedules(capabilities: seq<string>)
    ensures !HasCycle(ManifestEdges(Matching(Keyed(SEED_TOOLS), capabilities)))
  {
    SeedToolsFit();
    RankedToolsSchedule(SEED_TOOLS, capabilities);
  }

  lemma RankedToolsSchedule(listed: seq<Tool>, capabilities: seq<string>)
    requires forall t :: t in listed ==> FitsRanking(t)
    ensures !HasCycle(ManifestEdges(Matching(Keyed(listed), capabilities)))
  {
    var rank := map x | x in Keyed(listed) :: RankOf(x);
    KeyedIsWellKeyed(listed);
    KeyedRanksDown(listed, rank);
    RankedRegistrySchedules(Keyed(listed), rank, capabilities);
  }

  lemma KeyedIsWellKeyed(listed: seq<Tool>)
    requires forall t :: t in listed ==> FitsRanking(t)
    ensures WellKeyed(Keyed(listed))
  {
    var tools := Keyed(listed);
    forall k | k in tools ensures TrimSpace(k) != "" && tools[k].capabilities != [] {
      FitsRegisters(tools[k]);
    }
  }

  lemma KeyedRanksDown(listed: seq<Tool>, rank: map<string, int>)
    requires forall t :: t in listed ==> FitsRanking(t)
    requires rank == map x | x in Keyed(listed) :: RankOf(x)
    ensures RanksDown(Keyed(listed), rank)
  {
    var tools := Keyed(listed);
    forall x, y | x in tools && y in tools && x != y && Needs(tools[x], tools[y]) ensures rank[y] < rank[x] {
      SeedNeeds(tools[x], tools[y]);
    }
  }
}

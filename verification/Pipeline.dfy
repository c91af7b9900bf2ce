/** From the registry to the schedule: which registries always yield a manifest the
    adapters can order. */
module Pipeline {
  import opened Text
  import opened Sorting
  import opened Graphs
  import opened Manifest
  import opened Registry
  import opened Builder
  import Scheduler

  /** A tool some request can match: one of its tags is non-empty and has no outer
      white space, so that normalising a request can produce it. */
  predicate Matchable(t: Tool) {
    exists c :: c in t.capabilities && c != "" && Trimmed(c)
  }

  /** Which tool depends on which other, over everything requests can match. */
  ghost function ToolEdges(tools: map<string, Tool>): Edges {
    set x, y | x in tools && y in tools && x != y && Matchable(tools[x]) && Matchable(tools[y]) && Needs(tools[x], tools[y])
      :: (x, y)
  }

  ghost function ManifestEdges(matched: seq<Tool>): Edges {
    Scheduler.DependsOn(ById(ActionsOf(matched)))
  }

  /** The manifest's graph is the tool-level relation between the matched tools. */
  lemma ManifestEdgesExact(matched: seq<Tool>, i: nat, j: nat)
    requires i < |matched| && j < |matched|
    ensures (ActionId(i), ActionId(j)) in ManifestEdges(matched) <==> i != j && Needs(matched[i], matched[j])
  {
    var actions := ActionsOf(matched);
    ActionsDistinct(matched);
    ByIdDistinct(actions, i);
    ByIdDistinct(actions, j);
    assert actions[i].id == ActionId(i) && actions[j].id == ActionId(j);
    var deps := actions[i].dependsOn;
    assert ActionId(j) in deps <==> ActionId(j) in DependencyIds(matched, i) by {
      assert ActionId(j) in deps <==> ActionId(j) in Elems(deps);
    }
    if ActionId(j) in DependencyIds(matched, i) {
      var k: nat :| k < |matched| && k != i && Needs(matched[i], matched[k]) && ActionId(k) == ActionId(j);
      ActionIdInjective(j, k);
    }
    assert actions[i] in actions && actions[j] in actions;
  }

  /** Every edge of a manifest's graph joins two of its actions. */
  lemma ManifestEdgeEnds(matched: seq<Tool>, e: (string, string)) returns (i: nat, j: nat)
    requires e in ManifestEdges(matched)
    ensures i < |matched| && j < |matched| && e == (ActionId(i), ActionId(j))
  {
    var actions := ActionsOf(matched);
    var byId := ById(actions);
    assert byId[e.0] in actions && byId[e.1] in actions;
    i :| 0 <= i < |actions| && actions[i] == byId[e.0];
    j :| 0 <= j < |actions| && actions[j] == byId[e.1];
  }

  lemma MatchingTools(tools: map<string, Tool>, capabilities: seq<string>)
    requires WellKeyed(tools)
    ensures var m := Matching(tools, capabilities);
      && DistinctToolIds(m)
      && (forall i :: 0 <= i < |m| ==> m[i].id in tools && m[i] == tools[m[i].id] && Matchable(m[i]))
  {
    var ids := MatchIds(tools, capabilities);
    ToolsAtMembers(tools, ids);
    ToolsAtDistinct(tools, ids);
    var m := Matching(tools, capabilities);
    forall i | 0 <= i < |m| ensures Matchable(m[i]) {
      ProviderIsMatchable(m[i], capabilities);
    }
  }

  lemma ProviderIsMatchable(t: Tool, capabilities: seq<string>)
    requires Provides(t, Wanted(capabilities))
    ensures Matchable(t)
  {
    var c :| c in t.capabilities && ToLower(c) in Wanted(capabilities);
    var s :| s in capabilities && Normalize(s) != "" && Normalize(s) == ToLower(c);
    NormalizeNormal(s);
    LowerKeepsTrimmed(c);
  }

  /** The place of an action id. */
  ghost function IndexOf(n: nat, id: string): (i: nat)
    requires exists i: nat :: i < n && ActionId(i) == id
    ensures i < n && ActionId(i) == id
  {
    var i: nat :| i < n && ActionId(i) == id;
    i
  }

  /** Two actions are joined by an edge exactly when their tools are. */
  lemma EdgeIsToolEdge(tools: map<string, Tool>, capabilities: seq<string>, i: nat, j: nat)
    requires WellKeyed(tools)
    requires i < |Matching(tools, capabilities)| && j < |Matching(tools, capabilities)|
    ensures var m := Matching(tools, capabilities);
      (ActionId(i), ActionId(j)) in ManifestEdges(m) <==> (m[i].id, m[j].id) in ToolEdges(tools)
  {
    var m := Matching(tools, capabilities);
    MatchingTools(tools, capabilities);
    ManifestEdgesExact(m, i, j);
    assert i != j ==> m[i].id != m[j].id;
  }

  /** The id of the tool behind each action id. */
  ghost function ToolOf(m: seq<Tool>): (f: map<string, string>)
    ensures forall i: nat :: i < |m| ==> ActionId(i) in f && f[ActionId(i)] == m[i].id
  {
    var ids := set i: nat | i < |m| :: ActionId(i);
    var f := map id | id in ids :: m[IndexOf(|m|, id)].id;
    assert forall i: nat :: i < |m| ==> f[ActionId(i)] == m[i].id by {
      forall i: nat | i < |m| ensures f[ActionId(i)] == m[i].id {
        ActionIdInjective(i, IndexOf(|m|, ActionId(i)));
      }
    }
    f
  }

  /** A manifest with a cycle comes from a cycle between tools. */
  lemma ManifestCycleIsToolCycle(tools: map<string, Tool>, capabilities: seq<string>)
    requires WellKeyed(tools) && HasCycle(ManifestEdges(Matching(tools, capabilities)))
    ensures HasCycle(ToolEdges(tools))
  {
    var m := Matching(tools, capabilities);
    var f := ToolOf(m);
    forall e | e in ManifestEdges(m) ensures e.0 in f && e.1 in f && (f[e.0], f[e.1]) in ToolEdges(tools) {
      var i, j := ManifestEdgeEnds(m, e);
      EdgeIsToolEdge(tools, capabilities, i, j);
    }
    MapCycle(ManifestEdges(m), ToolEdges(tools), f);
  }

  /** Asks for everything. */
  ghost function AllTags(tools: map<string, Tool>, ids: set<string>): (tags: seq<string>)
    requires ids <= tools.Keys
    ensures forall k, c :: k in ids && c in tools[k].capabilities ==> c in tags
  {
    if ids == {} then []
    else
      var k :| k in ids;
      tools[k].capabilities + AllTags(tools, ids - {k})
  }

  lemma AllTagsMatch(tools: map<string, Tool>, k: string)
    requires k in tools && Matchable(tools[k])
    ensures k in MatchIds(tools, AllTags(tools, tools.Keys))
  {
    var c :| c in tools[k].capabilities && c != "" && Trimmed(c);
    NormalizeNormal(c);
    assert ToLower(c) in Wanted(AllTags(tools, tools.Keys));
  }

  /** A cycle between tools shows in the manifest that holds them all. */
  lemma ToolCycleIsManifestCycle(tools: map<string, Tool>)
    requires WellKeyed(tools) && HasCycle(ToolEdges(tools))
    ensures HasCycle(ManifestEdges(Matching(tools, AllTags(tools, tools.Keys))))
  {
    var tags := AllTags(tools, tools.Keys);
    var m, ids := Matching(tools, tags), MatchIds(tools, tags);
    var f := map k | k in ids :: ActionId(PlaceOf(tools, ids, k));
    forall e | e in ToolEdges(tools) ensures e.0 in f && e.1 in f && (f[e.0], f[e.1]) in ManifestEdges(m) {
      AllTagsMatch(tools, e.0);
      AllTagsMatch(tools, e.1);
      ManifestEdgesExact(m, PlaceOf(tools, ids, e.0), PlaceOf(tools, ids, e.1));
    }
    MapCycle(ToolEdges(tools), ManifestEdges(m), f);
  }

  ghost function PlaceOf(tools: map<string, Tool>, ids: set<string>, k: string): (i: nat)
    requires ids <= tools.Keys && WellKeyed(tools) && k in ids
    ensures i < |ToolsAt(tools, ids)| && ToolsAt(tools, ids)[i] == tools[k]
  {
    assert exists i: nat :: i < |ToolsAt(tools, ids)| && ToolsAt(tools, ids)[i] == tools[k] by {
      var i := ToolsAtHas(tools, ids, k);
    }
    var i: nat :| i < |ToolsAt(tools, ids)| && ToolsAt(tools, ids)[i] == tools[k];
    i
  }

  /** The adapters can order the manifest of every capability request exactly when no
      tools depend on each other in a circle. */
  lemma EveryRequestSchedules(tools: map<string, Tool>)
    requires WellKeyed(tools)
    ensures !HasCycle(ToolEdges(tools)) <==>
            forall capabilities: seq<string> :: !HasCycle(ManifestEdges(Matching(tools, capabilities)))
  {
    if HasCycle(ToolEdges(tools)) {
      ToolCycleIsManifestCycle(tools);
    } else {
      forall capabilities: seq<string> ensures !HasCycle(ManifestEdges(Matching(tools, capabilities))) {
        if HasCycle(ManifestEdges(Matching(tools, capabilities))) { ManifestCycleIsToolCycle(tools, capabilities); }
      }
    }
  }

  ghost predicate RanksDown(tools: map<string, Tool>, rank: map<string, int>) {
    && rank.Keys == tools.Keys
    && forall x, y {:trigger Needs(tools[x], tools[y])} ::
         x in tools && y in tools && x != y && Needs(tools[x], tools[y]) ==> rank[y] < rank[x]
  }

  /** A ranking with dependencies going strictly down is enough. */
  lemma RankedRegistrySchedules(tools: map<string, Tool>, rank: map<string, int>, capabilities: seq<string>)
    requires WellKeyed(tools) && RanksDown(tools, rank)
    ensures !HasCycle(ManifestEdges(Matching(tools, capabilities)))
  {
    RankedIsAcyclic(ToolEdges(tools), rank);
    EveryRequestSchedules(tools);
  }
}

/** The LangGraph adapter: a manifest becomes a graph of action nodes between START
    and END (adapters/python/acp_langgraph/__init__.py). */
module LangGraph {
  import opened Sorting
  import opened Graphs
  import opened Manifest
  import opened Scheduler

  const START := "__start__"
  const END := "__end__"

  function NodeName(id: string): string { "acp_" + id }

  lemma NodeNameInjective(x: string, y: string)
    requires NodeName(x) == NodeName(y)
    ensures x == y
  {
    assert NodeName(x)[4..] == x && NodeName(y)[4..] == y;
  }

  lemma NodeNameIsNotReserved(x: string)
    ensures NodeName(x) != START && NodeName(x) != END
  {
    assert NodeName(x)[0] == 'a';
  }

  // ----- The edges the adapter adds -----

  function IdSet(actions: seq<Action>): set<string> { set a | a in actions :: a.id }

  function NodeNames(ids: set<string>): set<string> { set x | x in ids :: NodeName(x) }

  /** From each in-manifest dependency to its dependent. */
  function DependencyEdges(actions: seq<Action>, ids: set<string>): Edges {
    set a, d | a in actions && d in a.dependsOn && d in ids :: (NodeName(d), NodeName(a.id))
  }

  /** From START to every action that names no dependency at all. */
  function StartEdges(ordered: seq<Action>): Edges {
    set a | a in ordered && a.dependsOn == [] :: (START, NodeName(a.id))
  }

  predicate HasDependents(actions: seq<Action>, id: string) {
    exists a :: a in actions && id in a.dependsOn
  }

  /** To END from every action nothing in the manifest depends on. */
  function EndEdges(actions: seq<Action>, ids: set<string>): Edges {
    set x | x in ids && !HasDependents(actions, x) :: (NodeName(x), END)
  }

  function GraphEdges(actions: seq<Action>, ordered: seq<Action>): Edges {
    DependencyEdges(actions, IdSet(actions)) + StartEdges(ordered) + EndEdges(actions, IdSet(actions))
  }

  class StateGraph {
    var nodes: set<string>
    var edges: Edges

    constructor ()
      ensures nodes == {} && edges == {}
    {
      nodes, edges := {}, {};
    }

    /** LangGraph refuses a second node of the same name. */
    method AddNode(name: string)
      requires name !in nodes
      modifies this`nodes
      ensures nodes == old(nodes) + {name}
    {
      nodes := nodes + {name};
    }

    method AddEdge(from: string, to: string)
      modifies this`edges
      ensures edges == old(edges) + {(from, to)}
    {
      edges := edges + {(from, to)};
    }
  }

  method BuildGraph(actions: seq<Action>) returns (r: Outcome, graph: StateGraph)
    ensures r.CycleError? <==> HasCycle(DependsOn(ById(actions)))
    ensures fresh(graph)
    ensures r.Ordered? ==> IsSchedule(ById(actions), r.order)
    ensures r.Ordered? ==> graph.nodes == NodeNames(IdSet(actions)) && graph.edges == GraphEdges(actions, r.order)
    ensures r.Ordered? ==> Wired(actions, graph.edges)
  {
    graph := new StateGraph();
    r := TopologicalOrder(actions);
    if r.Ordered? {
      Wire(graph, actions, r.order);
      EdgesExactly(actions, r.order);
    }
  }

  /** Adds the nodes and edges of an ordered manifest to an empty graph. */
  method Wire(graph: StateGraph, actions: seq<Action>, ordered: seq<Action>)
    requires graph.nodes == {} && graph.edges == {} && IsSchedule(ById(actions), ordered)
    modifies graph
    ensures graph.nodes == NodeNames(IdSet(actions)) && graph.edges == GraphEdges(actions, ordered)
  {
    KeysAreIds(actions);
    AddNodes(graph, ordered);
    var ids := IdSet(actions);
    var withDependents := AddDependencyEdges(graph, actions, ids);
    AddStartEdges(graph, ordered);
    AddEndEdges(graph, actions, ids, withDependents);
  }

  lemma KeysAreIds(actions: seq<Action>)
    ensures ById(actions).Keys == IdSet(actions)
  {
    forall x ensures x in ById(actions) <==> x in IdSet(actions) {
      if x in ById(actions) { assert ById(actions)[x] in actions; }
    }
  }

  method AddNodes(graph: StateGraph, ordered: seq<Action>)
    requires graph.nodes == {} && NoDup(Ids(ordered))
    modifies graph`nodes
    ensures graph.nodes == NodeNames(Elems(Ids(ordered)))
  {
    ghost var q := Ids(ordered);
    for i := 0 to |ordered|
      invariant graph.nodes == NodeNames(Elems(q[..i]))
    {
      assert q[..i + 1] == q[..i] + [q[i]];
      ElemsAppend(q[..i], q[i]);
      NodeNamesStep(Elems(q[..i]), q[i]);
      graph.AddNode(NodeName(ordered[i].id));
    }
    assert q[..|ordered|] == q;
  }

  lemma NodeNamesStep(ids: set<string>, x: string)
    ensures NodeNames(ids + {x}) == NodeNames(ids) + {NodeName(x)}
    ensures x !in ids ==> NodeName(x) !in NodeNames(ids)
  {
    forall y | y in ids && NodeName(y) == NodeName(x) ensures y == x { NodeNameInjective(x, y); }
  }

  /** Adds the dependency edges and reports who has dependents. */
  method AddDependencyEdges(graph: StateGraph, actions: seq<Action>, ids: set<string>) returns (withDependents: set<string>)
    modifies graph`edges
    ensures graph.edges == old(graph.edges) + DependencyEdges(actions, ids)
    ensures forall x :: x in ids ==> (x in withDependents <==> HasDependents(actions, x))
  {
    withDependents := {};
    for i := 0 to |actions|
      invariant graph.edges == old(graph.edges) + DependencyEdges(actions[..i], ids)
      invariant forall x :: x in withDependents <==> x in ids && HasDependents(actions[..i], x)
    {
      var a := actions[i];
      assert actions[..i + 1] == actions[..i] + [a];
      label before:
      ghost var had := withDependents;
      for j := 0 to |a.dependsOn|
        invariant graph.edges == old@before(graph.edges) +
                                 set d | d in a.dependsOn[..j] && d in ids :: (NodeName(d), NodeName(a.id))
        invariant forall x :: x in withDependents <==> x in had || (x in ids && x in a.dependsOn[..j])
      {
        var dep := a.dependsOn[j];
        assert a.dependsOn[..j + 1] == a.dependsOn[..j] + [dep];
        if dep in ids {
          graph.AddEdge(NodeName(dep), NodeName(a.id));
          withDependents := withDependents + {dep};
        }
      }
      assert a.dependsOn[..|a.dependsOn|] == a.dependsOn;
      DependencyEdgesStep(actions[..i], a, ids);
    }
    assert actions[..|actions|] == actions;
  }

  lemma DependencyEdgesStep(init: seq<Action>, a: Action, ids: set<string>)
    ensures DependencyEdges(init + [a], ids) ==
            DependencyEdges(init, ids) + set d | d in a.dependsOn && d in ids :: (NodeName(d), NodeName(a.id))
    ensures forall x :: HasDependents(init + [a], x) <==> HasDependents(init, x) || x in a.dependsOn
  {
  }

  method AddStartEdges(graph: StateGraph, ordered: seq<Action>)
    modifies graph`edges
    ensures graph.edges == old(graph.edges) + StartEdges(ordered)
  {
    for i := 0 to |ordered|
      invariant graph.edges == old(graph.edges) + StartEdges(ordered[..i])
    {
      assert ordered[..i + 1] == ordered[..i] + [ordered[i]];
      if ordered[i].dependsOn == [] {
        graph.AddEdge(START, NodeName(ordered[i].id));
      }
    }
    assert ordered[..|ordered|] == ordered;
  }

  method AddEndEdges(graph: StateGraph, ghost actions: seq<Action>, ids: set<string>, withDependents: set<string>)
    requires forall x :: x in ids ==> (x in withDependents <==> HasDependents(actions, x))
    modifies graph`edges
    ensures graph.edges == old(graph.edges) + EndEdges(actions, ids)
  {
    var rest := ids;
    while rest != {}
      invariant rest <= ids
      invariant graph.edges == old(graph.edges) + EndEdges(actions, ids - rest)
      decreases rest
    {
      var x :| x in rest;
      if x !in withDependents {
        graph.AddEdge(NodeName(x), END);
      }
      EndEdgesStep(actions, ids - rest, x);
      rest := rest - {x};
      assert ids - rest == (ids - (rest + {x})) + {x};
    }
  }

  lemma EndEdgesStep(actions: seq<Action>, ids: set<string>, x: string)
    ensures EndEdges(actions, ids + {x}) ==
            EndEdges(actions, ids) + if HasDependents(actions, x) then {} else {(NodeName(x), END)}
  {
  }

  // ----- The edges, read off the manifest -----

  predicate Listed(actions: seq<Action>, id: string) { exists a :: a in actions && a.id == id }

  /** Some action called y names x as a dependency. */
  predicate WaitsFor(actions: seq<Action>, y: string, x: string) { exists a :: a in actions && a.id == y && x in a.dependsOn }

  /** START leads to exactly the actions that name no dependency. */
  ghost predicate StartsFree(actions: seq<Action>, edges: Edges) {
    forall x: string :: (START, NodeName(x)) in edges <==> x in ById(actions) && ById(actions)[x].dependsOn == []
  }

  /** The actions nobody names lead to END. */
  ghost predicate EndsLast(actions: seq<Action>, edges: Edges) {
    forall x: string :: (NodeName(x), END) in edges <==> Listed(actions, x) && forall a :: a in actions ==> x !in a.dependsOn
  }

  /** Each action leads to those that name it. */
  ghost predicate FollowsNeeds(actions: seq<Action>, edges: Edges) {
    forall x: string, y: string :: (NodeName(x), NodeName(y)) in edges <==> Listed(actions, x) && WaitsFor(actions, y, x)
  }

  predicate BetweenNodes(actions: seq<Action>, e: (string, string)) {
    && (e.0 == START || exists a :: a in actions && e.0 == NodeName(a.id))
    && (e.1 == END || exists a :: a in actions && e.1 == NodeName(a.id))
    && e != (START, END)
  }

  /** And that is all. */
  ghost predicate Wired(actions: seq<Action>, edges: Edges) {
    && StartsFree(actions, edges) && EndsLast(actions, edges) && FollowsNeeds(actions, edges)
    && forall e :: e in edges ==> BetweenNodes(actions, e)
  }

  lemma IdSetIsListed(actions: seq<Action>, x: string)
    ensures x in IdSet(actions) <==> Listed(actions, x)
  {
  }

  lemma StartEdge(actions: seq<Action>, ordered: seq<Action>, x: string)
    requires IsSchedule(ById(actions), ordered)
    ensures (START, NodeName(x)) in GraphEdges(actions, ordered) <==> x in ById(actions) && ById(actions)[x].dependsOn == []
  {
    var byId, q, e := ById(actions), Ids(ordered), (START, NodeName(x));
    assert e !in DependencyEdges(actions, IdSet(actions)) && e !in EndEdges(actions, IdSet(actions)) by {
      forall y: string ensures NodeName(y) != START { NodeNameIsNotReserved(y); }
    }
    if e in StartEdges(ordered) {
      var a :| a in ordered && a.dependsOn == [] && e == (START, NodeName(a.id));
      NodeNameInjective(a.id, x);
      var i :| 0 <= i < |ordered| && ordered[i] == a;
      assert q[i] == x;
    }
    if x in byId && byId[x].dependsOn == [] {
      assert x in Elems(q);
      var i :| 0 <= i < |q| && q[i] == x;
      assert ordered[i] in ordered;
    }
  }

  lemma EndEdge(actions: seq<Action>, ordered: seq<Action>, x: string)
    ensures (NodeName(x), END) in GraphEdges(actions, ordered) <==>
            Listed(actions, x) && forall a :: a in actions ==> x !in a.dependsOn
  {
    var e := (NodeName(x), END);
    IdSetIsListed(actions, x);
    assert e !in DependencyEdges(actions, IdSet(actions)) && e !in StartEdges(ordered) by {
      forall y: string ensures NodeName(y) != START && NodeName(y) != END { NodeNameIsNotReserved(y); }
    }
    if e in EndEdges(actions, IdSet(actions)) {
      var y :| y in IdSet(actions) && !HasDependents(actions, y) && e == (NodeName(y), END);
      NodeNameInjective(x, y);
    }
  }

  lemma DependencyEdge(actions: seq<Action>, ordered: seq<Action>, x: string, y: string)
    ensures (NodeName(x), NodeName(y)) in GraphEdges(actions, ordered) <==> Listed(actions, x) && WaitsFor(actions, y, x)
  {
    var e := (NodeName(x), NodeName(y));
    IdSetIsListed(actions, x);
    NodeNameIsNotReserved(x);
    NodeNameIsNotReserved(y);
    if e in DependencyEdges(actions, IdSet(actions)) {
      var a, d :| a in actions && d in a.dependsOn && d in IdSet(actions) && e == (NodeName(d), NodeName(a.id));
      NodeNameInjective(d, x);
      NodeNameInjective(a.id, y);
    }
  }

  lemma NoOtherEdge(actions: seq<Action>, ordered: seq<Action>, e: (string, string))
    requires IsSchedule(ById(actions), ordered) && e in GraphEdges(actions, ordered)
    ensures BetweenNodes(actions, e)
  {
    if e in StartEdges(ordered) {
      var a :| a in ordered && e == (START, NodeName(a.id));
      var i :| 0 <= i < |ordered| && ordered[i] == a;
      assert Ids(ordered)[i] in ById(actions);
      NodeNameIsNotReserved(a.id);
    } else if e in EndEdges(actions, IdSet(actions)) {
      var x :| x in IdSet(actions) && e == (NodeName(x), END);
      NodeNameIsNotReserved(x);
    } else {
      var a, d :| a in actions && d in a.dependsOn && d in IdSet(actions) && e == (NodeName(d), NodeName(a.id));
      NodeNameIsNotReserved(d);
    }
  }

  lemma EdgesExactly(actions: seq<Action>, ordered: seq<Action>)
    requires IsSchedule(ById(actions), ordered)
    ensures Wired(actions, GraphEdges(actions, ordered))
  {
    var edges := GraphEdges(actions, ordered);
    assert StartsFree(actions, edges) by { forall x: string { StartEdge(actions, ordered, x); } }
    assert EndsLast(actions, edges) by { forall x: string { EndEdge(actions, ordered, x); } }
    assert FollowsNeeds(actions, edges) by { forall x: string, y: string { DependencyEdge(actions, ordered, x, y); } }
    forall e | e in edges ensures BetweenNodes(actions, e) { NoOtherEdge(actions, ordered, e); }
  }

  /** The node is that of a manifest action a waits for. */
  predicate IsNeeded(actions: seq<Action>, a: Action, node: string) {
    exists d :: d in a.dependsOn && Listed(actions, d) && node == NodeName(d)
  }

  lemma KeptUnderItsId(actions: seq<Action>, a: Action)
    requires DistinctIds(actions) && a in actions
    ensures ById(actions)[a.id] == a
  {
    var i :| 0 <= i < |actions| && actions[i] == a;
    ByIdDistinct(actions, i);
  }

  lemma EdgeIntoWaiting(actions: seq<Action>, ordered: seq<Action>, from: string, a: Action)
    requires DistinctIds(actions) && IsSchedule(ById(actions), ordered) && a in actions && a.dependsOn != []
    requires (from, NodeName(a.id)) in GraphEdges(actions, ordered)
    ensures from != START && IsNeeded(actions, a, from)
  {
    KeptUnderItsId(actions, a);
    StartEdge(actions, ordered, a.id);
    NoOtherEdge(actions, ordered, (from, NodeName(a.id)));
    var c :| c in actions && from == NodeName(c.id);
    NodeNameIsNotReserved(c.id);
    DependencyEdge(actions, ordered, c.id, a.id);
    var b :| b in actions && b.id == a.id && c.id in b.dependsOn;
    SameIdSameAction(actions, a, b);
  }

  /** Every way from START to an action that names dependencies of the manifest comes to it
      straight from one of them: none starts alongside what it waits for. */
  lemma ComesFromDependency(actions: seq<Action>, ordered: seq<Action>, p: seq<string>, a: Action)
    requires DistinctIds(actions) && IsSchedule(ById(actions), ordered) && a in actions && a.dependsOn != []
    requires Walk(GraphEdges(actions, ordered), p) && p[0] == START && p[|p| - 1] == NodeName(a.id)
    ensures |p| >= 3 && IsNeeded(actions, a, p[|p| - 2])
  {
    NodeNameIsNotReserved(a.id);
    var from := LastEdge(GraphEdges(actions, ordered), p);
    EdgeIntoWaiting(actions, ordered, from, a);
  }

  lemma LastEdge(edges: Edges, p: seq<string>) returns (from: string)
    requires Walk(edges, p) && p[0] != p[|p| - 1]
    ensures |p| >= 2 && p[|p| - 2] == from && (from, p[|p| - 1]) in edges
    ensures from != p[0] ==> |p| >= 3
  {
    from := p[|p| - 2];
    assert HasEdge(edges, p, |p| - 2);
  }

  // ----- Every action runs between START and END -----

  ghost predicate Reaches(edges: Edges, from: string, to: string) {
    exists p :: Walk(edges, p) && p[0] == from && p[|p| - 1] == to
  }

  lemma ReachesEdge(edges: Edges, x: string, y: string)
    requires (x, y) in edges
    ensures Reaches(edges, x, y)
  {
    assert Walk(edges, [x, y]);
  }

  lemma ReachesJoin(edges: Edges, x: string, y: string, z: string)
    requires Reaches(edges, x, y) && Reaches(edges, y, z)
    ensures Reaches(edges, x, z)
  {
    var p :| Walk(edges, p) && p[0] == x && p[|p| - 1] == y;
    var q :| Walk(edges, q) && q[0] == y && q[|q| - 1] == z;
    var w := p + q[1..];
    forall i | 0 <= i < |w| - 1 ensures HasEdge(edges, w, i) {
      if i < |p| - 1 { assert HasEdge(edges, p, i); } else { assert HasEdge(edges, q, i - (|p| - 1)); }
    }
    assert Walk(edges, w);
  }

  /** The guard of `if not a.depends_on`, read as a condition on the manifest: nobody
      waits only for actions the manifest does not have. */
  predicate Anchored(actions: seq<Action>) {
    forall a :: a in actions ==> a.dependsOn == [] || exists d :: d in a.dependsOn && d in IdSet(actions)
  }

  /** The exact condition: every action lies between START and END iff no action names
      dependencies without naming a single one in the manifest. */
  lemma EveryActionRuns(actions: seq<Action>, ordered: seq<Action>)
    requires DistinctIds(actions) && IsSchedule(ById(actions), ordered)
    ensures Anchored(actions) <==>
            forall a :: a in actions ==> Reaches(GraphEdges(actions, ordered), START, NodeName(a.id))
    ensures forall a :: a in actions ==> Reaches(GraphEdges(actions, ordered), NodeName(a.id), END)
  {
    ScheduleIsPermutation(actions, ordered);
    assert forall a :: a in actions <==> a in ordered by {
      forall a ensures a in actions <==> a in ordered { assert a in multiset(actions) <==> a in multiset(ordered); }
    }
    forall a | a in actions ensures Reaches(GraphEdges(actions, ordered), NodeName(a.id), END) {
      var i :| 0 <= i < |ordered| && ordered[i] == a;
      ReachesEnd(actions, ordered, i);
    }
    if Anchored(actions) {
      forall a | a in actions ensures Reaches(GraphEdges(actions, ordered), START, NodeName(a.id)) {
        var i :| 0 <= i < |ordered| && ordered[i] == a;
        ReachedFromStart(actions, ordered, i);
      }
    } else {
      var a :| a in actions && a.dependsOn != [] && forall d :: d in a.dependsOn ==> d !in IdSet(actions);
      NoWayIn(actions, ordered, a);
    }
  }

  lemma {:induction false} ReachedFromStart(actions: seq<Action>, ordered: seq<Action>, i: nat)
    requires IsSchedule(ById(actions), ordered) && Anchored(actions) && i < |ordered|
    requires forall a :: a in actions <==> a in ordered
    ensures Reaches(GraphEdges(actions, ordered), START, NodeName(ordered[i].id))
    decreases i
  {
    var edges, a := GraphEdges(actions, ordered), ordered[i];
    if a.dependsOn == [] {
      assert (START, NodeName(a.id)) in StartEdges(ordered);
      ReachesEdge(edges, START, NodeName(a.id));
    } else {
      assert a in actions;
      var d :| d in a.dependsOn && d in IdSet(actions);
      var j := PlaceOf(actions, ordered, d);
      DependenciesFirst(ById(actions), ordered, j, i);
      ReachedFromStart(actions, ordered, j);
      assert (NodeName(d), NodeName(a.id)) in DependencyEdges(actions, IdSet(actions));
      ReachesEdge(edges, NodeName(d), NodeName(a.id));
      ReachesJoin(edges, START, NodeName(d), NodeName(a.id));
    }
  }

  lemma {:induction false} ReachesEnd(actions: seq<Action>, ordered: seq<Action>, i: nat)
    requires IsSchedule(ById(actions), ordered) && i < |ordered|
    requires forall a :: a in actions <==> a in ordered
    ensures Reaches(GraphEdges(actions, ordered), NodeName(ordered[i].id), END)
    decreases |ordered| - i
  {
    var edges, x := GraphEdges(actions, ordered), ordered[i].id;
    assert x in IdSet(actions) by { assert ordered[i] in actions; }
    if !HasDependents(actions, x) {
      assert (NodeName(x), END) in EndEdges(actions, IdSet(actions));
      ReachesEdge(edges, NodeName(x), END);
    } else {
      var a :| a in actions && x in a.dependsOn;
      assert a in ordered;
      var j :| 0 <= j < |ordered| && ordered[j] == a;
      var byId := ById(actions);
      assert Ids(ordered)[i] in byId && Ids(ordered)[j] in byId;
      assert (a.id, x) in DependsOn(byId);
      DependenciesFirst(byId, ordered, i, j);
      ReachesEnd(actions, ordered, j);
      assert (NodeName(x), NodeName(a.id)) in DependencyEdges(actions, IdSet(actions));
      ReachesEdge(edges, NodeName(x), NodeName(a.id));
      ReachesJoin(edges, NodeName(x), NodeName(a.id), END);
    }
  }

  lemma PlaceOf(actions: seq<Action>, ordered: seq<Action>, d: string) returns (j: nat)
    requires IsSchedule(ById(actions), ordered) && d in IdSet(actions)
    ensures j < |ordered| && ordered[j].id == d
    ensures forall a :: a in ordered && d in a.dependsOn ==> (a.id, d) in DependsOn(ById(actions))
  {
    var byId, q := ById(actions), Ids(ordered);
    assert d in Elems(q);
    j :| 0 <= j < |q| && q[j] == d;
    forall a | a in ordered && d in a.dependsOn ensures (a.id, d) in DependsOn(byId) {
      var i :| 0 <= i < |ordered| && ordered[i] == a;
      assert q[i] in byId;
    }
  }

  /** An action that waits only for outsiders has no edge coming in. */
  lemma NoWayIn(actions: seq<Action>, ordered: seq<Action>, a: Action)
    requires DistinctIds(actions) && a in actions && a.dependsOn != []
    requires forall d :: d in a.dependsOn ==> d !in IdSet(actions)
    requires forall b :: b in actions <==> b in ordered
    ensures !Reaches(GraphEdges(actions, ordered), START, NodeName(a.id))
  {
    var edges := GraphEdges(actions, ordered);
    NodeNameIsNotReserved(a.id);
    forall e | e in edges ensures e.1 != NodeName(a.id) {
      if e in StartEdges(ordered) {
        var b :| b in ordered && b.dependsOn == [] && e == (START, NodeName(b.id));
        SameIdSameAction(actions, a, b);
      } else if e in DependencyEdges(actions, IdSet(actions)) {
        var b, d :| b in actions && d in b.dependsOn && d in IdSet(actions) && e == (NodeName(d), NodeName(b.id));
        SameIdSameAction(actions, a, b);
      }
    }
    forall p | Walk(edges, p) && p[0] == START ensures p[|p| - 1] != NodeName(a.id) {
      if |p| >= 2 { assert HasEdge(edges, p, |p| - 2); }
    }
  }

  lemma SameIdSameAction(actions: seq<Action>, a: Action, b: Action)
    requires DistinctIds(actions) && a in actions && b in actions
    ensures NodeName(a.id) == NodeName(b.id) ==> a == b
  {
    if NodeName(a.id) == NodeName(b.id) { NodeNameInjective(a.id, b.id); }
  }
}

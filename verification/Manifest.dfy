/** The wire types shared by the builder, the proxy and the adapters. */
module Manifest {

  datatype Action = Action(
    id: string,
    kind: string,
    endpoint: string,
    verb: string,
    schema: map<string, string>,
    auth: string,
    timeout: string,
    dependsOn: seq<string>)

  datatype Boundary = Boundary(
    egress: seq<string>,
    maxTokensPerAction: int,
    requireApproval: seq<string>,
    auditLevel: string)

  datatype ExecutionManifest = ExecutionManifest(
    manifestId: string,
    version: string,
    ttl: string,
    actions: seq<Action>,
    boundaries: Boundary,
    feedbackEndpoint: string)

  /** A list of actions keyed by id; a repeated id keeps its last action. */
  function ById(actions: seq<Action>): (m: map<string, Action>)
    ensures forall x :: x in m ==> m[x].id == x && m[x] in actions
    ensures forall a :: a in actions ==> a.id in m
  {
    if actions == [] then map[]
    else
      var last := actions[|actions| - 1];
      ById(actions[..|actions| - 1])[last.id := last]
  }

  predicate DistinctIds(actions: seq<Action>) {
    forall i, j :: 0 <= i < j < |actions| ==> actions[i].id != actions[j].id
  }

  lemma ByIdDistinct(actions: seq<Action>, i: nat)
    requires DistinctIds(actions) && i < |actions|
    ensures ById(actions)[actions[i].id] == actions[i]
  {
    var kept := ById(actions)[actions[i].id];
    assert kept in actions;
    var j :| 0 <= j < |actions| && actions[j] == kept;
  }

  /** With distinct ids, the keyed view does not depend on the listing order. */
  lemma ByIdOfPermutation(a: seq<Action>, b: seq<Action>)
    requires DistinctIds(a) && DistinctIds(b) && multiset(a) == multiset(b)
    ensures ById(a) == ById(b)
  {
    var m, n := ById(a), ById(b);
    forall x ensures x in m <==> x in n
    {
      assert x in m ==> m[x] in multiset(b);
      assert x in n ==> n[x] in multiset(a);
    }
    forall x | x in m ensures m[x] == n[x] {
      assert m[x] in multiset(b);
      var i :| 0 <= i < |b| && b[i] == m[x];
      ByIdDistinct(b, i);
    }
  }
}

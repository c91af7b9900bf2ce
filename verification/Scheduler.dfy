/** The execution order the Python adapters give a manifest: Kahn's algorithm with a
    FIFO queue (adapters/python/acp_common/__init__.py). */
module Scheduler {
  import opened Text
  import opened Sorting
  import opened Graphs
  import opened Manifest

  datatype Outcome = Ordered(order: seq<Action>) | CycleError(ids: seq<string>)

  // ----- What an execution order is -----

  /** An edge (x, d) says that x depends on d and both belong to the manifest. */
  ghost function DependsOn(byId: map<string, Action>): Edges {
    set x, d | x in byId && d in byId[x].dependsOn && d in byId :: (x, d)
  }

  function Ids(actions: seq<Action>): (r: seq<string>)
    ensures |r| == |actions| && forall i :: 0 <= i < |r| ==> r[i] == actions[i].id
  {
    seq(|actions|, i requires 0 <= i < |actions| => actions[i].id)
  }

  /** The position in q of the last of the given dependencies, -1 if q holds none. */
  function LastDep(q: seq<string>, deps: seq<string>): (p: int)
    ensures -1 <= p < |q|
    ensures p >= 0 ==> q[p] in deps
    ensures forall i :: p < i < |q| ==> q[i] !in deps
  {
    if q == [] then -1
    else if q[|q| - 1] in deps then |q| - 1
    else LastDep(q[..|q| - 1], deps)
  }

  /** First in, first out: whoever's last dependency finishes earlier goes first, and
      those released together go by id. */
  ghost predicate ReleasedBefore(byId: map<string, Action>, q: seq<string>, x: string, y: string)
    requires x in byId && y in byId
  {
    var rx, ry := LastDep(q, byId[x].dependsOn), LastDep(q, byId[y].dependsOn);
    rx < ry || (rx == ry && x != y && StrLe(x, y))
  }

  ghost predicate InReleaseOrder(byId: map<string, Action>, q: seq<string>) {
    && (forall i :: 0 <= i < |q| ==> q[i] in byId)
    && (forall i, j :: 0 <= i < j < |q| ==> ReleasedBefore(byId, q, q[i], q[j]))
  }

  /** The order lists every action once, each after all its dependencies, and breaks
      ties first in, first out. `ScheduleUnique` shows this pins the order down. */
  ghost predicate IsSchedule(byId: map<string, Action>, order: seq<Action>) {
    var q := Ids(order);
    && NoDup(q) && Elems(q) == byId.Keys
    && (forall i :: 0 <= i < |order| ==> order[i] == byId[q[i]])
    && (forall i :: 0 <= i < |q| ==> LastDep(q, byId[q[i]].dependsOn) < i)
    && InReleaseOrder(byId, q)
  }

  // ----- Counting open dependencies -----

  /** How many entries of deps, repeats included, are in `open`. */
  function OpenCount(deps: seq<string>, open: set<string>): nat {
    if deps == [] then 0
    else OpenCount(deps[..|deps| - 1], open) + if deps[|deps| - 1] in open then 1 else 0
  }

  lemma {:induction false} OpenCountZero(deps: seq<string>, open: set<string>)
    ensures OpenCount(deps, open) == 0 <==> forall d :: d in deps ==> d !in open
  {
    if deps == [] {
    } else {
      var n := |deps| - 1;
      OpenCountZero(deps[..n], open);
      assert deps == deps[..n] + [deps[n]];
    }
  }

  lemma OpenCountStep(deps: seq<string>, j: nat, open: set<string>)
    requires j < |deps|
    ensures multiset(deps[..j + 1]) == multiset(deps[..j]) + multiset{deps[j]}
    ensures OpenCount(deps[..j + 1], open) == OpenCount(deps[..j], open) + if deps[j] in open then 1 else 0
  {
    assert deps[..j + 1] == deps[..j] + [deps[j]] && deps[..j + 1][..j] == deps[..j];
  }

  lemma {:induction false} OpenCountClose(deps: seq<string>, open: set<string>, d: string)
    requires d in open
    ensures OpenCount(deps, open) == OpenCount(deps, open - {d}) + multiset(deps)[d]
  {
    if deps == [] {
    } else {
      var n := |deps| - 1;
      OpenCountClose(deps[..n], open, d);
      assert deps == deps[..n] + [deps[n]];
    }
  }

  // ----- The queue -----

  /** All in-manifest dependencies of x are done. */
  ghost predicate Released(byId: map<string, Action>, x: string, done: seq<string>)
    requires x in byId
  {
    forall d :: d in byId[x].dependsOn && d in byId ==> d in done
  }

  /** q holds exactly the actions with nothing left to wait for. */
  ghost predicate HoldsReleased(byId: map<string, Action>, q: seq<string>, done: seq<string>) {
    && (forall x :: x in q ==> x in byId && Released(byId, x, done))
    && (forall x {:trigger Released(byId, x, done)} :: x in byId && Released(byId, x, done) ==> x in q)
  }

  /** q is everything enqueued by the time `done` had been dequeued. */
  ghost predicate QueueOf(byId: map<string, Action>, q: seq<string>, done: seq<string>) {
    && NoDup(q)
    && InReleaseOrder(byId, q)
    && HoldsReleased(byId, q, done)
    && (forall j :: 0 <= j < |q| ==> LastDep(q, byId[q[j]].dependsOn) < j && LastDep(q, byId[q[j]].dependsOn) < |done|)
  }

  /** done was dequeued, ready waits. */
  ghost predicate QueueInv(byId: map<string, Action>, done: seq<string>, ready: seq<string>) {
    QueueOf(byId, done + ready, done)
  }

  lemma QueueInit(byId: map<string, Action>, ready: seq<string>)
    requires StrictlySorted(ready)
    requires HoldsReleased(byId, ready, [])
    ensures QueueInv(byId, [], ready)
  {
    forall j | 0 <= j < |ready| ensures LastDep(ready, byId[ready[j]].dependsOn) == -1 {
      assert ready[j] in ready;
      forall d | d in byId[ready[j]].dependsOn ensures d !in ready { assert d in ready ==> d in byId; }
    }
    forall i, j | 0 <= i < j < |ready| ensures ReleasedBefore(byId, ready, ready[i], ready[j]) {
      var ri, rj := LastDep(ready, byId[ready[i]].dependsOn), LastDep(ready, byId[ready[j]].dependsOn);
      assert ri == rj == -1;
    }
    assert QueueOf(byId, ready, []);
    assert [] + ready == ready;
  }

  lemma {:induction false} LastDepExtend(q: seq<string>, freed: seq<string>, deps: seq<string>)
    requires forall d :: d in freed ==> d !in deps
    ensures LastDep(q + freed, deps) == LastDep(q, deps)
  {
    if freed == [] {
      assert q + freed == q;
    } else {
      var n := |freed| - 1;
      LastDepExtend(q, freed[..n], deps);
      assert (q + freed)[..|q + freed| - 1] == q + freed[..n];
    }
  }

  /** Dequeueing aid releases exactly `freed`. */
  ghost predicate Frees(byId: map<string, Action>, done: seq<string>, aid: string, freed: seq<string>) {
    && StrictlySorted(freed)
    && (forall x :: x in freed ==> x in byId && aid in byId[x].dependsOn && Released(byId, x, done + [aid]))
    && (forall x {:trigger Released(byId, x, done + [aid])} ::
         x in byId && aid in byId[x].dependsOn && Released(byId, x, done + [aid]) ==> x in freed)
  }

  lemma QueueStep(byId: map<string, Action>, done: seq<string>, aid: string, rest: seq<string>, freed: seq<string>)
    requires QueueInv(byId, done, [aid] + rest) && Frees(byId, done, aid, freed)
    ensures QueueInv(byId, done + [aid], rest + freed)
  {
    var q := done + ([aid] + rest);
    var q' := q + freed;
    QueueKeys(byId, done, aid, rest, freed);
    QueueMembers(byId, done, aid, rest, freed);
    QueueOrder(byId, done, aid, rest, freed);
    assert NoDup(q') by {
      forall i, j | 0 <= i < j < |q'| ensures q'[i] != q'[j] {
        if i < |q| <= j { QueueDisjoint(byId, done, aid, rest, freed, freed[j - |q|]); }
      }
    }
    QueueShift(done, aid, rest, freed);
  }

  lemma QueueShift(done: seq<string>, aid: string, rest: seq<string>, freed: seq<string>)
    ensures done + ([aid] + rest) + freed == (done + [aid]) + (rest + freed)
  {
  }

  lemma QueueDisjoint(byId: map<string, Action>, done: seq<string>, aid: string, rest: seq<string>, freed: seq<string>, y: string)
    requires QueueInv(byId, done, [aid] + rest) && Frees(byId, done, aid, freed) && y in freed
    ensures y in byId && y !in done + ([aid] + rest)
  {
    QueueHead(byId, done, aid, rest);
    assert !Released(byId, y, done);
  }

  /** Enqueueing the freed actions leaves the keys of those already queued alone. */
  lemma QueueOld(byId: map<string, Action>, done: seq<string>, aid: string, rest: seq<string>, freed: seq<string>, x: string)
    requires QueueInv(byId, done, [aid] + rest) && Frees(byId, done, aid, freed)
    requires x in byId && x in done + ([aid] + rest)
    ensures LastDep(done + ([aid] + rest) + freed, byId[x].dependsOn) == LastDep(done + ([aid] + rest), byId[x].dependsOn)
  {
    forall y | y in freed ensures y !in byId[x].dependsOn {
      QueueDisjoint(byId, done, aid, rest, freed, y);
      assert Released(byId, x, done);
    }
    LastDepExtend(done + ([aid] + rest), freed, byId[x].dependsOn);
  }

  /** The last dependency of a freed action is the one just dequeued. */
  lemma QueueFreed(byId: map<string, Action>, done: seq<string>, aid: string, rest: seq<string>, freed: seq<string>, x: string)
    requires QueueInv(byId, done, [aid] + rest) && Frees(byId, done, aid, freed) && x in freed
    ensures LastDep(done + ([aid] + rest) + freed, byId[x].dependsOn) == |done|
  {
    var q := done + ([aid] + rest);
    var q', deps := q + freed, byId[x].dependsOn;
    assert q'[|done|] == aid;
    forall m | |done| < m < |q'| ensures q'[m] !in deps {
      if m < |q| {
        assert q'[m] == q[m] && q[m] in byId;
        assert q[m] !in done + [aid] by {
          forall i | 0 <= i <= |done| ensures (done + [aid])[i] != q[m] { assert q[i] == (done + [aid])[i]; }
        }
      } else {
        assert q'[m] in freed;
        QueueDisjoint(byId, done, aid, rest, freed, q'[m]);
      }
    }
  }

  lemma QueueKeys(byId: map<string, Action>, done: seq<string>, aid: string, rest: seq<string>, freed: seq<string>)
    requires QueueInv(byId, done, [aid] + rest) && Frees(byId, done, aid, freed)
    ensures var q := done + ([aid] + rest); var q' := q + freed;
      forall j :: 0 <= j < |q'| ==>
        q'[j] in byId &&
        LastDep(q', byId[q'[j]].dependsOn) == if j < |q| then LastDep(q, byId[q[j]].dependsOn) else |done|
  {
    var q := done + ([aid] + rest);
    var q' := q + freed;
    forall j | 0 <= j < |q'|
      ensures q'[j] in byId
      ensures LastDep(q', byId[q'[j]].dependsOn) == if j < |q| then LastDep(q, byId[q[j]].dependsOn) else |done|
    {
      if j < |q| {
        assert q[j] in q;
        QueueOld(byId, done, aid, rest, freed, q[j]);
      } else {
        assert q'[j] in freed;
        QueueFreed(byId, done, aid, rest, freed, q'[j]);
      }
    }
  }

  lemma QueueMembers(byId: map<string, Action>, done: seq<string>, aid: string, rest: seq<string>, freed: seq<string>)
    requires QueueInv(byId, done, [aid] + rest) && Frees(byId, done, aid, freed)
    ensures HoldsReleased(byId, done + ([aid] + rest) + freed, done + [aid])
  {
    var q := done + ([aid] + rest);
    QueueHead(byId, done, aid, rest);
    assert aid in q;
    forall x | x in q + freed ensures x in byId && Released(byId, x, done + [aid]) {
      if x in q { assert Released(byId, x, done); }
    }
    forall x | x in byId && Released(byId, x, done + [aid]) ensures x in q + freed {
      if aid !in byId[x].dependsOn { assert Released(byId, x, done); }
    }
  }

  lemma QueueOrder(byId: map<string, Action>, done: seq<string>, aid: string, rest: seq<string>, freed: seq<string>)
    requires QueueInv(byId, done, [aid] + rest) && Frees(byId, done, aid, freed)
    ensures InReleaseOrder(byId, done + ([aid] + rest) + freed)
  {
    var q := done + ([aid] + rest);
    var q' := q + freed;
    QueueKeys(byId, done, aid, rest, freed);
    forall i, j | 0 <= i < j < |q'| ensures ReleasedBefore(byId, q', q'[i], q'[j]) {
      if j < |q| { assert ReleasedBefore(byId, q, q[i], q[j]); }
    }
  }

  /** When everything was enqueued, positions rank the actions. */
  lemma QueueComplete(byId: map<string, Action>, q: seq<string>)
    requires QueueInv(byId, q, []) && Elems(q) == byId.Keys
    ensures !HasCycle(DependsOn(byId))
  {
    var edges := DependsOn(byId);
    assert q + [] == q;
    var rank := map x | x in byId :: LastDep(q, [x]);
    forall e | e in edges ensures rank[e.1] < rank[e.0] {
      assert e.0 in Elems(q);
      EdgeDescends(byId, q, e.0, e.1);
    }
    RankedIsAcyclic(edges, rank);
  }

  lemma EdgeDescends(byId: map<string, Action>, q: seq<string>, x: string, d: string)
    requires QueueOf(byId, q, q) && x in q && x in byId && d in byId[x].dependsOn
    ensures LastDep(q, [d]) < LastDep(q, [x])
  {
    var i :| 0 <= i < |q| && q[i] == x;
    LastDepAt(q, i);
    assert LastDep(q, byId[x].dependsOn) < i;
  }

  /** When the queue runs dry first, the actions left over hold a cycle. */
  lemma QueueStuck(byId: map<string, Action>, q: seq<string>)
    requires QueueInv(byId, q, []) && Elems(q) != byId.Keys
    ensures HasCycle(DependsOn(byId))
  {
    var edges := DependsOn(byId);
    assert q + [] == q;
    var left := byId.Keys - Elems(q);
    assert Elems(q) <= byId.Keys;
    var y :| y in byId.Keys && y !in Elems(q);
    assert y in left;
    forall x | x in left ensures HasNext(edges, left, x) {
      HeldUp(byId, q, x);
    }
    NoSinkHasCycle(edges, left);
  }

  lemma HeldUp(byId: map<string, Action>, done: seq<string>, x: string)
    requires x in byId && !Released(byId, x, done)
    ensures HasNext(DependsOn(byId), byId.Keys - Elems(done), x)
  {
    var d :| d in byId[x].dependsOn && d in byId && d !in done;
    assert (x, d) in DependsOn(byId) && d in byId.Keys - Elems(done);
  }

  lemma LastDepAt(q: seq<string>, i: nat)
    requires NoDup(q) && i < |q|
    ensures LastDep(q, [q[i]]) == i
  {
    assert q[i] in [q[i]];
  }

  // ----- The algorithm -----

  function Kids(children: map<string, seq<string>>, x: string): seq<string> {
    if x in children then children[x] else []
  }

  method KeyById(actions: seq<Action>) returns (byId: map<string, Action>, keys: seq<string>)
    ensures byId == ById(actions)
    ensures NoDup(keys) && Elems(keys) == byId.Keys
  {
    byId, keys := map[], [];
    for i := 0 to |actions|
      invariant byId == ById(actions[..i])
      invariant NoDup(keys) && Elems(keys) == byId.Keys
    {
      var a := actions[i];
      assert actions[..i + 1][..i] == actions[..i];
      if a.id !in byId {
        ElemsAppend(keys, a.id);
        keys := keys + [a.id];
      }
      byId := byId[a.id := a];
    }
    assert actions[..|actions|] == actions;
  }

  /** What the first pass has counted once the actions `seen` have been visited. */
  ghost predicate ChildrenUpTo(byId: map<string, Action>, children: map<string, seq<string>>, seen: set<string>) {
    forall d, x :: d in byId ==>
      multiset(Kids(children, d))[x] == if x in byId && x in seen then multiset(byId[x].dependsOn)[d] else 0
  }

  lemma ChildrenComplete(byId: map<string, Action>, children: map<string, seq<string>>)
    requires ChildrenUpTo(byId, children, byId.Keys)
    ensures forall d {:trigger KidsOf(byId, Kids(children, d), d)} :: d in byId ==> KidsOf(byId, Kids(children, d), d)
  {
  }

  method CountDependencies(byId: map<string, Action>, keys: seq<string>)
    returns (indeg: map<string, int>, children: map<string, seq<string>>)
    requires NoDup(keys) && Elems(keys) == byId.Keys
    ensures indeg.Keys == byId.Keys
    ensures forall x :: x in byId ==> indeg[x] == OpenCount(byId[x].dependsOn, byId.Keys)
    ensures ChildrenUpTo(byId, children, byId.Keys)
  {
    indeg, children := map[], map[];
    for i := 0 to |keys|
      invariant indeg.Keys == Elems(keys[..i]) <= byId.Keys
      invariant forall x :: x in indeg ==> indeg[x] == OpenCount(byId[x].dependsOn, byId.Keys)
      invariant ChildrenUpTo(byId, children, Elems(keys[..i]))
    {
      assert keys[i] in Elems(keys);
      assert keys[..i + 1] == keys[..i] + [keys[i]];
      ElemsAppend(keys[..i], keys[i]);
      var n;
      n, children := CountOne(byId, keys[i], children, Elems(keys[..i]));
      indeg := indeg[keys[i] := n];
    }
    assert keys[..|keys|] == keys;
  }

  /** The inner loop of the first pass: one action's in-degree, and its entry under
      each of its in-manifest dependencies. */
  method CountOne(byId: map<string, Action>, a: string, children0: map<string, seq<string>>, ghost seen: set<string>)
    returns (n: int, children: map<string, seq<string>>)
    requires a in byId && a !in seen && ChildrenUpTo(byId, children0, seen)
    ensures n == OpenCount(byId[a].dependsOn, byId.Keys)
    ensures ChildrenUpTo(byId, children, seen + {a})
  {
    n, children := 0, children0;
    var deps := byId[a].dependsOn;
    for j := 0 to |deps|
      invariant n == OpenCount(deps[..j], byId.Keys)
      invariant Grown(byId, children0, children, a, multiset(deps[..j]))
    {
      var dep := deps[j];
      OpenCountStep(deps, j, byId.Keys);
      if dep !in byId {
        continue;
      }
      n := n + 1;
      GrownStep(byId, children0, children, a, multiset(deps[..j]), dep);
      children := children[dep := Kids(children, dep) + [a]];
    }
    assert deps[..|deps|] == deps;
    GrownDone(byId, children0, children, a, seen);
  }

  /** children is children0 with a added under each d in added, repeats included. */
  ghost predicate Grown(byId: map<string, Action>, children0: map<string, seq<string>>,
                        children: map<string, seq<string>>, a: string, added: multiset<string>) {
    forall d, x :: d in byId ==>
      multiset(Kids(children, d))[x] == multiset(Kids(children0, d))[x] + if x == a then added[d] else 0
  }

  lemma GrownDone(byId: map<string, Action>, children0: map<string, seq<string>>,
                  children: map<string, seq<string>>, a: string, seen: set<string>)
    requires a in byId && a !in seen && ChildrenUpTo(byId, children0, seen)
    requires Grown(byId, children0, children, a, multiset(byId[a].dependsOn))
    ensures ChildrenUpTo(byId, children, seen + {a})
  {
  }

  lemma GrownStep(byId: map<string, Action>, children0: map<string, seq<string>>,
                  children: map<string, seq<string>>, a: string, added: multiset<string>, dep: string)
    requires Grown(byId, children0, children, a, added)
    ensures Grown(byId, children0, children[dep := Kids(children, dep) + [a]], a, added + multiset{dep})
  {
    var children' := children[dep := Kids(children, dep) + [a]];
    forall d, x | d in byId ensures multiset(Kids(children', d))[x] ==
      multiset(Kids(children0, d))[x] + if x == a then (added + multiset{dep})[d] else 0
    {
      assert multiset(Kids(children, d))[x] == multiset(Kids(children0, d))[x] + if x == a then added[d] else 0;
      KidAdded(children, dep, a, d, x);
    }
  }

  lemma KidAdded(children: map<string, seq<string>>, dep: string, a: string, d: string, x: string)
    ensures multiset(Kids(children[dep := Kids(children, dep) + [a]], d))[x] ==
            multiset(Kids(children, d))[x] + if d == dep && x == a then 1 else 0
  {
    if d == dep {
      assert multiset(Kids(children, dep) + [a]) == multiset(Kids(children, dep)) + multiset{a};
    }
  }

  /** kids lists x once for every time x names d as a dependency. */
  ghost predicate KidsOf(byId: map<string, Action>, kids: seq<string>, d: string) {
    forall x :: multiset(kids)[x] == if x in byId then multiset(byId[x].dependsOn)[d] else 0
  }

  /** Closes the edges out of the dequeued action and enqueues, in id order, the
      actions it was the last to hold up. */
  method Release(byId: map<string, Action>, kids: seq<string>, aid: string,
                 ghost open: set<string>, indeg0: map<string, int>, ready0: seq<string>)
    returns (indeg: map<string, int>, ready: seq<string>, ghost freed: seq<string>)
    requires open <= byId.Keys && aid in open && indeg0.Keys == byId.Keys
    requires forall x :: x in byId ==> indeg0[x] == OpenCount(byId[x].dependsOn, open)
    requires KidsOf(byId, kids, aid)
    ensures indeg.Keys == byId.Keys && ready == ready0 + freed && StrictlySorted(freed)
    ensures forall x :: x in byId ==> indeg[x] == OpenCount(byId[x].dependsOn, open - {aid})
    ensures forall x :: x in freed <==>
      x in byId && aid in byId[x].dependsOn && OpenCount(byId[x].dependsOn, open - {aid}) == 0
  {
    var cs := SortStrings(kids);
    forall x ensures x in cs <==> x in byId && aid in byId[x].dependsOn {
      assert x in cs <==> x in multiset(kids);
    }
    forall x | x in byId ensures indeg0[x] == OpenCount(byId[x].dependsOn, open - {aid}) + multiset(cs)[x] {
      OpenCountClose(byId[x].dependsOn, open, aid);
    }
    indeg, ready, freed := Decrement(cs, indeg0, ready0);
  }

  /** The inner loop: one decrement per entry, enqueueing an id when it reaches zero. */
  method Decrement(cs: seq<string>, indeg0: map<string, int>, ready0: seq<string>)
    returns (indeg: map<string, int>, ready: seq<string>, ghost freed: seq<string>)
    requires Sorted(cs)
    requires forall x :: x in cs ==> x in indeg0 && indeg0[x] >= multiset(cs)[x]
    ensures indeg.Keys == indeg0.Keys && ready == ready0 + freed && StrictlySorted(freed)
    ensures forall x :: x in indeg ==> indeg[x] == indeg0[x] - multiset(cs)[x]
    ensures forall x :: x in freed <==> x in cs && indeg[x] == 0
  {
    indeg, ready, freed := indeg0, ready0, [];
    for k := 0 to |cs|
      invariant Counted(indeg0, indeg, cs[..k]) && FreedAre(indeg, freed, cs[..k]) && ready == ready0 + freed
    {
      indeg, ready, freed := DecrementOne(cs, k, indeg0, indeg, ready, freed, ready0);
    }
    assert cs[..|cs|] == cs;
  }

  method DecrementOne(cs: seq<string>, k: nat, ghost start: map<string, int>, indeg0: map<string, int>,
                      ready0: seq<string>, ghost freed0: seq<string>, ghost first: seq<string>)
    returns (indeg: map<string, int>, ready: seq<string>, ghost freed: seq<string>)
    requires Sorted(cs) && k < |cs| && cs[k] in start && start[cs[k]] >= multiset(cs)[cs[k]]
    requires Counted(start, indeg0, cs[..k]) && FreedAre(indeg0, freed0, cs[..k]) && ready0 == first + freed0
    ensures Counted(start, indeg, cs[..k + 1]) && FreedAre(indeg, freed, cs[..k + 1]) && ready == first + freed
  {
    SplitAt(cs, k);
    CountedStep(start, indeg0, cs[..k], cs[k]);
    FreedStep(cs, k, indeg0, freed0);
    indeg, ready, freed := indeg0[cs[k] := indeg0[cs[k]] - 1], ready0, freed0;
    if indeg[cs[k]] == 0 {
      ready, freed := ready + [cs[k]], freed + [cs[k]];
    }
  }

  /** One taken off for every entry handled. */
  ghost predicate Counted(indeg0: map<string, int>, indeg: map<string, int>, done: seq<string>) {
    indeg.Keys == indeg0.Keys && forall x :: x in indeg ==> indeg[x] == indeg0[x] - multiset(done)[x]
  }

  /** The handled ids that have reached zero, in order. */
  ghost predicate FreedAre(indeg: map<string, int>, freed: seq<string>, done: seq<string>) {
    StrictlySorted(freed) && forall x :: x in freed <==> x in done && x in indeg && indeg[x] == 0
  }

  lemma CountedStep(indeg0: map<string, int>, indeg: map<string, int>, done: seq<string>, child: string)
    requires Counted(indeg0, indeg, done) && child in indeg
    ensures Counted(indeg0, indeg[child := indeg[child] - 1], done + [child])
  {
  }

  lemma FreedStep(cs: seq<string>, k: nat, indeg: map<string, int>, freed: seq<string>)
    requires Sorted(cs) && k < |cs| && cs[k] in indeg && indeg[cs[k]] > 0 && FreedAre(indeg, freed, cs[..k])
    ensures var child := cs[k];
            var after := indeg[child := indeg[child] - 1];
            FreedAre(after, if after[child] == 0 then freed + [child] else freed, cs[..k] + [child])
  {
    AfterFreed(cs, k, freed);
  }

  lemma AfterFreed(cs: seq<string>, k: nat, freed: seq<string>)
    requires Sorted(cs) && k < |cs| && StrictlySorted(freed) && cs[k] !in freed
    requires forall x :: x in freed ==> x in cs[..k]
    ensures StrictlySorted(freed + [cs[k]])
  {
    forall i | 0 <= i < |freed| ensures StrLe(freed[i], cs[k]) {
      assert freed[i] in freed;
    }
  }

  lemma SplitAt(cs: seq<string>, k: nat)
    requires k < |cs|
    ensures cs[..k + 1] == cs[..k] + [cs[k]]
    ensures multiset(cs)[cs[k]] > multiset(cs[..k])[cs[k]]
  {
    assert cs == cs[..k] + [cs[k]] + cs[k + 1..];
  }

  /** The actions nothing in the manifest holds up, by id. */
  method InitialReady(byId: map<string, Action>, keys: seq<string>, indeg: map<string, int>) returns (ready: seq<string>)
    requires NoDup(keys) && Elems(keys) == byId.Keys == indeg.Keys
    requires forall x :: x in byId ==> indeg[x] == OpenCount(byId[x].dependsOn, byId.Keys)
    ensures QueueInv(byId, [], ready)
  {
    var zeros: seq<string> := [];
    for i := 0 to |keys|
      invariant NoDup(zeros)
      invariant forall x :: x in zeros <==> x in keys[..i] && x in byId && indeg[x] == 0
    {
      assert keys[i] in Elems(keys);
      assert keys[..i + 1] == keys[..i] + [keys[i]];
      if indeg[keys[i]] == 0 { zeros := zeros + [keys[i]]; }
    }
    assert keys[..|keys|] == keys;
    ready := SortStrings(zeros);
    SortedSetIs(zeros, ready);
    forall x | x in byId ensures x in ready <==> Released(byId, x, []) {
      assert x in ready <==> x in Elems(zeros);
      assert x in Elems(keys);
      OpenCountZero(byId[x].dependsOn, byId.Keys);
    }
    assert forall x :: x in ready ==> x in Elems(zeros);
    QueueInit(byId, ready);
  }

  /** The main loop: dequeue, emit, release. */
  method Drain(byId: map<string, Action>, indeg0: map<string, int>, children: map<string, seq<string>>, ready0: seq<string>)
    returns (out: seq<Action>)
    requires forall x :: x in byId ==> byId[x].id == x
    requires QueueInv(byId, [], ready0) && indeg0.Keys == byId.Keys
    requires forall x :: x in byId ==> indeg0[x] == OpenCount(byId[x].dependsOn, byId.Keys)
    requires forall d {:trigger KidsOf(byId, Kids(children, d), d)} :: d in byId ==> KidsOf(byId, Kids(children, d), d)
    ensures QueueInv(byId, Ids(out), []) && Scheduled(byId, out, Ids(out))
  {
    var indeg, ready := indeg0, ready0;
    out := [];
    ghost var done := [];
    ghost var open := byId.Keys;
    while ready != []
      invariant QueueInv(byId, done, ready) && Scheduled(byId, out, done)
      invariant open == byId.Keys - Elems(done)
      invariant indeg.Keys == byId.Keys
      invariant forall x :: x in byId ==> indeg[x] == OpenCount(byId[x].dependsOn, open)
      decreases open
    {
      var aid, rest := ready[0], ready[1..];
      assert ready == [aid] + rest;
      QueueHead(byId, done, aid, rest);
      ghost var freed;
      indeg, ready, freed := Release(byId, Kids(children, aid), aid, open, indeg, rest);
      open := open - {aid};
      Advance(byId, done, aid, rest, freed, open);
      ScheduledStep(byId, out, done, aid);
      done := done + [aid];
      out := out + [byId[aid]];
    }
    assert Ids(out) == done;
  }

  method TopologicalOrder(actions: seq<Action>) returns (r: Outcome)
    ensures r.CycleError? <==> HasCycle(DependsOn(ById(actions)))
    ensures r.Ordered? ==> IsSchedule(ById(actions), r.order)
    ensures r.CycleError? ==> r.ids == SortedSeq(ById(actions).Keys)
  {
    var byId, keys := KeyById(actions);
    var indeg, children := CountDependencies(byId, keys);
    var ready := InitialReady(byId, keys, indeg);
    ChildrenComplete(byId, children);
    var out := Drain(byId, indeg, children, ready);
    QueueDone(byId, out, Ids(out));
    if |out| != |byId| {
      var ids := SortSet(byId.Keys);
      return CycleError(ids);
    }
    return Ordered(out);
  }

  ghost predicate Scheduled(byId: map<string, Action>, out: seq<Action>, done: seq<string>) {
    |out| == |done| && forall i :: 0 <= i < |out| ==> done[i] in byId && out[i] == byId[done[i]] && out[i].id == done[i]
  }

  lemma ScheduledStep(byId: map<string, Action>, out: seq<Action>, done: seq<string>, aid: string)
    requires Scheduled(byId, out, done) && aid in byId && byId[aid].id == aid
    ensures Scheduled(byId, out + [byId[aid]], done + [aid])
  {
  }

  lemma QueueHead(byId: map<string, Action>, done: seq<string>, aid: string, rest: seq<string>)
    requires QueueInv(byId, done, [aid] + rest)
    ensures aid in byId && aid !in done
  {
    NoDupConcat(done, [aid] + rest);
    assert (done + ([aid] + rest))[|done|] == aid;
    assert aid in [aid] + rest;
  }

  /** What an empty queue tells. */
  lemma QueueDone(byId: map<string, Action>, out: seq<Action>, done: seq<string>)
    requires QueueInv(byId, done, []) && Scheduled(byId, out, done)
    ensures |out| != |byId| <==> HasCycle(DependsOn(byId))
    ensures |out| == |byId| ==> IsSchedule(byId, out)
  {
    assert done + [] == done && Ids(out) == done;
    assert Elems(done) <= byId.Keys;
    NoDupSize(done);
    SubsetSize(Elems(done), byId.Keys);
    if Elems(done) == byId.Keys {
      QueueComplete(byId, done);
    } else {
      QueueStuck(byId, done);
    }
  }

  /** `Release` frees what dequeueing frees: counting reaches zero exactly on the
      actions with nothing left to wait for. */
  lemma Advance(byId: map<string, Action>, done: seq<string>, aid: string, rest: seq<string>, freed: seq<string>, open: set<string>)
    requires QueueInv(byId, done, [aid] + rest) && StrictlySorted(freed)
    requires open == byId.Keys - Elems(done) - {aid}
    requires forall x :: x in freed <==>
      x in byId && aid in byId[x].dependsOn && OpenCount(byId[x].dependsOn, open) == 0
    ensures QueueInv(byId, done + [aid], rest + freed)
    ensures open == byId.Keys - Elems(done + [aid])
  {
    ElemsAppend(done, aid);
    forall x | x in byId ensures OpenCount(byId[x].dependsOn, open) == 0 <==> Released(byId, x, done + [aid]) {
      OpenCountZero(byId[x].dependsOn, open);
    }
    QueueStep(byId, done, aid, rest, freed);
  }

  // ----- The order is pinned down -----

  /** Positions of dependencies that are all in a common prefix. */
  lemma {:induction false} LastDepPrefix(q: seq<string>, k: nat, deps: seq<string>)
    requires k <= |q| && LastDep(q, deps) < k
    ensures LastDep(q[..k], deps) == LastDep(q, deps)
  {
    if k < |q| {
      LastDepPrefix(q[..|q| - 1], k, deps);
      assert q[..|q| - 1][..k] == q[..k];
    } else {
      assert q[..k] == q;
    }
  }

  /** An action's last dependency sits at the same place in every order that agrees
      on the actions before it. */
  lemma SameRelease(byId: map<string, Action>, q1: seq<string>, q2: seq<string>, k: nat, j: nat)
    requires NoDup(q1) && NoDup(q2) && Elems(q1) == Elems(q2) == byId.Keys
    requires k < |q1| && k <= j < |q2| && q1[..k] == q2[..k] && q2[j] == q1[k]
    requires LastDep(q1, byId[q1[k]].dependsOn) < k
    ensures LastDep(q2, byId[q1[k]].dependsOn) == LastDep(q1, byId[q1[k]].dependsOn)
  {
    var deps := byId[q1[k]].dependsOn;
    LastDepPrefix(q1, k, deps);
    assert forall i :: 0 <= i < k ==> q1[..k][i] == q2[..k][i];
    forall m | k <= m < |q2| ensures q2[m] !in deps {
      assert q2[m] in Elems(q1);
      var i :| 0 <= i < |q1| && q1[i] == q2[m];
    }
    LastDepPrefix(q2, k, deps);
  }

  /** Two orders that agree so far agree on what comes next. */
  lemma SameNext(byId: map<string, Action>, o1: seq<Action>, o2: seq<Action>, n: nat)
    requires IsSchedule(byId, o1) && IsSchedule(byId, o2) && n < |o1| == |o2|
    requires Ids(o1)[..n] == Ids(o2)[..n]
    ensures Ids(o1)[n] == Ids(o2)[n]
  {
    var q1, q2 := Ids(o1), Ids(o2);
    var j := LaterPlace(q1, q2, n);
    var i := LaterPlace(q2, q1, n);
    SameRelease(byId, q1, q2, n, j);
    SameRelease(byId, q2, q1, n, i);
    assert i == n || ReleasedBefore(byId, q1, q1[n], q1[i]);
    assert j == n || ReleasedBefore(byId, q2, q2[n], q2[j]);
    TieBreak(LastDep(q1, byId[q1[n]].dependsOn), LastDep(q2, byId[q2[n]].dependsOn), q1[n], q2[n]);
  }

  lemma TieBreak(rx: int, ry: int, x: string, y: string)
    requires x == y || rx < ry || (rx == ry && StrLe(x, y))
    requires x == y || ry < rx || (ry == rx && StrLe(y, x))
    ensures x == y
  {
    if x != y { StrLeAntisymmetric(x, y); }
  }

  lemma LaterPlace(q1: seq<string>, q2: seq<string>, n: nat) returns (j: nat)
    requires NoDup(q1) && Elems(q1) == Elems(q2) && n < |q1| && n < |q2| && q1[..n] == q2[..n]
    ensures n <= j < |q2| && q2[j] == q1[n]
  {
    assert q1[n] in Elems(q2);
    assert forall i :: 0 <= i < n ==> q1[..n][i] == q2[..n][i];
    j :| 0 <= j < |q2| && q2[j] == q1[n];
  }

  lemma {:induction false} SamePrefix(byId: map<string, Action>, o1: seq<Action>, o2: seq<Action>, k: nat)
    requires IsSchedule(byId, o1) && IsSchedule(byId, o2) && k <= |o1| == |o2|
    ensures Ids(o1)[..k] == Ids(o2)[..k]
  {
    if k == 0 {
    } else {
      SamePrefix(byId, o1, o2, k - 1);
      SameNext(byId, o1, o2, k - 1);
      TakeNext(Ids(o1), k - 1);
      TakeNext(Ids(o2), k - 1);
    }
  }

  lemma TakeNext<T>(s: seq<T>, n: nat)
    requires n < |s|
    ensures s[..n + 1] == s[..n] + [s[n]]
  {
  }

  lemma ScheduleUnique(byId: map<string, Action>, o1: seq<Action>, o2: seq<Action>)
    requires IsSchedule(byId, o1) && IsSchedule(byId, o2)
    ensures o1 == o2
  {
    NoDupSize(Ids(o1));
    NoDupSize(Ids(o2));
    SamePrefix(byId, o1, o2, |o1|);
    var q1, q2 := Ids(o1), Ids(o2);
    forall i | 0 <= i < |o1| ensures o1[i] == o2[i] {
      assert q1[..|o1|][i] == q2[..|o1|][i];
    }
  }

  /** The order does not depend on how the manifest lists its actions. */
  lemma ListingIrrelevant(a: seq<Action>, b: seq<Action>, oa: seq<Action>, ob: seq<Action>)
    requires DistinctIds(a) && DistinctIds(b) && multiset(a) == multiset(b)
    requires IsSchedule(ById(a), oa) && IsSchedule(ById(b), ob)
    ensures oa == ob
  {
    ByIdOfPermutation(a, b);
    ScheduleUnique(ById(a), oa, ob);
  }

  /** With distinct ids nothing is lost or repeated. */
  lemma ScheduleIsPermutation(a: seq<Action>, order: seq<Action>)
    requires DistinctIds(a) && IsSchedule(ById(a), order)
    ensures multiset(order) == multiset(a)
  {
    assert NoDup(a);
    var byId, q := ById(a), Ids(order);
    assert NoDup(order) by {
      forall i, j | 0 <= i < j < |order| ensures order[i] != order[j] { assert q[i] != q[j]; }
    }
    forall x ensures x in order <==> x in a {
      if x in order {
        var i :| 0 <= i < |order| && order[i] == x;
        assert q[i] in byId;
      }
      if x in a {
        var i :| 0 <= i < |a| && a[i] == x;
        ByIdDistinct(a, i);
        assert x.id in Elems(q);
        var j :| 0 <= j < |q| && q[j] == x.id;
        assert order[j] == x;
      }
    }
    NoDupMultiset(a);
    NoDupMultiset(order);
    assert Elems(a) == Elems(order);
  }

  /** Every dependency inside the manifest comes strictly earlier. */
  lemma DependenciesFirst(byId: map<string, Action>, order: seq<Action>, i: nat, j: nat)
    requires IsSchedule(byId, order) && i < |order| && j < |order|
    ensures (order[j].id, order[i].id) in DependsOn(byId) ==> i < j
  {
    assert (order[j].id, order[i].id) in DependsOn(byId) ==> Ids(order)[i] in order[j].dependsOn;
  }

  // ----- Layers -----

  /** If i precedes j and i has a dependency at place a, then j has one at or after a. */
  lemma LaterDependency(byId: map<string, Action>, order: seq<Action>, i: nat, j: nat, d: string)
    returns (a: nat, r: nat)
    requires IsSchedule(byId, order) && i < j < |order|
    requires (order[i].id, d) in DependsOn(byId)
    ensures a <= r < |order| && order[a].id == d
    ensures (order[j].id, order[r].id) in DependsOn(byId)
  {
    var q := Ids(order);
    assert d in Elems(q);
    a :| 0 <= a < |q| && q[a] == d;
    assert ReleasedBefore(byId, q, q[i], q[j]);
    r := LastDep(q, byId[q[j]].dependsOn);
    assert q[r] in Elems(q);
  }

  /** Depth never decreases along the order: whatever chain of dependencies hangs from
      an action, every later action has one at least as long. */
  lemma {:induction false} Layered(byId: map<string, Action>, order: seq<Action>, i: nat, j: nat, p: seq<string>)
    returns (p': seq<string>)
    requires IsSchedule(byId, order) && i <= j < |order|
    requires Walk(DependsOn(byId), p) && p[0] == order[i].id
    ensures Walk(DependsOn(byId), p') && p'[0] == order[j].id && |p'| >= |p|
    decreases |p|
  {
    if i == j {
      p' := p;
    } else if |p| == 1 {
      p' := [order[j].id];
    } else {
      WalkTail(DependsOn(byId), p);
      var a, r := LaterDependency(byId, order, i, j, p[1]);
      var tail := Layered(byId, order, a, r, p[1..]);
      WalkCons(DependsOn(byId), order[j].id, tail);
      p' := [order[j].id] + tail;
    }
  }
}

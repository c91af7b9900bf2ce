/** Finite directed graphs as sets of edges. */
module Graphs {
  import opened Sorting

  type Edges = set<(string, string)>

  /** An edge leads from place i of p to the next. */
  ghost predicate HasEdge(edges: Edges, p: seq<string>, i: int)
    requires 0 <= i < |p| - 1
  {
    (p[i], p[i + 1]) in edges
  }

  /** p is a walk: each node has an edge to the next. */
  ghost predicate Walk(edges: Edges, p: seq<string>) {
    p != [] && forall i :: 0 <= i < |p| - 1 ==> HasEdge(edges, p, i)
  }

  ghost predicate HasCycle(edges: Edges) {
    exists p :: Walk(edges, p) && |p| >= 2 && p[0] == p[|p| - 1]
  }

  /** If edges always lead to a smaller rank there is no cycle. */
  lemma RankedIsAcyclic(edges: Edges, rank: map<string, int>)
    requires forall e :: e in edges ==> e.0 in rank && e.1 in rank && rank[e.1] < rank[e.0]
    ensures !HasCycle(edges)
  {
    forall p | Walk(edges, p) && |p| >= 2 ensures p[0] != p[|p| - 1] {
      WalkDescends(edges, rank, p);
    }
  }

  lemma {:induction false} WalkDescends(edges: Edges, rank: map<string, int>, p: seq<string>)
    requires forall e :: e in edges ==> e.0 in rank && e.1 in rank && rank[e.1] < rank[e.0]
    requires Walk(edges, p) && |p| >= 2
    ensures p[0] in rank && p[|p| - 1] in rank && rank[p[|p| - 1]] < rank[p[0]]
    decreases |p|
  {
    assert HasEdge(edges, p, 0);
    if |p| == 2 {
    } else {
      WalkTail(edges, p);
      WalkDescends(edges, rank, p[1..]);
    }
  }

  ghost predicate HasNext(edges: Edges, nodes: set<string>, x: string) {
    exists d :: d in nodes && (x, d) in edges
  }

  ghost predicate Serial(edges: Edges, nodes: set<string>) {
    forall x {:trigger HasNext(edges, nodes, x)} :: x in nodes ==> HasNext(edges, nodes, x)
  }

  /** A non-empty set in which every node has an edge staying inside holds a cycle. */
  lemma NoSinkHasCycle(edges: Edges, nodes: set<string>)
    requires nodes != {}
    requires Serial(edges, nodes)
    ensures HasCycle(edges)
  {
    var p := LongWalk(edges, nodes, |nodes|);
    var i, j := Repeated(p, nodes);
    SubWalk(edges, p, i, j);
    ClosedWalk(edges, p[i..j + 1]);
  }

  lemma ClosedWalk(edges: Edges, c: seq<string>)
    requires Walk(edges, c) && |c| >= 2 && c[0] == c[|c| - 1]
    ensures HasCycle(edges)
  {
  }

  lemma SubWalk(edges: Edges, p: seq<string>, i: nat, j: nat)
    requires Walk(edges, p) && i <= j < |p|
    ensures Walk(edges, p[i..j + 1])
  {
    var c := p[i..j + 1];
    forall k | 0 <= k < |c| - 1 ensures HasEdge(edges, c, k) {
      assert HasEdge(edges, p, i + k);
    }
  }

  lemma {:induction false} LongWalk(edges: Edges, nodes: set<string>, n: nat) returns (p: seq<string>)
    requires nodes != {}
    requires Serial(edges, nodes)
    ensures Walk(edges, p) && |p| == n + 1 && Elems(p) <= nodes
  {
    if n == 0 {
      var x :| x in nodes;
      p := [x];
    } else {
      var q := LongWalk(edges, nodes, n - 1);
      var last := q[|q| - 1];
      assert HasNext(edges, nodes, last);
      var d :| d in nodes && (last, d) in edges;
      p := q + [d];
      forall i | 0 <= i < |p| - 1 ensures HasEdge(edges, p, i) {
        if i < |q| - 1 { assert HasEdge(edges, q, i); }
      }
    }
  }

  lemma WalkTail(edges: Edges, p: seq<string>)
    requires Walk(edges, p) && |p| >= 2
    ensures (p[0], p[1]) in edges && Walk(edges, p[1..])
  {
    assert HasEdge(edges, p, 0);
    SubWalk(edges, p, 1, |p| - 1);
    assert p[1..(|p| - 1) + 1] == p[1..];
  }

  lemma WalkCons(edges: Edges, x: string, p: seq<string>)
    requires Walk(edges, p) && (x, p[0]) in edges
    ensures Walk(edges, [x] + p)
  {
    var q := [x] + p;
    forall i | 0 <= i < |q| - 1 ensures HasEdge(edges, q, i) {
      if i > 0 { assert HasEdge(edges, p, i - 1); }
    }
  }

  /** A list drawn from a smaller set repeats an element. */
  lemma SetOfSeqSize(p: seq<string>, nodes: set<string>)
    requires Elems(p) <= nodes && |p| > |nodes|
    ensures !NoDup(p)
  {
    SubsetSize(Elems(p), nodes);
    NoDupSize(p);
  }

  lemma Repeated(p: seq<string>, nodes: set<string>) returns (i: nat, j: nat)
    requires Elems(p) <= nodes && |p| > |nodes|
    ensures i < j < |p| && p[i] == p[j]
  {
    SetOfSeqSize(p, nodes);
    i, j :| 0 <= i < j < |p| && p[i] == p[j];
  }

  lemma {:induction false} SubsetSize<T>(a: set<T>, b: set<T>)
    requires a <= b
    ensures |a| <= |b| && (|a| == |b| ==> a == b)
    decreases |a|
  {
    if a == {} {
    } else {
      var x :| x in a;
      SubsetSize(a - {x}, b - {x});
      assert a == (a - {x}) + {x} && b == (b - {x}) + {x};
    }
  }

  lemma {:induction false} NoDupSize<T>(s: seq<T>)
    ensures |Elems(s)| <= |s| && (NoDup(s) <==> |Elems(s)| == |s|)
  {
    if s == [] {
    } else {
      var n := |s| - 1;
      var init := s[..n];
      NoDupSize(init);
      assert s == init + [s[n]];
      ElemsAppend(init, s[n]);
      if s[n] in init {
        assert Elems(s) == Elems(init);
        var k :| 0 <= k < n && init[k] == s[n];
        assert s[k] == s[n];
      }
    }
  }

  /** A walk maps through an edge-preserving renaming. */
  lemma MapCycle(edges: Edges, edges': Edges, f: map<string, string>)
    requires HasCycle(edges)
    requires forall e :: e in edges ==> e.0 in f && e.1 in f && (f[e.0], f[e.1]) in edges'
    ensures HasCycle(edges')
  {
    var p :| Walk(edges, p) && |p| >= 2 && p[0] == p[|p| - 1];
    forall i | 0 <= i < |p| ensures p[i] in f {
      if i < |p| - 1 { assert HasEdge(edges, p, i); } else { assert HasEdge(edges, p, i - 1); }
    }
    var q := seq(|p|, i requires 0 <= i < |p| => f[p[i]]);
    assert Walk(edges', q) by {
      forall i | 0 <= i < |q| - 1 ensures HasEdge(edges', q, i) {
        assert HasEdge(edges, p, i);
      }
    }
  }
}

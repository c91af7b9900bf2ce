/** Sorting. The programs call library sorts that promise only an ordered
    permutation, so that is all `Sort` promises; what makes their results
    deterministic is `SortedUnique`. */
module Sorting {
  import opened Text

  // ----- Any total preorder -----

  ghost predicate TotalPreorder<T(!new)>(le: (T, T) -> bool) {
    && (forall a, b :: le(a, b) || le(b, a))
    && (forall a, b, c :: le(a, b) && le(b, c) ==> le(a, c))
  }

  ghost predicate SortedBy<T>(s: seq<T>, le: (T, T) -> bool) {
    forall i, j :: 0 <= i < j < |s| ==> le(s[i], s[j])
  }

  /** Insertion sort standing for sort.Slice, sort.Strings and Python's sorted. */
  method Sort<T(!new, ==)>(s: seq<T>, le: (T, T) -> bool) returns (r: seq<T>)
    requires TotalPreorder(le)
    ensures SortedBy(r, le) && multiset(r) == multiset(s)
  {
    r := [];
    for n := 0 to |s|
      invariant SortedBy(r, le) && multiset(r) == multiset(s[..n])
    {
      var k := 0;
      while k < |r| && le(r[k], s[n])
        invariant 0 <= k <= |r|
        invariant forall i :: 0 <= i < k ==> le(r[i], s[n])
      {
        k := k + 1;
      }
      assert s[..n + 1] == s[..n] + [s[n]];
      assert r == r[..k] + r[k..];
      r := r[..k] + [s[n]] + r[k..];
    }
    assert s[..|s|] == s;
  }

  // ----- Strings -----

  predicate Sorted(s: seq<string>) { forall i, j :: 0 <= i < j < |s| ==> StrLe(s[i], s[j]) }

  predicate StrictlySorted(s: seq<string>) {
    forall i, j :: 0 <= i < j < |s| ==> s[i] != s[j] && StrLe(s[i], s[j])
  }

  lemma StrLeIsTotalPreorder()
    ensures TotalPreorder(StrLe)
  {
    forall a, b ensures StrLe(a, b) || StrLe(b, a) { StrLeTotal(a, b); }
    forall a, b, c | StrLe(a, b) && StrLe(b, c) ensures StrLe(a, c) { StrLeTransitive(a, b, c); }
  }

  method SortStrings(s: seq<string>) returns (r: seq<string>)
    ensures Sorted(r) && multiset(r) == multiset(s)
  {
    StrLeIsTotalPreorder();
    r := Sort(s, StrLe);
  }

  function Last<T>(s: seq<T>): T
    requires s != []
  {
    s[|s| - 1]
  }

  function Flat<T>(parts: seq<seq<T>>): seq<T> {
    if parts == [] then [] else parts[0] + Flat(parts[1..])
  }

  lemma {:induction false} FlatHas<T>(parts: seq<seq<T>>, i: nat, x: T)
    requires i < |parts| && x in parts[i]
    ensures x in Flat(parts)
  {
    if i == 0 {
    } else {
      FlatHas(parts[1..], i - 1, x);
    }
  }

  lemma {:induction false} FlatSource<T>(parts: seq<seq<T>>, x: T) returns (i: nat)
    requires x in Flat(parts)
    ensures i < |parts| && x in parts[i]
  {
    if x in parts[0] {
      i := 0;
    } else {
      var j := FlatSource(parts[1..], x);
      i := j + 1;
    }
  }

  lemma HeadsAndTails<T>(a: T, as_: seq<T>, b: T, bs: seq<T>)
    ensures [a] + as_ == [b] + bs <==> a == b && as_ == bs
  {
    assert ([a] + as_)[0] == a && ([a] + as_)[1..] == as_ && ([b] + bs)[0] == b && ([b] + bs)[1..] == bs;
  }

  function Elems<T>(s: seq<T>): set<T> { set x | x in s }

  predicate NoDup<T(==)>(s: seq<T>) { forall i, j :: 0 <= i < j < |s| ==> s[i] != s[j] }

  lemma NoDupConcat<T>(s: seq<T>, t: seq<T>)
    requires NoDup(s + t)
    ensures NoDup(s) && NoDup(t)
    ensures forall x :: x in s ==> x !in t
  {
    assert forall i :: 0 <= i < |s| ==> (s + t)[i] == s[i];
    assert forall j :: 0 <= j < |t| ==> (s + t)[|s| + j] == t[j];
  }

  /** Two sorted lists with the same elements, counted, are the same list. */
  lemma {:induction false} SortedUnique(a: seq<string>, b: seq<string>)
    requires Sorted(a) && Sorted(b) && multiset(a) == multiset(b)
    ensures a == b
  {
    assert |multiset(a)| == |a| && |multiset(b)| == |b|;
    if a == [] {
    } else {
      SameLeast(a, b);
      MultisetTail(a);
      MultisetTail(b);
      SortedUnique(a[1..], b[1..]);
    }
  }

  lemma SameLeast(a: seq<string>, b: seq<string>)
    requires Sorted(a) && Sorted(b) && multiset(a) == multiset(b) && a != [] && b != []
    ensures a[0] == b[0]
  {
    assert a[0] in multiset(b) && b[0] in multiset(a);
    if a[0] != b[0] { StrLeAntisymmetric(a[0], b[0]); }
  }

  lemma MultisetTail(s: seq<string>)
    requires s != []
    ensures s == [s[0]] + s[1..] && multiset(s[1..]) == multiset(s) - multiset{s[0]}
  {
    assert s == [s[0]] + s[1..];
  }

  lemma {:induction false} NoDupMultiset<T>(s: seq<T>)
    requires NoDup(s)
    ensures multiset(s) == multiset(Elems(s))
  {
    if s == [] {
    } else {
      var rest := s[1..];
      NoDupMultiset(rest);
      assert s == [s[0]] + rest;
      assert s[0] !in rest;
      assert Elems(s) == {s[0]} + Elems(rest);
    }
  }

  lemma NoDupIfMultiset<T>(s: seq<T>)
    requires multiset(s) == multiset(Elems(s))
    ensures NoDup(s)
  {
    forall i, j | 0 <= i < j < |s| ensures s[i] != s[j] {
      assert s == s[..i] + [s[i]] + s[i + 1..j] + [s[j]] + s[j + 1..];
      assert multiset(s)[s[i]] >= if s[j] == s[i] then 2 else 1;
    }
  }

  /** A rearrangement of a duplicate-free list. */
  lemma PermutationOfNoDup<T>(s: seq<T>, r: seq<T>)
    requires NoDup(s) && multiset(r) == multiset(s)
    ensures NoDup(r) && Elems(r) == Elems(s)
  {
    forall x ensures x in r <==> x in s { assert x in multiset(r) <==> x in multiset(s); }
    assert Elems(r) == Elems(s);
    NoDupMultiset(s);
    NoDupIfMultiset(r);
  }

  lemma StrictlySortedUnique(a: seq<string>, b: seq<string>)
    requires StrictlySorted(a) && StrictlySorted(b) && Elems(a) == Elems(b)
    ensures a == b
  {
    NoDupMultiset(a);
    NoDupMultiset(b);
    SortedUnique(a, b);
  }

  predicate IsLeast(m: string, s: set<string>) { m in s && forall y :: y in s ==> StrLe(m, y) }

  lemma {:induction false} LeastExists(s: set<string>)
    requires s != {}
    ensures exists m :: IsLeast(m, s)
    decreases |s|
  {
    var x :| x in s;
    if s == {x} {
      StrLeTotal(x, x);
      assert IsLeast(x, s);
    } else {
      LeastExists(s - {x});
      var m :| IsLeast(m, s - {x});
      StrLeTotal(x, m);
      StrLeTotal(x, x);
      if StrLe(x, m) {
        forall y | y in s ensures StrLe(x, y) { if y != x { StrLeTransitive(x, m, y); } }
        assert IsLeast(x, s);
      } else {
        assert IsLeast(m, s);
      }
    }
  }

  lemma LeastUnique(s: set<string>)
    ensures forall m, n :: IsLeast(m, s) && IsLeast(n, s) ==> m == n
  {
    forall m, n | IsLeast(m, s) && IsLeast(n, s) ensures m == n { StrLeAntisymmetric(m, n); }
  }

  /** The strictly ascending list of a set: what collecting the keys of a Go map in
      whatever order and sorting them yields. */
  function SortedSeq(s: set<string>): (r: seq<string>)
    ensures StrictlySorted(r) && Elems(r) == s
  {
    if s == {} then [] else
      LeastExists(s);
      LeastUnique(s);
      var m :| IsLeast(m, s);
      var rest := SortedSeq(s - {m});
      assert forall i :: 0 <= i < |rest| ==> rest[i] in Elems(rest);
      assert Elems([m] + rest) == {m} + Elems(rest) == s;
      [m] + rest
  }

  lemma StrictlySortedSize(ids: set<string>)
    ensures |SortedSeq(ids)| == |ids|
  {
    NoDupMultiset(SortedSeq(ids));
    assert |multiset(ids)| == |ids|;
  }

  lemma ElemsAppend<T>(s: seq<T>, x: T)
    ensures Elems(s + [x]) == Elems(s) + {x}
    ensures NoDup(s) && x !in s ==> NoDup(s + [x])
  {
  }

  /** One step of walking through a set. */
  lemma MoveOne<T>(seen: set<T>, rest: set<T>, k: T)
    requires seen !! rest && k in rest
    ensures (seen + {k}) + (rest - {k}) == seen + rest && seen + {k} !! rest - {k}
  {
  }

  /** Collecting a set in arbitrary order and sorting is deterministic. */
  method SortSet(s: set<string>) returns (r: seq<string>)
    ensures r == SortedSeq(s)
  {
    var rest := s;
    var keys: seq<string> := [];
    while rest != {}
      invariant rest <= s && Elems(keys) == s - rest && NoDup(keys)
      decreases rest
    {
      var k :| k in rest;
      ElemsAppend(keys, k);
      keys, rest := keys + [k], rest - {k};
    }
    assert Elems(keys) == s;
    r := SortStrings(keys);
    SortedSetIs(keys, r);
  }

  lemma SortedSetIs(keys: seq<string>, r: seq<string>)
    requires NoDup(keys) && Sorted(r) && multiset(r) == multiset(keys)
    ensures r == SortedSeq(Elems(keys))
  {
    PermutationOfNoDup(keys, r);
    StrictlySortedUnique(r, SortedSeq(Elems(keys)));
  }
}

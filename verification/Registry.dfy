/** The in-memory tool registry (internal/registry/registry.go). */
module Registry {
  import opened Text
  import opened Sorting

  datatype Tool = Tool(
    id: string,
    kind: string,
    endpoint: string,
    verb: string,
    schema: map<string, string>,
    auth: string,
    timeout: string,
    capabilities: seq<string>,
    egress: seq<string>,
    dependsOnCaps: seq<string>,
    requireApproval: bool)

  datatype RegisterResult = Registered | MissingId | MissingCapabilities

  // ----- What the registry answers -----

  /** Every tool sits under its own id, has one and has capability tags. */
  ghost predicate WellKeyed(tools: map<string, Tool>) {
    forall k :: k in tools ==> tools[k].id == k && TrimSpace(k) != "" && tools[k].capabilities != []
  }

  /** The normalised, non-empty tags of a request. */
  function Wanted(capabilities: seq<string>): set<string> {
    set s | s in capabilities && Normalize(s) != "" :: Normalize(s)
  }

  lemma WantedStep(capabilities: seq<string>, i: nat)
    requires i < |capabilities|
    ensures Wanted(capabilities[..i + 1]) ==
            Wanted(capabilities[..i]) + if Normalize(capabilities[i]) != "" then {Normalize(capabilities[i])} else {}
  {
    assert capabilities[..i + 1] == capabilities[..i] + [capabilities[i]];
  }

  predicate Provides(t: Tool, want: set<string>) {
    exists c :: c in t.capabilities && ToLower(c) in want
  }

  /** The tools under the given keys. */
  function Fetch(tools: map<string, Tool>, keys: seq<string>): (r: seq<Tool>)
    requires forall k :: k in keys ==> k in tools
    ensures |r| == |keys| && forall i :: 0 <= i < |r| ==> r[i] == tools[keys[i]]
  {
    seq(|keys|, i requires 0 <= i < |keys| => tools[keys[i]])
  }

  /** The tools under the given ids, in id order. */
  function ToolsAt(tools: map<string, Tool>, ids: set<string>): seq<Tool>
    requires ids <= tools.Keys
  {
    assert forall k :: k in SortedSeq(ids) ==> k in Elems(SortedSeq(ids));
    Fetch(tools, SortedSeq(ids))
  }

  /** Those of the keys whose tool provides a wanted tag. */
  function Hits(tools: map<string, Tool>, keys: set<string>, want: set<string>): set<string> {
    set k | k in keys && k in tools && Provides(tools[k], want)
  }

  lemma HitsStep(tools: map<string, Tool>, keys: set<string>, want: set<string>, k: string)
    requires k in tools
    ensures Hits(tools, keys + {k}, want) == Hits(tools, keys, want) + if Provides(tools[k], want) then {k} else {}
  {
  }

  function MatchIds(tools: map<string, Tool>, capabilities: seq<string>): set<string> {
    Hits(tools, tools.Keys, Wanted(capabilities))
  }

  function Matching(tools: map<string, Tool>, capabilities: seq<string>): seq<Tool> {
    ToolsAt(tools, MatchIds(tools, capabilities))
  }

  lemma ToolsAtMembers(tools: map<string, Tool>, ids: set<string>)
    requires ids <= tools.Keys && WellKeyed(tools)
    ensures var r := ToolsAt(tools, ids);
      |r| == |ids| && forall i :: 0 <= i < |r| ==> r[i].id == SortedSeq(ids)[i] && r[i].id in ids && r[i] == tools[r[i].id]
  {
    StrictlySortedSize(ids);
    FetchMembers(tools, SortedSeq(ids));
  }

  lemma FetchMembers(tools: map<string, Tool>, keys: seq<string>)
    requires Elems(keys) <= tools.Keys && WellKeyed(tools)
    ensures forall k :: k in keys ==> k in tools
    ensures var r := Fetch(tools, keys);
      forall i :: 0 <= i < |r| ==> r[i].id == keys[i] && r[i].id in Elems(keys) && r[i] == tools[r[i].id]
  {
    assert forall k :: k in keys ==> k in Elems(keys);
  }

  lemma ToolsAtDistinct(tools: map<string, Tool>, ids: set<string>)
    requires ids <= tools.Keys && WellKeyed(tools)
    ensures DistinctToolIds(ToolsAt(tools, ids))
  {
    ToolsAtMembers(tools, ids);
    var keys, r := SortedSeq(ids), ToolsAt(tools, ids);
    forall i, j | 0 <= i < j < |r| ensures r[i].id != r[j].id {
      assert keys[i] != keys[j];
    }
  }

  predicate DistinctToolIds(r: seq<Tool>) {
    forall i, j :: 0 <= i < j < |r| ==> r[i].id != r[j].id
  }

  lemma ToolsAtHas(tools: map<string, Tool>, ids: set<string>, k: string) returns (i: nat)
    requires ids <= tools.Keys && WellKeyed(tools) && k in ids
    ensures i < |ToolsAt(tools, ids)| && ToolsAt(tools, ids)[i] == tools[k]
  {
    var keys := SortedSeq(ids);
    assert k in Elems(keys);
    i :| 0 <= i < |keys| && keys[i] == k;
  }

  predicate IdLe(a: Tool, b: Tool) { StrLe(a.id, b.id) }

  lemma IdLeIsTotalPreorder()
    ensures TotalPreorder(IdLe)
  {
    forall a, b ensures IdLe(a, b) || IdLe(b, a) { StrLeTotal(a.id, b.id); }
    forall a, b, c | IdLe(a, b) && IdLe(b, c) ensures IdLe(a, c) { StrLeTransitive(a.id, b.id, c.id); }
  }

  /** s was collected from the registry under these keys, each once. */
  ghost predicate Collected(tools: map<string, Tool>, keys: seq<string>, s: seq<Tool>) {
    NoDup(keys) && (forall k :: k in keys ==> k in tools) && s == Fetch(tools, keys)
  }

  lemma CollectedStep(tools: map<string, Tool>, keys: seq<string>, s: seq<Tool>, k: string)
    requires Collected(tools, keys, s) && k in tools && k !in keys
    ensures Collected(tools, keys + [k], s + [tools[k]])
    ensures Elems(keys + [k]) == Elems(keys) + {k}
  {
  }

  /** Sorting what was collected by id gives one list, however it was collected. */
  method SortById(ghost tools: map<string, Tool>, ghost keys: seq<string>, s: seq<Tool>) returns (r: seq<Tool>)
    requires WellKeyed(tools) && Collected(tools, keys, s)
    ensures Elems(keys) <= tools.Keys && r == ToolsAt(tools, Elems(keys))
  {
    IdLeIsTotalPreorder();
    r := Sort(s, IdLe);
    SortedIsToolsAt(tools, keys, s, r);
  }

  lemma SortedIsToolsAt(tools: map<string, Tool>, keys: seq<string>, s: seq<Tool>, r: seq<Tool>)
    requires WellKeyed(tools) && Collected(tools, keys, s)
    requires SortedBy(r, IdLe) && multiset(r) == multiset(s)
    ensures Elems(keys) <= tools.Keys && r == ToolsAt(tools, Elems(keys))
  {
    forall i, j | 0 <= i < j < |s| ensures s[i] != s[j] {
      assert keys[i] in keys && keys[j] in keys;
    }
    PermutationOfNoDup(s, r);
    var ids := seq(|r|, i requires 0 <= i < |r| => r[i].id);
    RearrangedKeys(tools, keys, s, r, ids);
    assert StrictlySorted(ids) by {
      forall i, j | 0 <= i < j < |ids| ensures ids[i] != ids[j] && StrLe(ids[i], ids[j]) {
        assert ids[i] in ids && ids[j] in ids;
        assert IdLe(r[i], r[j]);
      }
    }
    StrictlySortedUnique(ids, SortedSeq(Elems(keys)));
  }

  lemma RearrangedKeys(tools: map<string, Tool>, keys: seq<string>, s: seq<Tool>, r: seq<Tool>, ids: seq<string>)
    requires WellKeyed(tools) && Collected(tools, keys, s) && Elems(r) == Elems(s)
    requires |ids| == |r| && forall i :: 0 <= i < |r| ==> ids[i] == r[i].id
    ensures Elems(ids) == Elems(keys)
    ensures forall i :: 0 <= i < |r| ==> ids[i] in tools && r[i] == tools[ids[i]]
  {
    forall i | 0 <= i < |r| ensures ids[i] in keys && ids[i] in tools && r[i] == tools[ids[i]] {
      assert r[i] in Elems(s);
      var j :| 0 <= j < |s| && s[j] == r[i];
      assert keys[j] in keys;
    }
    forall k | k in keys ensures k in ids {
      var j :| 0 <= j < |keys| && keys[j] == k;
      assert s[j] in Elems(r);
      var i :| 0 <= i < |r| && r[i] == s[j];
      assert ids[i] == k;
    }
  }

  // ----- The registry -----

  class MemoryRegistry {
    var tools: map<string, Tool>

    ghost predicate Valid()
      reads this
    {
      WellKeyed(tools)
    }

    constructor ()
      ensures Valid() && tools == map[]
    {
      tools := map[];
    }

    /** Inserts or replaces a tool. */
    method Register(t: Tool) returns (r: RegisterResult)
      requires Valid()
      modifies this
      ensures Valid()
      ensures r == if TrimSpace(t.id) == "" then MissingId
                   else if t.capabilities == [] then MissingCapabilities else Registered
      ensures tools == if r.Registered? then old(tools)[t.id := t] else old(tools)
    {
      if TrimSpace(t.id) == "" {
        return MissingId;
      }
      if |t.capabilities| == 0 {
        return MissingCapabilities;
      }
      tools := tools[t.id := t];
      return Registered;
    }

    method NormalizeSet(capabilities: seq<string>) returns (out: set<string>)
      ensures out == Wanted(capabilities)
    {
      out := {};
      for i := 0 to |capabilities|
        invariant out == Wanted(capabilities[..i])
      {
        WantedStep(capabilities, i);
        var s := Normalize(capabilities[i]);
        if s != "" { out := out + {s}; }
      }
      assert capabilities[..|capabilities|] == capabilities;
    }

    /** The tools a request matches, by id. The map is walked in no particular order. */
    method Lookup(capabilities: seq<string>) returns (matched: seq<Tool>)
      requires Valid()
      ensures matched == Matching(tools, capabilities)
    {
      var want := NormalizeSet(capabilities);
      if want == {} {
        assert MatchIds(tools, capabilities) == {};
        StrictlySortedSize(MatchIds(tools, capabilities));
        return [];
      }
      matched := [];
      ghost var hits: seq<string>, seen: set<string> := [], {};
      var rest := tools.Keys;
      while rest != {}
        invariant seen + rest == tools.Keys && seen !! rest
        invariant Collected(tools, hits, matched) && Elems(hits) == Hits(tools, seen, want)
        decreases rest
      {
        var k :| k in rest;
        var hit := ProvidesAny(tools[k], want);
        if hit {
          assert k !in Elems(hits);
          CollectedStep(tools, hits, matched, k);
          matched, hits := matched + [tools[k]], hits + [k];
        }
        HitsStep(tools, seen, want, k);
        MoveOne(seen, rest, k);
        rest, seen := rest - {k}, seen + {k};
      }
      assert seen == tools.Keys;
      matched := SortById(tools, hits, matched);
    }

    method ProvidesAny(t: Tool, want: set<string>) returns (hit: bool)
      ensures hit == Provides(t, want)
    {
      for i := 0 to |t.capabilities|
        invariant forall k :: 0 <= k < i ==> ToLower(t.capabilities[k]) !in want
      {
        if ToLower(t.capabilities[i]) in want { return true; }
      }
      return false;
    }

    method All() returns (out: seq<Tool>)
      requires Valid()
      ensures out == ToolsAt(tools, tools.Keys)
    {
      out := [];
      ghost var keys: seq<string> := [];
      var rest := tools.Keys;
      while rest != {}
        invariant Elems(keys) + rest == tools.Keys && Elems(keys) !! rest
        invariant Collected(tools, keys, out)
        decreases rest
      {
        var k :| k in rest;
        assert k !in Elems(keys);
        CollectedStep(tools, keys, out, k);
        MoveOne(Elems(keys), rest, k);
        out, keys, rest := out + [tools[k]], keys + [k], rest - {k};
      }
      assert Elems(keys) == tools.Keys;
      out := SortById(tools, keys, out);
    }
  }
}

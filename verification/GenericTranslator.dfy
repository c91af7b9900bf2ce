/** The structure-preserving translator from decoded JSON to ANF
    (translators/generic/translate.go). */
module GenericTranslator {
  import opened Wrappers
  import opened Text
  import opened Sorting
  import opened Json
  import opened Anf

  const MAX_DEPTH: nat := 512
  const TRANSLATOR_NAME := "clawdlinux/generic-translator"

  predicate IsContainer(j: Json) { j.JObject? || j.JArray? }

  /** How a scalar prints. */
  function ScalarString(j: Json): string
    requires !IsContainer(j)
  {
    match j
    case JNull => "null"
    case JBool(b) => if b then "true" else "false"
    case JNumber(_, text) => text
    case JString(s) => s
  }

  /** It is the text that reads back as the scalar. */
  lemma ScalarDenotes(j: Json)
    requires !IsContainer(j)
    ensures Denotes(ScalarString(j), j) && ScalarString(j) == TextFor(j)
  {
    OneTextDenotes(j);
  }

  /** The `name` if it is a string, else the `id` if that is, else nothing. */
  function ObjectName(j: Json): string {
    match Get(j, "name")
    case JString(s) => s
    case _ => match Get(j, "id")
      case JString(s) => s
      case _ => ""
  }

  // ----- Keys -----

  predicate Within(j: Json, keys: seq<string>) { j.JObject? && forall k :: k in keys ==> k in j.fields }

  function KeysOf(j: Json): (r: seq<string>)
    requires j.JObject?
    ensures Within(j, r) && NoDup(r)
  {
    var r := SortedSeq(j.fields.Keys);
    assert forall k :: k in r ==> k in Elems(r);
    r
  }

  function ContainerKeys(j: Json): set<string>
    requires j.JObject?
  {
    set k | k in j.fields && IsContainer(j.fields[k])
  }

  function ScalarKeys(j: Json): set<string>
    requires j.JObject?
  {
    set k | k in j.fields && !IsContainer(j.fields[k])
  }

  lemma SortedWithin(j: Json, keys: set<string>)
    requires j.JObject? && keys <= j.fields.Keys
    ensures Within(j, SortedSeq(keys)) && forall k :: k in SortedSeq(keys) <==> k in keys
  {
    assert forall k :: k in SortedSeq(keys) <==> k in Elems(SortedSeq(keys));
  }

  // ----- The entity of a value -----

  function Tree(key: string, j: Json): Entity
    decreases j, 1
  {
    match j
    case JObject(_) => Entity(key, ObjectName(j), "", [], ScalarProps(j, KeysOf(j)), ContainerTrees(j, KeysOf(j)))
    case JArray(items) => Entity(key, "", "", [], [], ItemTrees(key, items))
    case _ => Entity(key, "", "", [], [Property("value", ScalarString(j))], [])
  }

  function ScalarProps(j: Json, keys: seq<string>): seq<Property>
    requires Within(j, keys)
  {
    if keys == [] then []
    else if IsContainer(j.fields[keys[0]]) then ScalarProps(j, keys[1..])
    else [Property(keys[0], ScalarString(j.fields[keys[0]]))] + ScalarProps(j, keys[1..])
  }

  function ContainerTrees(j: Json, keys: seq<string>): seq<Entity>
    requires Within(j, keys)
    decreases j, 0, |keys|
  {
    if keys == [] then []
    else if IsContainer(j.fields[keys[0]]) then [Tree(keys[0], j.fields[keys[0]])] + ContainerTrees(j, keys[1..])
    else ContainerTrees(j, keys[1..])
  }

  function ItemTrees(key: string, items: seq<Json>): seq<Entity>
    decreases items, 0
  {
    if items == [] then [] else [Tree(key, items[0])] + ItemTrees(key, items[1..])
  }

  // ----- How deep a value nests -----

  function Max(a: nat, b: nat): nat { if a < b then b else a }

  /** Scalar fields do not deepen an object; items of any kind deepen an array. */
  function Height(j: Json): nat
    decreases j, 1
  {
    match j
    case JObject(_) => FieldsHeight(j, KeysOf(j))
    case JArray(items) => ItemsHeight(items)
    case _ => 0
  }

  function FieldsHeight(j: Json, keys: seq<string>): nat
    requires Within(j, keys)
    decreases j, 0, |keys|
  {
    if keys == [] then 0
    else Max(if IsContainer(j.fields[keys[0]]) then 1 + Height(j.fields[keys[0]]) else 0, FieldsHeight(j, keys[1..]))
  }

  function ItemsHeight(items: seq<Json>): nat
    decreases items, 0
  {
    if items == [] then 0 else Max(1 + Height(items[0]), ItemsHeight(items[1..]))
  }

  predicate FieldBelow(j: Json, k: string, n: nat)
    requires j.JObject? && k in j.fields
  {
    IsContainer(j.fields[k]) ==> Height(j.fields[k]) < n
  }

  lemma {:induction false} FieldsHeightBound(j: Json, keys: seq<string>, n: nat)
    requires Within(j, keys)
    ensures FieldsHeight(j, keys) <= n <==> forall k :: k in keys ==> FieldBelow(j, k, n)
  {
    if keys == [] {
    } else {
      FieldsHeightBound(j, keys[1..], n);
      assert forall k :: k in keys <==> k == keys[0] || k in keys[1..];
      assert FieldBelow(j, keys[0], n) || !FieldBelow(j, keys[0], n);
    }
  }

  /** An object nests no deeper than n exactly when its container fields nest less, in
      whatever order they come. */
  lemma HeightOfObject(j: Json, n: nat)
    requires j.JObject?
    ensures Height(j) <= n <==> forall k :: k in j.fields ==> FieldBelow(j, k, n)
  {
    FieldsHeightBound(j, KeysOf(j), n);
    SortedWithin(j, j.fields.Keys);
  }

  lemma {:induction false} HeightOfArray(items: seq<Json>, n: nat)
    ensures Height(JArray(items)) <= n <==> ItemsBelow(items, n)
  {
    if items == [] {
    } else {
      HeightOfArray(items[1..], n);
      assert Height(JArray(items[1..])) == ItemsHeight(items[1..]);
      ItemsBelowStep(items, n);
    }
  }

  predicate ItemsBelow(items: seq<Json>, n: nat) { forall i :: 0 <= i < |items| ==> Height(items[i]) < n }

  lemma ItemsBelowStep(items: seq<Json>, n: nat)
    requires items != []
    ensures ItemsBelow(items, n) <==> Height(items[0]) < n && ItemsBelow(items[1..], n)
  {
    assert forall i :: 0 <= i < |items| - 1 ==> items[1..][i] == items[i + 1];
  }

  // ----- The translator -----

  method SortedKeys(j: Json) returns (keys: seq<string>)
    requires j.JObject?
    ensures keys == KeysOf(j)
  {
    keys := SortSet(j.fields.Keys);
  }

  /** Walks the fields in whatever order the map gives. */
  method PartitionKeys(j: Json) returns (scalars: seq<string>, containers: seq<string>)
    requires j.JObject?
    ensures scalars == SortedSeq(ScalarKeys(j)) && containers == SortedSeq(ContainerKeys(j))
  {
    var rest := j.fields.Keys;
    scalars, containers := [], [];
    while rest != {}
      invariant rest <= j.fields.Keys && NoDup(scalars) && NoDup(containers)
      invariant Elems(scalars) == ScalarKeys(j) - rest && Elems(containers) == ContainerKeys(j) - rest
      decreases rest
    {
      var k :| k in rest;
      ElemsAppend(scalars, k);
      ElemsAppend(containers, k);
      assert k !in Elems(scalars) && k !in Elems(containers);
      if IsContainer(j.fields[k]) {
        containers := containers + [k];
      } else {
        scalars := scalars + [k];
      }
      rest := rest - {k};
    }
    assert Elems(scalars) == ScalarKeys(j) && Elems(containers) == ContainerKeys(j);
    ghost var s0, c0 := scalars, containers;
    scalars := SortStrings(scalars);
    containers := SortStrings(containers);
    SortedSetIs(s0, scalars);
    SortedSetIs(c0, containers);
  }

  /** Fails exactly when the value nests past the bound. */
  method EntityFromValue(key: string, j: Json, depth: nat) returns (r: Option<Entity>)
    ensures r == if depth + Height(j) <= MAX_DEPTH then Some(Tree(key, j)) else None
    decreases j, 1
  {
    if depth > MAX_DEPTH {
      return None;
    }
    match j
    case JObject(_) =>
      r := EntityFromObject(key, j, depth);
    case JArray(items) =>
      var children := EntitiesFromItems(key, items, depth + 1);
      r := if children.None? then None else Some(Entity(key, "", "", [], [], children.value));
    case _ =>
      r := Some(Entity(key, "", "", [], [Property("value", ScalarString(j))], []));
  }

  lemma ContainerField(j: Json, keys: seq<string>, child: Entity, children: seq<Entity>)
    requires keys != [] && Within(j, keys) && IsContainer(j.fields[keys[0]]) && child == Tree(keys[0], j.fields[keys[0]])
    ensures ScalarProps(j, keys) == ScalarProps(j, keys[1..])
    ensures children + ContainerTrees(j, keys) == (children + [child]) + ContainerTrees(j, keys[1..])
  {
  }

  lemma ScalarField(j: Json, keys: seq<string>, props: seq<Property>)
    requires keys != [] && Within(j, keys) && !IsContainer(j.fields[keys[0]])
    ensures ContainerTrees(j, keys) == ContainerTrees(j, keys[1..])
    ensures props + ScalarProps(j, keys) ==
            (props + [Property(keys[0], ScalarString(j.fields[keys[0]]))]) + ScalarProps(j, keys[1..])
  {
  }

  lemma FieldHeight(j: Json, keys: seq<string>, n: nat)
    requires keys != [] && Within(j, keys)
    ensures FieldsHeight(j, keys) <= n <==> FieldBelow(j, keys[0], n) && FieldsHeight(j, keys[1..]) <= n
  {
  }

  method EntityFromObject(key: string, j: Json, depth: nat) returns (r: Option<Entity>)
    requires j.JObject? && depth <= MAX_DEPTH
    ensures r == if depth + Height(j) <= MAX_DEPTH then Some(Tree(key, j)) else None
    decreases j, 0
  {
    var keys := SortedKeys(j);
    var ok, props, children := Fields(j, keys, depth);
    r := if ok then Some(Entity(key, ObjectName(j), "", [], props, children)) else None;
  }

  /** The loop over an object's fields. */
  method Fields(j: Json, keys: seq<string>, depth: nat) returns (ok: bool, props: seq<Property>, children: seq<Entity>)
    requires Within(j, keys) && depth <= MAX_DEPTH
    ensures ok <==> FieldsHeight(j, keys) <= MAX_DEPTH - depth
    ensures ok ==> props == ScalarProps(j, keys) && children == ContainerTrees(j, keys)
    decreases j, 0, 0
  {
    props, children := [], [];
    assert keys[0..] == keys;
    for i := 0 to |keys|
      invariant Within(j, keys[i..])
      invariant props + ScalarProps(j, keys[i..]) == ScalarProps(j, keys)
      invariant children + ContainerTrees(j, keys[i..]) == ContainerTrees(j, keys)
      invariant FieldsHeight(j, keys) <= MAX_DEPTH - depth <==> FieldsHeight(j, keys[i..]) <= MAX_DEPTH - depth
    {
      assert keys[i..][1..] == keys[i + 1..];
      FieldHeight(j, keys[i..], MAX_DEPTH - depth);
      var k := keys[i];
      if IsContainer(j.fields[k]) {
        var child := EntityFromValue(k, j.fields[k], depth + 1);
        if child.None? {
          return false, [], [];
        }
        ContainerField(j, keys[i..], child.value, children);
        children := children + [child.value];
      } else {
        ScalarField(j, keys[i..], props);
        props := props + [Property(k, ScalarString(j.fields[k]))];
      }
    }
    assert props + [] == props && children + [] == children;
    ok := true;
  }

  /** The loop over an array's items, each translated at the given depth. */
  method EntitiesFromItems(key: string, items: seq<Json>, depth: nat) returns (r: Option<seq<Entity>>)
    requires 1 <= depth <= MAX_DEPTH + 1
    ensures r == if depth - 1 + ItemsHeight(items) <= MAX_DEPTH then Some(ItemTrees(key, items)) else None
    decreases items, 0
  {
    var children: seq<Entity> := [];
    assert items[0..] == items;
    for i := 0 to |items|
      invariant children + ItemTrees(key, items[i..]) == ItemTrees(key, items)
      invariant depth - 1 + ItemsHeight(items) <= MAX_DEPTH <==> depth - 1 + ItemsHeight(items[i..]) <= MAX_DEPTH
    {
      assert items[i..][1..] == items[i + 1..];
      var child := EntityFromValue(key, items[i], depth);
      if child.None? {
        return None;
      }
      children := children + [child.value];
    }
    assert children + [] == children;
    r := Some(children);
  }

  // ----- The document -----

  /** A top-level object: its scalar fields in one entity, then its container fields. */
  function TopEntities(j: Json, scope: string, scalars: seq<string>, containers: seq<string>): seq<Entity>
    requires Within(j, scalars) && Within(j, containers)
  {
    (if |scalars| == 0 then [] else [Entity("object", scope, "", [], ScalarProps(j, scalars), [])]) +
    ContainerTrees(j, containers)
  }

  function Entities(input: Json, scope: string): seq<Entity> {
    match input
    case JObject(_) =>
      SortedWithin(input, ScalarKeys(input));
      SortedWithin(input, ContainerKeys(input));
      TopEntities(input, scope, SortedSeq(ScalarKeys(input)), SortedSeq(ContainerKeys(input)))
    case JArray(items) => [Entity("array", scope, "", [], [], ItemTrees("item", items))]
    case _ => [Entity("value", scope, "", [], [Property("value", ScalarString(input))], [])]
  }

  function Headers(source: string, scope: string, now: string): seq<Header> {
    [Header("source", source)] + (if scope == "" then [] else [Header("scope", scope)]) +
    [Header("time", now), Header("translator", TRANSLATOR_NAME)]
  }

  /** The loop over the container fields of the top-level object. */
  method EntitiesFromFields(j: Json, keys: seq<string>) returns (r: Option<seq<Entity>>)
    requires Within(j, keys) && forall k :: k in keys ==> IsContainer(j.fields[k])
    ensures r == if FieldsHeight(j, keys) <= MAX_DEPTH then Some(ContainerTrees(j, keys)) else None
  {
    var es: seq<Entity> := [];
    assert keys[0..] == keys;
    for i := 0 to |keys|
      invariant Within(j, keys[i..])
      invariant es + ContainerTrees(j, keys[i..]) == ContainerTrees(j, keys)
      invariant FieldsHeight(j, keys) <= MAX_DEPTH <==> FieldsHeight(j, keys[i..]) <= MAX_DEPTH
    {
      assert keys[i..][1..] == keys[i + 1..];
      var child := EntityFromValue(keys[i], j.fields[keys[i]], 1);
      if child.None? {
        return None;
      }
      es := es + [child.value];
    }
    assert es + [] == es;
    r := Some(es);
  }

  lemma ContainersDecideHeight(j: Json)
    requires j.JObject?
    ensures Within(j, SortedSeq(ContainerKeys(j)))
    ensures FieldsHeight(j, SortedSeq(ContainerKeys(j))) <= MAX_DEPTH <==> Height(j) <= MAX_DEPTH
  {
    var containers := SortedSeq(ContainerKeys(j));
    SortedWithin(j, ContainerKeys(j));
    FieldsHeightBound(j, containers, MAX_DEPTH);
    HeightOfObject(j, MAX_DEPTH);
  }

  /** The result is the same whatever order the maps are walked in, and there is one
      exactly when the input nests no deeper than the bound. */
  method Translate(input: Json, source: string, scope: string, now: string) returns (r: Option<Document>)
    ensures r == if Height(input) <= MAX_DEPTH
                 then Some(Document(Headers(source, scope, now), Entities(input, scope), [], []))
                 else None
  {
    var es: Option<seq<Entity>>;
    match input {
      case JObject(_) =>
        es := EntitiesFromTop(input, scope);
      case JArray(items) =>
        var children := EntitiesFromItems("item", items, 1);
        es := if children.None? then None else Some([Entity("array", scope, "", [], [], children.value)]);
      case _ =>
        es := Some([Entity("value", scope, "", [], [Property("value", ScalarString(input))], [])]);
    }
    r := if es.None? then None else Some(Document(Headers(source, scope, now), es.value, [], []));
  }

  method EntitiesFromTop(j: Json, scope: string) returns (r: Option<seq<Entity>>)
    requires j.JObject?
    ensures r == if Height(j) <= MAX_DEPTH then Some(Entities(j, scope)) else None
  {
    var scalars, containers := PartitionKeys(j);
    SortedWithin(j, ScalarKeys(j));
    SortedWithin(j, ContainerKeys(j));
    ContainersDecideHeight(j);
    r := EntitiesFromKeys(j, scope, scalars, containers);
  }

  method EntitiesFromKeys(j: Json, scope: string, scalars: seq<string>, containers: seq<string>)
      returns (r: Option<seq<Entity>>)
    requires Within(j, scalars) && forall k :: k in scalars ==> !IsContainer(j.fields[k])
    requires Within(j, containers) && forall k :: k in containers ==> IsContainer(j.fields[k])
    ensures r == if FieldsHeight(j, containers) <= MAX_DEPTH
                 then Some(TopEntities(j, scope, scalars, containers)) else None
  {
    var es: seq<Entity> := [];
    if |scalars| > 0 {
      var props := PropsOf(j, scalars);
      es := [Entity("object", scope, "", [], props, [])];
    }
    var children := EntitiesFromFields(j, containers);
    r := if children.None? then None else Some(es + children.value);
  }

  method PropsOf(j: Json, keys: seq<string>) returns (props: seq<Property>)
    requires Within(j, keys) && forall k :: k in keys ==> !IsContainer(j.fields[k])
    ensures props == ScalarProps(j, keys)
  {
    props := [];
    assert keys[0..] == keys;
    for i := 0 to |keys|
      invariant Within(j, keys[i..]) && props + ScalarProps(j, keys[i..]) == ScalarProps(j, keys)
    {
      assert keys[i..][1..] == keys[i + 1..];
      props := props + [Property(keys[i], ScalarString(j.fields[keys[i]]))];
    }
    assert props + [] == props;
  }

  // ----- Conservation -----

  /** The texts that stand for the scalars of a value, counted. */
  ghost function Leaves(j: Json): multiset<string>
    decreases j, 1
  {
    match j
    case JObject(_) => FieldLeaves(j, KeysOf(j))
    case JArray(items) => ItemLeaves(items)
    case _ => multiset{TextFor(j)}
  }

  ghost function FieldLeaves(j: Json, keys: seq<string>): multiset<string>
    requires Within(j, keys)
    decreases j, 0, |keys|
  {
    if keys == [] then multiset{} else Leaves(j.fields[keys[0]]) + FieldLeaves(j, keys[1..])
  }

  ghost function ItemLeaves(items: seq<Json>): multiset<string>
    decreases items, 0
  {
    if items == [] then multiset{} else Leaves(items[0]) + ItemLeaves(items[1..])
  }

  /** The property values of an entity and everything below it, counted. */
  ghost function Values(e: Entity): multiset<string>
    decreases e, 1
  {
    PropValues(e.inline) + PropValues(e.props) + ForestValues(e.children)
  }

  ghost function PropValues(props: seq<Property>): multiset<string> {
    if props == [] then multiset{} else multiset{props[0].value} + PropValues(props[1..])
  }

  ghost function ForestValues(es: seq<Entity>): multiset<string>
    decreases es, 0
  {
    if es == [] then multiset{} else Values(es[0]) + ForestValues(es[1..])
  }

  lemma {:induction false} ForestValuesConcat(a: seq<Entity>, b: seq<Entity>)
    ensures ForestValues(a + b) == ForestValues(a) + ForestValues(b)
  {
    if a == [] {
      assert a + b == b;
    } else {
      assert (a + b)[1..] == a[1..] + b;
      ForestValuesConcat(a[1..], b);
    }
  }

  lemma {:induction false} TreeConserves(key: string, j: Json)
    ensures Values(Tree(key, j)) == Leaves(j)
    decreases j, 1
  {
    match j
    case JObject(_) => {
      var keys := KeysOf(j);
      FieldsConserve(j, keys);
      ValuesOfParts(key, ObjectName(j), ScalarProps(j, keys), ContainerTrees(j, keys));
    }
    case JArray(items) => {
      ItemsConserve(key, items);
      ValuesOfParts(key, "", [], ItemTrees(key, items));
    }
    case _ => {
      ScalarDenotes(j);
      OneProp("value", ScalarString(j));
      ValuesOfParts(key, "", [Property("value", ScalarString(j))], []);
    }
  }

  lemma ValuesOfParts(key: string, name: string, props: seq<Property>, children: seq<Entity>)
    ensures Values(Entity(key, name, "", [], props, children)) == PropValues(props) + ForestValues(children)
  {
  }

  lemma OneProp(key: string, value: string)
    ensures PropValues([Property(key, value)]) == multiset{value}
  {
    assert [Property(key, value)][1..] == [];
  }

  lemma {:induction false} FieldsConserve(j: Json, keys: seq<string>)
    requires Within(j, keys)
    ensures PropValues(ScalarProps(j, keys)) + ForestValues(ContainerTrees(j, keys)) == FieldLeaves(j, keys)
    decreases j, 0, |keys|
  {
    if keys == [] {
    } else {
      FieldsConserve(j, keys[1..]);
      if IsContainer(j.fields[keys[0]]) {
        TreeConserves(keys[0], j.fields[keys[0]]);
        assert ContainerTrees(j, keys)[1..] == ContainerTrees(j, keys[1..]);
      } else {
        ScalarDenotes(j.fields[keys[0]]);
        assert ScalarProps(j, keys)[1..] == ScalarProps(j, keys[1..]);
      }
    }
  }

  lemma {:induction false} ItemsConserve(key: string, items: seq<Json>)
    ensures ForestValues(ItemTrees(key, items)) == ItemLeaves(items)
    decreases items, 0
  {
    if items == [] {
    } else {
      TreeConserves(key, items[0]);
      ItemsConserve(key, items[1..]);
      assert ItemTrees(key, items)[1..] == ItemTrees(key, items[1..]);
    }
  }

  lemma {:induction false} FieldLeavesConcat(j: Json, a: seq<string>, b: seq<string>)
    requires Within(j, a) && Within(j, b)
    ensures Within(j, a + b) && FieldLeaves(j, a + b) == FieldLeaves(j, a) + FieldLeaves(j, b)
  {
    if a == [] {
      assert a + b == b;
    } else {
      assert (a + b)[1..] == a[1..] + b;
      FieldLeavesConcat(j, a[1..], b);
    }
  }

  lemma FieldToFront(j: Json, before: seq<string>, k: string, after: seq<string>)
    requires Within(j, before) && Within(j, after) && k in j.fields
    ensures Within(j, before + ([k] + after)) && Within(j, before + after)
    ensures FieldLeaves(j, before + ([k] + after)) == Leaves(j.fields[k]) + FieldLeaves(j, before + after)
  {
    FieldLeavesConcat(j, before, [k] + after);
    FieldLeavesConcat(j, before, after);
    assert ([k] + after)[1..] == after;
  }

  lemma MultisetHead(x: string, rest: seq<string>)
    ensures multiset([x] + rest) == multiset{x} + multiset(rest)
  {
  }

  lemma MultisetOut(before: seq<string>, x: string, after: seq<string>)
    ensures multiset(before + ([x] + after)) == multiset{x} + multiset(before + after)
  {
    MultisetHead(x, after);
  }

  lemma CancelOne(x: string, m: multiset<string>, n: multiset<string>)
    requires multiset{x} + m == multiset{x} + n
    ensures m == n
  {
    forall y ensures m[y] == n[y] { assert (multiset{x} + m)[y] == (multiset{x} + n)[y]; }
  }

  lemma Around(b: seq<string>, x: string) returns (before: seq<string>, after: seq<string>)
    requires x in b
    ensures b == before + ([x] + after)
  {
    var i :| 0 <= i < |b| && b[i] == x;
    before, after := b[..i], b[i + 1..];
  }

  lemma TakeOut(a: seq<string>, b: seq<string>) returns (before: seq<string>, after: seq<string>)
    requires a != [] && multiset(a) == multiset(b)
    ensures b == before + ([a[0]] + after) && multiset(a[1..]) == multiset(before + after)
  {
    var x, rest := a[0], a[1..];
    assert a == [x] + rest;
    MultisetHead(x, rest);
    assert x in multiset(b);
    before, after := Around(b, x);
    MultisetOut(before, x, after);
    CancelOne(x, multiset(rest), multiset(before + after));
  }

  /** The order in which fields are counted does not matter. */
  lemma {:induction false} FieldLeavesAnyOrder(j: Json, a: seq<string>, b: seq<string>)
    requires Within(j, a) && Within(j, b) && multiset(a) == multiset(b)
    ensures FieldLeaves(j, a) == FieldLeaves(j, b)
  {
    if a == [] {
      assert |multiset(b)| == 0;
    } else {
      var before, after := TakeOut(a, b);
      assert forall k :: k in before || k in after ==> k in b;
      FieldToFront(j, before, a[0], after);
      FieldLeavesAnyOrder(j, a[1..], before + after);
    }
  }

  lemma SortedSeqMultiset(keys: set<string>)
    ensures multiset(SortedSeq(keys)) == multiset(keys)
  {
    NoDupMultiset(SortedSeq(keys));
  }

  lemma PartitionOfKeys(j: Json)
    requires j.JObject?
    ensures multiset(SortedSeq(ScalarKeys(j)) + SortedSeq(ContainerKeys(j))) == multiset(KeysOf(j))
  {
    SortedSeqMultiset(ScalarKeys(j));
    SortedSeqMultiset(ContainerKeys(j));
    SortedSeqMultiset(j.fields.Keys);
    assert multiset(ScalarKeys(j)) + multiset(ContainerKeys(j)) == multiset(j.fields.Keys);
  }

  lemma ObjectConserves(j: Json, scope: string, scalars: seq<string>, containers: seq<string>)
    requires Within(j, scalars) && forall k :: k in scalars ==> !IsContainer(j.fields[k])
    requires Within(j, containers) && forall k :: k in containers ==> IsContainer(j.fields[k])
    ensures ForestValues(TopEntities(j, scope, scalars, containers)) ==
            FieldLeaves(j, scalars) + FieldLeaves(j, containers)
  {
    var props, trees := ScalarProps(j, scalars), ContainerTrees(j, containers);
    FieldsConserve(j, scalars);
    FieldsConserve(j, containers);
    NoContainers(j, scalars);
    NoScalars(j, containers);
    if |scalars| == 0 {
      assert [] + trees == trees;
    } else {
      ScalarsFirst("object", scope, props, trees);
    }
  }

  lemma ScalarsFirst(kind: string, name: string, props: seq<Property>, trees: seq<Entity>)
    ensures ForestValues([Entity(kind, name, "", [], props, [])] + trees) == PropValues(props) + ForestValues(trees)
  {
    var e := Entity(kind, name, "", [], props, []);
    ForestValuesConcat([e], trees);
    OneEntity(e);
    ValuesOfParts(kind, name, props, []);
  }

  lemma OneEntity(e: Entity)
    ensures ForestValues([e]) == Values(e)
  {
    assert [e][1..] == [];
  }

  lemma {:induction false} NoContainers(j: Json, keys: seq<string>)
    requires Within(j, keys) && forall k :: k in keys ==> !IsContainer(j.fields[k])
    ensures ContainerTrees(j, keys) == []
  {
    if keys == [] {
    } else {
      NoContainers(j, keys[1..]);
    }
  }

  lemma {:induction false} NoScalars(j: Json, keys: seq<string>)
    requires Within(j, keys) && forall k :: k in keys ==> IsContainer(j.fields[k])
    ensures ScalarProps(j, keys) == []
  {
    if keys == [] {
    } else {
      NoScalars(j, keys[1..]);
    }
  }

  /** No value is lost or made up, and none is repeated. */
  lemma Conserves(input: Json, scope: string)
    ensures ForestValues(Entities(input, scope)) == Leaves(input)
  {
    match input
    case JObject(_) => TopConserves(input, scope);
    case JArray(items) => {
      ItemsConserve("item", items);
      OneEntity(Entity("array", scope, "", [], [], ItemTrees("item", items)));
      ValuesOfParts("array", scope, [], ItemTrees("item", items));
    }
    case _ => {
      ScalarDenotes(input);
      OneProp("value", ScalarString(input));
      OneEntity(Entity("value", scope, "", [], [Property("value", ScalarString(input))], []));
      ValuesOfParts("value", scope, [Property("value", ScalarString(input))], []);
    }
  }

  lemma TopConserves(j: Json, scope: string)
    requires j.JObject?
    ensures ForestValues(Entities(j, scope)) == Leaves(j)
  {
    var scalars, containers := SortedSeq(ScalarKeys(j)), SortedSeq(ContainerKeys(j));
    SortedWithin(j, ScalarKeys(j));
    SortedWithin(j, ContainerKeys(j));
    ObjectConserves(j, scope, scalars, containers);
    FieldLeavesConcat(j, scalars, containers);
    PartitionOfKeys(j);
    FieldLeavesAnyOrder(j, scalars + containers, KeysOf(j));
  }

  // ----- Order -----

  lemma {:induction false} PropAt(j: Json, keys: seq<string>, a: nat)
    requires Within(j, keys) && a < |ScalarProps(j, keys)|
    ensures ScalarProps(j, keys)[a].key in keys
  {
    if IsContainer(j.fields[keys[0]]) {
      PropAt(j, keys[1..], a);
    } else if a > 0 {
      PropAt(j, keys[1..], a - 1);
    }
  }

  lemma {:induction false} ChildAt(j: Json, keys: seq<string>, a: nat)
    requires Within(j, keys) && a < |ContainerTrees(j, keys)|
    ensures ContainerTrees(j, keys)[a].kind in keys
  {
    if !IsContainer(j.fields[keys[0]]) {
      ChildAt(j, keys[1..], a);
    } else if a > 0 {
      ChildAt(j, keys[1..], a - 1);
    }
  }

  predicate Precedes(x: string, y: string) { x != y && StrLe(x, y) }

  lemma {:induction false} PropsByKey(j: Json, keys: seq<string>, a: nat, b: nat)
    requires Within(j, keys) && StrictlySorted(keys) && a < b < |ScalarProps(j, keys)|
    ensures Precedes(ScalarProps(j, keys)[a].key, ScalarProps(j, keys)[b].key)
  {
    assert keys != [];
    if IsContainer(j.fields[keys[0]]) {
      PropsByKey(j, keys[1..], a, b);
    } else if a > 0 {
      PropsByKey(j, keys[1..], a - 1, b - 1);
    } else {
      PropAt(j, keys[1..], b - 1);
    }
  }

  lemma {:induction false} ChildrenByKey(j: Json, keys: seq<string>, a: nat, b: nat)
    requires Within(j, keys) && StrictlySorted(keys) && a < b < |ContainerTrees(j, keys)|
    ensures Precedes(ContainerTrees(j, keys)[a].kind, ContainerTrees(j, keys)[b].kind)
  {
    assert keys != [];
    if !IsContainer(j.fields[keys[0]]) {
      ChildrenByKey(j, keys[1..], a, b);
    } else if a > 0 {
      ChildrenByKey(j, keys[1..], a - 1, b - 1);
    } else {
      ChildAt(j, keys[1..], b - 1);
    }
  }

  /** An object's properties and its children come by key. */
  lemma ObjectInOrder(key: string, j: Json, a: nat, b: nat)
    requires j.JObject? && a < b
    ensures var e := Tree(key, j);
      && (b < |e.props| ==> Precedes(e.props[a].key, e.props[b].key))
      && (b < |e.children| ==> Precedes(e.children[a].kind, e.children[b].kind))
  {
    if b < |ScalarProps(j, KeysOf(j))| { PropsByKey(j, KeysOf(j), a, b); }
    if b < |ContainerTrees(j, KeysOf(j))| { ChildrenByKey(j, KeysOf(j), a, b); }
  }

  /** An array's items keep their order. */
  lemma {:induction false} ItemsInOrder(key: string, items: seq<Json>)
    ensures |ItemTrees(key, items)| == |items| && forall i :: 0 <= i < |items| ==> ItemTrees(key, items)[i] == Tree(key, items[i])
  {
    if items == [] {
    } else {
      ItemsInOrder(key, items[1..]);
    }
  }

  // ----- Names and headers -----

  predicate IsText(j: Json, key: string) { Get(j, key).JString? }

  /** An entity stands under its key, called by the text its object has as a name, else by
      the one it has as an id; what has neither, and what is no object, is not called
      anything. */
  lemma CalledByName(key: string, j: Json)
    ensures var e := Tree(key, j);
      && e.kind == key
      && (IsText(j, "name") ==> e.name == Get(j, "name").s)
      && (!IsText(j, "name") && IsText(j, "id") ==> e.name == Get(j, "id").s)
      && (!IsText(j, "name") && !IsText(j, "id") ==> e.name == "")
  {
  }

  /** The headers say where the document comes from, its scope if it has one, when it was
      made and by which translator. */
  lemma HeadersSay(source: string, scope: string, now: string)
    ensures var hs := Headers(source, scope, now);
      && hs[0] == Header("source", source) && hs[|hs| - 2] == Header("time", now)
      && hs[|hs| - 1] == Header("translator", "clawdlinux/generic-translator")
      && if scope == "" then |hs| == 3 else |hs| == 4 && hs[1] == Header("scope", scope)
  {
  }

  /** The entities at the top: the object of the scalar fields, called by the scope, comes
      first if there are any; an array and a scalar are called by it as well. */
  lemma TopIsCalled(input: Json, scope: string)
    ensures var es := Entities(input, scope);
      && (input.JArray? ==> |es| == 1 && es[0].kind == "array" && es[0].name == scope)
      && (!IsContainer(input) ==> |es| == 1 && es[0].kind == "value" && es[0].name == scope)
      && (input.JObject? && (exists k :: k in input.fields && !IsContainer(input.fields[k])) ==>
           es != [] && es[0].kind == "object" && es[0].name == scope && es[0].children == [])
  {
    if input.JObject? {
      if k :| k in input.fields && !IsContainer(input.fields[k]) {
        SortedWithin(input, ScalarKeys(input));
        assert k in SortedSeq(ScalarKeys(input));
      }
    }
  }

  // ----- No inferred meaning -----

  predicate Plain(e: Entity)
    decreases e, 0
  {
    e.status == "" && e.inline == [] && AllPlain(e.children)
  }

  predicate AllPlain(es: seq<Entity>)
    decreases es, 1
  {
    es == [] || (Plain(es[0]) && AllPlain(es[1..]))
  }

  lemma {:induction false} TreeIsPlain(key: string, j: Json)
    ensures Plain(Tree(key, j))
    decreases j, 1
  {
    match j
    case JObject(_) => TreesArePlain(j, KeysOf(j));
    case JArray(items) => ItemsArePlain(key, items);
    case _ =>
  }

  lemma {:induction false} TreesArePlain(j: Json, keys: seq<string>)
    requires Within(j, keys)
    ensures AllPlain(ContainerTrees(j, keys))
    decreases j, 0, |keys|
  {
    if keys == [] {
    } else {
      TreesArePlain(j, keys[1..]);
      if IsContainer(j.fields[keys[0]]) {
        TreeIsPlain(keys[0], j.fields[keys[0]]);
        assert ContainerTrees(j, keys)[1..] == ContainerTrees(j, keys[1..]);
      }
    }
  }

  lemma {:induction false} ItemsArePlain(key: string, items: seq<Json>)
    ensures AllPlain(ItemTrees(key, items))
    decreases items, 0
  {
    if items == [] {
    } else {
      TreeIsPlain(key, items[0]);
      ItemsArePlain(key, items[1..]);
      assert ItemTrees(key, items)[1..] == ItemTrees(key, items[1..]);
    }
  }

  /** No entity of the document has a status or an inline property. */
  lemma DocumentIsPlain(input: Json, scope: string)
    ensures AllPlain(Entities(input, scope))
  {
    match input
    case JObject(_) => {
      var containers := SortedSeq(ContainerKeys(input));
      SortedWithin(input, ScalarKeys(input));
      SortedWithin(input, ContainerKeys(input));
      TreesArePlain(input, containers);
      TopIsPlain(input, scope, SortedSeq(ScalarKeys(input)), containers);
    }
    case JArray(items) => {
      var e := Entity("array", scope, "", [], [], ItemTrees("item", items));
      ItemsArePlain("item", items);
      OnePlain(e);
    }
    case _ => OnePlain(Entity("value", scope, "", [], [Property("value", ScalarString(input))], []));
  }

  lemma OnePlain(e: Entity)
    requires Plain(e)
    ensures AllPlain([e])
  {
    assert [e][1..] == [];
  }

  lemma TopIsPlain(j: Json, scope: string, scalars: seq<string>, containers: seq<string>)
    requires Within(j, scalars) && Within(j, containers) && AllPlain(ContainerTrees(j, containers))
    ensures AllPlain(TopEntities(j, scope, scalars, containers))
  {
    var es := TopEntities(j, scope, scalars, containers);
    assert |scalars| == 0 ==> es == ContainerTrees(j, containers);
    assert |scalars| > 0 ==> es[1..] == ContainerTrees(j, containers);
  }

  // ----- Every value keeps its place -----

  /** A value and the keys leading to it. */
  datatype Fact = Fact(path: seq<string>, value: string)

  /** An array's items stand under the array's own key once more; a scalar that is not
      a field stands under `value`. */
  ghost function Facts(path: seq<string>, key: string, j: Json): multiset<Fact>
    decreases j, 1
  {
    match j
    case JObject(_) => FieldFacts(path + [key], j, KeysOf(j))
    case JArray(items) => ItemFacts(path + [key], key, items)
    case _ => multiset{Fact(path + [key] + ["value"], TextFor(j))}
  }

  ghost function FieldFacts(path: seq<string>, j: Json, keys: seq<string>): multiset<Fact>
    requires Within(j, keys)
    decreases j, 0, |keys|
  {
    if keys == [] then multiset{}
    else
      (if IsContainer(j.fields[keys[0]]) then Facts(path, keys[0], j.fields[keys[0]])
       else multiset{Fact(path + [keys[0]], TextFor(j.fields[keys[0]]))}) +
      FieldFacts(path, j, keys[1..])
  }

  ghost function ItemFacts(path: seq<string>, key: string, items: seq<Json>): multiset<Fact>
    decreases items, 0
  {
    if items == [] then multiset{} else Facts(path, key, items[0]) + ItemFacts(path, key, items[1..])
  }

  /** The facts an entity states: its property values, under its kind. */
  ghost function EntityFacts(path: seq<string>, e: Entity): multiset<Fact>
    decreases e, 1
  {
    PropFacts(path + [e.kind], e.props) + ForestFacts(path + [e.kind], e.children)
  }

  ghost function PropFacts(path: seq<string>, props: seq<Property>): multiset<Fact> {
    if props == [] then multiset{}
    else multiset{Fact(path + [props[0].key], props[0].value)} + PropFacts(path, props[1..])
  }

  ghost function ForestFacts(path: seq<string>, es: seq<Entity>): multiset<Fact>
    decreases es, 0
  {
    if es == [] then multiset{} else EntityFacts(path, es[0]) + ForestFacts(path, es[1..])
  }

  lemma FactsOfParts(path: seq<string>, key: string, name: string, props: seq<Property>, children: seq<Entity>)
    ensures EntityFacts(path, Entity(key, name, "", [], props, children)) ==
            PropFacts(path + [key], props) + ForestFacts(path + [key], children)
  {
  }

  lemma OneFact(path: seq<string>, key: string, value: string)
    ensures PropFacts(path, [Property(key, value)]) == multiset{Fact(path + [key], value)}
  {
    assert [Property(key, value)][1..] == [];
  }

  /** Every value keeps its keys, counted. */
  lemma {:induction false} TreePlaces(path: seq<string>, key: string, j: Json)
    ensures EntityFacts(path, Tree(key, j)) == Facts(path, key, j)
    decreases j, 1
  {
    match j
    case JObject(_) => {
      var keys := KeysOf(j);
      FieldsPlace(path + [key], j, keys);
      FactsOfParts(path, key, ObjectName(j), ScalarProps(j, keys), ContainerTrees(j, keys));
    }
    case JArray(items) => {
      ItemsPlace(path + [key], key, items);
      FactsOfParts(path, key, "", [], ItemTrees(key, items));
    }
    case _ => {
      ScalarDenotes(j);
      OneFact(path + [key], "value", ScalarString(j));
      FactsOfParts(path, key, "", [Property("value", ScalarString(j))], []);
    }
  }

  lemma {:induction false} FieldsPlace(path: seq<string>, j: Json, keys: seq<string>)
    requires Within(j, keys)
    ensures PropFacts(path, ScalarProps(j, keys)) + ForestFacts(path, ContainerTrees(j, keys)) == FieldFacts(path, j, keys)
    decreases j, 0, |keys|
  {
    if keys == [] {
    } else {
      FieldsPlace(path, j, keys[1..]);
      if IsContainer(j.fields[keys[0]]) {
        TreePlaces(path, keys[0], j.fields[keys[0]]);
        assert ContainerTrees(j, keys)[1..] == ContainerTrees(j, keys[1..]);
      } else {
        ScalarDenotes(j.fields[keys[0]]);
        assert ScalarProps(j, keys)[1..] == ScalarProps(j, keys[1..]);
      }
    }
  }

  lemma {:induction false} ItemsPlace(path: seq<string>, key: string, items: seq<Json>)
    ensures ForestFacts(path, ItemTrees(key, items)) == ItemFacts(path, key, items)
    decreases items, 0
  {
    if items == [] {
    } else {
      TreePlaces(path, key, items[0]);
      ItemsPlace(path, key, items[1..]);
      assert ItemTrees(key, items)[1..] == ItemTrees(key, items[1..]);
    }
  }

  lemma {:induction false} ForestFactsConcat(path: seq<string>, a: seq<Entity>, b: seq<Entity>)
    ensures ForestFacts(path, a + b) == ForestFacts(path, a) + ForestFacts(path, b)
  {
    if a == [] {
      assert a + b == b;
    } else {
      assert (a + b)[1..] == a[1..] + b;
      ForestFactsConcat(path, a[1..], b);
    }
  }

  lemma OneEntityFacts(path: seq<string>, kind: string, name: string, props: seq<Property>, children: seq<Entity>)
    ensures ForestFacts(path, [Entity(kind, name, "", [], props, children)]) ==
            PropFacts(path + [kind], props) + ForestFacts(path + [kind], children)
  {
    var e := Entity(kind, name, "", [], props, children);
    assert [e][1..] == [];
    FactsOfParts(path, kind, name, props, children);
  }

  /** What a document states: a top-level object's scalar fields under `object` and its
      container fields under themselves, an array's items under `array`, a scalar under
      `value`. */
  ghost function DocumentFacts(input: Json): multiset<Fact> {
    match input
    case JObject(_) =>
      SortedWithin(input, ScalarKeys(input));
      SortedWithin(input, ContainerKeys(input));
      FieldFacts(["object"], input, SortedSeq(ScalarKeys(input))) + FieldFacts([], input, SortedSeq(ContainerKeys(input)))
    case JArray(items) => ItemFacts(["array"], "item", items)
    case _ => multiset{Fact(["value"] + ["value"], TextFor(input))}
  }

  /** Every value of the input stands in the document under its keys, counted. */
  lemma DocumentPlaces(input: Json, scope: string)
    ensures ForestFacts([], Entities(input, scope)) == DocumentFacts(input)
  {
    match input
    case JObject(_) => ObjectPlaces(input, scope);
    case JArray(items) => ArrayPlaces(items, scope);
    case _ => ScalarPlaces(input, scope);
  }

  lemma ObjectPlaces(j: Json, scope: string)
    requires j.JObject?
    ensures ForestFacts([], Entities(j, scope)) == DocumentFacts(j)
  {
    SortedWithin(j, ScalarKeys(j));
    SortedWithin(j, ContainerKeys(j));
    TopPlaces(j, scope, SortedSeq(ScalarKeys(j)), SortedSeq(ContainerKeys(j)));
  }

  lemma ArrayPlaces(items: seq<Json>, scope: string)
    ensures ForestFacts([], Entities(JArray(items), scope)) == ItemFacts(["array"], "item", items)
  {
    ItemsPlace(["array"], "item", items);
    OneEntityFacts([], "array", scope, [], ItemTrees("item", items));
    assert [] + ["array"] == ["array"];
  }

  lemma ScalarPlaces(j: Json, scope: string)
    requires !IsContainer(j)
    ensures ForestFacts([], Entities(j, scope)) == multiset{Fact(["value"] + ["value"], TextFor(j))}
  {
    ScalarDenotes(j);
    OneFact(["value"], "value", ScalarString(j));
    OneEntityFacts([], "value", scope, [Property("value", ScalarString(j))], []);
    assert [] + ["value"] == ["value"];
  }

  lemma TopPlaces(j: Json, scope: string, scalars: seq<string>, containers: seq<string>)
    requires Within(j, scalars) && forall k :: k in scalars ==> !IsContainer(j.fields[k])
    requires Within(j, containers) && forall k :: k in containers ==> IsContainer(j.fields[k])
    ensures ForestFacts([], TopEntities(j, scope, scalars, containers)) ==
            FieldFacts(["object"], j, scalars) + FieldFacts([], j, containers)
  {
    var props, trees := ScalarProps(j, scalars), ContainerTrees(j, containers);
    FieldsPlace(["object"], j, scalars);
    FieldsPlace([], j, containers);
    NoContainers(j, scalars);
    NoScalars(j, containers);
    if |scalars| == 0 {
      assert [] + trees == trees;
    } else {
      ScalarsFirstFacts("object", scope, props, trees);
    }
  }

  lemma ScalarsFirstFacts(kind: string, name: string, props: seq<Property>, trees: seq<Entity>)
    ensures ForestFacts([], [Entity(kind, name, "", [], props, [])] + trees) ==
            PropFacts([kind], props) + ForestFacts([], trees)
  {
    ForestFactsConcat([], [Entity(kind, name, "", [], props, [])], trees);
    OneEntityFacts([], kind, name, props, []);
    assert [] + [kind] == [kind];
  }
}

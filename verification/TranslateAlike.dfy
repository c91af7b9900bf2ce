/** Which JSON values the generic translator cannot tell apart. */
module TranslateAlike {
  import opened Sorting
  import opened Json
  import opened Anf
  import opened GenericTranslator

  /** Both objects have the same scalar fields, and each prints the same. */
  predicate SameScalars(a: Json, b: Json)
    requires a.JObject? && b.JObject?
  {
    ScalarKeys(a) == ScalarKeys(b) &&
    forall k :: k in ScalarKeys(a) ==> ScalarString(a.fields[k]) == ScalarString(b.fields[k])
  }

  /** An object that stands for its one scalar field `value` looks like that scalar. */
  predicate BoxesScalar(j: Json, scalar: Json)
    requires !IsContainer(scalar)
  {
    j.JObject? && j.fields.Keys == {"value"} &&
    !IsContainer(j.fields["value"]) && ScalarString(j.fields["value"]) == ScalarString(scalar)
  }

  /** Whether two values under a key translate to the same entity: objects alike field by
      field and of one name, arrays alike item by item, scalars that print the same, an
      empty object and an empty array, an object of one container field under the key
      itself and an array of one such item, and a scalar and an object boxing it. */
  predicate Alike(key: string, a: Json, b: Json)
    decreases a
  {
    match (a, b)
    case (JObject(fa), JObject(fb)) =>
      ObjectName(a) == ObjectName(b) && SameScalars(a, b) && ContainerKeys(a) == ContainerKeys(b) &&
      forall k :: k in ContainerKeys(a) ==> Alike(k, fa[k], fb[k])
    case (JArray(xs), JArray(ys)) => |xs| == |ys| && forall i :: 0 <= i < |xs| ==> Alike(key, xs[i], ys[i])
    case (JObject(fa), JArray(ys)) =>
      (|fa| == 0 && |ys| == 0) ||
      (fa.Keys == {key} && IsContainer(fa[key]) && |ys| == 1 && Alike(key, fa[key], ys[0]))
    case (JArray(xs), JObject(fb)) =>
      (|xs| == 0 && |fb| == 0) ||
      (fb.Keys == {key} && IsContainer(fb[key]) && |xs| == 1 && Alike(key, xs[0], fb[key]))
    case (JArray(_), _) => false
    case (_, JArray(_)) => false
    case (JObject(_), _) => BoxesScalar(a, b)
    case (_, JObject(_)) => BoxesScalar(b, a)
    case (_, _) => ScalarString(a) == ScalarString(b)
  }

  // ----- The parts of an entity -----

  lemma {:induction false} PropIn(j: Json, keys: seq<string>, p: Property)
    requires Within(j, keys)
    ensures p in ScalarProps(j, keys) <==>
            p.key in keys && !IsContainer(j.fields[p.key]) && p.value == ScalarString(j.fields[p.key])
  {
    if keys == [] {
    } else {
      PropIn(j, keys[1..], p);
      assert p.key in keys <==> p.key == keys[0] || p.key in keys[1..];
    }
  }

  lemma TreeKind(key: string, j: Json)
    ensures Tree(key, j).kind == key
  {
  }

  lemma {:induction false} TreeIn(j: Json, keys: seq<string>, e: Entity)
    requires Within(j, keys)
    ensures e in ContainerTrees(j, keys) <==>
            e.kind in keys && IsContainer(j.fields[e.kind]) && e == Tree(e.kind, j.fields[e.kind])
  {
    if keys == [] {
    } else {
      TreeIn(j, keys[1..], e);
      TreeKind(keys[0], j.fields[keys[0]]);
      assert e.kind in keys <==> e.kind == keys[0] || e.kind in keys[1..];
    }
  }

  lemma {:induction false} ItemTreesAt(key: string, items: seq<Json>)
    ensures |ItemTrees(key, items)| == |items|
    ensures forall i :: 0 <= i < |items| ==> ItemTrees(key, items)[i] == Tree(key, items[i])
  {
    if items == [] {
    } else {
      ItemTreesAt(key, items[1..]);
    }
  }

  /** Over the same keys, lists of equal properties. */
  lemma {:induction false} EqualProps(a: Json, b: Json, keys: seq<string>)
    requires Within(a, keys) && Within(b, keys)
    requires forall k :: k in keys ==> IsContainer(a.fields[k]) == IsContainer(b.fields[k])
    requires forall k :: k in keys && !IsContainer(a.fields[k]) ==> ScalarString(a.fields[k]) == ScalarString(b.fields[k])
    ensures ScalarProps(a, keys) == ScalarProps(b, keys)
  {
    if keys == [] {
    } else {
      EqualProps(a, b, keys[1..]);
    }
  }

  lemma {:induction false} EqualTrees(a: Json, b: Json, keys: seq<string>)
    requires Within(a, keys) && Within(b, keys)
    requires forall k :: k in keys ==> IsContainer(a.fields[k]) == IsContainer(b.fields[k])
    requires forall k :: k in keys && IsContainer(a.fields[k]) ==> Tree(k, a.fields[k]) == Tree(k, b.fields[k])
    ensures ContainerTrees(a, keys) == ContainerTrees(b, keys)
  {
    if keys == [] {
    } else {
      EqualTrees(a, b, keys[1..]);
    }
  }

  // ----- Two objects -----

  /** Equal entities have equal parts. */
  predicate SameTrees(a: Json, b: Json)
    requires a.JObject? && b.JObject?
  {
    ContainerKeys(a) == ContainerKeys(b) &&
    forall k :: k in ContainerKeys(a) ==> Tree(k, a.fields[k]) == Tree(k, b.fields[k])
  }

  lemma KeysOfHas(j: Json)
    requires j.JObject?
    ensures forall k :: k in KeysOf(j) <==> k in j.fields
  {
    SortedWithin(j, j.fields.Keys);
  }

  lemma PropsShowScalars(a: Json, b: Json)
    requires a.JObject? && b.JObject? && ScalarProps(a, KeysOf(a)) == ScalarProps(b, KeysOf(b))
    ensures ScalarKeys(a) <= ScalarKeys(b)
    ensures forall k :: k in ScalarKeys(a) ==> ScalarString(a.fields[k]) == ScalarString(b.fields[k])
  {
    KeysOfHas(a);
    KeysOfHas(b);
    forall k | k in ScalarKeys(a) ensures k in ScalarKeys(b) && ScalarString(a.fields[k]) == ScalarString(b.fields[k]) {
      var p := Property(k, ScalarString(a.fields[k]));
      PropIn(a, KeysOf(a), p);
      PropIn(b, KeysOf(b), p);
    }
  }

  lemma TreesShowContainers(a: Json, b: Json)
    requires a.JObject? && b.JObject? && ContainerTrees(a, KeysOf(a)) == ContainerTrees(b, KeysOf(b))
    ensures ContainerKeys(a) <= ContainerKeys(b)
    ensures forall k :: k in ContainerKeys(a) ==> Tree(k, a.fields[k]) == Tree(k, b.fields[k])
  {
    KeysOfHas(a);
    KeysOfHas(b);
    forall k | k in ContainerKeys(a) ensures k in ContainerKeys(b) && Tree(k, a.fields[k]) == Tree(k, b.fields[k]) {
      var e := Tree(k, a.fields[k]);
      TreeKind(k, a.fields[k]);
      TreeIn(a, KeysOf(a), e);
      TreeIn(b, KeysOf(b), e);
    }
  }

  lemma SameKeys(a: Json, b: Json)
    requires a.JObject? && b.JObject? && ScalarKeys(a) == ScalarKeys(b) && ContainerKeys(a) == ContainerKeys(b)
    ensures KeysOf(a) == KeysOf(b)
    ensures forall k :: k in KeysOf(a) ==> k in a.fields && k in b.fields && IsContainer(a.fields[k]) == IsContainer(b.fields[k])
  {
    assert ScalarKeys(a) + ContainerKeys(a) == a.fields.Keys;
    assert ScalarKeys(b) + ContainerKeys(b) == b.fields.Keys;
    KeysOfHas(a);
    forall k | k in KeysOf(a) ensures k in a.fields && k in b.fields && IsContainer(a.fields[k]) == IsContainer(b.fields[k]) {
      assert k in ScalarKeys(a) || k in ContainerKeys(a);
    }
  }

  lemma PartsOfObjects(key: string, a: Json, b: Json)
    requires a.JObject? && b.JObject?
    ensures Tree(key, a) == Tree(key, b) <==>
            ObjectName(a) == ObjectName(b) && ScalarProps(a, KeysOf(a)) == ScalarProps(b, KeysOf(b)) &&
            ContainerTrees(a, KeysOf(a)) == ContainerTrees(b, KeysOf(b))
  {
  }

  lemma EqualParts(a: Json, b: Json)
    requires a.JObject? && b.JObject? && SameScalars(a, b) && SameTrees(a, b)
    ensures ScalarProps(a, KeysOf(a)) == ScalarProps(b, KeysOf(b))
    ensures ContainerTrees(a, KeysOf(a)) == ContainerTrees(b, KeysOf(b))
  {
    SameKeys(a, b);
    KeysOfHas(a);
    EqualProps(a, b, KeysOf(a));
    EqualTrees(a, b, KeysOf(a));
  }

  lemma PartsShowFields(a: Json, b: Json)
    requires a.JObject? && b.JObject? && ScalarProps(a, KeysOf(a)) == ScalarProps(b, KeysOf(b))
    requires ContainerTrees(a, KeysOf(a)) == ContainerTrees(b, KeysOf(b))
    ensures SameScalars(a, b) && SameTrees(a, b)
  {
    PropsShowScalars(a, b);
    PropsShowScalars(b, a);
    TreesShowContainers(a, b);
    TreesShowContainers(b, a);
  }

  lemma ObjectsByParts(key: string, a: Json, b: Json)
    requires a.JObject? && b.JObject?
    ensures Tree(key, a) == Tree(key, b) <==> ObjectName(a) == ObjectName(b) && SameScalars(a, b) && SameTrees(a, b)
  {
    PartsOfObjects(key, a, b);
    if Tree(key, a) == Tree(key, b) {
      PartsShowFields(a, b);
    } else if SameScalars(a, b) && SameTrees(a, b) {
      EqualParts(a, b);
    }
  }

  // ----- An object and something else -----

  /** Without fields, or with the one. */
  lemma FewKeys(j: Json, k: string)
    requires j.JObject?
    ensures j.fields.Keys == {} ==> KeysOf(j) == []
    ensures j.fields.Keys == {k} ==> KeysOf(j) == [k]
  {
    var keys := KeysOf(j);
    KeysOfHas(j);
    StrictlySortedSize(j.fields.Keys);
    if j.fields.Keys == {k} {
      assert |keys| == 1 && keys[0] in keys;
    }
  }

  lemma NameNeedsField(j: Json)
    requires j.JObject? && ScalarKeys(j) == {}
    ensures ObjectName(j) == ""
  {
    assert "name" !in ScalarKeys(j) && "id" !in ScalarKeys(j);
  }

  /** If an object's entity has children of one kind only, it has no other container. */
  lemma ContainersOfKind(key: string, j: Json)
    requires j.JObject? && forall e :: e in ContainerTrees(j, KeysOf(j)) ==> e.kind == key
    ensures ContainerKeys(j) <= {key}
  {
    KeysOfHas(j);
    forall k | k in ContainerKeys(j) ensures k == key {
      TreeKind(k, j.fields[k]);
      TreeIn(j, KeysOf(j), Tree(k, j.fields[k]));
    }
  }

  lemma NoPropsNoScalars(j: Json)
    requires j.JObject? && ScalarProps(j, KeysOf(j)) == []
    ensures ScalarKeys(j) == {}
  {
    KeysOfHas(j);
    forall k | k in ScalarKeys(j) ensures false {
      PropIn(j, KeysOf(j), Property(k, ScalarString(j.fields[k])));
    }
  }

  lemma NoTreesNoContainers(j: Json)
    requires j.JObject? && ContainerTrees(j, KeysOf(j)) == []
    ensures ContainerKeys(j) == {}
  {
    KeysOfHas(j);
    forall k | k in ContainerKeys(j) ensures false {
      TreeKind(k, j.fields[k]);
      TreeIn(j, KeysOf(j), Tree(k, j.fields[k]));
    }
  }

  /** An object without scalar fields and with no container field but under the key. */
  lemma OnlyKey(key: string, j: Json)
    requires j.JObject? && ScalarKeys(j) == {} && ContainerKeys(j) <= {key}
    ensures j.fields.Keys == {} || (j.fields.Keys == {key} && IsContainer(j.fields[key]))
  {
    assert j.fields.Keys == ScalarKeys(j) + ContainerKeys(j);
    if key in ContainerKeys(j) {
      assert j.fields.Keys == {key};
    } else {
      assert ContainerKeys(j) == {};
    }
  }

  /** An object's entity looks like an array's. */
  predicate LooksLikeArray(key: string, j: Json, items: seq<Json>)
    requires j.JObject?
  {
    (|j.fields| == 0 && |items| == 0) ||
    (j.fields.Keys == {key} && IsContainer(j.fields[key]) && |items| == 1 &&
     Tree(key, j.fields[key]) == Tree(key, items[0]))
  }

  lemma PartsLikeArray(key: string, j: Json, items: seq<Json>)
    requires j.JObject?
    ensures Tree(key, j) == Tree(key, JArray(items)) <==>
            ObjectName(j) == "" && ScalarProps(j, KeysOf(j)) == [] && ContainerTrees(j, KeysOf(j)) == ItemTrees(key, items)
  {
  }

  lemma TreesOfOne(key: string, j: Json)
    requires j.JObject? && j.fields.Keys == {key} && IsContainer(j.fields[key])
    ensures ScalarProps(j, KeysOf(j)) == [] && ContainerTrees(j, KeysOf(j)) == [Tree(key, j.fields[key])]
    ensures ScalarKeys(j) == {}
  {
    FewKeys(j, key);
    assert [key][1..] == [];
    assert ScalarProps(j, []) == [] && ContainerTrees(j, []) == [];
  }

  lemma TreesOfNone(j: Json)
    requires j.JObject? && j.fields.Keys == {}
    ensures ScalarProps(j, KeysOf(j)) == [] && ContainerTrees(j, KeysOf(j)) == [] && ScalarKeys(j) == {}
  {
    FewKeys(j, "");
  }

  lemma ObjectLikeArray(key: string, j: Json, items: seq<Json>)
    requires j.JObject?
    ensures Tree(key, j) == Tree(key, JArray(items)) <==> LooksLikeArray(key, j, items)
  {
    PartsLikeArray(key, j, items);
    ItemTreesAt(key, items);
    if Tree(key, j) == Tree(key, JArray(items)) {
      forall e | e in ContainerTrees(j, KeysOf(j)) ensures e.kind == key { ItemKind(key, items, e); }
      NoPropsNoScalars(j);
      ContainersOfKind(key, j);
      OnlyKey(key, j);
    }
    if j.fields.Keys == {} {
      TreesOfNone(j);
      NameNeedsField(j);
    } else if j.fields.Keys == {key} && IsContainer(j.fields[key]) {
      TreesOfOne(key, j);
      NameNeedsField(j);
      OneItem(key, j.fields[key], items);
    }
  }

  lemma ItemKind(key: string, items: seq<Json>, e: Entity)
    requires e in ItemTrees(key, items)
    ensures e.kind == key
  {
    ItemTreesAt(key, items);
    var i :| 0 <= i < |items| && e == Tree(key, items[i]);
    TreeKind(key, items[i]);
  }

  lemma OneItem(key: string, j: Json, items: seq<Json>)
    ensures [Tree(key, j)] == ItemTrees(key, items) <==> |items| == 1 && Tree(key, j) == Tree(key, items[0])
  {
    ItemTreesAt(key, items);
  }

  lemma PartsLikeScalar(key: string, j: Json, scalar: Json)
    requires j.JObject? && !IsContainer(scalar)
    ensures Tree(key, j) == Tree(key, scalar) <==>
            ObjectName(j) == "" && ScalarProps(j, KeysOf(j)) == [Property("value", ScalarString(scalar))] &&
            ContainerTrees(j, KeysOf(j)) == []
  {
  }

  lemma PropsOfOne(k: string, j: Json)
    requires j.JObject? && j.fields.Keys == {k} && !IsContainer(j.fields[k])
    ensures ScalarProps(j, KeysOf(j)) == [Property(k, ScalarString(j.fields[k]))] && ContainerTrees(j, KeysOf(j)) == []
  {
    FewKeys(j, k);
    assert [k][1..] == [];
    assert ScalarProps(j, []) == [] && ContainerTrees(j, []) == [];
  }

  lemma OnePropOneScalar(j: Json, k: string, value: string)
    requires j.JObject? && ScalarProps(j, KeysOf(j)) == [Property(k, value)] && ContainerKeys(j) == {}
    ensures j.fields.Keys == {k} && !IsContainer(j.fields[k]) && ScalarString(j.fields[k]) == value
  {
    KeysOfHas(j);
    PropIn(j, KeysOf(j), Property(k, value));
    forall x | x in j.fields.Keys ensures x == k {
      assert x !in ContainerKeys(j);
      PropIn(j, KeysOf(j), Property(x, ScalarString(j.fields[x])));
    }
  }

  lemma ObjectLikeScalar(key: string, j: Json, scalar: Json)
    requires j.JObject? && !IsContainer(scalar)
    ensures Tree(key, j) == Tree(key, scalar) <==> BoxesScalar(j, scalar)
  {
    PartsLikeScalar(key, j, scalar);
    if Tree(key, j) == Tree(key, scalar) {
      NoTreesNoContainers(j);
      OnePropOneScalar(j, "value", ScalarString(scalar));
    }
    if BoxesScalar(j, scalar) {
      PropsOfOne("value", j);
      assert "name" !in j.fields.Keys && "id" !in j.fields.Keys;
    }
  }

  // ----- The main result -----

  lemma ArraysByItems(key: string, xs: seq<Json>, ys: seq<Json>)
    ensures Tree(key, JArray(xs)) == Tree(key, JArray(ys)) <==>
            |xs| == |ys| && forall i :: 0 <= i < |xs| ==> Tree(key, xs[i]) == Tree(key, ys[i])
  {
    ItemTreesAt(key, xs);
    ItemTreesAt(key, ys);
    if |xs| == |ys| && forall i :: 0 <= i < |xs| ==> Tree(key, xs[i]) == Tree(key, ys[i]) {
      assert ItemTrees(key, xs) == ItemTrees(key, ys);
    }
  }

  lemma ScalarsByText(key: string, a: Json, b: Json)
    requires !IsContainer(a) && !IsContainer(b)
    ensures Tree(key, a) == Tree(key, b) <==> ScalarString(a) == ScalarString(b)
  {
    assert Tree(key, a).props[0].value == ScalarString(a) && Tree(key, b).props[0].value == ScalarString(b);
  }

  lemma ArrayIsNoScalar(key: string, items: seq<Json>, scalar: Json)
    requires !IsContainer(scalar)
    ensures Tree(key, JArray(items)) != Tree(key, scalar)
  {
    assert |Tree(key, JArray(items)).props| == 0 && |Tree(key, scalar).props| == 1;
  }

  /** Two values under a key translate to the same entity exactly when they are alike. */
  lemma {:induction false} SameEntityIffAlike(key: string, a: Json, b: Json)
    ensures Tree(key, a) == Tree(key, b) <==> Alike(key, a, b)
    decreases a
  {
    match (a, b)
    case (JObject(fa), JObject(fb)) => {
      ObjectsByParts(key, a, b);
      forall k | k in ContainerKeys(a) && k in ContainerKeys(b) ensures Tree(k, fa[k]) == Tree(k, fb[k]) <==> Alike(k, fa[k], fb[k]) {
        SameEntityIffAlike(k, fa[k], fb[k]);
      }
    }
    case (JArray(xs), JArray(ys)) => {
      ArraysByItems(key, xs, ys);
      forall i | 0 <= i < |xs| && i < |ys| ensures Tree(key, xs[i]) == Tree(key, ys[i]) <==> Alike(key, xs[i], ys[i]) {
        SameEntityIffAlike(key, xs[i], ys[i]);
      }
    }
    case (JObject(fa), JArray(ys)) => {
      ObjectLikeArray(key, a, ys);
      if key in fa && |ys| == 1 { SameEntityIffAlike(key, fa[key], ys[0]); }
    }
    case (JArray(xs), JObject(fb)) => {
      ObjectLikeArray(key, b, xs);
      if key in fb && |xs| == 1 { SameEntityIffAlike(key, xs[0], fb[key]); }
    }
    case (JArray(xs), _) => ArrayIsNoScalar(key, xs, b);
    case (_, JArray(ys)) => ArrayIsNoScalar(key, ys, a);
    case (JObject(_), _) => ObjectLikeScalar(key, a, b);
    case (_, JObject(_)) => ObjectLikeScalar(key, b, a);
    case (_, _) => ScalarsByText(key, a, b);
  }
}

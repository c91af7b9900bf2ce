/** Which JSON inputs the generic translator gives the same document. */
module DocumentsAlike {
  import opened Sorting
  import opened Text
  import opened Json
  import opened Anf
  import opened GenericTranslator
  import opened TranslateAlike

  /** Alike field by field, but for scalar fields. */
  predicate ContainersAlike(a: Json, b: Json, keys: set<string>)
    requires a.JObject? && b.JObject?
  {
    forall k :: k in keys ==> k in a.fields && k in b.fields && Alike(k, a.fields[k], b.fields[k])
  }

  /** The scalar fields of one object stand in a field `object` of the other, which comes
      first, is named like the scope and holds nothing else. */
  predicate Wraps(plain: Json, wrapped: Json, scope: string)
    requires plain.JObject? && wrapped.JObject?
  {
    && ScalarKeys(plain) != {} && ScalarKeys(wrapped) == {}
    && "object" in ContainerKeys(wrapped) && (forall k :: k in ContainerKeys(wrapped) ==> StrLe("object", k))
    && var inner := wrapped.fields["object"];
    && inner.JObject? && ContainerKeys(inner) == {} && ObjectName(inner) == scope && SameScalars(plain, inner)
    && ContainerKeys(plain) == ContainerKeys(wrapped) - {"object"}
    && ContainersAlike(plain, wrapped, ContainerKeys(plain))
  }

  /** An object of one container field `array` looks like a top-level array. */
  predicate WrapsArray(items: seq<Json>, j: Json, scope: string)
    requires j.JObject?
  {
    && scope == "" && j.fields.Keys == {"array"}
    && match j.fields["array"]
       case JArray(inner) => inner == [] && items == []
       case JObject(_) => Alike("item", j.fields["array"], JArray(items))
       case _ => false
  }

  /** An object of one field `value` that boxes a scalar looks like that scalar. */
  predicate WrapsScalar(scalar: Json, j: Json, scope: string)
    requires j.JObject? && !IsContainer(scalar)
  {
    scope == "" && j.fields.Keys == {"value"} && BoxesScalar(j.fields["value"], scalar)
  }

  predicate AlikeInputs(a: Json, b: Json, scope: string) {
    match (a, b)
    case (JObject(_), JObject(_)) =>
      if (ScalarKeys(a) == {}) == (ScalarKeys(b) == {}) then
        SameScalars(a, b) && ContainerKeys(a) == ContainerKeys(b) && ContainersAlike(a, b, ContainerKeys(a))
      else Wraps(a, b, scope) || Wraps(b, a, scope)
    case (JArray(xs), JArray(ys)) => Alike("item", a, b)
    case (JObject(_), JArray(ys)) => WrapsArray(ys, a, scope)
    case (JArray(xs), JObject(_)) => WrapsArray(xs, b, scope)
    case (JArray(_), _) => false
    case (_, JArray(_)) => false
    case (JObject(_), _) => WrapsScalar(b, a, scope)
    case (_, JObject(_)) => WrapsScalar(a, b, scope)
    case (_, _) => ScalarString(a) == ScalarString(b)
  }

  // ----- The parts of a document -----

  function ScalarSeq(j: Json): (r: seq<string>)
    requires j.JObject?
    ensures Within(j, r) && forall k :: k in r <==> k in ScalarKeys(j)
  {
    SortedWithin(j, ScalarKeys(j));
    SortedSeq(ScalarKeys(j))
  }

  function ContainerSeq(j: Json): (r: seq<string>)
    requires j.JObject?
    ensures Within(j, r) && forall k :: k in r <==> k in ContainerKeys(j)
  {
    SortedWithin(j, ContainerKeys(j));
    SortedSeq(ContainerKeys(j))
  }

  lemma PropsOfDocument(a: Json, b: Json)
    requires a.JObject? && b.JObject?
    ensures ScalarProps(a, ScalarSeq(a)) == ScalarProps(b, ScalarSeq(b)) <==> SameScalars(a, b)
  {
    if ScalarProps(a, ScalarSeq(a)) == ScalarProps(b, ScalarSeq(b)) {
      PropsTell(a, b);
      PropsTell(b, a);
    }
    if SameScalars(a, b) { EqualProps(a, b, ScalarSeq(a)); }
  }

  lemma PropsTell(a: Json, b: Json)
    requires a.JObject? && b.JObject? && ScalarProps(a, ScalarSeq(a)) == ScalarProps(b, ScalarSeq(b))
    ensures ScalarKeys(a) <= ScalarKeys(b)
    ensures forall k :: k in ScalarKeys(a) ==> ScalarString(a.fields[k]) == ScalarString(b.fields[k])
  {
    forall k | k in ScalarKeys(a) ensures k in ScalarKeys(b) && ScalarString(a.fields[k]) == ScalarString(b.fields[k]) {
      var p := Property(k, ScalarString(a.fields[k]));
      PropIn(a, ScalarSeq(a), p);
      PropIn(b, ScalarSeq(b), p);
    }
  }

  /** Lists of the trees of container fields tell their keys and trees. */
  lemma TreesTell(a: Json, b: Json, keysA: seq<string>, keysB: seq<string>)
    requires Within(a, keysA) && Within(b, keysB) && ContainerTrees(a, keysA) == ContainerTrees(b, keysB)
    requires forall k :: k in keysA ==> IsContainer(a.fields[k])
    ensures forall k :: k in keysA ==> k in keysB && IsContainer(b.fields[k]) && Tree(k, a.fields[k]) == Tree(k, b.fields[k])
  {
    forall k | k in keysA ensures k in keysB && IsContainer(b.fields[k]) && Tree(k, a.fields[k]) == Tree(k, b.fields[k]) {
      var e := Tree(k, a.fields[k]);
      TreeKind(k, a.fields[k]);
      TreeIn(a, keysA, e);
      TreeIn(b, keysB, e);
    }
  }

  lemma AlikeTrees(a: Json, b: Json, keys: set<string>)
    requires a.JObject? && b.JObject? && keys <= a.fields.Keys && keys <= b.fields.Keys
    ensures ContainersAlike(a, b, keys) <==> forall k :: k in keys ==> Tree(k, a.fields[k]) == Tree(k, b.fields[k])
  {
    forall k | k in keys ensures Tree(k, a.fields[k]) == Tree(k, b.fields[k]) <==> Alike(k, a.fields[k], b.fields[k]) {
      SameEntityIffAlike(k, a.fields[k], b.fields[k]);
    }
  }

  lemma TreesOfDocument(a: Json, b: Json)
    requires a.JObject? && b.JObject?
    ensures ContainerTrees(a, ContainerSeq(a)) == ContainerTrees(b, ContainerSeq(b)) <==>
            ContainerKeys(a) == ContainerKeys(b) && ContainersAlike(a, b, ContainerKeys(a))
  {
    if ContainerTrees(a, ContainerSeq(a)) == ContainerTrees(b, ContainerSeq(b)) {
      TreesTell(a, b, ContainerSeq(a), ContainerSeq(b));
      TreesTell(b, a, ContainerSeq(b), ContainerSeq(a));
      AlikeTrees(a, b, ContainerKeys(a));
    }
    if ContainerKeys(a) == ContainerKeys(b) && ContainersAlike(a, b, ContainerKeys(a)) {
      AlikeTrees(a, b, ContainerKeys(a));
      EqualTrees(a, b, ContainerSeq(a));
    }
  }

  /** The entity of an object's scalar fields, if it has any. */
  function Scalars(j: Json, scope: string): seq<Entity>
    requires j.JObject?
  {
    if ScalarKeys(j) == {} then [] else [Entity("object", scope, "", [], ScalarProps(j, ScalarSeq(j)), [])]
  }

  lemma DocumentOfObject(j: Json, scope: string)
    requires j.JObject?
    ensures Entities(j, scope) == Scalars(j, scope) + ContainerTrees(j, ContainerSeq(j))
  {
    StrictlySortedSize(ScalarKeys(j));
  }

  // ----- Two objects -----

  lemma {:induction false} NoTrees(j: Json, keys: seq<string>)
    requires Within(j, keys) && ContainerKeys(j) == {}
    ensures ContainerTrees(j, keys) == []
  {
    if keys == [] {
    } else {
      assert keys[0] !in ContainerKeys(j);
      NoTrees(j, keys[1..]);
    }
  }

  lemma SomeScalars(j: Json)
    requires j.JObject? && ScalarKeys(j) != {}
    ensures ScalarProps(j, ScalarSeq(j)) != []
  {
    var k :| k in ScalarKeys(j);
    PropIn(j, ScalarSeq(j), Property(k, ScalarString(j.fields[k])));
  }

  /** Both have scalar fields, or neither. */
  lemma ObjectsAlike(a: Json, b: Json, scope: string)
    requires a.JObject? && b.JObject? && ((ScalarKeys(a) == {}) == (ScalarKeys(b) == {}))
    ensures Entities(a, scope) == Entities(b, scope) <==>
            SameScalars(a, b) && ContainerKeys(a) == ContainerKeys(b) && ContainersAlike(a, b, ContainerKeys(a))
  {
    DocumentOfObject(a, scope);
    DocumentOfObject(b, scope);
    PropsOfDocument(a, b);
    TreesOfDocument(a, b);
    if ScalarKeys(a) == {} {
      assert [] + ContainerTrees(a, ContainerSeq(a)) == ContainerTrees(a, ContainerSeq(a));
      assert [] + ContainerTrees(b, ContainerSeq(b)) == ContainerTrees(b, ContainerSeq(b));
    } else {
      HeadsAndTails(Scalars(a, scope)[0], ContainerTrees(a, ContainerSeq(a)), Scalars(b, scope)[0], ContainerTrees(b, ContainerSeq(b)));
    }
  }

  /** The first container field and the others. */
  lemma FirstContainer(j: Json) returns (m: string, rest: seq<string>)
    requires j.JObject? && ContainerKeys(j) != {}
    ensures IsLeast(m, ContainerKeys(j)) && rest == SortedSeq(ContainerKeys(j) - {m}) && Within(j, rest)
    ensures ContainerTrees(j, ContainerSeq(j)) == [Tree(m, j.fields[m])] + ContainerTrees(j, rest)
  {
    LeastExists(ContainerKeys(j));
    LeastUnique(ContainerKeys(j));
    m :| IsLeast(m, ContainerKeys(j));
    rest := SortedSeq(ContainerKeys(j) - {m});
    SortedWithin(j, ContainerKeys(j) - {m});
    assert ContainerSeq(j) == [m] + rest;
    assert ContainerSeq(j)[1..] == rest;
  }

  lemma OtherContainers(a: Json, b: Json, m: string, rest: seq<string>)
    requires a.JObject? && b.JObject? && m in ContainerKeys(b) && rest == SortedSeq(ContainerKeys(b) - {m}) && Within(b, rest)
    ensures ContainerTrees(a, ContainerSeq(a)) == ContainerTrees(b, rest) <==>
            ContainerKeys(a) == ContainerKeys(b) - {m} && ContainersAlike(a, b, ContainerKeys(a))
  {
    SortedWithin(b, ContainerKeys(b) - {m});
    if ContainerTrees(a, ContainerSeq(a)) == ContainerTrees(b, rest) {
      TreesTell(a, b, ContainerSeq(a), rest);
      TreesTell(b, a, rest, ContainerSeq(a));
      AlikeTrees(a, b, ContainerKeys(a));
    }
    if ContainerKeys(a) == ContainerKeys(b) - {m} && ContainersAlike(a, b, ContainerKeys(a)) {
      AlikeTrees(a, b, ContainerKeys(a));
      EqualTrees(a, b, ContainerSeq(a));
    }
  }

  lemma AllScalars(j: Json)
    requires j.JObject? && ContainerKeys(j) == {}
    ensures KeysOf(j) == ScalarSeq(j)
  {
    forall k | k in j.fields.Keys ensures k in ScalarKeys(j) { assert k !in ContainerKeys(j); }
    assert ScalarKeys(j) == j.fields.Keys;
  }

  /** An object without container fields, whose scalar fields are all it has. */
  lemma OnlyScalars(j: Json)
    requires j.JObject?
    ensures ContainerTrees(j, KeysOf(j)) == [] <==> ContainerKeys(j) == {}
    ensures ContainerKeys(j) == {} ==> KeysOf(j) == ScalarSeq(j)
  {
    if ContainerKeys(j) == {} {
      AllScalars(j);
      NoTrees(j, KeysOf(j));
    } else if ContainerTrees(j, KeysOf(j)) == [] {
      NoTreesNoContainers(j);
    }
  }

  predicate Holds(plain: Json, inner: Json, scope: string)
    requires plain.JObject?
  {
    inner.JObject? && ContainerKeys(inner) == {} && ObjectName(inner) == scope && SameScalars(plain, inner)
  }

  lemma InnerObject(plain: Json, m: string, inner: Json, scope: string)
    requires plain.JObject? && ScalarKeys(plain) != {} && IsContainer(inner)
    ensures Scalars(plain, scope)[0] == Tree(m, inner) <==> m == "object" && Holds(plain, inner, scope)
  {
    SomeScalars(plain);
    if inner.JObject? {
      OnlyScalars(inner);
      PropsOfDocument(plain, inner);
    }
  }

  lemma WrapsByParts(a: Json, b: Json, scope: string, m: string)
    requires a.JObject? && b.JObject? && ScalarKeys(a) != {} && ScalarKeys(b) == {} && IsLeast(m, ContainerKeys(b))
    ensures Wraps(a, b, scope) <==>
            m == "object" && Holds(a, b.fields[m], scope) &&
            ContainerKeys(a) == ContainerKeys(b) - {m} && ContainersAlike(a, b, ContainerKeys(a))
  {
    LeastUnique(ContainerKeys(b));
    assert IsLeast("object", ContainerKeys(b)) <==> m == "object";
  }

  lemma OneWrapsTheOther(a: Json, b: Json, scope: string)
    requires a.JObject? && b.JObject? && ScalarKeys(a) != {} && ScalarKeys(b) == {}
    ensures Entities(a, scope) == Entities(b, scope) <==> Wraps(a, b, scope)
  {
    DocumentOfObject(a, scope);
    DocumentOfObject(b, scope);
    var treesA, treesB := ContainerTrees(a, ContainerSeq(a)), ContainerTrees(b, ContainerSeq(b));
    assert [] + treesB == treesB;
    if ContainerKeys(b) == {} {
      NoTrees(b, ContainerSeq(b));
    } else {
      var m, rest := FirstContainer(b);
      InnerObject(a, m, b.fields[m], scope);
      OtherContainers(a, b, m, rest);
      HeadsAndTails(Scalars(a, scope)[0], treesA, Tree(m, b.fields[m]), ContainerTrees(b, rest));
      WrapsByParts(a, b, scope, m);
    }
  }

  // ----- An object and something else -----

  /** The document of an object is one entity of a kind other than `object` only if one
      container field is all it has. */
  lemma OneEntity(j: Json, scope: string, e: Entity)
    requires j.JObject? && e.kind != "object"
    ensures Entities(j, scope) == [e] <==>
            exists k :: j.fields.Keys == {k} && IsContainer(j.fields[k]) && Tree(k, j.fields[k]) == e
  {
    DocumentOfObject(j, scope);
    if Entities(j, scope) == [e] { OnlyContainer(j, scope, e); }
    if k :| j.fields.Keys == {k} && IsContainer(j.fields[k]) && Tree(k, j.fields[k]) == e {
      assert ScalarKeys(j) == {} && ContainerKeys(j) == {k};
      var m, rest := FirstContainer(j);
      assert ContainerKeys(j) - {m} == {};
      assert rest == [] && ContainerTrees(j, []) == [];
    }
  }

  lemma ScalarsFirst(j: Json, scope: string)
    requires j.JObject?
    ensures ScalarKeys(j) != {} ==> Entities(j, scope) != [] && Entities(j, scope)[0].kind == "object"
  {
    DocumentOfObject(j, scope);
  }

  lemma OnlyContainer(j: Json, scope: string, e: Entity)
    requires j.JObject? && e.kind != "object" && Entities(j, scope) == [e]
    ensures e.kind in j.fields && j.fields.Keys == {e.kind} && IsContainer(j.fields[e.kind]) && Tree(e.kind, j.fields[e.kind]) == e
  {
    DocumentOfObject(j, scope);
    var trees := ContainerTrees(j, ContainerSeq(j));
    ScalarsFirst(j, scope);
    assert [] + trees == trees;
    TreeIn(j, ContainerSeq(j), e);
    forall k | k in j.fields ensures k == e.kind {
      assert k !in ScalarKeys(j);
      TreeKind(k, j.fields[k]);
      TreeIn(j, ContainerSeq(j), Tree(k, j.fields[k]));
    }
  }

  lemma KeyOfKind(j: Json, e: Entity)
    requires j.JObject?
    ensures (exists k :: j.fields.Keys == {k} && IsContainer(j.fields[k]) && Tree(k, j.fields[k]) == e) <==>
            e.kind in j.fields && j.fields.Keys == {e.kind} && IsContainer(j.fields[e.kind]) && Tree(e.kind, j.fields[e.kind]) == e
  {
    if k :| j.fields.Keys == {k} && IsContainer(j.fields[k]) && Tree(k, j.fields[k]) == e { TreeKind(k, j.fields[k]); }
  }

  /** What stands in the field `array`. */
  lemma InnerArray(inner: Json, items: seq<Json>, scope: string)
    requires IsContainer(inner)
    ensures Tree("array", inner) == Entity("array", scope, "", [], [], ItemTrees("item", items)) <==>
            scope == "" && if inner.JArray? then inner.items == [] && items == [] else Alike("item", inner, JArray(items))
  {
    ItemTreesAt("item", items);
    match inner
    case JArray(xs) =>
      ItemTreesAt("array", xs);
      if xs != [] { assert ItemTrees("array", xs)[0] == Tree("array", xs[0]); }
      if xs != [] && items != [] { assert ItemTrees("item", items)[0].kind == "item"; }
    case JObject(_) =>
      SameEntityIffAlike("item", inner, JArray(items));
      PartsLikeArray("item", inner, items);
      if ScalarProps(inner, KeysOf(inner)) == [] {
        NoPropsNoScalars(inner);
        NameNeedsField(inner);
      }
  }

  lemma ObjectAndArray(j: Json, items: seq<Json>, scope: string)
    requires j.JObject?
    ensures Entities(j, scope) == Entities(JArray(items), scope) <==> WrapsArray(items, j, scope)
  {
    var e := Entity("array", scope, "", [], [], ItemTrees("item", items));
    OneEntity(j, scope, e);
    KeyOfKind(j, e);
    if j.fields.Keys == {"array"} && IsContainer(j.fields["array"]) { InnerArray(j.fields["array"], items, scope); }
  }

  /** What stands in the field `value`. */
  lemma InnerScalar(inner: Json, scalar: Json, scope: string)
    requires IsContainer(inner) && !IsContainer(scalar)
    ensures Tree("value", inner) == Entity("value", scope, "", [], [Property("value", ScalarString(scalar))], []) <==>
            scope == "" && BoxesScalar(inner, scalar)
  {
    if inner.JObject? {
      ObjectLikeScalar("value", inner, scalar);
      PartsLikeScalar("value", inner, scalar);
      if Tree("value", inner) == Entity("value", scope, "", [], [Property("value", ScalarString(scalar))], []) {
        NoTreesNoContainers(inner);
        OnePropOneScalar(inner, "value", ScalarString(scalar));
        assert "name" !in inner.fields.Keys && "id" !in inner.fields.Keys;
      }
    }
  }

  lemma ObjectAndScalar(j: Json, scalar: Json, scope: string)
    requires j.JObject? && !IsContainer(scalar)
    ensures Entities(j, scope) == Entities(scalar, scope) <==> WrapsScalar(scalar, j, scope)
  {
    var e := Entity("value", scope, "", [], [Property("value", ScalarString(scalar))], []);
    OneEntity(j, scope, e);
    KeyOfKind(j, e);
    if j.fields.Keys == {"value"} && IsContainer(j.fields["value"]) { InnerScalar(j.fields["value"], scalar, scope); }
  }

  // ----- Arrays and scalars -----

  lemma ArraysAlike(xs: seq<Json>, ys: seq<Json>, scope: string)
    ensures Entities(JArray(xs), scope) == Entities(JArray(ys), scope) <==> Alike("item", JArray(xs), JArray(ys))
  {
    SameEntityIffAlike("item", JArray(xs), JArray(ys));
    assert Entities(JArray(xs), scope)[0].children == ItemTrees("item", xs);
    assert Entities(JArray(ys), scope)[0].children == ItemTrees("item", ys);
  }

  lemma ScalarsAlike(a: Json, b: Json, scope: string)
    requires !IsContainer(a) && !IsContainer(b)
    ensures Entities(a, scope) == Entities(b, scope) <==> ScalarString(a) == ScalarString(b)
  {
    assert Entities(a, scope)[0].props[0].value == ScalarString(a) && Entities(b, scope)[0].props[0].value == ScalarString(b);
  }

  lemma ArrayAndScalar(items: seq<Json>, scalar: Json, scope: string)
    requires !IsContainer(scalar)
    ensures Entities(JArray(items), scope) != Entities(scalar, scope)
  {
    assert Entities(JArray(items), scope)[0].kind == "array" && Entities(scalar, scope)[0].kind == "value";
  }

  // ----- The main result -----

  /** Two inputs give the same entities under a scope exactly when they are alike. */
  lemma SameDocumentIffAlike(a: Json, b: Json, scope: string)
    ensures Entities(a, scope) == Entities(b, scope) <==> AlikeInputs(a, b, scope)
  {
    match (a, b)
    case (JObject(_), JObject(_)) => BothObjects(a, b, scope);
    case (JArray(xs), JArray(ys)) => ArraysAlike(xs, ys, scope);
    case (JObject(_), JArray(ys)) => ObjectAndArray(a, ys, scope);
    case (JArray(xs), JObject(_)) => ObjectAndArray(b, xs, scope);
    case (JArray(xs), _) => ArrayAndScalar(xs, b, scope);
    case (_, JArray(ys)) => ArrayAndScalar(ys, a, scope);
    case (JObject(_), _) => ObjectAndScalar(a, b, scope);
    case (_, JObject(_)) => ObjectAndScalar(b, a, scope);
    case (_, _) => ScalarsAlike(a, b, scope);
  }

  lemma BothObjects(a: Json, b: Json, scope: string)
    requires a.JObject? && b.JObject?
    ensures Entities(a, scope) == Entities(b, scope) <==> AlikeInputs(a, b, scope)
  {
    if (ScalarKeys(a) == {}) == (ScalarKeys(b) == {}) {
      ObjectsAlike(a, b, scope);
    } else if ScalarKeys(b) == {} {
      OneWrapsTheOther(a, b, scope);
    } else {
      OneWrapsTheOther(b, a, scope);
    }
  }
}

/** What an imported tool schema still accepts once the bridge has expanded it, in terms
    of JSON Schema validation (draft 2020-12). */
module SchemaWeakening {
  import opened Text
  import opened Sorting
  import opened Json
  import opened SchemaLanguage

  // ----- Validation -----

  /** The type keyword, JSON Schema Validation section 6.1.1. */
  predicate HasType(t: string, v: Json) {
    match t
    case "string" => v.JString?
    case "integer" => v.JNumber? && v.value.Floor as real == v.value
    case "number" => v.JNumber?
    case "boolean" => v.JBool?
    case "object" => v.JObject?
    case "array" => v.JArray?
    case "null" => v.JNull?
    case _ => false
  }

  /** The keywords type (6.1.1), enum (6.1.2), required (6.5.3), items and properties.
      Other keywords only accept less; so would an original that uses them. */
  predicate Accepts(schema: Json, v: Json)
    decreases schema
  {
    schema.JObject? ==>
      && (Get(schema, "type").JString? ==> HasType(Get(schema, "type").s, v))
      && (Get(schema, "enum").JArray? ==> v in Get(schema, "enum").items)
      && (v.JArray? && "items" in schema.fields ==>
           forall i :: 0 <= i < |v.items| ==> Accepts(schema.fields["items"], v.items[i]))
      && (v.JObject? && Get(schema, "required").JArray? ==>
           forall r :: r in Get(schema, "required").items && r.JString? ==> r.s in v.fields)
      && (v.JObject? && Get(schema, "properties").JObject? ==>
           forall k :: k in schema.fields["properties"].fields && k in v.fields ==>
             Accepts(schema.fields["properties"].fields[k], v.fields[k]))
  }

  // ----- One field -----

  /** Everything the first schema accepts the second does too. */
  ghost predicate Weakens(from: Json, to: Json) { forall v :: Accepts(from, v) ==> Accepts(to, v) }

  /** A recognised field accepts no more than what compaction keeps of it. */
  lemma {:induction false} ShapeWeakens(f: Json, v: Json)
    requires Recognised(f) && Accepts(f, v)
    ensures Accepts(SchemaOf(ShapeOf(f)), v)
    decreases f
  {
    CoreIsSchemaOf(f);
    if "enum" !in f.fields && f.fields["type"] == JString("array") {
      CoreIsSchemaOf(f.fields["items"]);
      forall i | 0 <= i < |v.items| ensures Accepts(Core(f.fields["items"]), v.items[i]) {
        ShapeWeakens(f.fields["items"], v.items[i]);
      }
    }
  }

  /** The exact domain: no enum inside arrays, no bar in an enum's values, and if a
      required enum's last value ends in a question mark it is listed before as well. */
  predicate KeepsValues(s: Shape, required: bool) {
    !Innermost(s).Enum? ||
    (s.Enum? && s.values != [] && NoBars(s.values) &&
     (required && HasSuffix(Last(s.values), "?") ==> Last(s.values) in s.values[..|s.values| - 1]))
  }

  lemma EnumAccepts(values: seq<string>, v: Json)
    ensures Accepts(EnumOf(values), v) <==> v.JString? && v.s in values
  {
    var e := EnumOf(values);
    var items := seq(|values|, i requires 0 <= i < |values| => JString(values[i]));
    assert Get(e, "type") == JString("string") && Get(e, "enum") == JArray(items);
    assert Get(e, "required") == JNull && Get(e, "properties") == JNull;
    if v.JString? && v.s in values {
      var i :| 0 <= i < |values| && values[i] == v.s;
      assert items[i] == v;
    }
  }

  /** A recognised enum accepts its own values and nothing else. */
  lemma RecognisedEnumAccepts(f: Json, v: Json)
    requires Recognised(f) && "enum" in f.fields
    ensures Accepts(f, v) <==> v.JString? && v.s in SprintAll(f.fields["enum"].items)
  {
    var items := f.fields["enum"].items;
    SprintOfStrings(items);
    var values := SprintAll(items);
    if v.JString? && v.s in values {
      var i :| 0 <= i < |values| && values[i] == v.s;
      assert items[i] == v;
    }
  }

  /** The enum values the bridge offers after the importer printed them. */
  function Offered(values: seq<string>, required: bool): seq<string> {
    Split(Strip(Join(values, '|'), required), '|')
  }

  lemma {:induction false} JoinTrim(values: seq<string>)
    requires values != [] && HasSuffix(Last(values), "?")
    ensures TrimSuffix(Join(values, '|'), "?") == Join(values[..|values| - 1] + [TrimSuffix(Last(values), "?")], '|')
  {
    JoinEnds(values, '?');
    if |values| > 1 {
      var rest := values[1..];
      JoinTrim(rest);
      var trimmed := values[..|values| - 1] + [TrimSuffix(Last(values), "?")];
      assert trimmed[1..] == rest[..|rest| - 1] + [TrimSuffix(Last(rest), "?")];
      JoinEnds(rest, '?');
    } else {
      assert values[..0] + [TrimSuffix(Last(values), "?")] == [TrimSuffix(Last(values), "?")];
    }
  }

  lemma OfferedIs(values: seq<string>, required: bool)
    requires values != [] && NoBars(values)
    ensures Offered(values, required) ==
      if required && HasSuffix(Last(values), "?") then values[..|values| - 1] + [TrimSuffix(Last(values), "?")] else values
  {
    JoinEnds(values, '?');
    if required && HasSuffix(Last(values), "?") {
      JoinTrim(values);
      SplitJoin(values[..|values| - 1] + [TrimSuffix(Last(values), "?")], '|');
    } else {
      SplitJoin(values, '|');
    }
  }

  ghost predicate AllKept(values: seq<string>, offered: seq<string>) { forall x :: x in values ==> x in offered }

  lemma BarIsLost(values: seq<string>, offered: seq<string>)
    requires !NoBars(values) && NoBars(offered)
    ensures !AllKept(values, offered)
  {
    var i :| 0 <= i < |values| && '|' in values[i];
    assert values[i] in values && values[i] !in offered;
  }

  lemma LastIsKept(values: seq<string>, offered: seq<string>)
    requires values != [] && HasSuffix(Last(values), "?")
    requires offered == values[..|values| - 1] + [TrimSuffix(Last(values), "?")]
    ensures AllKept(values, offered) <==> Last(values) in values[..|values| - 1]
  {
    var init, last := values[..|values| - 1], Last(values);
    assert values == init + [last];
    ReplacedLast(init, last, TrimSuffix(last, "?"));
  }

  /** Which values survive the trip. */
  lemma OfferedKeeps(values: seq<string>, required: bool)
    requires values != []
    ensures AllKept(values, Offered(values, required)) <==> KeepsValues(Enum(values), required)
  {
    if !NoBars(values) {
      BarIsLost(values, Offered(values, required));
    } else {
      OfferedIs(values, required);
      if required && HasSuffix(Last(values), "?") { LastIsKept(values, Offered(values, required)); }
    }
  }

  lemma ReplacedLast(init: seq<string>, last: string, other: string)
    requires last != other
    ensures (forall x :: x in init + [last] ==> x in init + [other]) <==> last in init
  {
    assert last in init + [last];
  }

  /** The bridge's schema of a recognised field accepts all the original did exactly on
      this domain. */
  lemma FieldWeakens(f: Json, required: bool)
    requires Recognised(f)
    ensures Weakens(f, ExpandField(CompactField(f) + Mark(required))) <==> KeepsValues(ShapeOf(f), required)
  {
    CompactPrints(f);
    var s, g := ShapeOf(f), ExpandField(CompactField(f) + Mark(required));
    if !Innermost(s).Enum? {
      ExpandPlain(s, required);
      forall v | Accepts(f, v) ensures Accepts(g, v) { ShapeWeakens(f, v); }
    } else {
      EnumPrint(s);
      ExpandEnum(EnumTail(s), required);
      if s.Array? {
        var v := JArray([]);
        EnumAccepts(Split(Strip(EnumTail(s), required), '|'), v);
        assert Accepts(f, v) && !Accepts(g, v);
      } else {
        EnumFieldWeakens(f, required, g);
      }
    }
  }

  lemma EnumFieldWeakens(f: Json, required: bool, g: Json)
    requires Recognised(f) && "enum" in f.fields
    requires g == EnumOf(Offered(SprintAll(f.fields["enum"].items), required))
    ensures Weakens(f, g) <==> KeepsValues(Enum(SprintAll(f.fields["enum"].items)), required)
  {
    var values := SprintAll(f.fields["enum"].items);
    var offered := Offered(values, required);
    OfferedKeeps(values, required);
    if KeepsValues(Enum(values), required) {
      forall v | Accepts(f, v) ensures Accepts(g, v) {
        RecognisedEnumAccepts(f, v);
        EnumAccepts(offered, v);
      }
    } else {
      var x :| x in values && x !in offered;
      RecognisedEnumAccepts(f, JString(x));
      EnumAccepts(offered, JString(x));
      assert Accepts(f, JString(x)) && !Accepts(g, JString(x));
    }
  }

  // ----- What the words of the mini-language accept -----

  /** What a word that stands for a plain type accepts; every other word, bytes included,
      stands for a string. */
  predicate WordTakes(word: string, v: Json) {
    match word
    case "int" => v.JNumber? && v.value.Floor as real == v.value
    case "float" => v.JNumber?
    case "bool" => v.JBool?
    case "json" => v.JObject?
    case _ => v.JString?
  }

  predicate PlainWord(word: string) { !HasPrefix(word, "enum:") && !HasSuffix(word, "[]") && !HasSuffix(word, "?") }

  lemma TypeTakes(t: string, v: Json)
    ensures Accepts(TypeOnly(t), v) <==> HasType(t, v)
  {
    assert Get(TypeOnly(t), "type") == JString(t) && Get(TypeOnly(t), "enum") == JNull;
    assert Get(TypeOnly(t), "required") == JNull && Get(TypeOnly(t), "properties") == JNull;
  }

  lemma BytesTake(v: Json)
    ensures Accepts(ExpandField("bytes"), v) <==> v.JString?
  {
    var f := ExpandField("bytes");
    assert f == JObject(map["type" := JString("string"), "format" := JString("byte")]);
    assert Get(f, "type") == JString("string") && Get(f, "enum") == JNull;
    assert Get(f, "required") == JNull && Get(f, "properties") == JNull;
  }

  lemma MarkDropped(word: string, required: bool)
    requires !HasSuffix(word, "?")
    ensures TrimSuffix(word + Mark(required), "?") == word
  {
    if required { assert word + "" == word; } else { TrimSuffixOfAppend(word, "?"); }
  }

  lemma WordExpands(word: string, required: bool)
    requires PlainWord(word)
    ensures ExpandField(word + Mark(required)) == ExpandField(word)
    ensures ExpandField(word) == match word
      case "int" => TypeOnly("integer")
      case "float" => TypeOnly("number")
      case "bool" => TypeOnly("boolean")
      case "json" => TypeOnly("object")
      case "bytes" => JObject(map["type" := JString("string"), "format" := JString("byte")])
      case _ => TypeOnly("string")
  {
    MarkDropped(word, required);
  }

  /** What the bridge accepts for a field of a plain word, required or not. */
  lemma WordAccepts(word: string, required: bool, v: Json)
    requires PlainWord(word)
    ensures Accepts(ExpandField(word + Mark(required)), v) <==> WordTakes(word, v)
  {
    WordExpands(word, required);
    if word == "bytes" {
      BytesTake(v);
    } else {
      TypeTakes(if word == "int" then "integer" else if word == "float" then "number" else if word == "bool" then "boolean"
                else if word == "json" then "object" else "string", v);
    }
  }

  /** For an array it accepts lists of what it accepts for the items. */
  lemma ArrayAccepts(item: string, required: bool, v: Json)
    requires !HasPrefix(item, "enum:")
    ensures Accepts(ExpandField(item + "[]" + Mark(required)), v) <==>
            v.JArray? && forall i :: 0 <= i < |v.items| ==> Accepts(ExpandField(item), v.items[i])
  {
    ArrayExpands(item, required);
    ArrayTakes(ExpandField(item), v);
  }

  lemma ArrayTakes(item: Json, v: Json)
    ensures Accepts(ArrayOf(item), v) <==> v.JArray? && forall i :: 0 <= i < |v.items| ==> Accepts(item, v.items[i])
  {
    var f := ArrayOf(item);
    assert Get(f, "type") == JString("array") && Get(f, "enum") == JNull && f.fields["items"] == item;
    assert Get(f, "required") == JNull && Get(f, "properties") == JNull;
  }

  lemma NoEnumInFront(item: string)
    requires !HasPrefix(item, "enum:")
    ensures !HasPrefix(item + "[]", "enum:")
  {
    var whole := item + "[]";
    if |item| >= 5 {
      assert whole[..5] == item[..5];
    } else {
      assert whole[|item|] == '[' && "enum:"[|item|] != '[';
    }
  }

  lemma ArrayExpands(item: string, required: bool)
    requires !HasPrefix(item, "enum:")
    ensures ExpandField(item + "[]" + Mark(required)) == ArrayOf(ExpandField(item))
  {
    NoEnumInFront(item);
    EndsWith(item, "[]", '?');
    MarkDropped(item + "[]", required);
    TrimSuffixOfAppend(item, "[]");
  }

  /** What the importer makes of a field whose type it does not know: a string, and an array
      of strings where the items are missing. */
  lemma UnknownIsString(f: Json)
    ensures !f.JObject? ==> CompactField(f) == "string"
    ensures f.JObject? && !Get(f, "enum").JArray? && Get(f, "type") !in KNOWN ==> CompactField(f) == "string"
    ensures f.JObject? && !Get(f, "enum").JArray? && Get(f, "type") == JString("array") && "items" !in f.fields ==>
            CompactField(f) == "string" + "[]"
  {
  }

  /** The types with a word of their own. */
  const KNOWN := [JString("integer"), JString("number"), JString("boolean"), JString("object"), JString("array")]
}

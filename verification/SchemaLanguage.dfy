/** The schema mini-language: the MCP importer prints JSON Schema fields compactly
    (internal/sources/mcp/source.go) and the bridge expands them again
    (internal/bridge/bridge.go). */
module SchemaLanguage {
  import opened Text
  import opened Sorting
  import opened Json

  // ----- Printing -----

  /** The compact form of a field; anything but an object prints like a missing one. */
  function CompactField(f: Json): string
    decreases f
  {
    if !f.JObject? then "string"
    else if Get(f, "enum").JArray? && Get(f, "enum").items != [] then
      "enum:" + Join(SprintAll(Get(f, "enum").items), '|')
    else
      match Get(f, "type")
      case JString("string") => "string"
      case JString("integer") => "int"
      case JString("number") => "float"
      case JString("boolean") => "bool"
      case JString("object") => "json"
      case JString("array") => (if "items" in f.fields then CompactField(f.fields["items"]) else "string") + "[]"
      case _ => "string"
  }

  // ----- Expanding -----

  function TypeOnly(t: string): Json { JObject(map["type" := JString(t)]) }

  function EnumOf(values: seq<string>): Json {
    JObject(map["type" := JString("string"), "enum" := JArray(seq(|values|, i requires 0 <= i < |values| => JString(values[i])))])
  }

  function ArrayOf(item: Json): Json {
    JObject(map["type" := JString("array"), "items" := item])
  }

  function ExpandField(compact: string): Json
    decreases |compact|
  {
    var c := TrimSuffix(compact, "?");
    if HasPrefix(c, "enum:") then EnumOf(Split(TrimPrefix(c, "enum:"), '|'))
    else if HasSuffix(c, "[]") then ArrayOf(ExpandField(TrimSuffix(c, "[]")))
    else if c == "string" then TypeOnly("string")
    else if c == "int" then TypeOnly("integer")
    else if c == "float" then TypeOnly("number")
    else if c == "bool" then TypeOnly("boolean")
    else if c == "json" then TypeOnly("object")
    else if c == "bytes" then JObject(map["type" := JString("string"), "format" := JString("byte")])
    else TypeOnly("string")
  }

  // ----- What compaction keeps of a field -----

  datatype Base = Str | Int | Float | Bool | Obj

  datatype Shape = Scalar(base: Base) | Enum(values: seq<string>) | Array(item: Shape)

  function BaseName(b: Base): string {
    match b case Str => "string" case Int => "int" case Float => "float" case Bool => "bool" case Obj => "json"
  }

  function TypeName(b: Base): string {
    match b case Str => "string" case Int => "integer" case Float => "number" case Bool => "boolean" case Obj => "object"
  }

  function Print(s: Shape): string {
    match s
    case Scalar(b) => BaseName(b)
    case Enum(values) => "enum:" + Join(values, '|')
    case Array(item) => Print(item) + "[]"
  }

  function SchemaOf(s: Shape): Json {
    match s
    case Scalar(b) => TypeOnly(TypeName(b))
    case Enum(values) => EnumOf(values)
    case Array(item) => ArrayOf(SchemaOf(item))
  }

  function ShapeOf(f: Json): Shape
    decreases f
  {
    if !f.JObject? then Scalar(Str)
    else if Get(f, "enum").JArray? && Get(f, "enum").items != [] then Enum(SprintAll(Get(f, "enum").items))
    else
      match Get(f, "type")
      case JString("integer") => Scalar(Int)
      case JString("number") => Scalar(Float)
      case JString("boolean") => Scalar(Bool)
      case JString("object") => Scalar(Obj)
      case JString("array") => Array(if "items" in f.fields then ShapeOf(f.fields["items"]) else Scalar(Str))
      case _ => Scalar(Str)
  }

  lemma {:induction false} CompactPrints(f: Json)
    ensures CompactField(f) == Print(ShapeOf(f))
    decreases f
  {
    if f.JObject? && !(Get(f, "enum").JArray? && Get(f, "enum").items != []) && Get(f, "type") == JString("array") && "items" in f.fields {
      CompactPrints(f.fields["items"]);
    }
  }

  function Innermost(s: Shape): Shape {
    if s.Array? then Innermost(s.item) else s
  }

  /** The mark of an optional field. */
  function Mark(required: bool): string { if required then "" else "?" }

  // ----- What expanding a printed shape yields -----

  lemma EndsWith(s: string, t: string, c: char)
    requires t != ""
    ensures HasSuffix(s + t, [c]) <==> t[|t| - 1] == c
  {
    assert (s + t)[|s + t| - 1..] == [t[|t| - 1]];
  }

  /** No printed form but an enum's ends in a question mark or looks like an enum. */
  lemma {:induction false} PlainPrint(s: Shape)
    requires !Innermost(s).Enum?
    ensures Print(s) != "" && Print(s)[0] != 'e' && !HasSuffix(Print(s), "?")
    ensures HasSuffix(Print(s), "[]") <==> s.Array?
  {
    if !s.Array? {
    } else {
      PlainPrint(s.item);
      EndsWith(Print(s.item), "[]", '?');
      TrimSuffixOfAppend(Print(s.item), "[]");
      assert Print(s)[0] == Print(s.item)[0];
    }
  }

  /** What follows "enum:" in the printed form of a shape that ends in an enum. */
  function EnumTail(s: Shape): string
    requires Innermost(s).Enum?
  {
    match s
    case Enum(values) => Join(values, '|')
    case Array(item) => EnumTail(item) + "[]"
    case Scalar(_) => ""
  }

  lemma {:induction false} EnumPrint(s: Shape)
    requires Innermost(s).Enum?
    ensures Print(s) == "enum:" + EnumTail(s)
  {
    if s.Enum? {
    } else {
      EnumPrint(s.item);
    }
  }

  /** The tail as the expander sees it: it takes one question mark for the optional mark. */
  function Strip(tail: string, required: bool): string {
    if required then TrimSuffix(tail, "?") else tail
  }

  lemma ExpandEnum(tail: string, required: bool)
    ensures TrimSuffix("enum:" + tail + Mark(required), "?") == "enum:" + Strip(tail, required)
    ensures ExpandField("enum:" + tail + Mark(required)) == EnumOf(Split(Strip(tail, required), '|'))
  {
    var c := "enum:" + tail;
    if required {
      assert c + "" == c;
      if tail == "" { assert c == "enum:"; } else { EndsWith("enum:", tail, '?'); EndsWith("", tail, '?'); assert "" + tail == tail; }
    } else {
      TrimSuffixOfAppend(c, "?");
    }
    assert ("enum:" + Strip(tail, required))[5..] == Strip(tail, required);
  }

  lemma {:induction false} ExpandPlain(s: Shape, required: bool)
    requires !Innermost(s).Enum?
    ensures TrimSuffix(Print(s) + Mark(required), "?") == Print(s)
    ensures ExpandField(Print(s) + Mark(required)) == SchemaOf(s)
    decreases s
  {
    PlainPrint(s);
    assert Print(s) + "" == Print(s);
    TrimSuffixOfAppend(Print(s), "?");
    if s.Scalar? {
    } else {
      ExpandPlain(s.item, true);
      assert Print(s.item) + "" == Print(s.item);
      TrimSuffixOfAppend(Print(s.item), "[]");
    }
  }

  lemma EnumOfInjective(a: seq<string>, b: seq<string>)
    ensures EnumOf(a) == EnumOf(b) ==> a == b
  {
    if EnumOf(a) == EnumOf(b) {
      var x, y := EnumOf(a).fields["enum"].items, EnumOf(b).fields["enum"].items;
      forall i | 0 <= i < |a| ensures |a| == |b| && a[i] == b[i] { assert x[i] == y[i]; }
    }
  }

  lemma EnumIsNoArray(values: seq<string>, item: Json)
    ensures EnumOf(values) != ArrayOf(item)
  {
    assert Get(EnumOf(values), "type") == JString("string") && Get(ArrayOf(item), "type") == JString("array");
  }

  // ----- The domain of inversion -----

  predicate NoBars(values: seq<string>) { forall i :: 0 <= i < |values| ==> '|' !in values[i] }

  /** Scalars, arrays of them to any depth, and enums outside arrays whose values hold no
      bar; a required enum's last value may not end in a question mark. */
  predicate Invertible(s: Shape, required: bool) {
    !Innermost(s).Enum? ||
    (s.Enum? && s.values != [] && NoBars(s.values) && (required ==> !HasSuffix(Last(s.values), "?")))
  }

  lemma {:induction false} JoinEnds(values: seq<string>, c: char)
    requires values != [] && c != '|'
    ensures HasSuffix(Join(values, '|'), [c]) <==> HasSuffix(Last(values), [c])
  {
    if |values| > 1 {
      var rest := values[1..];
      JoinEnds(rest, c);
      var j := Join(rest, '|');
      assert Join(values, '|') == (values[0] + "|") + j;
      if j == "" { EndsWith(values[0], "|", c); assert (values[0] + "|") + j == values[0] + "|"; }
      else { EndsWith(values[0] + "|", j, c); EndsWith("", j, c); assert "" + j == j; }
    }
  }

  /** Expanding undoes printing exactly on that domain. */
  lemma ExpandInvertsPrint(s: Shape, required: bool)
    ensures ExpandField(Print(s) + Mark(required)) == SchemaOf(s) <==> Invertible(s, required)
  {
    if !Innermost(s).Enum? {
      ExpandPlain(s, required);
    } else {
      EnumPrint(s);
      ExpandEnum(EnumTail(s), required);
      if s.Enum? {
        EnumInverts(s.values, required);
      } else {
        EnumIsNoArray(Split(Strip(EnumTail(s), required), '|'), SchemaOf(s.item));
      }
    }
  }

  lemma EnumInverts(values: seq<string>, required: bool)
    ensures EnumOf(Split(Strip(Join(values, '|'), required), '|')) == EnumOf(values) <==> Invertible(Enum(values), required)
  {
    var j := Join(values, '|');
    var x := Strip(j, required);
    EnumOfInjective(Split(x, '|'), values);
    SplitJoin(values, '|');
    if values != [] && required { JoinEnds(values, '?'); }
    JoinSplit(x, '|');
  }

  // ----- One trip reaches a fixed point -----

  lemma {:induction false} SprintStrings(values: seq<string>)
    ensures SprintAll(seq(|values|, i requires 0 <= i < |values| => JString(values[i]))) == values
  {
    if values == [] {
    } else {
      var items := seq(|values|, i requires 0 <= i < |values| => JString(values[i]));
      SprintStrings(values[1..]);
      assert items[1..] == seq(|values[1..]|, i requires 0 <= i < |values[1..]| => JString(values[1..][i]));
    }
  }

  lemma CompactEnumOf(values: seq<string>)
    requires values != []
    ensures CompactField(EnumOf(values)) == "enum:" + Join(values, '|')
  {
    SprintStrings(values);
    var items := seq(|values|, i requires 0 <= i < |values| => JString(values[i]));
    assert Get(EnumOf(values), "enum") == JArray(items);
    assert |items| != 0;
  }

  lemma {:induction false} CompactSchemaOf(s: Shape)
    requires !Innermost(s).Enum?
    ensures CompactField(SchemaOf(s)) == Print(s)
  {
    if s.Array? { CompactSchemaOf(s.item); }
  }

  /** Compacting an expansion gives the compact form back, less one question mark at its
      end, for every field whatever. */
  lemma CompactionIsStable(f: Json, required: bool)
    ensures var c := CompactField(f) + Mark(required); CompactField(ExpandField(c)) == TrimSuffix(c, "?")
  {
    CompactPrints(f);
    var s := ShapeOf(f);
    if Innermost(s).Enum? {
      EnumPrint(s);
      ExpandEnum(EnumTail(s), required);
      CompactEnumOf(Split(Strip(EnumTail(s), required), '|'));
      JoinSplit(Strip(EnumTail(s), required), '|');
    } else {
      ExpandPlain(s, required);
      CompactSchemaOf(s);
    }
  }

  // ----- The importer and the bridge at the level of one field -----

  predicate AllStrings(items: seq<Json>) { forall i :: 0 <= i < |items| ==> items[i].JString? }

  /** A field whose type the importer knows all the way down: a plain type, a list of
      string values, or an array of such fields. */
  predicate Recognised(f: Json)
    decreases f
  {
    && f.JObject?
    && (if "enum" in f.fields then
          Get(f, "type") == JString("string") && f.fields["enum"].JArray? && f.fields["enum"].items != [] &&
          AllStrings(f.fields["enum"].items)
        else if Get(f, "type") == JString("array") then "items" in f.fields && Recognised(f.fields["items"])
        else Get(f, "type") in [JString("string"), JString("integer"), JString("number"), JString("boolean"), JString("object")])
  }

  /** The part of a field the mini-language speaks of: type, enum, and the items of an array. */
  function Core(f: Json): Json
    requires Recognised(f)
    decreases f
  {
    if "enum" in f.fields then JObject(map["type" := f.fields["type"], "enum" := f.fields["enum"]])
    else if f.fields["type"] == JString("array") then JObject(map["type" := f.fields["type"], "items" := Core(f.fields["items"])])
    else JObject(map["type" := f.fields["type"]])
  }

  lemma SprintOfStrings(items: seq<Json>)
    requires AllStrings(items)
    ensures items == seq(|items|, i requires 0 <= i < |items| => JString(SprintAll(items)[i]))
    decreases |items|
  {
    if items != [] {
      SprintOfStrings(items[1..]);
      forall i | 0 <= i < |items| ensures items[i] == JString(SprintAll(items)[i]) {
        if i > 0 { assert items[1..][i - 1] == JString(SprintAll(items[1..])[i - 1]); }
      }
    }
  }

  lemma {:induction false} CoreIsSchemaOf(f: Json)
    requires Recognised(f)
    ensures Core(f) == SchemaOf(ShapeOf(f))
    decreases f
  {
    if "enum" in f.fields {
      SprintOfStrings(f.fields["enum"].items);
    } else if f.fields["type"] == JString("array") {
      CoreIsSchemaOf(f.fields["items"]);
    }
  }

  /** Importing and re-expanding a recognised field gives back its type, enum and items
      exactly when its shape is in the domain of inversion. */
  lemma FieldRoundTrip(f: Json, required: bool)
    requires Recognised(f)
    ensures ExpandField(CompactField(f) + Mark(required)) == Core(f) <==> Invertible(ShapeOf(f), required)
  {
    CompactPrints(f);
    CoreIsSchemaOf(f);
    ExpandInvertsPrint(ShapeOf(f), required);
  }
}

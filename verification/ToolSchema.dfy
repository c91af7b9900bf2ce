/** Whole tool schemas: the importer's compactSchema (internal/sources/mcp/source.go) and
    the bridge's toolToMCP (internal/bridge/bridge.go). */
module ToolSchema {
  import opened Text
  import opened Sorting
  import opened Json
  import opened SchemaLanguage
  import opened SchemaWeakening

  // ----- Compacting -----

  /** The declared properties; none if the schema has no property object. */
  function Props(schema: Json): map<string, Json> {
    var p := Get(schema, "properties");
    if p.JObject? then p.fields else map[]
  }

  function RequiredNames(schema: Json): set<string> {
    var r := Get(schema, "required");
    if r.JArray? then set x | x in r.items && x.JString? :: x.s else {}
  }

  function CompactProp(schema: Json, name: string): string
    requires name in Props(schema)
  {
    CompactField(Props(schema)[name]) + Mark(name in RequiredNames(schema))
  }

  function Compacted(schema: Json): map<string, string> {
    map name | name in Props(schema) :: CompactProp(schema, name)
  }

  method RequiredSet(schema: Json) returns (names: set<string>)
    ensures names == RequiredNames(schema)
  {
    names := {};
    var raw := Get(schema, "required");
    if !raw.JArray? {
      return;
    }
    for i := 0 to |raw.items|
      invariant names == set x | x in raw.items[..i] && x.JString? :: x.s
    {
      assert raw.items[..i + 1] == raw.items[..i] + [raw.items[i]];
      if raw.items[i].JString? { names := names + {raw.items[i].s}; }
    }
    assert raw.items[..|raw.items|] == raw.items;
  }

  /** Walks the property map in no particular order. */
  method CompactSchema(schema: Json) returns (out: map<string, string>)
    ensures out == Compacted(schema)
  {
    out := map[];
    var props := Props(schema);
    var required := RequiredSet(schema);
    var rest := props.Keys;
    while rest != {}
      invariant rest <= props.Keys
      invariant out == map name | name in props.Keys - rest :: CompactProp(schema, name)
      decreases rest
    {
      var name :| name in rest;
      var compact := CompactField(props[name]);
      if name !in required { compact := compact + "?"; }
      AppendNothing(CompactField(props[name]));
      out := out[name := compact];
      rest := rest - {name};
    }
  }

  lemma AppendNothing(s: string)
    ensures s + "" == s
  {
  }

  // ----- Expanding -----

  datatype McpTool = McpTool(name: string, description: string, inputSchema: Json)

  function RequiredFields(compact: map<string, string>): set<string> {
    set f | f in compact && !HasSuffix(compact[f], "?")
  }

  function Names(required: seq<string>): Json {
    JArray(seq(|required|, i requires 0 <= i < |required| => JString(required[i])))
  }

  /** The schema the bridge serves for a compact schema, its required fields listed in
      the order the map walk met them. */
  function InputSchema(compact: map<string, string>, required: seq<string>): Json {
    ObjectSchema(map f | f in compact :: ExpandField(compact[f]), required)
  }

  function ObjectSchema(properties: map<string, Json>, required: seq<string>): Json {
    var fields := map["type" := JString("object"), "properties" := JObject(properties)];
    JObject(if required == [] then fields else fields["required" := Names(required)])
  }

  /** The required fields, each once, in some order. */
  ghost predicate ListsRequired(compact: map<string, string>, required: seq<string>) {
    NoDup(required) && Elems(required) == RequiredFields(compact)
  }

  ghost predicate Rendering(id: string, compact: map<string, string>, tool: McpTool) {
    exists required :: ListsRequired(compact, required) &&
      tool == McpTool(id, "[ACP-compacted] " + id, InputSchema(compact, required))
  }

  /** What the map walk has collected once it has been through some fields. */
  function Expanded(compact: map<string, string>, seen: set<string>): map<string, Json> {
    map f | f in compact && f in seen :: ExpandField(compact[f])
  }

  function RequiredIn(compact: map<string, string>, seen: set<string>): set<string> {
    set f | f in compact && f in seen && !HasSuffix(compact[f], "?")
  }

  lemma WalkStep(compact: map<string, string>, seen: set<string>, field: string)
    requires field in compact && field !in seen
    ensures Expanded(compact, seen + {field}) == Expanded(compact, seen)[field := ExpandField(compact[field])]
    ensures RequiredIn(compact, seen + {field}) ==
            RequiredIn(compact, seen) + if HasSuffix(compact[field], "?") then {} else {field}
    ensures field !in RequiredIn(compact, seen)
  {
  }

  lemma WalkDone(compact: map<string, string>)
    ensures Expanded(compact, compact.Keys) == map f | f in compact :: ExpandField(compact[f])
    ensures RequiredIn(compact, compact.Keys) == RequiredFields(compact)
  {
  }

  method ToolToMcp(id: string, compact: map<string, string>) returns (tool: McpTool)
    ensures Rendering(id, compact, tool)
  {
    var properties: map<string, Json> := map[];
    var listed: seq<string> := [];
    var rest := compact.Keys;
    ghost var seen := {};
    while rest != {}
      invariant seen !! rest && seen + rest == compact.Keys
      invariant properties == Expanded(compact, seen)
      invariant NoDup(listed) && Elems(listed) == RequiredIn(compact, seen)
      decreases rest
    {
      var field :| field in rest;
      WalkStep(compact, seen, field);
      MoveOne(seen, rest, field);
      var prop := ExpandField(compact[field]);
      if !HasSuffix(compact[field], "?") {
        assert field !in Elems(listed);
        ElemsAppend(listed, field);
        listed := listed + [field];
      }
      properties := properties[field := prop];
      seen, rest := seen + {field}, rest - {field};
    }
    WalkDone(compact);
    assert ListsRequired(compact, listed);
    return McpTool(id, "[ACP-compacted] " + id, ObjectSchema(properties, listed));
  }

  // ----- The re-expanded schema only weakens -----

  /** The schema declares a property of the name. */
  predicate Declares(schema: Json, name: string) {
    Get(schema, "properties").JObject? && name in Get(schema, "properties").fields
  }

  /** The schema lists the name as required. */
  predicate Requires(schema: Json, name: string) {
    Get(schema, "required").JArray? && JString(name) in Get(schema, "required").items
  }

  lemma RequiredIsListed(schema: Json, name: string)
    ensures name in RequiredNames(schema) <==> Requires(schema, name)
  {
  }

  /** Every declared property is kept, in its compact form, marked when it is not required. */
  lemma FieldsKept(schema: Json, name: string)
    ensures name in Compacted(schema) <==> Declares(schema, name)
    ensures Declares(schema, name) ==>
      Compacted(schema)[name] == CompactField(Get(schema, "properties").fields[name]) + Mark(Requires(schema, name))
  {
    RequiredIsListed(schema, name);
  }

  /** Required fields: those declared, required, and not mistaken for optional because
      their compact form ends in a question mark. */
  lemma RequiredKept(schema: Json, name: string)
    ensures name in RequiredFields(Compacted(schema)) <==>
      Declares(schema, name) && Requires(schema, name) && !HasSuffix(CompactField(Get(schema, "properties").fields[name]), "?")
  {
    RequiredIsListed(schema, name);
    if name in Props(schema) {
      var c := CompactField(Props(schema)[name]);
      AppendNothing(c);
      TrimSuffixOfAppend(c, "?");
    }
  }

  /** The forms mistaken for optional are enums whose last value ends in a question mark. */
  lemma MistakenForOptional(f: Json)
    ensures HasSuffix(CompactField(f), "?") <==> ShapeOf(f).Enum? && HasSuffix(Last(ShapeOf(f).values), "?")
  {
    CompactPrints(f);
    var s := ShapeOf(f);
    if !Innermost(s).Enum? {
      PlainPrint(s);
    } else if s.Array? {
      EndsWith(Print(s.item), "[]", '?');
    } else {
      var j := Join(s.values, '|');
      JoinEnds(s.values, '?');
      if j == "" { assert "enum:" + j == "enum:"; } else { EndsWith("enum:", j, '?'); EndsWith("", j, '?'); assert "" + j == j; }
    }
  }

  ghost predicate InDomain(schema: Json) {
    forall name :: name in Props(schema) ==>
      Recognised(Props(schema)[name]) && KeepsValues(ShapeOf(Props(schema)[name]), name in RequiredNames(schema))
  }

  lemma ObjectSchemaAccepts(properties: map<string, Json>, required: seq<string>, v: Json)
    requires v.JObject?
    ensures Accepts(ObjectSchema(properties, required), v) <==>
      (forall r :: r in required ==> r in v.fields) &&
      (forall k :: k in properties && k in v.fields ==> Accepts(properties[k], v.fields[k]))
  {
    var s := ObjectSchema(properties, required);
    assert Get(s, "type") == JString("object") && Get(s, "enum") == JNull;
    assert Get(s, "properties") == JObject(properties);
    var names := Names(required).items;
    if required == [] {
      assert Get(s, "required") == JNull;
    } else {
      assert Get(s, "required") == JArray(names);
      forall r | r in required ensures JString(r) in names {
        var i :| 0 <= i < |required| && required[i] == r;
        assert names[i] == JString(r);
      }
    }
  }

  /** Every argument object the tool's own schema accepts, the bridge's does. */
  lemma ToolSchemaWeakens(schema: Json, required: seq<string>, v: Json)
    requires InDomain(schema)
    requires Elems(required) == RequiredFields(Compacted(schema))
    requires v.JObject? && Accepts(schema, v)
    ensures Accepts(InputSchema(Compacted(schema), required), v)
  {
    var compact := Compacted(schema);
    var properties := map f | f in compact :: ExpandField(compact[f]);
    forall r | r in required ensures r in v.fields {
      assert r in RequiredFields(compact);
      RequiredKept(schema, r);
      var x :| x in Get(schema, "required").items && x.JString? && x.s == r;
    }
    forall k | k in properties && k in v.fields ensures Accepts(properties[k], v.fields[k]) {
      FieldWeakens(Props(schema)[k], k in RequiredNames(schema));
      assert Accepts(Props(schema)[k], v.fields[k]);
    }
    ObjectSchemaAccepts(properties, required, v);
  }
}

/** Decoded JSON values. */
module Json {
  import opened Wrappers
  import opened Text
  import opened Sorting

  /** A number carries its value and the text it prints as, which Go's formatting
      fixes and this model leaves open. */
  datatype Json =
    | JNull
    | JBool(b: bool)
    | JNumber(value: real, text: string)
    | JString(s: string)
    | JArray(items: seq<Json>)
    | JObject(fields: map<string, Json>)

  /** Indexing a Go map that may be nil or lack the key. */
  function Get(j: Json, key: string): (r: Json)
    ensures r == JNull || (j.JObject? && key in j.fields && r == j.fields[key])
  {
    if j.JObject? && key in j.fields then j.fields[key] else JNull
  }

  // ----- Reading scalars back -----

  /** The literal names null, true and false (section 3 of RFC 8259). */
  function ReadLiteral(text: string): Option<Json> {
    if text == "null" then Some(JNull)
    else if text == "true" then Some(JBool(true))
    else if text == "false" then Some(JBool(false))
    else None
  }

  /** The text stands for the scalar: a string for itself, a number as it is written, a
      literal for what it names. */
  predicate Denotes(text: string, j: Json) {
    match j
    case JString(s) => text == s
    case JNumber(_, written) => text == written
    case JArray(_) => false
    case JObject(_) => false
    case _ => ReadLiteral(text) == Some(j)
  }

  lemma OneTextDenotes(j: Json)
    requires !j.JArray? && !j.JObject?
    ensures exists text :: Denotes(text, j)
    ensures forall a, b :: Denotes(a, j) && Denotes(b, j) ==> a == b
  {
    match j
    case JNull => assert Denotes("null", j);
    case JBool(b) => if b { assert Denotes("true", j); } else { assert Denotes("false", j); }
    case JNumber(_, written) => assert Denotes(written, j);
    case JString(s) => assert Denotes(s, j);
  }

  /** The text that stands for a scalar. */
  ghost function TextFor(j: Json): (text: string)
    requires !j.JArray? && !j.JObject?
    ensures Denotes(text, j)
  {
    OneTextDenotes(j);
    var text :| Denotes(text, j);
    text
  }

  /** fmt.Sprint. */
  function Sprint(j: Json): string
    decreases j, 0
  {
    match j
    case JNull => "<nil>"
    case JBool(b) => if b then "true" else "false"
    case JNumber(_, text) => text
    case JString(s) => s
    case JArray(items) => "[" + Join(SprintAll(items), ' ') + "]"
    case JObject(fields) => "map[" + Join(SprintFields(j, SortedSeq(fields.Keys)), ' ') + "]"
  }

  function SprintAll(items: seq<Json>): (r: seq<string>)
    ensures |r| == |items|
    decreases items, 1
  {
    if items == [] then [] else [Sprint(items[0])] + SprintAll(items[1..])
  }

  function SprintFields(j: Json, keys: seq<string>): seq<string>
    decreases j, 0, |keys|
  {
    if keys == [] || !j.JObject? || keys[0] !in j.fields then []
    else [keys[0] + ":" + Sprint(j.fields[keys[0]])] + SprintFields(j, keys[1..])
  }

  /** Printing leaves strings, numbers and booleans readable. */
  lemma SprintDenotes(j: Json)
    requires j.JString? || j.JNumber? || j.JBool?
    ensures Denotes(Sprint(j), j)
  {
  }
}

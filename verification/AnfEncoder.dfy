/** The ANF printer (pkg/anf/encoder.go): every writer appends to one string builder. */
module AnfEncoder {
  import opened Text
  import opened Sorting
  import opened Anf

  // ----- What is printed -----

  function Indent(depth: nat): string { if depth == 0 then "" else "  " + Indent(depth - 1) }

  function InlineText(props: seq<Property>): string {
    if props == [] then "" else " " + props[0].key + ":" + props[0].value + InlineText(props[1..])
  }

  function StatusText(status: string): string { if status == "" then "" else " [" + status + "]" }

  function EntityLine(e: Entity): string { e.kind + " " + e.name + StatusText(e.status) + InlineText(e.inline) }

  function PropLines(props: seq<Property>, depth: nat): (lines: seq<string>)
    ensures |lines| == |props|
  {
    if props == [] then []
    else [Indent(depth) + (props[0].key + " " + props[0].value)] + PropLines(props[1..], depth)
  }

  /** An entity's line, its property lines one level deeper, then its children. */
  function EntityLines(e: Entity, depth: nat): seq<string>
    decreases e, 0
  {
    [Indent(depth) + EntityLine(e)] + PropLines(e.props, depth + 1) + ForestLines(e.children, depth + 1)
  }

  function ForestLines(es: seq<Entity>, depth: nat): seq<string>
    decreases es, 1
  {
    if es == [] then [] else EntityLines(es[0], depth) + ForestLines(es[1..], depth)
  }

  function Unlines(lines: seq<string>): string {
    if lines == [] then "" else lines[0] + "\n" + Unlines(lines[1..])
  }

  lemma {:induction false} UnlinesConcat(a: seq<string>, b: seq<string>)
    ensures Unlines(a + b) == Unlines(a) + Unlines(b)
  {
    if a == [] {
      assert a + b == b;
    } else {
      assert (a + b)[1..] == a[1..] + b;
      UnlinesConcat(a[1..], b);
    }
  }

  /** Key-value pairs of a map, by key. */
  function PairsOf(m: map<string, string>, keys: seq<string>): seq<Property>
    requires forall k :: k in keys ==> k in m
  {
    seq(|keys|, i requires 0 <= i < |keys| => Property(keys[i], m[keys[i]]))
  }

  function SortedPairs(m: map<string, string>): seq<Property> {
    assert forall k :: k in SortedSeq(m.Keys) ==> k in Elems(SortedSeq(m.Keys));
    PairsOf(m, SortedSeq(m.Keys))
  }

  function AlertLine(a: Alert): string {
    "!" + a.severity + " " + a.kind + " " + a.name + " " + a.message + InlineText(SortedPairs(a.props))
  }

  function ActionLine(a: Action): string {
    "?" + a.verb + " " + a.kind + " " + a.name + InlineText(SortedPairs(a.params))
  }

  function HeaderLine(h: Header): string { "@" + h.key + " " + h.value }

  function HeaderLines(hs: seq<Header>): seq<string> {
    if hs == [] then [] else [HeaderLine(hs[0])] + HeaderLines(hs[1..])
  }

  function AlertLines(as_: seq<Alert>): seq<string> {
    if as_ == [] then [] else [AlertLine(as_[0])] + AlertLines(as_[1..])
  }

  function ActionLines(as_: seq<Action>): seq<string> {
    if as_ == [] then [] else [ActionLine(as_[0])] + ActionLines(as_[1..])
  }

  /** An empty line parts the sections; an empty section is left out with it. */
  function HeaderText(hs: seq<Header>): string { Unlines(HeaderLines(hs)) + (if hs == [] then "" else "\n") }

  function AlertText(alerts: seq<Alert>): string { if alerts == [] then "" else "\n" + Unlines(AlertLines(alerts)) }

  function ActionText(actions: seq<Action>): string {
    if actions == [] then "" else "\n" + Unlines(ActionLines(actions))
  }

  function DocumentText(doc: Document): string {
    HeaderText(doc.headers) + Unlines(ForestLines(doc.entities, 0)) + AlertText(doc.alerts) + ActionText(doc.actions)
  }

  // ----- The printer -----

  class StringBuilder {
    var text: string

    constructor ()
      ensures text == ""
    {
      text := "";
    }

    method WriteString(s: string)
      modifies this
      ensures text == old(text) + s
    {
      text := text + s;
    }

    method WriteByte(c: char)
      modifies this
      ensures text == old(text) + [c]
    {
      text := text + [c];
    }
  }

  method WriteIndent(b: StringBuilder, depth: nat)
    modifies b
    ensures b.text == old(b.text) + Indent(depth)
  {
    for i := 0 to depth
      invariant b.text + Indent(depth - i) == old(b.text) + Indent(depth)
    {
      Assoc(b.text, "  ", Indent(depth - i - 1));
      b.WriteString("  ");
    }
    assert b.text + "" == b.text;
  }

  method WriteInline(b: StringBuilder, props: seq<Property>)
    modifies b
    ensures b.text == old(b.text) + InlineText(props)
  {
    assert props[0..] == props;
    for i := 0 to |props|
      invariant b.text + InlineText(props[i..]) == old(b.text) + InlineText(props)
    {
      assert props[i..][1..] == props[i + 1..];
      ghost var before := b.text;
      b.WriteByte(' ');
      b.WriteString(props[i].key);
      b.WriteByte(':');
      b.WriteString(props[i].value);
      ghost var word := " " + props[i].key + ":" + props[i].value;
      assert b.text == before + word;
      Assoc(before, word, InlineText(props[i + 1..]));
    }
    assert b.text + "" == b.text;
  }

  method WriteProps(b: StringBuilder, props: seq<Property>, depth: nat)
    modifies b
    ensures b.text == old(b.text) + Unlines(PropLines(props, depth))
  {
    assert props[0..] == props;
    for i := 0 to |props|
      invariant b.text + Unlines(PropLines(props[i..], depth)) == old(b.text) + Unlines(PropLines(props, depth))
    {
      assert props[i..][1..] == props[i + 1..];
      ghost var before := b.text;
      WriteIndent(b, depth);
      b.WriteString(props[i].key);
      b.WriteByte(' ');
      b.WriteString(props[i].value);
      b.WriteByte('\n');
      ghost var line := Indent(depth) + (props[i].key + " " + props[i].value);
      assert b.text == before + (line + "\n");
      UnlinesStep(line, PropLines(props[i + 1..], depth));
      Assoc(before, line + "\n", Unlines(PropLines(props[i + 1..], depth)));
    }
    assert b.text + "" == b.text;
  }

  lemma UnlinesStep(line: string, rest: seq<string>)
    ensures Unlines([line] + rest) == (line + "\n") + Unlines(rest)
  {
    assert ([line] + rest)[1..] == rest;
  }

  /** The entity's own line. */
  method WriteHead(b: StringBuilder, e: Entity, depth: nat)
    modifies b
    ensures b.text == old(b.text) + (Indent(depth) + EntityLine(e) + "\n")
  {
    ghost var start := b.text;
    WriteIndent(b, depth);
    ghost var indented := b.text;
    b.WriteString(e.kind);
    b.WriteByte(' ');
    b.WriteString(e.name);
    WriteStatus(b, e.status);
    WriteInline(b, e.inline);
    b.WriteByte('\n');
    Chain(indented, e.kind, e.name, StatusText(e.status), InlineText(e.inline));
    Assoc3(start, Indent(depth), EntityLine(e), "\n");
  }

  method WriteStatus(b: StringBuilder, status: string)
    modifies b
    ensures b.text == old(b.text) + StatusText(status)
  {
    if status != "" {
      b.WriteString(" [");
      b.WriteString(status);
      b.WriteByte(']');
    }
  }

  lemma Chain(start: string, kind: string, name: string, status: string, inline: string)
    ensures start + kind + [' '] + name + status + inline + ['\n'] == start + (kind + " " + name + status + inline) + "\n"
  {
    assert start + kind + [' '] + name == start + (kind + " " + name);
    Assoc(start, kind + " " + name, status);
    Assoc(start, kind + " " + name + status, inline);
  }

  lemma Assoc3(a: string, b: string, c: string, d: string)
    ensures ((a + b) + c) + d == a + (b + c + d)
  {
  }

  method WriteEntity(b: StringBuilder, e: Entity, depth: nat)
    modifies b
    ensures b.text == old(b.text) + Unlines(EntityLines(e, depth))
    decreases e, 0
  {
    ghost var start := b.text;
    WriteHead(b, e, depth);
    WriteProps(b, e.props, depth + 1);
    WriteEntities(b, e.children, depth + 1);
    Assoc3(start, Indent(depth) + EntityLine(e) + "\n", Unlines(PropLines(e.props, depth + 1)),
           Unlines(ForestLines(e.children, depth + 1)));
    EntityText(e, depth);
  }

  lemma EntityText(e: Entity, depth: nat)
    ensures Unlines(EntityLines(e, depth)) ==
            (Indent(depth) + EntityLine(e) + "\n") + Unlines(PropLines(e.props, depth + 1)) + Unlines(ForestLines(e.children, depth + 1))
  {
    var line, props, kids := Indent(depth) + EntityLine(e), PropLines(e.props, depth + 1), ForestLines(e.children, depth + 1);
    UnlinesConcat([line] + props, kids);
    UnlinesStep(line, props);
  }

  /** The loop over children, and the one over a document's entities. */
  method WriteEntities(b: StringBuilder, es: seq<Entity>, depth: nat)
    modifies b
    ensures b.text == old(b.text) + Unlines(ForestLines(es, depth))
    decreases es, 1
  {
    assert es[0..] == es;
    for i := 0 to |es|
      invariant b.text + Unlines(ForestLines(es[i..], depth)) == old(b.text) + Unlines(ForestLines(es, depth))
    {
      assert es[i..][1..] == es[i + 1..];
      ghost var before := b.text;
      WriteEntity(b, es[i], depth);
      UnlinesConcat(EntityLines(es[i], depth), ForestLines(es[i + 1..], depth));
      Assoc(before, Unlines(EntityLines(es[i], depth)), Unlines(ForestLines(es[i + 1..], depth)));
    }
    assert b.text + "" == b.text;
  }

  /** Alerts and actions print a map's pairs in the order of its keys, whatever order
      the map gives them in. */
  method WritePairs(b: StringBuilder, m: map<string, string>)
    modifies b
    ensures b.text == old(b.text) + InlineText(SortedPairs(m))
  {
    var keys := SortSet(m.Keys);
    assert forall k :: k in keys ==> k in Elems(keys);
    WriteInline(b, PairsOf(m, keys));
  }

  method WriteAlert(b: StringBuilder, a: Alert)
    modifies b
    ensures b.text == old(b.text) + (AlertLine(a) + "\n")
  {
    ghost var start := b.text;
    b.WriteByte('!');
    b.WriteString(a.severity);
    b.WriteByte(' ');
    b.WriteString(a.kind);
    b.WriteByte(' ');
    b.WriteString(a.name);
    b.WriteByte(' ');
    b.WriteString(a.message);
    ghost var words := "!" + a.severity + " " + a.kind + " " + a.name + " " + a.message;
    assert b.text == start + words;
    WritePairs(b, a.props);
    b.WriteByte('\n');
    Assoc3(start, words, InlineText(SortedPairs(a.props)), "\n");
  }

  method WriteAction(b: StringBuilder, a: Action)
    modifies b
    ensures b.text == old(b.text) + (ActionLine(a) + "\n")
  {
    ghost var start := b.text;
    b.WriteByte('?');
    b.WriteString(a.verb);
    b.WriteByte(' ');
    b.WriteString(a.kind);
    b.WriteByte(' ');
    b.WriteString(a.name);
    ghost var words := "?" + a.verb + " " + a.kind + " " + a.name;
    assert b.text == start + words;
    WritePairs(b, a.params);
    b.WriteByte('\n');
    Assoc3(start, words, InlineText(SortedPairs(a.params)), "\n");
  }

  method WriteHeaders(b: StringBuilder, hs: seq<Header>)
    modifies b
    ensures b.text == old(b.text) + Unlines(HeaderLines(hs))
  {
    assert hs[0..] == hs;
    for i := 0 to |hs|
      invariant b.text + Unlines(HeaderLines(hs[i..])) == old(b.text) + Unlines(HeaderLines(hs))
    {
      assert hs[i..][1..] == hs[i + 1..];
      ghost var before, line := b.text, HeaderLine(hs[i]);
      b.WriteByte('@');
      b.WriteString(hs[i].key);
      b.WriteByte(' ');
      b.WriteString(hs[i].value);
      b.WriteByte('\n');
      assert b.text == before + (line + "\n");
      UnlinesStep(line, HeaderLines(hs[i + 1..]));
      Assoc(before, line + "\n", Unlines(HeaderLines(hs[i + 1..])));
    }
    assert b.text + "" == b.text;
  }

  method WriteAlerts(b: StringBuilder, alerts: seq<Alert>)
    modifies b
    ensures b.text == old(b.text) + Unlines(AlertLines(alerts))
  {
    assert alerts[0..] == alerts;
    for i := 0 to |alerts|
      invariant b.text + Unlines(AlertLines(alerts[i..])) == old(b.text) + Unlines(AlertLines(alerts))
    {
      assert alerts[i..][1..] == alerts[i + 1..];
      ghost var before := b.text;
      WriteAlert(b, alerts[i]);
      UnlinesStep(AlertLine(alerts[i]), AlertLines(alerts[i + 1..]));
      Assoc(before, AlertLine(alerts[i]) + "\n", Unlines(AlertLines(alerts[i + 1..])));
    }
    assert b.text + "" == b.text;
  }

  method WriteActions(b: StringBuilder, actions: seq<Action>)
    modifies b
    ensures b.text == old(b.text) + Unlines(ActionLines(actions))
  {
    assert actions[0..] == actions;
    for i := 0 to |actions|
      invariant b.text + Unlines(ActionLines(actions[i..])) == old(b.text) + Unlines(ActionLines(actions))
    {
      assert actions[i..][1..] == actions[i + 1..];
      ghost var before := b.text;
      WriteAction(b, actions[i]);
      UnlinesStep(ActionLine(actions[i]), ActionLines(actions[i + 1..]));
      Assoc(before, ActionLine(actions[i]) + "\n", Unlines(ActionLines(actions[i + 1..])));
    }
    assert b.text + "" == b.text;
  }

  method WriteHeaderSection(b: StringBuilder, hs: seq<Header>)
    modifies b
    ensures b.text == old(b.text) + HeaderText(hs)
  {
    ghost var start := b.text;
    WriteHeaders(b, hs);
    if |hs| > 0 {
      b.WriteByte('\n');
      Assoc(start, Unlines(HeaderLines(hs)), "\n");
    }
  }

  method WriteAlertSection(b: StringBuilder, alerts: seq<Alert>)
    modifies b
    ensures b.text == old(b.text) + AlertText(alerts)
  {
    if |alerts| > 0 {
      ghost var start := b.text;
      b.WriteByte('\n');
      WriteAlerts(b, alerts);
      Assoc(start, "\n", Unlines(AlertLines(alerts)));
    }
  }

  method WriteActionSection(b: StringBuilder, actions: seq<Action>)
    modifies b
    ensures b.text == old(b.text) + ActionText(actions)
  {
    if |actions| > 0 {
      ghost var start := b.text;
      b.WriteByte('\n');
      WriteActions(b, actions);
      Assoc(start, "\n", Unlines(ActionLines(actions)));
    }
  }

  /** What is printed depends on the document alone, not on the order its maps are
      walked in. */
  method Encode(doc: Document) returns (text: string)
    ensures text == DocumentText(doc)
  {
    var b := new StringBuilder();
    WriteHeaderSection(b, doc.headers);
    WriteEntities(b, doc.entities, 0);
    WriteAlertSection(b, doc.alerts);
    WriteActionSection(b, doc.actions);
    FromEmpty(HeaderText(doc.headers), Unlines(ForestLines(doc.entities, 0)), AlertText(doc.alerts), ActionText(doc.actions));
    return b.text;
  }

  lemma FromEmpty(a: string, b: string, c: string, d: string)
    ensures "" + a + b + c + d == a + b + c + d
  {
    assert "" + a == a;
  }

  // ----- What the parts of the format look like -----

  lemma OnePairText(key: string, value: string)
    ensures InlineText([Property(key, value)]) == " " + key + ":" + value
  {
    assert [Property(key, value)][1..] == [];
    assert InlineText([Property(key, value)]) == " " + key + ":" + value + "";
  }

  lemma OnePair(key: string, value: string)
    ensures SortedPairs(map[key := value]) == [Property(key, value)]
  {
    var m := map[key := value];
    var keys := SortedSeq(m.Keys);
    assert m.Keys == {key};
    StrictlySortedSize({key});
    assert keys[0] in Elems(keys);
  }

  /** An entity on its own line, in the words of section 3.3 of FORMAT.md. */
  lemma EntityLooks(kind: string, name: string, status: string, key: string, value: string, children: seq<Entity>)
    requires status != ""
    ensures EntityLine(Entity(kind, name, status, [Property(key, value)], [], children)) ==
            kind + " " + name + (" [" + status + "]") + (" " + key + ":" + value)
  {
    OnePairText(key, value);
  }

  /** Its property, and the child below it, one level of two blanks deeper. */
  lemma NestingLooks(kind: string, name: string, key: string, value: string, child: string, childName: string)
    ensures EntityLines(Entity(kind, name, "", [], [Property(key, value)], [Entity(child, childName, "", [], [], [])]), 0) ==
            [kind + " " + name, "  " + (key + " " + value), "  " + (child + " " + childName)]
  {
    var e := Entity(child, childName, "", [], [], []);
    var props := [Property(key, value)];
    assert props[1..] == [] && [e][1..] == [];
    assert Indent(1) == "  " + "" == "  ";
    BareLine(kind, name, props, [e]);
    BareLine(child, childName, [], []);
    assert PropLines(props, 1) == ["  " + (key + " " + value)];
    assert EntityLines(e, 1) == ["  " + (child + " " + childName)] + [] + [];
    assert ForestLines([e], 1) == EntityLines(e, 1) + [];
    assert "" + (kind + " " + name) == kind + " " + name;
  }

  lemma BareLine(kind: string, name: string, props: seq<Property>, children: seq<Entity>)
    ensures EntityLine(Entity(kind, name, "", [], props, children)) == kind + " " + name
  {
    assert kind + " " + name + "" + "" == kind + " " + name;
  }

  /** An alert and an action, each behind its mark (sections 3.5 and 3.6). */
  lemma MarkedLooks(a: string, b: string, c: string, d: string, key: string, value: string)
    ensures AlertLine(Alert(a, b, c, d, map[key := value])) == "!" + a + " " + b + " " + c + " " + d + (" " + key + ":" + value)
    ensures ActionLine(Action(a, b, c, map[key := value])) == "?" + a + " " + b + " " + c + (" " + key + ":" + value)
  {
    OnePair(key, value);
    OnePairText(key, value);
  }
}

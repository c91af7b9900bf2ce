/** A decoder for the layout the ANF printer uses for entities: what it reads is what was
    printed, and it reads what is printed. */
module AnfDecoder {
  import opened Wrappers
  import opened Text
  import opened Anf
  import opened AnfEncoder

  datatype Parsed<T> = Parsed(value: T, rest: seq<string>)

  // ----- Words -----

  /** The text before and after the first c. */
  function Cut(s: string, c: char): Option<(string, string)> {
    if s == "" then None
    else if s[0] == c then Some(("", s[1..]))
    else match Cut(s[1..], c)
      case None => None
      case Some(p) => Some(([s[0]] + p.0, p.1))
  }

  lemma {:induction false} CutFinds(a: string, c: char, b: string)
    requires c !in a
    ensures Cut(a + [c] + b, c) == Some((a, b))
  {
    var s := a + [c] + b;
    if a == "" {
      assert s[1..] == b;
    } else {
      assert s[1..] == a[1..] + [c] + b;
      CutFinds(a[1..], c, b);
      assert [a[0]] + a[1..] == a;
    }
  }

  lemma {:induction false} CutSound(s: string, c: char)
    requires Cut(s, c).Some?
    ensures var p := Cut(s, c).value; s == p.0 + [c] + p.1 && c !in p.0
  {
    if s[0] != c {
      CutSound(s[1..], c);
      var q := Cut(s[1..], c).value;
      assert s == [s[0]] + s[1..];
    } else {
      assert s == [c] + s[1..];
    }
  }

  predicate Bracketed(word: string) { |word| > 2 && word[0] == '[' && word[|word| - 1] == ']' }

  /** Reads `key:value` words. A word without a colon goes on with the value before; those
      at the start, before any key, come first in the result. */
  function Gather(words: seq<string>): (seq<string>, seq<Property>) {
    if words == [] then ([], [])
    else
      var (more, props) := Gather(words[1..]);
      match Cut(words[0], ':')
      case None => ([words[0]] + more, props)
      case Some(p) => ([], [Property(p.0, Join([p.1] + more, ' '))] + props)
  }

  function ReadInline(words: seq<string>): Option<seq<Property>> {
    var (more, props) := Gather(words);
    if more == [] then Some(props) else None
  }

  function EntityOf(kind: string, name: string, status: string, inline: Option<seq<Property>>): Option<Entity> {
    if inline.None? then None else Some(Entity(kind, name, status, inline.value, [], []))
  }

  /** Reads an entity's line: kind, name, bracketed status, then inline properties. Only
      at depth 0, where no property line can stand, the status may be missing. */
  function ReadHead(body: string, depth: nat): Option<Entity> {
    var words := Split(body, ' ');
    if |words| < 2 || words[0] == "" then None
    else if |words| > 2 && Bracketed(words[2]) then
      EntityOf(words[0], words[1], words[2][1..|words[2]| - 1], ReadInline(words[3..]))
    else if depth == 0 then EntityOf(words[0], words[1], "", ReadInline(words[2..]))
    else None
  }

  /** A line that is not an entity's is a property's: a key, a blank and the rest. */
  function ReadProp(body: string): Option<Property> {
    if ReadHead(body, 1).Some? then None
    else match Cut(body, ' ')
      case None => None
      case Some(p) => if p.0 == "" then None else Some(Property(p.0, p.1))
  }

  // ----- Lines -----

  function Blanks(line: string): (n: nat)
    ensures n <= |line|
  {
    if line != "" && line[0] == ' ' then 1 + Blanks(line[1..]) else 0
  }

  /** What follows an indentation of exactly the given depth. */
  function Body(line: string, depth: nat): string {
    if Blanks(line) == 2 * depth then line[2 * depth..] else ""
  }

  /** The lines of a text in which every line is terminated. */
  function Lines(text: string): Option<seq<string>> {
    var parts := Split(text, '\n');
    if parts[|parts| - 1] == "" then Some(parts[..|parts| - 1]) else None
  }

  function ParseProps(lines: seq<string>, depth: nat): (r: Parsed<seq<Property>>)
    ensures |r.rest| <= |lines|
  {
    if lines == [] then Parsed([], [])
    else match ReadProp(Body(lines[0], depth))
      case None => Parsed([], lines)
      case Some(p) =>
        var more := ParseProps(lines[1..], depth);
        Parsed([p] + more.value, more.rest)
  }

  /** Reads entities at a depth for as long as there are any. */
  function ParseForest(lines: seq<string>, depth: nat): (r: Parsed<seq<Entity>>)
    ensures |r.rest| <= |lines|
    decreases |lines|
  {
    if lines == [] then Parsed([], [])
    else match ReadHead(Body(lines[0], depth), depth)
      case None => Parsed([], lines)
      case Some(head) =>
        var props := ParseProps(lines[1..], depth + 1);
        var children := ParseForest(props.rest, depth + 1);
        var more := ParseForest(children.rest, depth);
        Parsed([head.(props := props.value, children := children.value)] + more.value, more.rest)
  }

  function Decode(text: string): Option<seq<Entity>> {
    match Lines(text)
    case None => None
    case Some(lines) =>
      var forest := ParseForest(lines, 0);
      if forest.rest == [] then Some(forest.value) else None
  }

  // ----- The domain -----

  predicate Word(s: string) { ' ' !in s && '\n' !in s }

  predicate Colonless(words: seq<string>) { forall w :: w in words ==> ':' !in w }

  /** A value whose words after the first have no colon. */
  predicate ValueFits(value: string) { '\n' !in value && Colonless(Split(value, ' ')[1..]) }

  predicate PairFits(p: Property) { Word(p.key) && ':' !in p.key && ValueFits(p.value) }

  predicate InlineFits(props: seq<Property>) { forall p :: p in props ==> PairFits(p) }

  /** A property line must not read as an entity's. */
  predicate PropFits(p: Property) {
    p.key != "" && Word(p.key) && '\n' !in p.value && ReadHead(p.key + " " + p.value, 1).None?
  }

  predicate AllPropsFit(props: seq<Property>) { forall p :: p in props ==> PropFits(p) }

  /** A status may be missing at depth 0, if what comes next does not look like one. */
  predicate StatusFits(status: string, inline: seq<Property>, depth: nat) {
    && Word(status)
    && (status == "" ==> depth == 0 && (inline == [] || !Bracketed(InlineWords(inline)[0])))
  }

  predicate HeadFits(e: Entity, depth: nat) {
    e.kind != "" && Word(e.kind) && Word(e.name) && InlineFits(e.inline) && StatusFits(e.status, e.inline, depth)
  }

  predicate Fits(e: Entity, depth: nat)
    decreases e, 0
  {
    HeadFits(e, depth) && AllPropsFit(e.props) && AllFit(e.children, depth + 1)
  }

  predicate AllFit(es: seq<Entity>, depth: nat)
    decreases es, 1
  {
    es == [] || (Fits(es[0], depth) && AllFit(es[1..], depth))
  }

  /** What the printer writes for a forest. */
  function ForestText(es: seq<Entity>): string { Unlines(ForestLines(es, 0)) }

  // ----- An entity's line -----

  function InlineWords(props: seq<Property>): (r: seq<string>)
    ensures props != [] ==> r != []
  {
    if props == [] then [] else Split(props[0].key + ":" + props[0].value, ' ') + InlineWords(props[1..])
  }

  lemma {:induction false} GatherColonless(vs: seq<string>, words: seq<string>)
    requires Colonless(vs)
    ensures Gather(vs + words) == (vs + Gather(words).0, Gather(words).1)
  {
    if vs == [] {
      assert vs + words == words && vs + Gather(words).0 == Gather(words).0;
    } else {
      assert (vs + words)[1..] == vs[1..] + words;
      GatherColonless(vs[1..], words);
      NoCut(vs[0]);
      assert [vs[0]] + (vs[1..] + Gather(words).0) == vs + Gather(words).0;
    }
  }

  lemma {:induction false} NoCut(word: string)
    requires ':' !in word
    ensures Cut(word, ':') == None
  {
    if word == "" {
    } else {
      NoCut(word[1..]);
    }
  }

  lemma PairWords(p: Property)
    requires PairFits(p)
    ensures var vs := Split(p.value, ' ');
            Split(p.key + ":" + p.value, ' ') == [p.key + ":" + vs[0]] + vs[1..] && Join([vs[0]] + vs[1..], ' ') == p.value
  {
    var vs := Split(p.value, ' ');
    SplitPrefix(p.key + ":", p.value, ' ');
    JoinSplit(p.value, ' ');
    assert [vs[0]] + vs[1..] == vs;
  }

  lemma GatherPair(key: string, vs: seq<string>, words: seq<string>, props: seq<Property>)
    requires vs != [] && Colonless(vs[1..]) && ':' !in key && Gather(words) == ([], props)
    ensures Gather(([key + ":" + vs[0]] + vs[1..]) + words) == ([], [Property(key, Join([vs[0]] + vs[1..], ' '))] + props)
  {
    var all := ([key + ":" + vs[0]] + vs[1..]) + words;
    assert all[1..] == vs[1..] + words && all[0] == key + [':'] + vs[0];
    GatherColonless(vs[1..], words);
    assert vs[1..] + [] == vs[1..];
    CutFinds(key, ':', vs[0]);
  }

  lemma {:induction false} InlineReads(props: seq<Property>)
    requires InlineFits(props)
    ensures Gather(InlineWords(props)) == ([], props)
  {
    if props == [] {
    } else {
      var p := props[0];
      InlineReads(props[1..]);
      PairWords(p);
      GatherPair(p.key, Split(p.value, ' '), InlineWords(props[1..]), props[1..]);
      assert props == [p] + props[1..];
    }
  }

  lemma WordParts(a: string, c: char, b: string)
    requires Word(a + [c] + b)
    ensures Word(a) && Word(b)
  {
    assert forall x :: x in a || x in b ==> x in a + [c] + b;
  }

  predicate AllWords(words: seq<string>) { forall w :: w in words ==> Word(w) }

  /** A `key:value` word and the colonless words after it. */
  lemma PairSound(word: string, more: seq<string>)
    requires Word(word) && Cut(word, ':').Some? && AllWords(more) && Colonless(more)
    ensures var c := Cut(word, ':').value;
            var p := Property(c.0, Join([c.1] + more, ' '));
            PairFits(p) && Split(p.key + ":" + p.value, ' ') == [word] + more
  {
    CutSound(word, ':');
    var c := Cut(word, ':').value;
    WordParts(c.0, ':', c.1);
    ValueSound(c.1, more);
    var value := Join([c.1] + more, ' ');
    SplitPrefix(c.0 + ":", value, ' ');
    assert c.0 + ":" + c.1 == word;
  }

  lemma ValueSound(first: string, more: seq<string>)
    requires Word(first) && AllWords(more) && Colonless(more)
    ensures var value := Join([first] + more, ' '); ValueFits(value) && Split(value, ' ') == [first] + more
  {
    var vs := [first] + more;
    assert forall i :: 0 <= i < |vs| ==> Word(vs[i]);
    SplitJoin(vs, ' ');
    assert vs[1..] == more;
    JoinKeepsOut(vs, ' ', '\n');
  }

  lemma {:induction false} JoinKeepsOut(parts: seq<string>, sep: char, c: char)
    requires c != sep && forall i :: 0 <= i < |parts| ==> c !in parts[i]
    ensures c !in Join(parts, sep)
  {
    if |parts| <= 1 {
    } else {
      JoinKeepsOut(parts[1..], sep, c);
    }
  }

  lemma JoinParts(first: seq<string>, more: seq<string>, rest: seq<string>)
    ensures first + (more + rest) == (first + more) + rest
  {
  }

  lemma FirstPair(word: string, more: seq<string>, props: seq<Property>)
    requires Word(word) && Cut(word, ':').Some? && AllWords(more) && Colonless(more) && InlineFits(props)
    ensures var c := Cut(word, ':').value;
            var all := [Property(c.0, Join([c.1] + more, ' '))] + props;
            InlineFits(all) && [word] + (more + InlineWords(props)) == InlineWords(all)
  {
    var c := Cut(word, ':').value;
    PairSound(word, more);
    InlineCons(Property(c.0, Join([c.1] + more, ' ')), props);
    JoinParts([word], more, InlineWords(props));
  }

  lemma FirstWord(word: string, more: seq<string>, rest: seq<string>)
    requires Word(word) && Cut(word, ':').None? && AllWords(more) && Colonless(more)
    ensures AllWords([word] + more) && Colonless([word] + more) && [word] + (more + rest) == ([word] + more) + rest
  {
    ColonlessIfUncut(word);
    JoinParts([word], more, rest);
  }

  lemma {:induction false} GatherSound(words: seq<string>)
    requires AllWords(words)
    ensures var (more, props) := Gather(words);
            words == more + InlineWords(props) && InlineFits(props) && Colonless(more) && AllWords(more)
  {
    if words == [] {
    } else {
      var (more, props) := Gather(words[1..]);
      GatherSound(words[1..]);
      assert words == [words[0]] + words[1..];
      if Cut(words[0], ':').Some? {
        FirstPair(words[0], more, props);
        assert Gather(words).0 == [];
      } else {
        FirstWord(words[0], more, InlineWords(props));
      }
    }
  }

  lemma {:induction false} ColonlessIfUncut(word: string)
    requires Cut(word, ':').None?
    ensures ':' !in word
  {
    if word == "" {
    } else {
      ColonlessIfUncut(word[1..]);
    }
  }

  lemma InlineCons(p: Property, rest: seq<Property>)
    ensures InlineWords([p] + rest) == Split(p.key + ":" + p.value, ' ') + InlineWords(rest)
    ensures PairFits(p) && InlineFits(rest) ==> InlineFits([p] + rest)
  {
    assert ([p] + rest)[1..] == rest;
  }

  lemma InlineSound(words: seq<string>)
    requires ReadInline(words).Some? && AllWords(words)
    ensures InlineFits(ReadInline(words).value) && InlineWords(ReadInline(words).value) == words
  {
    GatherSound(words);
  }

  function StatusWords(status: string): seq<string> { if status == "" then [] else ["[" + status + "]"] }

  /** The words of an entity's line. */
  function HeadWords(e: Entity): seq<string> { ([e.kind, e.name] + StatusWords(e.status)) + InlineWords(e.inline) }

  lemma {:induction false} SplitInline(first: string, props: seq<Property>)
    ensures Split(first + InlineText(props), ' ') == Split(first, ' ') + InlineWords(props)
    decreases props
  {
    if props == [] {
      assert first + "" == first;
    } else {
      var word := props[0].key + ":" + props[0].value;
      SplitInline(word, props[1..]);
      HeadOfInline(first, props[0], InlineText(props[1..]));
      SplitConcat(first, word + InlineText(props[1..]), ' ');
    }
  }

  lemma HeadOfInline(first: string, p: Property, rest: string)
    ensures first + (" " + p.key + ":" + p.value + rest) == first + [' '] + (p.key + ":" + p.value + rest)
  {
  }

  lemma SplitHeadLine(e: Entity)
    requires Word(e.kind) && Word(e.name) && Word(e.status)
    ensures Split(EntityLine(e), ' ') == HeadWords(e)
  {
    SplitInline(e.kind + " " + e.name + StatusText(e.status), e.inline);
    SplitHead(e.kind, e.name, ' ');
    SplitWhole(e.name, ' ');
    if e.status == "" {
      assert e.kind + " " + e.name + "" == e.kind + [' '] + e.name;
    } else {
      var status := "[" + e.status + "]";
      SplitWhole(status, ' ');
      SplitConcat(e.kind + [' '] + e.name, status, ' ');
      assert e.kind + " " + e.name + (" [" + e.status + "]") == e.kind + [' '] + e.name + [' '] + status;
    }
  }

  lemma StatedReads(e: Entity, depth: nat, words: seq<string>)
    requires words == [e.kind, e.name, "[" + e.status + "]"] + InlineWords(e.inline) && Split(EntityLine(e), ' ') == words
    requires e.kind != "" && e.status != "" && Gather(InlineWords(e.inline)) == ([], e.inline)
    ensures ReadHead(EntityLine(e), depth) == Some(e.(props := [], children := []))
  {
    assert words[3..] == InlineWords(e.inline) && words[2][1..|words[2]| - 1] == e.status;
  }

  lemma StatuslessReads(e: Entity, words: seq<string>)
    requires words == [e.kind, e.name] + InlineWords(e.inline) && Split(EntityLine(e), ' ') == words
    requires e.kind != "" && StatusFits("", e.inline, 0) && Gather(InlineWords(e.inline)) == ([], e.inline)
    requires e.status == ""
    ensures ReadHead(EntityLine(e), 0) == Some(e.(props := [], children := []))
  {
    assert words[2..] == InlineWords(e.inline);
    assert e.inline != [] ==> words[2] == InlineWords(e.inline)[0];
    assert e.inline == [] ==> |words| == 2;
  }

  lemma HeadReads(e: Entity, depth: nat)
    requires HeadFits(e, depth)
    ensures ReadHead(EntityLine(e), depth) == Some(e.(props := [], children := []))
  {
    SplitHeadLine(e);
    InlineReads(e.inline);
    if e.status == "" {
      assert HeadWords(e) == [e.kind, e.name] + InlineWords(e.inline);
      StatuslessReads(e, HeadWords(e));
    } else {
      assert HeadWords(e) == [e.kind, e.name, "[" + e.status + "]"] + InlineWords(e.inline);
      StatedReads(e, depth, HeadWords(e));
    }
  }

  /** Splitting adds no characters. */
  lemma {:induction false} SplitKeepsOut(s: string, sep: char, c: char)
    requires c !in s
    ensures forall w :: w in Split(s, sep) ==> c !in w
  {
    if s == "" {
    } else {
      SplitKeepsOut(s[1..], sep, c);
    }
  }

  lemma HeadSound(body: string, depth: nat)
    requires '\n' !in body && ReadHead(body, depth).Some?
    ensures var e := ReadHead(body, depth).value;
            HeadFits(e, depth) && e.props == [] && e.children == [] && EntityLine(e) == body
  {
    var words, e := Split(body, ' '), ReadHead(body, depth).value;
    SplitKeepsOut(body, ' ', '\n');
    assert AllWords(words);
    if |words| > 2 && Bracketed(words[2]) {
      StatedHead(words, e, depth);
    } else {
      StatuslessHead(words, e);
    }
    SplitHeadLine(e);
    JoinSplit(body, ' ');
    JoinSplit(EntityLine(e), ' ');
  }

  lemma StatedHead(words: seq<string>, e: Entity, depth: nat)
    requires |words| > 2 && AllWords(words) && words[0] != "" && Bracketed(words[2])
    requires ReadInline(words[3..]) == Some(e.inline)
    requires e.kind == words[0] && e.name == words[1] && e.status == words[2][1..|words[2]| - 1]
    ensures HeadFits(e, depth) && HeadWords(e) == words
  {
    InlineSound(words[3..]);
    Unbracketed(words[2]);
    assert words == [words[0], words[1], words[2]] + words[3..];
  }

  lemma StatuslessHead(words: seq<string>, e: Entity)
    requires |words| >= 2 && AllWords(words) && words[0] != "" && !(|words| > 2 && Bracketed(words[2]))
    requires ReadInline(words[2..]) == Some(e.inline)
    requires e.kind == words[0] && e.name == words[1] && e.status == ""
    ensures HeadFits(e, 0) && HeadWords(e) == words
  {
    InlineSound(words[2..]);
    assert words == [words[0], words[1]] + words[2..];
    assert e.inline != [] ==> InlineWords(e.inline)[0] == words[2];
  }

  lemma Unbracketed(word: string)
    requires Bracketed(word) && Word(word)
    ensures var status := word[1..|word| - 1]; Word(status) && status != "" && word == "[" + status + "]"
  {
  }

  lemma PropSound(body: string)
    requires '\n' !in body && ReadProp(body).Some?
    ensures var p := ReadProp(body).value; PropFits(p) && body == p.key + " " + p.value
  {
    CutSound(body, ' ');
  }

  lemma PropReads(p: Property)
    requires PropFits(p)
    ensures ReadProp(p.key + " " + p.value) == Some(p)
  {
    CutFinds(p.key, ' ', p.value);
  }

  // ----- Indentation -----

  lemma BlanksMore(rest: string)
    ensures Blanks("  " + rest) == 2 + Blanks(rest)
  {
    var line := "  " + rest;
    assert line[1..] == " " + rest;
    assert line[1..][1..] == rest;
  }

  lemma {:induction false} IndentSize(depth: nat)
    ensures |Indent(depth)| == 2 * depth
  {
    if depth == 0 {
    } else {
      IndentSize(depth - 1);
    }
  }

  lemma {:induction false} BlanksOfIndent(depth: nat, body: string)
    requires body != "" && body[0] != ' '
    ensures Blanks(Indent(depth) + body) == 2 * depth
  {
    if depth == 0 {
      assert Indent(0) + body == body;
    } else {
      var rest := Indent(depth - 1) + body;
      BlanksOfIndent(depth - 1, body);
      BlanksMore(rest);
      assert Indent(depth) + body == "  " + rest;
    }
  }

  lemma IndentBlanks(depth: nat, body: string)
    requires body != "" && body[0] != ' '
    ensures Blanks(Indent(depth) + body) == 2 * depth == |Indent(depth)|
    ensures Body(Indent(depth) + body, depth) == body
  {
    IndentSize(depth);
    BlanksOfIndent(depth, body);
  }

  lemma TwoBlanks(line: string)
    requires Blanks(line) >= 2
    ensures line == "  " + line[2..] && Blanks(line) == 2 + Blanks(line[2..])
  {
    assert line[1..][1..] == line[2..] && line[1] == line[1..][0];
  }

  lemma BodyShift(line: string, depth: nat)
    requires depth > 0 && Body(line, depth) != ""
    ensures line == "  " + line[2..] && Body(line[2..], depth - 1) == Body(line, depth)
  {
    TwoBlanks(line);
    assert line[2..][2 * (depth - 1)..] == line[2 * depth..];
  }

  lemma {:induction false} BodySound(line: string, depth: nat)
    requires Body(line, depth) != ""
    ensures line == Indent(depth) + Body(line, depth)
  {
    if depth == 0 {
    } else {
      BodyShift(line, depth);
      BodySound(line[2..], depth - 1);
      Splice(line, line[2..], Indent(depth - 1), Body(line, depth));
    }
  }

  lemma Splice(line: string, rest: string, indent: string, body: string)
    requires line == "  " + rest && rest == indent + body
    ensures line == ("  " + indent) + body
  {
  }

  // ----- Where reading stops -----

  /** No line left, an empty one, or one less deep than the given depth. */
  predicate Below(lines: seq<string>, depth: nat) { lines == [] || lines[0] == "" || Blanks(lines[0]) < 2 * depth }

  predicate NoProp(lines: seq<string>, depth: nat) { lines == [] || ReadProp(Body(lines[0], depth)).None? }

  lemma BelowStops(lines: seq<string>, depth: nat)
    requires Below(lines, depth)
    ensures NoProp(lines, depth) && ParseForest(lines, depth) == Parsed([], lines)
  {
    assert ReadHead("", depth).None? && ReadProp("").None?;
  }

  lemma HeadLineStarts(e: Entity, depth: nat)
    requires HeadFits(e, depth)
    ensures EntityLine(e) != "" && EntityLine(e)[0] != ' '
    ensures Blanks(Indent(depth) + EntityLine(e)) == 2 * depth
    ensures Body(Indent(depth) + EntityLine(e), depth) == EntityLine(e)
  {
    IndentBlanks(depth, EntityLine(e));
  }

  lemma ForestStarts(es: seq<Entity>, depth: nat, rest: seq<string>)
    requires es != []
    ensures var lines := ForestLines(es, depth) + rest; lines != [] && lines[0] == Indent(depth) + EntityLine(es[0])
  {
  }

  /** Entities of one depth end the properties and children of the entity before. */
  lemma ForestIsBelow(es: seq<Entity>, depth: nat, rest: seq<string>)
    requires AllFit(es, depth) && Below(rest, depth)
    ensures Below(ForestLines(es, depth) + rest, depth + 1)
  {
    if es == [] {
      assert ForestLines(es, depth) + rest == rest;
    } else {
      ForestStarts(es, depth, rest);
      HeadLineStarts(es[0], depth);
    }
  }

  lemma ForestIsNoProp(es: seq<Entity>, depth: nat, rest: seq<string>)
    requires depth > 0 && AllFit(es, depth) && Below(rest, depth)
    ensures NoProp(ForestLines(es, depth) + rest, depth)
  {
    if es == [] {
      assert ForestLines(es, depth) + rest == rest;
      BelowStops(rest, depth);
    } else {
      ForestStarts(es, depth, rest);
      HeadLineStarts(es[0], depth);
      HeadReads(es[0], depth);
    }
  }

  lemma PropLineReads(p: Property, depth: nat)
    requires PropFits(p)
    ensures ReadProp(Body(Indent(depth) + (p.key + " " + p.value), depth)) == Some(p)
  {
    PropReads(p);
    IndentBlanks(depth, p.key + " " + p.value);
  }

  lemma {:induction false} PropsRead(props: seq<Property>, rest: seq<string>, depth: nat)
    requires AllPropsFit(props) && NoProp(rest, depth)
    ensures ParseProps(PropLines(props, depth) + rest, depth) == Parsed(props, rest)
  {
    var lines := PropLines(props, depth) + rest;
    if props == [] {
      assert lines == rest;
    } else {
      PropLineReads(props[0], depth);
      assert props == [props[0]] + props[1..];
      PropLinesStep(props[0], props[1..], depth, rest);
      assert lines[1..] == PropLines(props[1..], depth) + rest;
      PropsRead(props[1..], rest, depth);
    }
  }

  lemma HeadLineReads(e: Entity, depth: nat)
    requires HeadFits(e, depth)
    ensures ReadHead(Body(Indent(depth) + EntityLine(e), depth), depth) == Some(e.(props := [], children := []))
  {
    HeadLineStarts(e, depth);
    HeadReads(e, depth);
  }

  lemma FirstEntityLines(es: seq<Entity>, rest: seq<string>, depth: nat)
    requires es != []
    ensures ForestLines(es, depth) + rest ==
            [Indent(depth) + EntityLine(es[0])] + (PropLines(es[0].props, depth + 1) +
            (ForestLines(es[0].children, depth + 1) + (ForestLines(es[1..], depth) + rest)))
  {
    FourParts([Indent(depth) + EntityLine(es[0])], PropLines(es[0].props, depth + 1),
              ForestLines(es[0].children, depth + 1), ForestLines(es[1..], depth), rest);
  }

  lemma FourParts(a: seq<string>, b: seq<string>, c: seq<string>, d: seq<string>, rest: seq<string>)
    ensures ((a + b + c) + d) + rest == a + (b + (c + (d + rest)))
  {
  }

  lemma ParseStep(line: string, after: seq<string>, depth: nat, e: Entity, es: seq<Entity>, below: seq<string>,
                  later: seq<string>, rest: seq<string>)
    requires ReadHead(Body(line, depth), depth) == Some(e.(props := [], children := []))
    requires ParseProps(after, depth + 1) == Parsed(e.props, below)
    requires ParseForest(below, depth + 1) == Parsed(e.children, later)
    requires ParseForest(later, depth) == Parsed(es, rest)
    ensures ParseForest([line] + after, depth) == Parsed([e] + es, rest)
  {
    assert ([line] + after)[1..] == after && ([line] + after)[0] == line;
  }

  /** An entity in front of others. */
  lemma EntityReads(e: Entity, es: seq<Entity>, depth: nat, below: seq<string>, later: seq<string>, rest: seq<string>)
    requires HeadFits(e, depth) && AllPropsFit(e.props) && NoProp(below, depth + 1)
    requires ParseForest(below, depth + 1) == Parsed(e.children, later)
    requires ParseForest(later, depth) == Parsed(es, rest)
    ensures ParseForest([Indent(depth) + EntityLine(e)] + (PropLines(e.props, depth + 1) + below), depth) ==
            Parsed([e] + es, rest)
  {
    HeadLineReads(e, depth);
    PropsRead(e.props, below, depth + 1);
    ParseStep(Indent(depth) + EntityLine(e), PropLines(e.props, depth + 1) + below, depth, e, es, below, later, rest);
  }

  lemma NothingReads(rest: seq<string>, depth: nat)
    requires Below(rest, depth)
    ensures ParseForest(ForestLines([], depth) + rest, depth) == Parsed([], rest)
  {
    assert ForestLines([], depth) + rest == rest;
    BelowStops(rest, depth);
  }

  lemma HeadOfForest(es: seq<Entity>)
    requires es != []
    ensures [es[0]] + es[1..] == es
  {
  }

  /** The parser reads back what is printed and stops where it ends. */
  lemma {:induction false} ForestReads(es: seq<Entity>, rest: seq<string>, depth: nat)
    requires AllFit(es, depth) && Below(rest, depth)
    ensures ParseForest(ForestLines(es, depth) + rest, depth) == Parsed(es, rest)
    decreases es
  {
    if es == [] {
      NothingReads(rest, depth);
    } else {
      var later := ForestLines(es[1..], depth) + rest;
      var below := ForestLines(es[0].children, depth + 1) + later;
      ForestIsBelow(es[1..], depth, rest);
      ForestIsNoProp(es[0].children, depth + 1, later);
      ForestReads(es[0].children, later, depth + 1);
      ForestReads(es[1..], rest, depth);
      EntityReads(es[0], es[1..], depth, below, later, rest);
      FirstEntityLines(es, rest, depth);
      HeadOfForest(es);
    }
  }

  // ----- Soundness: what is read is what was printed -----

  predicate OneLiners(lines: seq<string>) { forall l :: l in lines ==> '\n' !in l }

  lemma BodyIsOneLine(line: string, depth: nat)
    requires '\n' !in line
    ensures '\n' !in Body(line, depth)
  {
  }

  lemma PropLineSound(line: string, depth: nat)
    requires '\n' !in line && ReadProp(Body(line, depth)).Some?
    ensures var p := ReadProp(Body(line, depth)).value;
            PropFits(p) && line == Indent(depth) + (p.key + " " + p.value)
  {
    BodyIsOneLine(line, depth);
    PropSound(Body(line, depth));
    BodySound(line, depth);
  }

  lemma HeadLineSound(line: string, depth: nat)
    requires '\n' !in line && ReadHead(Body(line, depth), depth).Some?
    ensures var e := ReadHead(Body(line, depth), depth).value;
            HeadFits(e, depth) && e.props == [] && e.children == [] && line == Indent(depth) + EntityLine(e)
  {
    BodyIsOneLine(line, depth);
    HeadSound(Body(line, depth), depth);
    BodySound(line, depth);
  }

  lemma OneLinersTail(lines: seq<string>)
    requires OneLiners(lines) && lines != []
    ensures '\n' !in lines[0] && OneLiners(lines[1..])
  {
  }

  lemma PropLinesStep(p: Property, props: seq<Property>, depth: nat, rest: seq<string>)
    ensures PropLines([p] + props, depth) + rest ==
            [Indent(depth) + (p.key + " " + p.value)] + (PropLines(props, depth) + rest)
  {
    assert ([p] + props)[1..] == props;
  }

  lemma {:induction false} PropsSound(lines: seq<string>, depth: nat)
    requires OneLiners(lines)
    ensures var r := ParseProps(lines, depth);
            AllPropsFit(r.value) && OneLiners(r.rest) && lines == PropLines(r.value, depth) + r.rest
  {
    if lines == [] || ReadProp(Body(lines[0], depth)).None? {
      assert lines == [] + lines;
    } else {
      var more := ParseProps(lines[1..], depth);
      OneLinersTail(lines);
      PropLineSound(lines[0], depth);
      PropsSound(lines[1..], depth);
      PropLinesStep(ReadProp(Body(lines[0], depth)).value, more.value, depth, more.rest);
      assert lines == [lines[0]] + lines[1..];
    }
  }

  /** The entity one step of the parser reads. */
  lemma OneEntitySound(line: string, depth: nat, props: seq<Property>, children: seq<Entity>)
    requires '\n' !in line
    ensures var head := ReadHead(Body(line, depth), depth);
            head.Some? && AllPropsFit(props) && AllFit(children, depth + 1) ==>
            var e := head.value.(props := props, children := children);
            Fits(e, depth) && line == Indent(depth) + EntityLine(e)
  {
    if ReadHead(Body(line, depth), depth).Some? { HeadLineSound(line, depth); }
  }

  /** The lines of an entity and of those after it, put together. */
  lemma LinesJoin(lines: seq<string>, depth: nat, e: Entity, es: seq<Entity>, below: seq<string>, later: seq<string>,
                  rest: seq<string>)
    requires lines != [] && lines[0] == Indent(depth) + EntityLine(e)
    requires lines[1..] == PropLines(e.props, depth + 1) + below
    requires below == ForestLines(e.children, depth + 1) + later
    requires later == ForestLines(es, depth) + rest
    ensures lines == ForestLines([e] + es, depth) + rest
  {
    assert ([e] + es)[1..] == es;
    FirstEntityLines([e] + es, rest, depth);
    assert lines == [lines[0]] + lines[1..];
  }

  /** The entity in front and what was read after it. */
  lemma SoundStep(lines: seq<string>, depth: nat, props: Parsed<seq<Property>>, children: Parsed<seq<Entity>>,
                  more: Parsed<seq<Entity>>)
    requires lines != [] && '\n' !in lines[0] && ReadHead(Body(lines[0], depth), depth).Some?
    requires AllPropsFit(props.value) && lines[1..] == PropLines(props.value, depth + 1) + props.rest
    requires AllFit(children.value, depth + 1) && props.rest == ForestLines(children.value, depth + 1) + children.rest
    requires AllFit(more.value, depth) && children.rest == ForestLines(more.value, depth) + more.rest
    ensures var head := ReadHead(Body(lines[0], depth), depth).value;
            var es := [head.(props := props.value, children := children.value)] + more.value;
            AllFit(es, depth) && lines == ForestLines(es, depth) + more.rest
  {
    OneEntitySound(lines[0], depth, props.value, children.value);
    var e := ReadHead(Body(lines[0], depth), depth).value.(props := props.value, children := children.value);
    LinesJoin(lines, depth, e, more.value, props.rest, children.rest, more.rest);
    FitsAll(e, more.value, depth);
  }

  lemma {:induction false} ForestSound(lines: seq<string>, depth: nat)
    requires OneLiners(lines)
    ensures var r := ParseForest(lines, depth);
            AllFit(r.value, depth) && OneLiners(r.rest) && lines == ForestLines(r.value, depth) + r.rest
    decreases |lines|
  {
    if lines == [] || ReadHead(Body(lines[0], depth), depth).None? {
      assert lines == [] + lines;
    } else {
      var props := ParseProps(lines[1..], depth + 1);
      var children := ParseForest(props.rest, depth + 1);
      OneLinersTail(lines);
      PropsSound(lines[1..], depth + 1);
      ForestSound(props.rest, depth + 1);
      ForestSound(children.rest, depth);
      SoundStep(lines, depth, props, children, ParseForest(children.rest, depth));
    }
  }

  lemma FitsAll(e: Entity, es: seq<Entity>, depth: nat)
    requires Fits(e, depth) && AllFit(es, depth)
    ensures AllFit([e] + es, depth)
  {
    assert ([e] + es)[1..] == es;
  }
}

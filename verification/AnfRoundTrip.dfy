/** The layout the ANF printer uses for entities determines the tree, as long as every
    entity below the top carries a status and its words keep clear of the syntax: the
    decoder gives the forest back, and `DecodesBack` says exactly when. */
module AnfRoundTrip {
  import opened Wrappers
  import opened Text
  import opened Anf
  import opened AnfEncoder
  import opened AnfDecoder

  // ----- Texts -----

  lemma {:induction false} LinesOfUnlines(lines: seq<string>)
    requires OneLiners(lines)
    ensures Split(Unlines(lines), '\n') == lines + [""]
  {
    if lines == [] {
    } else {
      SplitHead(lines[0], Unlines(lines[1..]), '\n');
      LinesOfUnlines(lines[1..]);
      assert lines == [lines[0]] + lines[1..];
    }
  }

  lemma {:induction false} UnlinesOfSplit(parts: seq<string>)
    requires parts != [] && parts[|parts| - 1] == ""
    ensures Unlines(parts[..|parts| - 1]) == Join(parts, '\n')
  {
    if |parts| == 1 {
    } else {
      UnlinesOfSplit(parts[1..]);
      assert parts[..|parts| - 1][1..] == parts[1..][..|parts| - 2];
    }
  }

  lemma LinesSound(text: string)
    requires Lines(text).Some?
    ensures OneLiners(Lines(text).value) && Unlines(Lines(text).value) == text
  {
    var parts := Split(text, '\n');
    UnlinesOfSplit(parts);
    JoinSplit(text, '\n');
  }

  lemma {:induction false} ForestIsOneLiners(es: seq<Entity>, depth: nat)
    requires AllFit(es, depth)
    ensures OneLiners(ForestLines(es, depth))
    decreases es
  {
    if es == [] {
    } else {
      var e := es[0];
      HeadIsOneLine(e, depth);
      PropsAreOneLiners(e.props, depth + 1);
      ForestIsOneLiners(e.children, depth + 1);
      ForestIsOneLiners(es[1..], depth);
    }
  }

  lemma {:induction false} IndentIsBlank(depth: nat)
    ensures forall c :: c in Indent(depth) ==> c == ' '
  {
    if depth == 0 {
    } else {
      IndentIsBlank(depth - 1);
    }
  }

  lemma {:induction false} InlineIsOneLine(props: seq<Property>)
    requires InlineFits(props)
    ensures '\n' !in InlineText(props)
  {
    if props == [] {
    } else {
      assert PairFits(props[0]) && '\n' !in props[0].value;
      InlineIsOneLine(props[1..]);
    }
  }

  lemma HeadIsOneLine(e: Entity, depth: nat)
    requires HeadFits(e, depth)
    ensures '\n' !in Indent(depth) + EntityLine(e)
  {
    IndentIsBlank(depth);
    InlineIsOneLine(e.inline);
  }

  lemma PropIsOneLine(p: Property, depth: nat)
    requires PropFits(p)
    ensures '\n' !in Indent(depth) + (p.key + " " + p.value)
  {
    IndentIsBlank(depth);
    assert '\n' !in p.key + " " && '\n' !in p.key + " " + p.value;
  }

  lemma {:induction false} PropsAreOneLiners(props: seq<Property>, depth: nat)
    requires AllPropsFit(props)
    ensures OneLiners(PropLines(props, depth))
  {
    if props == [] {
    } else {
      var line := Indent(depth) + (props[0].key + " " + props[0].value);
      PropIsOneLine(props[0], depth);
      PropsAreOneLiners(props[1..], depth);
      assert PropLines(props, depth) == [line] + PropLines(props[1..], depth);
    }
  }

  // ----- The main results -----

  lemma DecodeEncoded(es: seq<Entity>)
    requires AllFit(es, 0)
    ensures Decode(ForestText(es)) == Some(es)
  {
    var lines := ForestLines(es, 0);
    ForestIsOneLiners(es, 0);
    LinesOfUnlines(lines);
    assert (lines + [""])[..|lines|] == lines;
    ForestReads(es, [], 0);
    assert lines + [] == lines;
  }

  /** Whatever decodes is the printing of what it decodes to, and that fits. */
  lemma DecodeSound(text: string)
    requires Decode(text).Some?
    ensures AllFit(Decode(text).value, 0) && ForestText(Decode(text).value) == text
  {
    var lines := Lines(text).value;
    LinesSound(text);
    ForestSound(lines, 0);
    var printed := ForestLines(Decode(text).value, 0);
    assert printed + [] == printed;
  }

  /** Decoding gives a forest back exactly when it fits the syntax. */
  lemma DecodesBack(es: seq<Entity>)
    ensures Decode(ForestText(es)) == Some(es) <==> AllFit(es, 0)
  {
    if AllFit(es, 0) {
      DecodeEncoded(es);
    } else if Decode(ForestText(es)).Some? {
      DecodeSound(ForestText(es));
    }
  }

  /** No two forests that fit print the same. */
  lemma PrintsApart(es: seq<Entity>, fs: seq<Entity>)
    requires AllFit(es, 0) && AllFit(fs, 0) && ForestText(es) == ForestText(fs)
    ensures es == fs
  {
    DecodeEncoded(es);
    DecodeEncoded(fs);
  }

  /** A value without `[` never makes a property read as an entity. */
  lemma PlainPropFits(p: Property)
    requires p.key != "" && Word(p.key) && '\n' !in p.value && '[' !in p.value
    ensures PropFits(p)
  {
    var body := p.key + [' '] + p.value;
    SplitHead(p.key, p.value, ' ');
    SplitKeepsOut(p.value, ' ', '[');
    var words := Split(body, ' ');
    assert words == [p.key] + Split(p.value, ' ') && body == p.key + " " + p.value;
    assert |words| >= 3 ==> words[2] in Split(p.value, ' ');
  }

  /** Without a status a child prints like a property of its parent. */
  lemma StatuslessIsAmbiguous(parent: Entity, kind: string, name: string, depth: nat)
    requires parent.props == [] && parent.children == []
    ensures var child := Entity(kind, name, "", [], [], []);
            var nested, flat := parent.(children := [child]), parent.(props := [Property(kind, name)]);
            nested != flat && EntityLines(nested, depth) == EntityLines(flat, depth)
  {
    var child, prop := Entity(kind, name, "", [], [], []), Property(kind, name);
    var nested, flat := parent.(children := [child]), parent.(props := [prop]);
    ChildLikeProp(child, prop, depth + 1);
    assert EntityLine(nested) == EntityLine(flat);
    assert PropLines([], depth + 1) + ForestLines([child], depth + 1) == PropLines([prop], depth + 1) + ForestLines([], depth + 1);
  }

  lemma ChildLikeProp(child: Entity, prop: Property, depth: nat)
    requires child == Entity(prop.key, prop.value, "", [], [], [])
    ensures ForestLines([child], depth) == PropLines([prop], depth)
  {
    var line := Indent(depth) + (prop.key + " " + prop.value);
    assert EntityLine(child) == prop.key + " " + prop.value;
    assert EntityLines(child, depth) == [line];
    assert [child][1..] == [] && [prop][1..] == [];
    assert PropLines([prop], depth) == [line];
  }
}

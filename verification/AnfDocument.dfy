/** A decoder for whole ANF documents: headers, entities, alerts and actions, told apart by
    their marks and the empty lines between them. `DocumentDecodesBack` says exactly which
    documents the printed text determines. */
module AnfDocument {
  import opened Wrappers
  import opened Text
  import opened Sorting
  import opened Anf
  import opened AnfEncoder
  import opened AnfDecoder
  import opened AnfRoundTrip

  // ----- Pairs of a map -----

  /** The map of the pairs; the last of one key wins. */
  function MapOf(pairs: seq<Property>): map<string, string> {
    if pairs == [] then map[]
    else
      var last := pairs[|pairs| - 1];
      MapOf(pairs[..|pairs| - 1])[last.key := last.value]
  }

  lemma MapOfStep(m: map<string, string>, init: seq<string>, last: string)
    requires last in m && forall k :: k in init ==> k in m
    ensures MapOf(PairsOf(m, init + [last])) == MapOf(PairsOf(m, init))[last := m[last]]
  {
    var pairs := PairsOf(m, init + [last]);
    assert pairs[..|pairs| - 1] == PairsOf(m, init);
    assert pairs[|pairs| - 1] == Property(last, m[last]);
  }

  lemma {:induction false} MapOfPairs(m: map<string, string>, keys: seq<string>)
    requires forall k :: k in keys ==> k in m
    ensures var r := MapOf(PairsOf(m, keys)); r.Keys == Elems(keys) && forall k :: k in keys ==> r[k] == m[k]
  {
    if keys == [] {
    } else {
      var init, last := keys[..|keys| - 1], keys[|keys| - 1];
      assert keys == init + [last];
      MapOfPairs(m, init);
      MapOfStep(m, init, last);
      ElemsAppend(init, last);
    }
  }

  /** A map and its pairs by key determine each other. */
  lemma PairsRead(m: map<string, string>)
    ensures MapOf(SortedPairs(m)) == m
  {
    var keys := SortedSeq(m.Keys);
    assert forall k :: k in keys ==> k in Elems(keys);
    MapOfPairs(m, keys);
    assert forall k :: k in m ==> k in Elems(keys);
  }

  // ----- Lines that start with a mark -----

  /** What a marked line holds: its first words, colonless words that go on with the last
      of them, and pairs. */
  datatype Marked = Marked(words: seq<string>, more: seq<string>, pairs: map<string, string>)

  /** Reads a mark, n words and pairs, which must come by key. */
  function ReadMarked(line: string, mark: char, n: nat): Option<Marked> {
    if line == "" || line[0] != mark then None
    else
      var words := Split(line[1..], ' ');
      if |words| < n then None
      else
        var (more, props) := Gather(words[n..]);
        var pairs := MapOf(props);
        if SortedPairs(pairs) == props then Some(Marked(words[..n], more, pairs)) else None
  }

  /** The words of such a line. */
  function MarkedWords(x: Marked): seq<string> { (x.words + x.more) + InlineWords(SortedPairs(x.pairs)) }

  predicate MarkedFits(x: Marked, n: nat) {
    |x.words| == n && AllWords(x.words) && AllWords(x.more) && Colonless(x.more) && InlineFits(SortedPairs(x.pairs))
  }

  lemma MarkedReads(line: string, mark: char, n: nat, x: Marked)
    requires line != "" && line[0] == mark && Split(line[1..], ' ') == MarkedWords(x) && MarkedFits(x, n)
    ensures ReadMarked(line, mark, n) == Some(x)
  {
    var words, props := MarkedWords(x), SortedPairs(x.pairs);
    assert words[..n] == x.words && words[n..] == x.more + InlineWords(props);
    InlineReads(props);
    GatherColonless(x.more, InlineWords(props));
    assert x.more + [] == x.more;
    PairsRead(x.pairs);
  }

  lemma WordsApart(words: seq<string>, n: nat)
    requires n <= |words| && AllWords(words)
    ensures AllWords(words[..n]) && AllWords(words[n..]) && words == words[..n] + words[n..]
  {
  }

  lemma MarkedSound(line: string, mark: char, n: nat)
    requires '\n' !in line && ReadMarked(line, mark, n).Some?
    ensures var x := ReadMarked(line, mark, n).value;
            MarkedFits(x, n) && line != "" && line[0] == mark && Split(line[1..], ' ') == MarkedWords(x)
  {
    var words := Split(line[1..], ' ');
    SplitKeepsOut(line[1..], ' ', '\n');
    WordsApart(words, n);
    GatherSound(words[n..]);
    var (more, props) := Gather(words[n..]);
    JoinParts(words[..n], more, InlineWords(props));
  }

  /** Two lines with the same mark and words are the same. */
  lemma SameWords(a: string, b: string)
    requires a != "" && b != "" && a[0] == b[0] && Split(a[1..], ' ') == Split(b[1..], ' ')
    ensures a == b
  {
    JoinSplit(a[1..], ' ');
    JoinSplit(b[1..], ' ');
    assert a == [a[0]] + a[1..] && b == [b[0]] + b[1..];
  }

  // ----- Headers -----

  function ReadHeader(line: string): Option<Header> {
    if line == "" || line[0] != '@' then None
    else match Cut(line[1..], ' ')
      case None => None
      case Some(p) => Some(Header(p.0, p.1))
  }

  predicate HeaderFits(h: Header) { Word(h.key) && '\n' !in h.value }

  lemma HeaderReads(h: Header)
    requires HeaderFits(h)
    ensures ReadHeader(HeaderLine(h)) == Some(h)
  {
    assert HeaderLine(h)[1..] == h.key + [' '] + h.value;
    CutFinds(h.key, ' ', h.value);
  }

  lemma HeaderSound(line: string)
    requires '\n' !in line && ReadHeader(line).Some?
    ensures HeaderFits(ReadHeader(line).value) && HeaderLine(ReadHeader(line).value) == line
  {
    var body := line[1..];
    CutSound(body, ' ');
    var p := Cut(body, ' ').value;
    assert line == [line[0]] + body;
    PartsKeepOut(p.0, [' '], p.1, '\n');
    assert "@" + p.0 + " " + p.1 == "@" + (p.0 + [' '] + p.1);
  }

  lemma PartsKeepOut(a: string, b: string, c: string, x: char)
    requires x !in a + b + c
    ensures x !in a && x !in c
  {
    assert forall y :: y in a || y in c ==> y in a + b + c;
  }

  // ----- Alerts -----

  /** An alert's message is at least one word; its further words have no colon. */
  function ReadAlert(line: string): Option<Alert> {
    match ReadMarked(line, '!', 4)
    case None => None
    case Some(x) => Some(Alert(x.words[0], x.words[1], x.words[2], Join([x.words[3]] + x.more, ' '), x.pairs))
  }

  predicate AlertFits(a: Alert) {
    Word(a.severity) && Word(a.kind) && Word(a.name) && ValueFits(a.message) && InlineFits(SortedPairs(a.props))
  }

  function AlertMarked(a: Alert): Marked {
    var message := Split(a.message, ' ');
    Marked([a.severity, a.kind, a.name, message[0]], message[1..], a.props)
  }

  lemma ThreeWords(a: string, b: string, c: string)
    requires Word(a) && Word(b)
    ensures Split(a + " " + b + " " + c, ' ') == [a, b] + Split(c, ' ')
  {
    SplitConcat(a + [' '] + b, c, ' ');
    SplitHead(a, b, ' ');
    SplitWhole(b, ' ');
    assert a + " " + b + " " + c == (a + [' '] + b) + [' '] + c;
  }

  lemma FourWords(a: string, b: string, c: string, d: string)
    requires Word(a) && Word(b) && Word(c)
    ensures Split(a + " " + b + " " + c + " " + d, ' ') == [a, b, c] + Split(d, ' ')
  {
    ThreeWords(a, b, c);
    SplitWhole(c, ' ');
    SplitConcat(a + " " + b + " " + c, d, ' ');
  }

  lemma AfterMark(mark: string, a: string, b: string, c: string, d: string, tail: string)
    requires |mark| == 1
    ensures (mark + a + " " + b + " " + c + " " + d + tail)[1..] == (a + " " + b + " " + c + " " + d) + tail
  {
    AfterMark3(mark, a, b, c);
    assert ((mark + a + " " + b + " " + c) + " " + d + tail)[1..] == (mark + a + " " + b + " " + c)[1..] + " " + d + tail;
  }

  lemma AfterMark3(mark: string, a: string, b: string, c: string)
    requires |mark| == 1
    ensures (mark + a + " " + b + " " + c)[1..] == a + " " + b + " " + c
  {
    assert (mark + a)[1..] == a;
    assert (mark + a + " " + b)[1..] == (mark + a)[1..] + " " + b;
    assert ((mark + a + " " + b) + " " + c)[1..] == (mark + a + " " + b)[1..] + " " + c;
  }

  lemma AlertLineWords(a: Alert)
    requires Word(a.severity) && Word(a.kind) && Word(a.name)
    ensures var line := AlertLine(a);
            line != "" && line[0] == '!' && Split(line[1..], ' ') == MarkedWords(AlertMarked(a))
  {
    var first, props := a.severity + " " + a.kind + " " + a.name + " " + a.message, SortedPairs(a.props);
    FourWords(a.severity, a.kind, a.name, a.message);
    SplitInline(first, props);
    AfterMark("!", a.severity, a.kind, a.name, a.message, InlineText(props));
    AlertWordsJoin(a.severity, a.kind, a.name, Split(a.message, ' '), InlineWords(props));
  }

  lemma AlertWordsJoin(a: string, b: string, c: string, ds: seq<string>, rest: seq<string>)
    requires ds != []
    ensures ([a, b, c] + ds) + rest == ([a, b, c, ds[0]] + ds[1..]) + rest
  {
  }

  lemma AlertReads(a: Alert)
    requires AlertFits(a)
    ensures ReadAlert(AlertLine(a)) == Some(a)
  {
    var message := Split(a.message, ' ');
    AlertLineWords(a);
    MessageFits(a.message);
    MarkedReads(AlertLine(a), '!', 4, AlertMarked(a));
  }

  lemma MessageFits(message: string)
    requires ValueFits(message)
    ensures var words := Split(message, ' ');
            AllWords(words) && Colonless(words[1..]) && Join([words[0]] + words[1..], ' ') == message
  {
    var words := Split(message, ' ');
    SplitKeepsOut(message, ' ', '\n');
    JoinSplit(message, ' ');
    assert [words[0]] + words[1..] == words;
  }

  lemma AlertSound(line: string)
    requires '\n' !in line && ReadAlert(line).Some?
    ensures AlertFits(ReadAlert(line).value) && AlertLine(ReadAlert(line).value) == line
  {
    var x, a := ReadMarked(line, '!', 4).value, ReadAlert(line).value;
    MarkedSound(line, '!', 4);
    FirstOf(x.words);
    ValueSound(x.words[3], x.more);
    assert AlertMarked(a) == x;
    AlertLineWords(a);
    SameWords(AlertLine(a), line);
  }

  lemma FirstOf(words: seq<string>)
    requires |words| == 4
    ensures words == [words[0], words[1], words[2], words[3]]
  {
  }

  // ----- Actions -----

  function ReadAction(line: string): Option<Action> {
    match ReadMarked(line, '?', 3)
    case None => None
    case Some(x) => if x.more == [] then Some(Action(x.words[0], x.words[1], x.words[2], x.pairs)) else None
  }

  predicate ActionFits(a: Action) {
    Word(a.verb) && Word(a.kind) && Word(a.name) && InlineFits(SortedPairs(a.params))
  }

  function ActionMarked(a: Action): Marked { Marked([a.verb, a.kind, a.name], [], a.params) }

  lemma ActionLineWords(a: Action)
    requires Word(a.verb) && Word(a.kind) && Word(a.name)
    ensures var line := ActionLine(a);
            line != "" && line[0] == '?' && Split(line[1..], ' ') == MarkedWords(ActionMarked(a))
  {
    var first, tail := a.verb + " " + a.kind + " " + a.name, InlineText(SortedPairs(a.params));
    ThreeWords(a.verb, a.kind, a.name);
    SplitWhole(a.name, ' ');
    SplitInline(first, SortedPairs(a.params));
    AfterMark3("?", a.verb, a.kind, a.name);
    assert (("?" + a.verb + " " + a.kind + " " + a.name) + tail)[1..] == ("?" + a.verb + " " + a.kind + " " + a.name)[1..] + tail;
    assert ([a.verb, a.kind] + [a.name]) == [a.verb, a.kind, a.name] + [];
  }

  lemma ActionReads(a: Action)
    requires ActionFits(a)
    ensures ReadAction(ActionLine(a)) == Some(a)
  {
    ActionLineWords(a);
    MarkedReads(ActionLine(a), '?', 3, ActionMarked(a));
  }

  lemma ActionSound(line: string)
    requires '\n' !in line && ReadAction(line).Some?
    ensures ActionFits(ReadAction(line).value) && ActionLine(ReadAction(line).value) == line
  {
    var x, a := ReadMarked(line, '?', 3).value, ReadAction(line).value;
    MarkedSound(line, '?', 3);
    assert x.words == [x.words[0], x.words[1], x.words[2]];
    assert ActionMarked(a) == x;
    ActionLineWords(a);
    SameWords(ActionLine(a), line);
  }

  // ----- Runs of lines -----

  /** The lines read one by one up to the first that cannot be. */
  function ReadLines<T>(lines: seq<string>, read: string -> Option<T>): Parsed<seq<T>> {
    if lines == [] then Parsed([], [])
    else match read(lines[0])
      case None => Parsed([], lines)
      case Some(x) =>
        var more := ReadLines(lines[1..], read);
        Parsed([x] + more.value, more.rest)
  }

  function Printed<T>(xs: seq<T>, line: T -> string): seq<string> {
    if xs == [] then [] else [line(xs[0])] + Printed(xs[1..], line)
  }

  predicate Stops<T>(rest: seq<string>, read: string -> Option<T>) { rest == [] || read(rest[0]).None? }

  lemma ReadOne<T>(line: string, after: seq<string>, read: string -> Option<T>)
    requires read(line).Some?
    ensures var more := ReadLines(after, read); ReadLines([line] + after, read) == Parsed([read(line).value] + more.value, more.rest)
  {
    assert ([line] + after)[1..] == after;
  }

  lemma {:induction false} LinesRead<T>(xs: seq<T>, line: T -> string, read: string -> Option<T>, rest: seq<string>)
    requires (forall x :: x in xs ==> read(line(x)) == Some(x)) && Stops(rest, read)
    ensures ReadLines(Printed(xs, line) + rest, read) == Parsed(xs, rest)
  {
    if xs == [] {
      assert Printed(xs, line) + rest == rest;
    } else {
      LinesRead(xs[1..], line, read, rest);
      JoinParts([line(xs[0])], Printed(xs[1..], line), rest);
      ReadOne(line(xs[0]), Printed(xs[1..], line) + rest, read);
      assert xs == [xs[0]] + xs[1..];
    }
  }

  lemma PrintedCons<T>(x: T, xs: seq<T>, line: T -> string)
    ensures Printed([x] + xs, line) == [line(x)] + Printed(xs, line)
  {
    assert ([x] + xs)[1..] == xs;
  }

  lemma {:induction false} LinesSound<T>(lines: seq<string>, line: T -> string, read: string -> Option<T>, fits: T -> bool)
    requires forall l :: l in lines && read(l).Some? ==> fits(read(l).value) && line(read(l).value) == l
    ensures var r := ReadLines(lines, read);
            lines == Printed(r.value, line) + r.rest && (forall x :: x in r.value ==> fits(x)) && Stops(r.rest, read)
  {
    if lines == [] || read(lines[0]).None? {
      assert lines == [] + lines;
    } else {
      var x, more := read(lines[0]).value, ReadLines(lines[1..], read);
      LinesSound(lines[1..], line, read, fits);
      PrintedCons(x, more.value, line);
      JoinParts([line(x)], Printed(more.value, line), more.rest);
      assert lines == [lines[0]] + lines[1..];
    }
  }

  // ----- Sections -----

  /** An empty line and what can be read after it, if anything can. */
  function Section<T>(lines: seq<string>, read: string -> Option<T>): Parsed<seq<T>> {
    if |lines| > 1 && lines[0] == "" && read(lines[1]).Some? then ReadLines(lines[1..], read) else Parsed([], lines)
  }

  function SectionLines<T>(xs: seq<T>, line: T -> string): seq<string> {
    if xs == [] then [] else [""] + Printed(xs, line)
  }

  /** No line left, or an empty one and then nothing to be read. */
  predicate Ends<T>(rest: seq<string>, read: string -> Option<T>) {
    rest == [] || (rest[0] == "" && (|rest| == 1 || read(rest[1]).None?))
  }

  lemma AfterEmpty(lines: seq<string>, rest: seq<string>)
    requires lines != []
    ensures var all := ([""] + lines) + rest;
      |all| > 1 && all[0] == "" && all[1] == lines[0] && all[1..] == lines + rest
  {
    JoinParts([""], lines, rest);
    assert ([""] + (lines + rest))[1..] == lines + rest;
  }

  lemma SectionReads<T>(xs: seq<T>, line: T -> string, read: string -> Option<T>, rest: seq<string>)
    requires forall x :: x in xs ==> read(line(x)) == Some(x)
    requires Ends(rest, read) && read("").None?
    ensures Section(SectionLines(xs, line) + rest, read) == Parsed(xs, rest)
  {
    if xs == [] {
      assert SectionLines(xs, line) + rest == rest;
    } else {
      AfterEmpty(Printed(xs, line), rest);
      LinesRead(xs, line, read, rest);
    }
  }

  lemma SectionOpened<T>(lines: seq<string>, xs: seq<T>, line: T -> string, rest: seq<string>)
    requires xs != [] && lines != [] && lines[0] == "" && lines[1..] == Printed(xs, line) + rest
    ensures lines == SectionLines(xs, line) + rest
  {
    assert lines == [lines[0]] + lines[1..];
  }

  lemma SomethingRead<T>(lines: seq<string>, read: string -> Option<T>)
    requires lines != [] && read(lines[0]).Some?
    ensures ReadLines(lines, read).value != []
  {
  }

  lemma SectionSound<T>(lines: seq<string>, line: T -> string, read: string -> Option<T>, fits: T -> bool)
    requires forall l :: l in lines && read(l).Some? ==> fits(read(l).value) && line(read(l).value) == l
    ensures var r := Section(lines, read); lines == SectionLines(r.value, line) + r.rest && forall x :: x in r.value ==> fits(x)
  {
    if |lines| > 1 && lines[0] == "" && read(lines[1]).Some? {
      var r := ReadLines(lines[1..], read);
      LinesSound(lines[1..], line, read, fits);
      SomethingRead(lines[1..], read);
      SectionOpened(lines, r.value, line, r.rest);
    } else {
      assert lines == [] + lines;
    }
  }

  // ----- Documents -----

  function HeadLines(hs: seq<Header>): seq<string> { if hs == [] then [] else Printed(hs, HeaderLine) + [""] }

  function DocumentLines(doc: Document): seq<string> {
    HeadLines(doc.headers) +
    (ForestLines(doc.entities, 0) + (SectionLines(doc.alerts, AlertLine) + SectionLines(doc.actions, ActionLine)))
  }

  /** What follows the headers: without any, everything; else an empty line comes first. */
  function AfterHeaders(lines: seq<string>): Option<seq<string>> {
    var hs := ReadLines(lines, ReadHeader);
    if hs.value == [] then Some(lines) else if hs.rest != [] && hs.rest[0] == "" then Some(hs.rest[1..]) else None
  }

  function ReadBody(headers: seq<Header>, lines: seq<string>): Option<Document> {
    var es := ParseForest(lines, 0);
    var alerts := Section(es.rest, ReadAlert);
    var actions := Section(alerts.rest, ReadAction);
    if actions.rest == [] then Some(Document(headers, es.value, alerts.value, actions.value)) else None
  }

  function ReadDocument(lines: seq<string>): Option<Document> {
    match AfterHeaders(lines)
    case None => None
    case Some(body) => ReadBody(ReadLines(lines, ReadHeader).value, body)
  }

  function DecodeDocument(text: string): Option<Document> {
    match Lines(text)
    case None => None
    case Some(lines) => ReadDocument(lines)
  }

  /** Without headers the first entity must not look like one. */
  predicate Headless(es: seq<Entity>) { es != [] && es[0].kind != "" ==> es[0].kind[0] != '@' }

  predicate DocumentFits(doc: Document) {
    && (forall h :: h in doc.headers ==> HeaderFits(h))
    && AllFit(doc.entities, 0) && (doc.headers == [] ==> Headless(doc.entities))
    && (forall a :: a in doc.alerts ==> AlertFits(a))
    && (forall a :: a in doc.actions ==> ActionFits(a))
  }

  // ----- The text of a document is its lines -----

  lemma {:induction false} HeadersPrinted(hs: seq<Header>)
    ensures HeaderLines(hs) == Printed(hs, HeaderLine)
  {
    if hs == [] {
    } else {
      HeadersPrinted(hs[1..]);
    }
  }

  lemma {:induction false} AlertsPrinted(alerts: seq<Alert>)
    ensures AlertLines(alerts) == Printed(alerts, AlertLine)
  {
    if alerts == [] {
    } else {
      AlertsPrinted(alerts[1..]);
    }
  }

  lemma {:induction false} ActionsPrinted(actions: seq<Action>)
    ensures ActionLines(actions) == Printed(actions, ActionLine)
  {
    if actions == [] {
    } else {
      ActionsPrinted(actions[1..]);
    }
  }

  lemma OneEmptyLine()
    ensures Unlines([""]) == "\n"
  {
    assert [""][1..] == [];
  }

  lemma HeaderTextIsLines(hs: seq<Header>)
    ensures HeaderText(hs) == Unlines(HeadLines(hs))
  {
    HeadersPrinted(hs);
    OneEmptyLine();
    UnlinesConcat(Printed(hs, HeaderLine), [""]);
  }

  lemma AlertTextIsLines(alerts: seq<Alert>)
    ensures AlertText(alerts) == Unlines(SectionLines(alerts, AlertLine))
  {
    AlertsPrinted(alerts);
    OneEmptyLine();
    UnlinesConcat([""], Printed(alerts, AlertLine));
  }

  lemma ActionTextIsLines(actions: seq<Action>)
    ensures ActionText(actions) == Unlines(SectionLines(actions, ActionLine))
  {
    ActionsPrinted(actions);
    OneEmptyLine();
    UnlinesConcat([""], Printed(actions, ActionLine));
  }

  lemma DocumentTextIsLines(doc: Document)
    ensures DocumentText(doc) == Unlines(DocumentLines(doc))
  {
    var hs, es := HeadLines(doc.headers), ForestLines(doc.entities, 0);
    var alerts, actions := SectionLines(doc.alerts, AlertLine), SectionLines(doc.actions, ActionLine);
    HeaderTextIsLines(doc.headers);
    AlertTextIsLines(doc.alerts);
    ActionTextIsLines(doc.actions);
    UnlinesConcat(hs, es + (alerts + actions));
    UnlinesConcat(es, alerts + actions);
    UnlinesConcat(alerts, actions);
    Regroup(Unlines(hs), Unlines(es), Unlines(alerts), Unlines(actions));
  }

  lemma Regroup(a: string, b: string, c: string, d: string)
    ensures a + b + c + d == a + (b + (c + d))
  {
  }

  // ----- Every line is one line -----

  lemma {:induction false} PrintedIsOneLiners<T>(xs: seq<T>, line: T -> string)
    requires forall x :: x in xs ==> '\n' !in line(x)
    ensures OneLiners(Printed(xs, line))
  {
    if xs == [] {
    } else {
      PrintedIsOneLiners(xs[1..], line);
    }
  }

  lemma AlertIsOneLine(a: Alert)
    requires AlertFits(a)
    ensures '\n' !in AlertLine(a)
  {
    InlineIsOneLine(SortedPairs(a.props));
    NoneIn("!" + a.severity + " " + a.kind, a.name, a.message, InlineText(SortedPairs(a.props)));
    NoneIn("!", a.severity, a.kind, "");
  }

  lemma NoneIn(a: string, b: string, c: string, d: string)
    ensures '\n' !in a + " " + b + " " + c + d <==> '\n' !in a && '\n' !in b && '\n' !in c && '\n' !in d
  {
  }

  lemma ActionIsOneLine(a: Action)
    requires ActionFits(a)
    ensures '\n' !in ActionLine(a)
  {
    InlineIsOneLine(SortedPairs(a.params));
    NoneIn("?" + a.verb, a.kind, a.name, InlineText(SortedPairs(a.params)));
    assert '\n' !in "?";
  }

  lemma HeaderIsOneLine(h: Header)
    requires HeaderFits(h)
    ensures '\n' !in HeaderLine(h)
  {
  }

  lemma OneLinersConcat(a: seq<string>, b: seq<string>)
    requires OneLiners(a) && OneLiners(b)
    ensures OneLiners(a + b)
  {
  }

  lemma DocumentIsOneLiners(doc: Document)
    requires DocumentFits(doc)
    ensures OneLiners(DocumentLines(doc))
  {
    forall h | h in doc.headers ensures '\n' !in HeaderLine(h) { HeaderIsOneLine(h); }
    forall a | a in doc.alerts ensures '\n' !in AlertLine(a) { AlertIsOneLine(a); }
    forall a | a in doc.actions ensures '\n' !in ActionLine(a) { ActionIsOneLine(a); }
    PrintedIsOneLiners(doc.headers, HeaderLine);
    PrintedIsOneLiners(doc.alerts, AlertLine);
    PrintedIsOneLiners(doc.actions, ActionLine);
    ForestIsOneLiners(doc.entities, 0);
    var alerts, actions := SectionLines(doc.alerts, AlertLine), SectionLines(doc.actions, ActionLine);
    OneLinersConcat(HeadLines(doc.headers), ForestLines(doc.entities, 0) + (alerts + actions));
    OneLinersConcat(ForestLines(doc.entities, 0), alerts + actions);
    OneLinersConcat(alerts, actions);
  }

  // ----- Reading what was printed -----

  lemma EntityAsHeader(e: Entity)
    requires Word(e.kind) && e.kind != ""
    ensures ReadHeader(EntityLine(e)).Some? <==> e.kind[0] == '@'
  {
    var rest := e.name + StatusText(e.status) + InlineText(e.inline);
    var line := EntityLine(e);
    LineParts(e.kind, e.name, StatusText(e.status), InlineText(e.inline));
    assert line[0] == e.kind[0] && line[1..] == e.kind[1..] + [' '] + rest;
    CutFinds(e.kind[1..], ' ', rest);
  }

  lemma LineParts(kind: string, name: string, status: string, inline: string)
    ensures kind + " " + name + status + inline == kind + [' '] + (name + status + inline)
  {
  }

  /** Empty lines end everything. */
  lemma NothingInEmptyLine()
    ensures ReadHeader("").None? && ReadAlert("").None? && ReadAction("").None?
  {
  }

  lemma ActionIsNoAlert(a: Action)
    ensures ReadAlert(ActionLine(a)).None?
  {
    assert ActionLine(a)[0] == '?';
  }

  lemma ActionsEnd(actions: seq<Action>)
    ensures Ends(SectionLines(actions, ActionLine), ReadAlert)
  {
    if actions != [] {
      ActionIsNoAlert(actions[0]);
      assert SectionLines(actions, ActionLine)[1] == ActionLine(actions[0]);
    }
  }

  lemma SectionsBelow(alerts: seq<Alert>, actions: seq<Action>)
    ensures var rest := SectionLines(alerts, AlertLine) + SectionLines(actions, ActionLine); rest == [] || rest[0] == ""
  {
  }

  lemma BodyReads(doc: Document)
    requires DocumentFits(doc)
    ensures ReadBody(doc.headers, ForestLines(doc.entities, 0) +
                     (SectionLines(doc.alerts, AlertLine) + SectionLines(doc.actions, ActionLine))) == Some(doc)
  {
    var alerts, actions := SectionLines(doc.alerts, AlertLine), SectionLines(doc.actions, ActionLine);
    SectionsBelow(doc.alerts, doc.actions);
    ForestReads(doc.entities, alerts + actions, 0);
    forall a | a in doc.alerts ensures ReadAlert(AlertLine(a)) == Some(a) { AlertReads(a); }
    forall a | a in doc.actions ensures ReadAction(ActionLine(a)) == Some(a) { ActionReads(a); }
    NothingInEmptyLine();
    ActionsEnd(doc.actions);
    SectionReads(doc.alerts, AlertLine, ReadAlert, actions);
    SectionReads(doc.actions, ActionLine, ReadAction, []);
    assert actions + [] == actions;
  }

  lemma FirstBodyLine(doc: Document)
    requires DocumentFits(doc) && doc.headers == []
    ensures Stops(ForestLines(doc.entities, 0) +
                  (SectionLines(doc.alerts, AlertLine) + SectionLines(doc.actions, ActionLine)), ReadHeader)
  {
    var rest := SectionLines(doc.alerts, AlertLine) + SectionLines(doc.actions, ActionLine);
    SectionsBelow(doc.alerts, doc.actions);
    if doc.entities == [] {
      assert ForestLines(doc.entities, 0) + rest == rest;
    } else {
      ForestStarts(doc.entities, 0, rest);
      assert Fits(doc.entities[0], 0);
      EntityAsHeader(doc.entities[0]);
      assert Indent(0) + EntityLine(doc.entities[0]) == EntityLine(doc.entities[0]);
    }
  }

  lemma SomeHeadersRead(hs: seq<Header>, body: seq<string>)
    requires hs != [] && forall h :: h in hs ==> HeaderFits(h)
    ensures ReadLines(HeadLines(hs) + body, ReadHeader) == Parsed(hs, [""] + body)
  {
    forall h | h in hs ensures ReadHeader(HeaderLine(h)) == Some(h) { HeaderReads(h); }
    NothingInEmptyLine();
    LinesRead(hs, HeaderLine, ReadHeader, [""] + body);
    JoinParts(Printed(hs, HeaderLine), [""], body);
  }

  lemma HeadersRead(hs: seq<Header>, body: seq<string>)
    requires forall h :: h in hs ==> HeaderFits(h)
    requires hs == [] ==> Stops(body, ReadHeader)
    ensures ReadLines(HeadLines(hs) + body, ReadHeader).value == hs && AfterHeaders(HeadLines(hs) + body) == Some(body)
  {
    if hs == [] {
      assert HeadLines(hs) + body == body;
    } else {
      SomeHeadersRead(hs, body);
      assert ([""] + body)[1..] == body;
    }
  }

  lemma DocumentReads(doc: Document)
    requires DocumentFits(doc)
    ensures ReadDocument(DocumentLines(doc)) == Some(doc)
  {
    if doc.headers == [] { FirstBodyLine(doc); }
    HeadersRead(doc.headers, ForestLines(doc.entities, 0) +
                             (SectionLines(doc.alerts, AlertLine) + SectionLines(doc.actions, ActionLine)));
    BodyReads(doc);
  }

  // ----- What was read is what was printed -----

  lemma ReadBodySound(headers: seq<Header>, lines: seq<string>)
    requires OneLiners(lines) && ReadBody(headers, lines).Some?
    ensures var doc := ReadBody(headers, lines).value;
            && doc.headers == headers && AllFit(doc.entities, 0)
            && (forall a :: a in doc.alerts ==> AlertFits(a)) && (forall a :: a in doc.actions ==> ActionFits(a))
            && lines == ForestLines(doc.entities, 0) +
                        (SectionLines(doc.alerts, AlertLine) + SectionLines(doc.actions, ActionLine))
  {
    var es := ParseForest(lines, 0);
    var alerts := Section(es.rest, ReadAlert);
    ForestSound(lines, 0);
    forall l | l in es.rest && ReadAlert(l).Some? ensures AlertFits(ReadAlert(l).value) && AlertLine(ReadAlert(l).value) == l {
      AlertSound(l);
    }
    SectionSound(es.rest, AlertLine, ReadAlert, AlertFits);
    TailIsOneLiners(SectionLines(alerts.value, AlertLine), alerts.rest, es.rest);
    forall l | l in alerts.rest && ReadAction(l).Some? ensures ActionFits(ReadAction(l).value) && ActionLine(ReadAction(l).value) == l {
      ActionSound(l);
    }
    SectionSound(alerts.rest, ActionLine, ReadAction, ActionFits);
    var actions := Section(alerts.rest, ReadAction);
    assert SectionLines(actions.value, ActionLine) + [] == SectionLines(actions.value, ActionLine);
  }

  lemma TailIsOneLiners(head: seq<string>, tail: seq<string>, all: seq<string>)
    requires all == head + tail && OneLiners(all)
    ensures OneLiners(tail)
  {
    assert forall l :: l in tail ==> l in head + tail;
  }

  lemma HeadersSound(lines: seq<string>)
    requires OneLiners(lines) && AfterHeaders(lines).Some?
    ensures var hs, body := ReadLines(lines, ReadHeader).value, AfterHeaders(lines).value;
            && (forall h :: h in hs ==> HeaderFits(h)) && lines == HeadLines(hs) + body && OneLiners(body)
            && (hs == [] ==> Stops(body, ReadHeader))
  {
    var hs, body := ReadLines(lines, ReadHeader), AfterHeaders(lines).value;
    forall l | l in lines && ReadHeader(l).Some? ensures HeaderFits(ReadHeader(l).value) && HeaderLine(ReadHeader(l).value) == l {
      HeaderSound(l);
    }
    LinesSound(lines, HeaderLine, ReadHeader, HeaderFits);
    if hs.value == [] {
      assert [] + lines == lines && [] + hs.rest == hs.rest;
    } else {
      assert hs.rest == [""] + body;
      TailIsOneLiners(Printed(hs.value, HeaderLine) + [""], body, lines);
    }
  }

  lemma DocumentSound(lines: seq<string>)
    requires OneLiners(lines) && ReadDocument(lines).Some?
    ensures DocumentFits(ReadDocument(lines).value) && DocumentLines(ReadDocument(lines).value) == lines
  {
    var hs, body, doc := ReadLines(lines, ReadHeader).value, AfterHeaders(lines).value, ReadDocument(lines).value;
    HeadersSound(lines);
    ReadBodySound(hs, body);
    if hs == [] && doc.entities != [] {
      ForestStarts(doc.entities, 0, SectionLines(doc.alerts, AlertLine) + SectionLines(doc.actions, ActionLine));
      assert Indent(0) + EntityLine(doc.entities[0]) == EntityLine(doc.entities[0]);
      assert Fits(doc.entities[0], 0);
      EntityAsHeader(doc.entities[0]);
    }
  }

  // ----- The main results -----

  lemma DecodeOfPrinted(doc: Document)
    requires DocumentFits(doc)
    ensures DecodeDocument(DocumentText(doc)) == Some(doc)
  {
    var lines := DocumentLines(doc);
    DocumentTextIsLines(doc);
    DocumentIsOneLiners(doc);
    LinesOfUnlines(lines);
    assert (lines + [""])[..|lines|] == lines;
    DocumentReads(doc);
  }

  /** Whatever text decodes is the printing of a document that fits, and of no other. */
  lemma DecodedIsPrinted(text: string)
    requires DecodeDocument(text).Some?
    ensures DocumentFits(DecodeDocument(text).value) && DocumentText(DecodeDocument(text).value) == text
  {
    var lines := Lines(text).value;
    AnfRoundTrip.LinesSound(text);
    DocumentSound(lines);
    DocumentTextIsLines(DecodeDocument(text).value);
  }

  /** Decoding gives a whole document back exactly when it fits the syntax. */
  lemma DocumentDecodesBack(doc: Document)
    ensures DecodeDocument(DocumentText(doc)) == Some(doc) <==> DocumentFits(doc)
  {
    if DocumentFits(doc) {
      DecodeOfPrinted(doc);
    } else if DecodeDocument(DocumentText(doc)).Some? {
      DecodedIsPrinted(DocumentText(doc));
    }
  }

  /** No two documents that fit print the same. */
  lemma DocumentsPrintApart(doc: Document, other: Document)
    requires DocumentFits(doc) && DocumentFits(other) && DocumentText(doc) == DocumentText(other)
    ensures doc == other
  {
    DecodeOfPrinted(doc);
    DecodeOfPrinted(other);
  }
}

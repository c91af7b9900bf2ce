/** Tools imported from MCP servers (internal/sources/mcp/source.go). */
module McpSource {
  import opened Text
  import opened Sorting
  import opened Json
  import opened Registry
  import opened ToolSchema

  datatype Source = Source(name: string, baseUrl: string, kind: string, extraCapabilities: seq<string>)

  datatype Descriptor = Descriptor(name: string, inputSchema: Json)

  datatype ConvertResult = Converted(tool: Tool) | MissingName

  // ----- Capability tags -----

  predicate IsSeparator(c: char) { c == '.' || c == '_' || c == '-' || c == '/' || c == ' ' || c == ':' }

  function Tokens(s: string, cur: string): seq<string> { Pieces(s, cur, IsSeparator) }

  method Tokenize(s: string) returns (out: seq<string>)
    ensures out == Tokens(ToLower(s), "")
  {
    out := [];
    var cur := "";
    var lower := ToLower(s);
    assert lower[0..] == lower;
    for i := 0 to |lower|
      invariant out + Tokens(lower[i..], cur) == Tokens(lower, "")
    {
      assert lower[i..][1..] == lower[i + 1..];
      if IsSeparator(lower[i]) {
        assert out + (Flushed(cur) + Tokens(lower[i + 1..], "")) == (out + Flushed(cur)) + Tokens(lower[i + 1..], "");
        if |cur| > 0 { out := out + [cur]; } else { assert out + Flushed(cur) == out; }
        cur := "";
      } else {
        cur := cur + [lower[i]];
      }
    }
    if |cur| > 0 { out := out + [cur]; }
  }

  /** The tag a word contributes: normalised, and dropped when shorter than two. */
  function TagOf(s: string): set<string> {
    var t := Normalize(s);
    if |t| < 2 then {} else {t}
  }

  /** Verbs also tag what they do. */
  function Synonyms(token: string): set<string> {
    if token in ["create", "post", "put", "send", "publish", "delete", "destroy", "remove"] then {"write"}
    else if token in ["get", "list", "read", "fetch", "search", "describe"] then {"read"}
    else {}
  }

  function TagsOfWords(words: seq<string>): set<string> {
    if words == [] then {} else TagsOfWords(words[..|words| - 1]) + TagOf(words[|words| - 1])
  }

  function TagsOfTokens(tokens: seq<string>): set<string> {
    if tokens == [] then {}
    else TagsOfTokens(tokens[..|tokens| - 1]) + TagOf(tokens[|tokens| - 1]) + Synonyms(tokens[|tokens| - 1])
  }

  function InferredTags(name: string, extras: seq<string>): set<string> {
    TagsOfWords(extras) + TagsOfTokens(Tokens(ToLower(name), ""))
  }

  method InferCapabilities(name: string, extras: seq<string>) returns (out: seq<string>)
    ensures out == SortedSeq(InferredTags(name, extras))
  {
    var seen: set<string> := {};
    for i := 0 to |extras|
      invariant seen == TagsOfWords(extras[..i])
    {
      assert extras[..i + 1][..i] == extras[..i];
      seen := seen + TagOf(extras[i]);
    }
    assert extras[..|extras|] == extras;
    var tokens := Tokenize(name);
    for i := 0 to |tokens|
      invariant seen == TagsOfWords(extras) + TagsOfTokens(tokens[..i])
    {
      assert tokens[..i + 1][..i] == tokens[..i];
      seen := seen + TagOf(tokens[i]) + Synonyms(tokens[i]);
    }
    assert tokens[..|tokens|] == tokens;
    out := SortSet(seen);
  }

  // ----- Which tags a tool gets -----

  /** A word of the name, lower-cased. */
  ghost predicate IsWord(name: string, w: string) { HasPiece(ToLower(name), w, IsSeparator) }

  const WRITING := ["create", "post", "put", "send", "publish", "delete", "destroy", "remove"]

  const READING := ["get", "list", "read", "fetch", "search", "describe"]

  /** A tag comes from an extra or a word of the name, normalised and of two letters at least,
      or says what a verb among the words does. */
  ghost predicate Earns(name: string, extras: seq<string>, tag: string) {
    || (|tag| >= 2 && exists e :: e in extras && Normalize(e) == tag)
    || (|tag| >= 2 && exists w :: IsWord(name, w) && Normalize(w) == tag)
    || (tag == "write" && exists w :: IsWord(name, w) && w in WRITING)
    || (tag == "read" && exists w :: IsWord(name, w) && w in READING)
  }

  lemma {:induction false} WordTagsAre(words: seq<string>, tag: string)
    ensures tag in TagsOfWords(words) <==> |tag| >= 2 && exists e :: e in words && Normalize(e) == tag
  {
    if words == [] {
    } else {
      WordTagsAre(words[..|words| - 1], tag);
      assert forall e :: e in words <==> e in words[..|words| - 1] || e == words[|words| - 1];
    }
  }

  lemma SynonymsAre(token: string, tag: string)
    ensures tag in Synonyms(token) <==> (tag == "write" && token in WRITING) || (tag == "read" && token in READING)
  {
  }

  lemma {:induction false} TokenTagsAre(tokens: seq<string>, tag: string)
    ensures tag in TagsOfTokens(tokens) <==> exists w :: w in tokens && (tag in TagOf(w) || tag in Synonyms(w))
  {
    if tokens == [] {
    } else {
      TokenTagsAre(tokens[..|tokens| - 1], tag);
      assert forall e :: e in tokens <==> e in tokens[..|tokens| - 1] || e == tokens[|tokens| - 1];
    }
  }

  lemma TokensAreWords(name: string)
    ensures forall w :: w in Tokens(ToLower(name), "") <==> IsWord(name, w)
  {
    forall w ensures w in Tokens(ToLower(name), "") <==> IsWord(name, w) {
      PiecesAre(ToLower(name), "", w, IsSeparator);
      assert "" + ToLower(name) == ToLower(name);
    }
  }

  /** The tags inferred for a tool are exactly those its name and its source's extras earn. */
  lemma TagsEarned(name: string, extras: seq<string>, tag: string)
    ensures tag in InferredTags(name, extras) <==> Earns(name, extras, tag)
  {
    WordTagsAre(extras, tag);
    TokenTagsAre(Tokens(ToLower(name), ""), tag);
    TokensAreWords(name);
    forall w ensures tag in Synonyms(w) <==> (tag == "write" && w in WRITING) || (tag == "read" && w in READING) {
      SynonymsAre(w, tag);
    }
  }

  predicate LowerTag(t: string) { t != "" && Trimmed(t) && ToLower(t) == t }

  lemma TagIsLower(s: string)
    ensures forall t :: t in TagOf(s) ==> LowerTag(t)
  {
    NormalizeNormal(s);
  }

  lemma SynonymIsLower(token: string)
    ensures forall t :: t in Synonyms(token) ==> LowerTag(t)
  {
    assert LowerTag("write") && LowerTag("read");
  }

  lemma {:induction false} WordTagsAreLower(words: seq<string>)
    ensures forall t :: t in TagsOfWords(words) ==> LowerTag(t)
  {
    if words == [] {
    } else {
      WordTagsAreLower(words[..|words| - 1]);
      TagIsLower(words[|words| - 1]);
    }
  }

  lemma {:induction false} TokenTagsAreLower(tokens: seq<string>)
    ensures forall t :: t in TagsOfTokens(tokens) ==> LowerTag(t)
  {
    if tokens == [] {
    } else {
      TokenTagsAreLower(tokens[..|tokens| - 1]);
      TagIsLower(tokens[|tokens| - 1]);
      SynonymIsLower(tokens[|tokens| - 1]);
    }
  }

  // ----- Conversion -----

  /** The tags of an imported tool: those inferred, or else the source's own name. */
  function ToolTags(src: Source, d: Descriptor): seq<string> {
    if InferredTags(d.name, src.extraCapabilities) == {} then [src.name]
    else SortedSeq(InferredTags(d.name, src.extraCapabilities))
  }

  function ToolId(src: Source, d: Descriptor): string { src.name + "." + d.name }

  /** An imported tool has tags, and they are normal unless the source's own name has to
      serve as one and is not. */
  lemma ToolTagsAreLower(src: Source, d: Descriptor)
    ensures ToolTags(src, d) != []
    ensures (forall t :: t in ToolTags(src, d) ==> LowerTag(t)) <==>
            InferredTags(d.name, src.extraCapabilities) != {} || LowerTag(src.name)
  {
    var tags := InferredTags(d.name, src.extraCapabilities);
    WordTagsAreLower(src.extraCapabilities);
    TokenTagsAreLower(Tokens(ToLower(d.name), ""));
    StrictlySortedSize(tags);
    assert Elems(SortedSeq(tags)) == tags;
    assert forall t :: t in SortedSeq(tags) ==> t in Elems(SortedSeq(tags));
    assert src.name in [src.name];
  }

  function HostOf(rawUrl: string): string {
    UpTo(TrimPrefix(TrimPrefix(rawUrl, "https://"), "http://"), {'/', ':', '?'})
  }

  predicate IsStdio(src: Source) { ToLower(src.kind) == "stdio" }

  function HttpEndpoint(baseUrl: string, name: string): string { WithoutSlashes(baseUrl) + "/tools/call/" + name }

  function ToolFrom(src: Source, d: Descriptor): Tool {
    if IsStdio(src) then
      Tool(ToolId(src, d), "stdio", "stdio://" + src.name + "/" + d.name, "tools/call", Compacted(d.inputSchema), "none", "30s",
           ToolTags(src, d), [], [], false)
    else
      Tool(ToolId(src, d), "http", HttpEndpoint(src.baseUrl, d.name), "POST", Compacted(d.inputSchema),
           "pre-injected", "30s", ToolTags(src, d), [HostOf(src.baseUrl)], [], false)
  }

  method Convert(src: Source, d: Descriptor) returns (r: ConvertResult)
    ensures r == if TrimSpace(d.name) == "" then MissingName else Converted(ToolFrom(src, d))
  {
    if TrimSpace(d.name) == "" {
      return MissingName;
    }
    var caps := InferCapabilities(d.name, src.extraCapabilities);
    StrictlySortedSize(InferredTags(d.name, src.extraCapabilities));
    if |caps| == 0 {
      caps := [src.name];
    }
    var schema := CompactSchema(d.inputSchema);
    var id := src.name + "." + d.name;
    if IsStdio(src) {
      var endpoint := "stdio://" + src.name + "/" + d.name;
      return Converted(Tool(id, "stdio", endpoint, "tools/call", schema, "none", "30s", caps, [], [], false));
    }
    var endpoint := WithoutSlashes(src.baseUrl) + "/tools/call/" + d.name;
    var host := HostOf(src.baseUrl);
    return Converted(Tool(id, "http", endpoint, "POST", schema, "pre-injected", "30s", caps, [host], [], false));
  }

  // ----- What an imported tool says -----

  /** Its tags are those its name and its source earn it, in order; if there are none, the
      source's name. */
  ghost predicate TagsSay(src: Source, d: Descriptor, tags: seq<string>) {
    if forall t :: !Earns(d.name, src.extraCapabilities, t) then tags == [src.name]
    else StrictlySorted(tags) && forall t :: t in tags <==> Earns(d.name, src.extraCapabilities, t)
  }

  predicate OverStdio(src: Source, d: Descriptor, t: Tool) {
    && t.kind == "stdio" && t.endpoint == "stdio://" + src.name + "/" + d.name && t.verb == "tools/call"
    && t.auth == "none" && t.egress == []
  }

  predicate OverHttp(src: Source, d: Descriptor, t: Tool) {
    && t.kind == "http" && t.endpoint == WithoutSlashes(src.baseUrl) + "/tools/call/" + d.name && t.verb == "POST"
    && t.auth == "pre-injected" && t.egress == [HostOf(src.baseUrl)]
  }

  /** A tool imported from a descriptor: its id, its transport and tags, and no approval asked. */
  ghost predicate DescribedBy(src: Source, d: Descriptor, t: Tool) {
    && t.id == src.name + "." + d.name && t.schema == Compacted(d.inputSchema) && TagsSay(src, d, t.capabilities)
    && t.timeout == "30s" && t.dependsOnCaps == [] && !t.requireApproval
    && if ToLower(src.kind) == "stdio" then OverStdio(src, d, t) else OverHttp(src, d, t)
  }

  lemma TagsAreSaid(src: Source, d: Descriptor)
    ensures TagsSay(src, d, ToolTags(src, d))
  {
    var inferred := InferredTags(d.name, src.extraCapabilities);
    forall t ensures t in inferred <==> Earns(d.name, src.extraCapabilities, t) { TagsEarned(d.name, src.extraCapabilities, t); }
    assert forall t :: t in SortedSeq(inferred) <==> t in Elems(SortedSeq(inferred));
  }

  lemma ToolIsDescribed(src: Source, d: Descriptor)
    ensures DescribedBy(src, d, ToolFrom(src, d))
  {
    TagsAreSaid(src, d);
  }

  /** The host cut off a URL is what stands between the scheme and a slash, colon or
      question mark. */
  lemma HostIsCut(scheme: string, host: string, tail: string)
    requires scheme == "https://" || scheme == "http://"
    requires forall c :: c in host ==> c !in {'/', ':', '?'}
    requires tail == "" || tail[0] in {'/', ':', '?'}
    requires scheme == "https://" ==> !HasPrefix(host + tail, "http://")
    ensures HostOf(scheme + (host + tail)) == host
  {
    var rest := host + tail;
    assert (scheme + rest)[|scheme|..] == rest;
    if scheme == "http://" { assert (scheme + rest)[4] == ':'; }
    UpToEnds(host, tail, {'/', ':', '?'});
  }

  lemma {:induction false} UpToEnds(a: string, b: string, cut: set<char>)
    requires forall c :: c in a ==> c !in cut
    requires b == "" || b[0] in cut
    ensures UpTo(a + b, cut) == a
  {
    if a == "" {
      assert a + b == b;
    } else {
      assert (a + b)[1..] == a[1..] + b;
      UpToEnds(a[1..], b, cut);
    }
  }

  // ----- Importing a source -----

  /** Descriptors are registered in order up to the first without a name. */
  function Importable(descriptors: seq<Descriptor>): (n: nat)
    ensures n <= |descriptors|
  {
    if descriptors == [] || TrimSpace(descriptors[0].name) == "" then 0 else 1 + Importable(descriptors[1..])
  }

  function ImportedTools(before: map<string, Tool>, src: Source, descriptors: seq<Descriptor>): map<string, Tool>
    decreases |descriptors|
  {
    if descriptors == [] || TrimSpace(descriptors[0].name) == "" then before
    else ImportedTools(before[ToolId(src, descriptors[0]) := ToolFrom(src, descriptors[0])], src, descriptors[1..])
  }

  /** The registry cannot refuse an imported tool: its id holds a dot, and it has tags. */
  lemma RegistersFine(src: Source, d: Descriptor)
    ensures TrimSpace(ToolFrom(src, d).id) != "" && ToolFrom(src, d).capabilities != []
  {
    ToolTagsAreLower(src, d);
    assert ToolId(src, d)[|src.name|] == '.';
    NotBlank(ToolId(src, d), '.');
  }

  lemma NotBlank(s: string, c: char)
    requires c in s && !IsSpace(c)
    ensures TrimSpace(s) != ""
  {
    LeftKeeps(s, c);
    RightKeeps(TrimSpaceLeft(s), c);
  }

  lemma {:induction false} LeftKeeps(s: string, c: char)
    requires c in s && !IsSpace(c)
    ensures c in TrimSpaceLeft(s)
  {
    if !IsSpace(s[0]) {
    } else {
      LeftKeeps(s[1..], c);
    }
  }

  lemma {:induction false} RightKeeps(s: string, c: char)
    requires c in s && !IsSpace(c)
    ensures c in TrimSpaceRight(s)
    decreases |s|
  {
    var last := |s| - 1;
    if !IsSpace(s[last]) {
    } else {
      assert s == s[..last] + [s[last]];
      RightKeeps(s[..last], c);
    }
  }

  /** Importable are the descriptors up to the first without a name. */
  lemma {:induction false} ImportableExactly(descriptors: seq<Descriptor>, i: nat)
    requires i < |descriptors|
    ensures i < Importable(descriptors) <==> forall j :: 0 <= j <= i ==> TrimSpace(descriptors[j].name) != ""
  {
    if TrimSpace(descriptors[0].name) == "" || i == 0 {
    } else {
      ImportableExactly(descriptors[1..], i - 1);
      assert forall j :: 1 <= j <= i ==> descriptors[j] == descriptors[1..][j - 1];
      assert forall j :: 0 <= j <= i - 1 ==> descriptors[1..][j] == descriptors[j + 1];
    }
  }

  lemma {:induction false} OthersLeft(before: map<string, Tool>, src: Source, ds: seq<Descriptor>, id: string)
    requires id in before && forall k :: 0 <= k < Importable(ds) ==> ToolId(src, ds[k]) != id
    ensures var tools := ImportedTools(before, src, ds); id in tools && tools[id] == before[id]
    decreases |ds|
  {
    if Importable(ds) > 0 {
      assert forall k :: 0 <= k < Importable(ds[1..]) ==> ds[1..][k] == ds[k + 1];
      OthersLeft(before[ToolId(src, ds[0]) := ToolFrom(src, ds[0])], src, ds[1..], id);
    }
  }

  /** No importable descriptor after the i-th has its name. */
  predicate LastOfItsName(ds: seq<Descriptor>, i: nat) {
    i < Importable(ds) && forall k :: i < k < Importable(ds) ==> ds[k].name != ds[i].name
  }

  lemma FirstStays(before: map<string, Tool>, src: Source, ds: seq<Descriptor>)
    requires LastOfItsName(ds, 0)
    ensures var tools := ImportedTools(before, src, ds);
      ToolId(src, ds[0]) in tools && tools[ToolId(src, ds[0])] == ToolFrom(src, ds[0])
  {
    forall k | 0 <= k < Importable(ds[1..]) ensures ToolId(src, ds[1..][k]) != ToolId(src, ds[0]) {
      assert ds[1..][k] == ds[k + 1];
      SameIdSameName(src, ds[1..][k], ds[0]);
    }
    OthersLeft(before[ToolId(src, ds[0]) := ToolFrom(src, ds[0])], src, ds[1..], ToolId(src, ds[0]));
  }

  lemma LastOfTail(ds: seq<Descriptor>, i: nat)
    requires LastOfItsName(ds, i) && i > 0
    ensures LastOfItsName(ds[1..], i - 1) && ds[1..][i - 1] == ds[i]
  {
    assert forall k :: 0 <= k < Importable(ds[1..]) ==> ds[1..][k] == ds[k + 1];
  }

  /** Of the importable descriptors of one name the last stays registered. */
  lemma {:induction false} LastStays(before: map<string, Tool>, src: Source, ds: seq<Descriptor>, i: nat)
    requires LastOfItsName(ds, i)
    ensures var tools := ImportedTools(before, src, ds);
      ToolId(src, ds[i]) in tools && tools[ToolId(src, ds[i])] == ToolFrom(src, ds[i])
    decreases |ds|
  {
    if i == 0 {
      FirstStays(before, src, ds);
    } else {
      LastOfTail(ds, i);
      LastStays(before[ToolId(src, ds[0]) := ToolFrom(src, ds[0])], src, ds[1..], i - 1);
    }
  }

  lemma SameIdSameName(src: Source, a: Descriptor, b: Descriptor)
    ensures ToolId(src, a) == ToolId(src, b) ==> a.name == b.name
  {
    assert ToolId(src, a)[|src.name| + 1..] == a.name && ToolId(src, b)[|src.name| + 1..] == b.name;
  }

  method RegisterAll(reg: MemoryRegistry, src: Source, descriptors: seq<Descriptor>) returns (count: nat)
    requires reg.Valid()
    modifies reg
    ensures reg.Valid()
    ensures reg.tools == ImportedTools(old(reg.tools), src, descriptors)
    ensures count == Importable(descriptors)
  {
    count := 0;
    assert descriptors[0..] == descriptors;
    for i := 0 to |descriptors|
      invariant reg.Valid() && count == i
      invariant ImportedTools(reg.tools, src, descriptors[i..]) == ImportedTools(old(reg.tools), src, descriptors)
      invariant i + Importable(descriptors[i..]) == Importable(descriptors)
    {
      assert descriptors[i..][1..] == descriptors[i + 1..];
      var c := Convert(src, descriptors[i]);
      if c.MissingName? {
        return;
      }
      RegistersFine(src, descriptors[i]);
      var e := reg.Register(c.tool);
      count := count + 1;
    }
  }
}

/** Bridge startup (cmd/acp-bridge/main.go) with the client manager
    (internal/mcpclient/stdio.go): which downstream server a tool call reaches. */
module Startup {
  import opened Wrappers
  import opened Text
  import opened Sorting
  import opened Registry
  import opened Resolver
  import opened McpSource
  import opened SourceNames
  import opened Bridge

  /** Identifies one connected downstream server. */
  type Client = int

  // ----- The manager -----

  class Manager {
    var clients: map<string, Client>

    constructor ()
      ensures clients == map[]
    {
      clients := map[];
    }

    method Register(source: string, client: Client) returns (ok: bool)
      modifies this
      ensures ok == (TrimSpace(source) != "")
      ensures clients == if ok then old(clients)[source := client] else old(clients)
    {
      if TrimSpace(source) == "" {
        return false;
      }
      clients := clients[source := client];
      return true;
    }

    method Count() returns (n: nat)
      ensures n == |clients|
    {
      return |clients|;
    }

    /** The client that gets the call, with the tool name it is asked for. */
    method Call(source: string, tool: string) returns (r: Option<(Client, string)>)
      ensures r == Dispatch(clients, source, tool)
    {
      if source !in clients {
        return None;
      }
      return Some((clients[source], tool));
    }
  }

  function Dispatch(clients: map<string, Client>, source: string, tool: string): Option<(Client, string)> {
    if source in clients then Some((clients[source], tool)) else None
  }

  // ----- Importing the configured sources -----

  datatype Transport = Stdio | Http | Unsupported

  /** A configured source. listing is what its server's tools/list gave, absent if
      connecting or listing failed; client is the connection made to a stdio server. */
  datatype SourceConfig = SourceConfig(
    name: string,
    kind: string,
    url: string,
    capabilities: seq<string>,
    client: Client,
    listing: Option<seq<Descriptor>>)

  /** Without a type, a URL means HTTP and its absence stdio. */
  function TransportOf(c: SourceConfig): Transport {
    var t := Normalize(c.kind);
    if t == "" then (if TrimSpace(c.url) != "" then Http else Stdio)
    else if t in ["http", "streamable-http", "sse"] then Http
    else if t == "stdio" then Stdio
    else Unsupported
  }

  function SourceOf(c: SourceConfig): Source {
    Source(SafeName(c.name), if TransportOf(c) == Stdio then "" else c.url, if TransportOf(c) == Stdio then "stdio" else "", c.capabilities)
  }

  /** Whether the source's tools get as far as the registry. */
  predicate Imports(c: SourceConfig) {
    SafeName(c.name) != "" && c.listing.Some? &&
    (TransportOf(c) == Stdio || (TransportOf(c) == Http && TrimSpace(c.url) != ""))
  }

  /** The kind as configured, in lower case and without blanks. */
  function KindOf(c: SourceConfig): string { ToLower(TrimSpace(c.kind)) }

  const HTTP_KINDS := ["http", "streamable-http", "sse"]

  lemma TransportExactly(c: SourceConfig)
    ensures TransportOf(c) == Http <==> KindOf(c) in HTTP_KINDS || (KindOf(c) == "" && TrimSpace(c.url) != "")
    ensures TransportOf(c) == Stdio <==> KindOf(c) == "stdio" || (KindOf(c) == "" && TrimSpace(c.url) == "")
  {
  }

  /** A source is imported exactly when its name has a letter or digit, its server gave a
      listing, and it is a stdio source or an HTTP source with a URL; the kind may be left
      out. */
  lemma ImportsExactly(c: SourceConfig)
    ensures Imports(c) <==>
      && (exists x :: x in Normalize(c.name) && IsAllowed(x)) && c.listing.Some?
      && if TrimSpace(c.url) == "" then KindOf(c) in ["", "stdio"] else KindOf(c) == "stdio" || KindOf(c) in [""] + HTTP_KINDS
  {
    SafeNameIsEmpty(c.name);
    TransportExactly(c);
    assert KindOf(c) in [""] + HTTP_KINDS <==> KindOf(c) == "" || KindOf(c) in HTTP_KINDS;
  }

  lemma StdioKeepsKind(c: SourceConfig)
    ensures IsStdio(SourceOf(c)) <==> TransportOf(c) == Stdio
  {
  }

  lemma CalledOver(src: Source, d: Descriptor)
    ensures if IsStdio(src) then OverStdio(src, d, ToolFrom(src, d)) else OverHttp(src, d, ToolFrom(src, d))
  {
  }

  /** The tools of a source are called the way it was connected, an HTTP source's under its
      own URL. */
  lemma CalledOverTransport(c: SourceConfig, d: Descriptor)
    requires Imports(c)
    ensures SourceOf(c).name == SafeName(c.name) && SourceOf(c).extraCapabilities == c.capabilities
    ensures TransportOf(c) == Stdio ==> OverStdio(SourceOf(c), d, ToolFrom(SourceOf(c), d))
    ensures TransportOf(c) == Http ==> OverHttp(SourceOf(c), d, ToolFrom(SourceOf(c), d)) && SourceOf(c).baseUrl == c.url
  {
    StdioKeepsKind(c);
    CalledOver(SourceOf(c), d);
  }

  datatype World = World(tools: map<string, Tool>, clients: map<string, Client>)

  const EMPTY := World(map[], map[])

  function ImportSource(w: World, c: SourceConfig): World {
    if !Imports(c) then w
    else World(
      ImportedTools(w.tools, SourceOf(c), c.listing.value),
      if TransportOf(c) == Stdio then w.clients[SafeName(c.name) := c.client] else w.clients)
  }

  function ImportSources(w: World, cs: seq<SourceConfig>): World {
    if cs == [] then w else ImportSource(ImportSources(w, cs[..|cs| - 1]), cs[|cs| - 1])
  }

  lemma SafeNameIsTag(name: string)
    requires SafeName(name) != ""
    ensures LowerTag(SafeName(name)) && TrimSpace(SafeName(name)) != ""
  {
    var s := SafeName(name);
    SafeNameIsSafe(name);
    LowerKeeps(s);
    assert IsAllowed(s[0]) && IsAllowed(s[|s| - 1]);
    NotBlank(s, s[0]);
  }

  /** Imports every source into the registry and the manager. */
  method ImportAll(reg: MemoryRegistry, manager: Manager, cs: seq<SourceConfig>)
    requires reg.Valid()
    modifies reg, manager
    ensures reg.Valid()
    ensures World(reg.tools, manager.clients) == ImportSources(World(old(reg.tools), old(manager.clients)), cs)
  {
    for i := 0 to |cs|
      invariant reg.Valid()
      invariant World(reg.tools, manager.clients) == ImportSources(World(old(reg.tools), old(manager.clients)), cs[..i])
    {
      assert cs[..i + 1][..i] == cs[..i];
      ImportOne(reg, manager, cs[i]);
    }
    assert cs[..|cs|] == cs;
  }

  method ImportOne(reg: MemoryRegistry, manager: Manager, c: SourceConfig)
    requires reg.Valid()
    modifies reg, manager
    ensures reg.Valid()
    ensures World(reg.tools, manager.clients) == ImportSource(World(old(reg.tools), old(manager.clients)), c)
  {
    var name := SafeSourceName(c.name);
    if name == "" {
      return;
    }
    SafeNameIsTag(c.name);
    var transport := TransportOf(c);
    if transport == Stdio {
      if c.listing.None? {
        return;
      }
      var ok := manager.Register(name, c.client);
      var n := RegisterAll(reg, SourceOf(c), c.listing.value);
    } else if transport == Http {
      if TrimSpace(c.url) == "" || c.listing.None? {
        return;
      }
      var n := RegisterAll(reg, SourceOf(c), c.listing.value);
    }
  }

  // ----- Setting up the bridge -----

  function CallableFrom(tools: seq<Tool>): map<string, Downstream> {
    if tools == [] then map[]
    else
      var t := tools[|tools| - 1];
      CallableFrom(tools[..|tools| - 1])[t.id := Downstream(SplitId(t.id).0, SplitId(t.id).1, t)]
  }

  /** Builds the bridge over what was imported; windowSize and threshold as configured. It
      forwards calls once there is a client to forward to. */
  method SetUp(reg: MemoryRegistry, manager: Manager, fallback: Fallback, windowSize: int, threshold: int)
      returns (b: Bridge)
    requires reg.Valid()
    ensures fresh(b) && fresh(b.resolver) && b.Valid() && b.reg == reg && b.forwards == (|manager.clients| > 0)
    ensures b.tools == CallableFrom(ToolsAt(reg.tools, reg.tools.Keys))
    ensures Elems(b.resolver.allCapabilities) == TagsOf(reg.tools)
    ensures b.Abs() == State([], 0) && b.forwarded == []
  {
    var allTools := reg.All();
    var tags := CollectTags(reg.tools, allTools);
    var allCaps := SortSet(tags);
    var dr := new DeferredResolver(allCaps, fallback, windowSize, threshold);
    SameElems(dr.allCapabilities, allCaps);
    var connected := manager.Count();
    b := new Bridge(reg, dr, connected > 0);
    RegisterTools(b, allTools);
  }

  /** The loop that splits every tool id into its source and the tool's own name. */
  method RegisterTools(b: Bridge, allTools: seq<Tool>)
    requires b.Valid() && b.tools == map[]
    modifies b`tools
    ensures b.Valid() && b.tools == CallableFrom(allTools)
  {
    for i := 0 to |allTools|
      invariant b.Valid() && b.tools == CallableFrom(allTools[..i])
    {
      assert allTools[..i + 1][..i] == allTools[..i];
      var source, toolName := SplitToolId(allTools[i].id);
      b.RegisterTool(source, toolName, allTools[i]);
    }
    assert allTools[..|allTools|] == allTools;
  }

  lemma SameElems(a: seq<string>, b: seq<string>)
    requires multiset(a) == multiset(b)
    ensures Elems(a) == Elems(b)
  {
    forall x ensures x in a <==> x in b { assert x in multiset(a) <==> x in multiset(b); }
  }

  method CollectTags(ghost tools: map<string, Tool>, allTools: seq<Tool>) returns (tags: set<string>)
    requires WellKeyed(tools) && allTools == ToolsAt(tools, tools.Keys)
    ensures tags == TagsOf(tools)
  {
    tags := UnionOfTags(allTools);
    TagsOfAll(tools, allTools);
  }

  method UnionOfTags(allTools: seq<Tool>) returns (tags: set<string>)
    ensures tags == TagsIn(allTools)
  {
    tags := {};
    for i := 0 to |allTools|
      invariant tags == TagsIn(allTools[..i])
    {
      assert allTools[..i + 1][..i] == allTools[..i];
      tags := tags + Elems(allTools[i].capabilities);
    }
    assert allTools[..|allTools|] == allTools;
  }

  function TagsIn(tools: seq<Tool>): set<string> {
    if tools == [] then {} else TagsIn(tools[..|tools| - 1]) + Elems(tools[|tools| - 1].capabilities)
  }

  lemma {:induction false} TagsInHas(tools: seq<Tool>)
    ensures forall i, c :: 0 <= i < |tools| && c in tools[i].capabilities ==> c in TagsIn(tools)
    ensures forall c :: c in TagsIn(tools) ==> exists i :: 0 <= i < |tools| && c in tools[i].capabilities
  {
    if tools == [] {
    } else {
      var init := tools[..|tools| - 1];
      TagsInHas(init);
      forall i, c | 0 <= i < |tools| && c in tools[i].capabilities ensures c in TagsIn(tools) {
        if i < |init| { assert init[i] == tools[i]; }
      }
      forall c | c in TagsIn(tools) ensures exists i :: 0 <= i < |tools| && c in tools[i].capabilities {
        if c in TagsIn(init) {
          var i :| 0 <= i < |init| && c in init[i].capabilities;
          assert tools[i] == init[i];
        }
      }
    }
  }

  lemma TagsOfAll(tools: map<string, Tool>, allTools: seq<Tool>)
    requires WellKeyed(tools) && allTools == ToolsAt(tools, tools.Keys)
    ensures TagsIn(allTools) == TagsOf(tools)
  {
    ToolsAtMembers(tools, tools.Keys);
    TagsInHas(allTools);
    forall c | c in TagsOf(tools) ensures c in TagsIn(allTools) {
      var k :| k in tools && c in tools[k].capabilities;
      var i := ToolsAtHas(tools, tools.Keys, k);
    }
  }

  // ----- What is callable -----

  lemma {:induction false} CallableEntries(tools: seq<Tool>)
    requires DistinctToolIds(tools)
    ensures forall k :: k in CallableFrom(tools) <==> exists i :: 0 <= i < |tools| && tools[i].id == k
    ensures forall i :: 0 <= i < |tools| ==>
      CallableFrom(tools)[tools[i].id] == Downstream(SplitId(tools[i].id).0, SplitId(tools[i].id).1, tools[i])
  {
    if tools == [] {
    } else {
      var init := tools[..|tools| - 1];
      CallableEntries(init);
      assert forall i :: 0 <= i < |init| ==> tools[i] == init[i];
    }
  }

  lemma CallableAt(tools: map<string, Tool>, k: string)
    requires WellKeyed(tools) && k in tools
    ensures var callable := CallableFrom(ToolsAt(tools, tools.Keys));
      k in callable && callable[k] == Downstream(SplitId(k).0, SplitId(k).1, tools[k])
  {
    ToolsAtDistinct(tools, tools.Keys);
    CallableEntries(ToolsAt(tools, tools.Keys));
    var i := ToolsAtHas(tools, tools.Keys, k);
    assert ToolsAt(tools, tools.Keys)[i].id == k;
  }

  /** The bridge can call exactly the registered tools. */
  lemma CallableKeys(tools: map<string, Tool>)
    requires WellKeyed(tools)
    ensures CallableFrom(ToolsAt(tools, tools.Keys)).Keys == tools.Keys
  {
    forall k | k in tools ensures k in CallableFrom(ToolsAt(tools, tools.Keys)) { CallableAt(tools, k); }
    ToolsAtMembers(tools, tools.Keys);
    ToolsAtDistinct(tools, tools.Keys);
    CallableEntries(ToolsAt(tools, tools.Keys));
  }

  // ----- What was imported -----

  /** Every tool sits under its id and carries normal tags. */
  ghost predicate CleanTools(tools: map<string, Tool>) {
    WellKeyed(tools) && forall k, t :: k in tools && t in tools[k].capabilities ==> LowerTag(t)
  }

  lemma {:induction false} ImportedToolsAreClean(before: map<string, Tool>, src: Source, ds: seq<Descriptor>)
    requires CleanTools(before) && LowerTag(src.name)
    ensures CleanTools(ImportedTools(before, src, ds))
    decreases |ds|
  {
    if ds != [] && TrimSpace(ds[0].name) != "" {
      CleanStep(before, src, ds[0]);
      ImportedToolsAreClean(before[ToolId(src, ds[0]) := ToolFrom(src, ds[0])], src, ds[1..]);
    }
  }

  lemma CleanStep(before: map<string, Tool>, src: Source, d: Descriptor)
    requires CleanTools(before) && LowerTag(src.name)
    ensures CleanTools(before[ToolId(src, d) := ToolFrom(src, d)])
  {
    RegistersFine(src, d);
    ToolTagsAreLower(src, d);
    var t := ToolFrom(src, d);
    assert t.capabilities == ToolTags(src, d) && t.id == ToolId(src, d);
    CleanWith(before, t);
  }

  lemma CleanWith(before: map<string, Tool>, t: Tool)
    requires CleanTools(before) && forall c :: c in t.capabilities ==> LowerTag(c)
    requires TrimSpace(t.id) != "" && t.capabilities != []
    ensures CleanTools(before[t.id := t])
  {
  }

  lemma {:induction false} ImportsAreClean(w: World, cs: seq<SourceConfig>)
    requires CleanTools(w.tools)
    ensures CleanTools(ImportSources(w, cs).tools)
  {
    if cs == [] {
    } else {
      var c := cs[|cs| - 1];
      ImportsAreClean(w, cs[..|cs| - 1]);
      if Imports(c) {
        SafeNameIsTag(c.name);
        ImportedToolsAreClean(ImportSources(w, cs[..|cs| - 1]).tools, SourceOf(c), c.listing.value);
      }
    }
  }

  /** Startup meets what the bridge's theorems ask for, whatever the sources list. */
  lemma StartupIsNormal(cs: seq<SourceConfig>, cfg: Config)
    requires cfg.tools == ImportSources(EMPTY, cs).tools
    requires cfg.callable == CallableFrom(ToolsAt(cfg.tools, cfg.tools.Keys))
    requires Elems(cfg.all) == TagsOf(cfg.tools)
    requires cfg.windowSize >= 1 && cfg.threshold >= 1
    ensures Normal(cfg)
  {
    ImportsAreClean(EMPTY, cs);
    CleanIsNormal(cfg);
  }

  lemma CleanIsNormal(cfg: Config)
    requires CleanTools(cfg.tools)
    requires cfg.callable == CallableFrom(ToolsAt(cfg.tools, cfg.tools.Keys))
    requires Elems(cfg.all) == TagsOf(cfg.tools)
    requires cfg.windowSize >= 1 && cfg.threshold >= 1
    ensures Normal(cfg)
  {
    CallableKeys(cfg.tools);
    forall k | k in cfg.tools ensures cfg.callable[k].tool == cfg.tools[k] { CallableAt(cfg.tools, k); }
    TagsAreNormal(cfg.tools, cfg.all);
  }

  lemma TagsAreNormal(tools: map<string, Tool>, all: seq<string>)
    requires CleanTools(tools) && Elems(all) == TagsOf(tools)
    ensures forall c :: c in all ==> NormalTag(c)
  {
    forall c | c in all ensures NormalTag(c) {
      assert c in TagsOf(tools);
      var k :| k in tools && c in tools[k].capabilities;
      assert LowerTag(c);
    }
  }

  lemma {:induction false} ImportedHas(before: map<string, Tool>, src: Source, ds: seq<Descriptor>, i: nat)
    requires i < Importable(ds)
    ensures ToolId(src, ds[i]) in ImportedTools(before, src, ds)
    decreases |ds|
  {
    var after := before[ToolId(src, ds[0]) := ToolFrom(src, ds[0])];
    ImportedStep(before, src, ds);
    if i == 0 {
      assert ToolId(src, ds[0]) in after;
      ImportedKeeps(after, src, ds[1..]);
    } else {
      ImportedHas(after, src, ds[1..], i - 1);
    }
  }

  lemma ImportedStep(before: map<string, Tool>, src: Source, ds: seq<Descriptor>)
    requires Importable(ds) > 0
    ensures ds != [] && Importable(ds) == 1 + Importable(ds[1..])
    ensures ImportedTools(before, src, ds) == ImportedTools(before[ToolId(src, ds[0]) := ToolFrom(src, ds[0])], src, ds[1..])
  {
  }

  lemma {:induction false} ImportedKeeps(before: map<string, Tool>, src: Source, ds: seq<Descriptor>)
    ensures before.Keys <= ImportedTools(before, src, ds).Keys
    decreases |ds|
  {
    if ds != [] && TrimSpace(ds[0].name) != "" {
      ImportedKeeps(before[ToolId(src, ds[0]) := ToolFrom(src, ds[0])], src, ds[1..]);
    }
  }

  lemma OwnToolsRegistered(w: World, c: SourceConfig, i: nat)
    requires Imports(c) && i < Importable(c.listing.value)
    ensures ToolId(SourceOf(c), c.listing.value[i]) in ImportSource(w, c).tools
  {
    ImportedHas(w.tools, SourceOf(c), c.listing.value, i);
  }

  lemma LastKeeps(w: World, cs: seq<SourceConfig>, id: string)
    requires cs != [] && id in ImportSources(w, cs[..|cs| - 1]).tools
    ensures id in ImportSources(w, cs).tools
  {
    ImportLast(w, cs);
    SourceKeeps(ImportSources(w, cs[..|cs| - 1]), cs[|cs| - 1]);
  }

  /** The n-th source's importable tools end up registered. */
  lemma {:induction false} SourceToolsRegistered(w: World, cs: seq<SourceConfig>, n: nat, i: nat)
    requires n < |cs| && Imports(cs[n]) && i < Importable(cs[n].listing.value)
    ensures ToolId(SourceOf(cs[n]), cs[n].listing.value[i]) in ImportSources(w, cs).tools
  {
    var last := |cs| - 1;
    if n == last {
      ImportLast(w, cs);
      OwnToolsRegistered(ImportSources(w, cs[..last]), cs[n], i);
    } else {
      assert cs[..last][n] == cs[n];
      SourceToolsRegistered(w, cs[..last], n, i);
      LastKeeps(w, cs, ToolId(SourceOf(cs[n]), cs[n].listing.value[i]));
    }
  }

  lemma SourceKeeps(w: World, c: SourceConfig)
    ensures w.tools.Keys <= ImportSource(w, c).tools.Keys
  {
    if Imports(c) { ImportedKeeps(w.tools, SourceOf(c), c.listing.value); }
  }

  predicate Connects(c: SourceConfig, name: string) {
    Imports(c) && TransportOf(c) == Stdio && SafeName(c.name) == name
  }

  // ----- Which client a name has -----

  /** What a source enters in the manager. */
  function LinkOf(c: SourceConfig): Option<(string, Client)> {
    if Imports(c) && TransportOf(c) == Stdio then Some((SafeName(c.name), c.client)) else None
  }

  function Links(cs: seq<SourceConfig>): (links: seq<Option<(string, Client)>>)
    ensures |links| == |cs| && forall i :: 0 <= i < |cs| ==> links[i] == LinkOf(cs[i])
  {
    seq(|cs|, i requires 0 <= i < |cs| => LinkOf(cs[i]))
  }

  function Table(links: seq<Option<(string, Client)>>): map<string, Client> {
    if links == [] then map[]
    else
      var before := Table(links[..|links| - 1]);
      match links[|links| - 1]
      case None => before
      case Some(p) => before[p.0 := p.1]
  }

  predicate Enters(link: Option<(string, Client)>, name: string) { link.Some? && link.value.0 == name }

  lemma {:induction false} TableHas(links: seq<Option<(string, Client)>>, name: string)
    ensures name in Table(links) <==> exists i :: 0 <= i < |links| && Enters(links[i], name)
  {
    if links == [] {
    } else {
      var last := |links| - 1;
      TableHas(links[..last], name);
      assert forall i :: 0 <= i < last ==> links[..last][i] == links[i];
      assert forall i :: 0 <= i < |links| && Enters(links[i], name) && i != last ==> Enters(links[..last][i], name);
    }
  }

  /** A later entry under a name replaces an earlier one. */
  lemma {:induction false} TableLast(links: seq<Option<(string, Client)>>, n: nat, name: string)
    requires n < |links| && Enters(links[n], name)
    requires forall m :: n < m < |links| ==> !Enters(links[m], name)
    ensures name in Table(links) && Table(links)[name] == links[n].value.1
  {
    var last := |links| - 1;
    if n == last {
    } else {
      TableLast(links[..last], n, name);
    }
  }

  lemma ClientsStep(w: World, c: SourceConfig)
    ensures ImportSource(w, c).clients ==
            match LinkOf(c) case None => w.clients case Some(p) => w.clients[p.0 := p.1]
  {
  }

  lemma ImportLast(w: World, cs: seq<SourceConfig>)
    requires cs != []
    ensures ImportSources(w, cs) == ImportSource(ImportSources(w, cs[..|cs| - 1]), cs[|cs| - 1])
  {
  }

  lemma {:induction false} ClientsAreTable(cs: seq<SourceConfig>)
    ensures ImportSources(EMPTY, cs).clients == Table(Links(cs))
  {
    if cs == [] {
    } else {
      var init := cs[..|cs| - 1];
      ClientsAreTable(init);
      ImportLast(EMPTY, cs);
      ClientsStep(ImportSources(EMPTY, init), cs[|init|]);
      assert Links(cs)[..|init|] == Links(init);
    }
  }

  lemma LinkConnects(c: SourceConfig, name: string)
    ensures Connects(c, name) <==> Enters(LinkOf(c), name)
    ensures Connects(c, name) ==> LinkOf(c).value.1 == c.client
  {
  }

  /** A source of the configuration connects under the name. */
  predicate Connected(cs: seq<SourceConfig>, name: string) { exists m :: 0 <= m < |cs| && Connects(cs[m], name) }

  /** No later source connects under the name. */
  predicate LastToConnect(cs: seq<SourceConfig>, n: nat, name: string) {
    n < |cs| && Connects(cs[n], name) && forall m :: n < m < |cs| ==> !Connects(cs[m], name)
  }

  lemma ConnectedIffEntered(cs: seq<SourceConfig>, name: string)
    ensures Connected(cs, name) <==> exists i :: 0 <= i < |cs| && Enters(Links(cs)[i], name)
  {
    forall i | 0 <= i < |cs| ensures Connects(cs[i], name) <==> Enters(Links(cs)[i], name) { LinkConnects(cs[i], name); }
  }

  /** The manager has a client under a name exactly when some source connects under it. */
  lemma ClientIffConnected(cs: seq<SourceConfig>, name: string)
    ensures name in ImportSources(EMPTY, cs).clients <==> Connected(cs, name)
  {
    ClientsAreTable(cs);
    TableHas(Links(cs), name);
    ConnectedIffEntered(cs, name);
  }

  predicate HasClient(w: World, name: string, client: Client) { name in w.clients && w.clients[name] == client }

  /** It is the client of the last such source. */
  lemma LastClientStays(cs: seq<SourceConfig>, n: nat, name: string)
    requires LastToConnect(cs, n, name)
    ensures HasClient(ImportSources(EMPTY, cs), name, cs[n].client)
  {
    ClientsAreTable(cs);
    forall m | n <= m < |cs| ensures Connects(cs[m], name) <==> Enters(Links(cs)[m], name) { LinkConnects(cs[m], name); }
    LinkConnects(cs[n], name);
    TableLast(Links(cs), n, name);
  }

  /** A stdio source whose tools get as far as the registry. */
  predicate ConnectsStdio(c: SourceConfig) { Imports(c) && TransportOf(c) == Stdio }

  lemma AnyClientIffConnected(cs: seq<SourceConfig>)
    ensures |ImportSources(EMPTY, cs).clients| > 0 <==> exists m :: 0 <= m < |cs| && ConnectsStdio(cs[m])
  {
    var clients := ImportSources(EMPTY, cs).clients;
    if |clients| > 0 {
      var name :| name in clients;
      ClientIffConnected(cs, name);
      var m :| 0 <= m < |cs| && Connects(cs[m], name);
      assert ConnectsStdio(cs[m]);
    }
    if m :| 0 <= m < |cs| && ConnectsStdio(cs[m]) {
      var name := SafeName(cs[m].name);
      assert Connects(cs[m], name);
      ClientIffConnected(cs, name);
      assert name in clients;
    }
  }

  /** What becomes of a call to a registered tool: without any client the bridge answers a
      placeholder, else the manager knows no client of the tool's source and fails, or asks
      that client. */
  datatype Fate = Placeholder | NoClient | Asks(client: Client, toolName: string)

  function FateOf(clients: map<string, Client>, d: Downstream): Fate {
    if |clients| == 0 then Placeholder
    else match Dispatch(clients, d.source, d.toolName)
      case None => NoClient
      case Some(p) => Asks(p.0, p.1)
  }

  lemma FateCases(clients: map<string, Client>, d: Downstream)
    ensures FateOf(clients, d) == Placeholder <==> |clients| == 0
    ensures FateOf(clients, d).Asks? <==> d.source in clients
    ensures d.source in clients ==> FateOf(clients, d) == Asks(clients[d.source], d.toolName)
  {
    if d.source in clients { assert |clients.Keys| > 0; }
  }

  /** Where the call to every imported tool goes, stdio or HTTP: a placeholder exactly when
      no stdio source came up; the client of the last source that connected under the safe
      name of the tool's own source, asked for the name that server gave the tool, dots and
      all; and nowhere exactly when only others connected. */
  lemma EveryCallGoes(cs: seq<SourceConfig>, n: nat, i: nat)
    requires n < |cs| && Imports(cs[n]) && i < Importable(cs[n].listing.value)
    ensures var w, d, name := ImportSources(EMPTY, cs), cs[n].listing.value[i], SafeName(cs[n].name);
      var id, callable := ToolId(SourceOf(cs[n]), d), CallableFrom(ToolsAt(w.tools, w.tools.Keys));
      && id in callable
      && (FateOf(w.clients, callable[id]) == Placeholder <==> !exists m :: 0 <= m < |cs| && ConnectsStdio(cs[m]))
      && (FateOf(w.clients, callable[id]).Asks? <==> Connected(cs, name))
      && (forall m: nat :: LastToConnect(cs, m, name) ==> FateOf(w.clients, callable[id]) == Asks(cs[m].client, d.name))
  {
    var w, d, name := ImportSources(EMPTY, cs), cs[n].listing.value[i], SafeName(cs[n].name);
    var id := ToolId(SourceOf(cs[n]), d);
    ToolIsCallable(cs, n, i);
    FateCases(w.clients, CallableFrom(ToolsAt(w.tools, w.tools.Keys))[id]);
    AnyClientIffConnected(cs);
    ClientIffConnected(cs, name);
    forall m: nat | LastToConnect(cs, m, name) ensures HasClient(w, name, cs[m].client) { LastClientStays(cs, m, name); }
  }

  lemma ToolIsCallable(cs: seq<SourceConfig>, n: nat, i: nat)
    requires n < |cs| && Imports(cs[n]) && i < Importable(cs[n].listing.value)
    ensures var w, d := ImportSources(EMPTY, cs), cs[n].listing.value[i];
      var id, callable := ToolId(SourceOf(cs[n]), d), CallableFrom(ToolsAt(w.tools, w.tools.Keys));
      id in callable && callable[id].source == SafeName(cs[n].name) && callable[id].toolName == d.name
  {
    var w, d := ImportSources(EMPTY, cs), cs[n].listing.value[i];
    ImportsAreClean(EMPTY, cs);
    SourceToolsRegistered(EMPTY, cs, n, i);
    CallableAt(w.tools, ToolId(SourceOf(cs[n]), d));
    SafeHasNoDot(cs[n].name);
    SplitIdOfPair(SafeName(cs[n].name), d.name);
  }

  /** Calling an imported stdio tool reaches the client of its own source, as long as no
      later source connects under the same safe name. */
  lemma CallsReachTheirServer(cs: seq<SourceConfig>, n: nat, i: nat)
    requires n < |cs| && LastToConnect(cs, n, SafeName(cs[n].name))
    requires i < Importable(cs[n].listing.value)
    ensures var w, d := ImportSources(EMPTY, cs), cs[n].listing.value[i];
      var id, callable := ToolId(SourceOf(cs[n]), d), CallableFrom(ToolsAt(w.tools, w.tools.Keys));
      id in callable && FateOf(w.clients, callable[id]) == Asks(cs[n].client, d.name)
  {
    EveryCallGoes(cs, n, i);
  }

  function NoClientError(source: string): string {
    "mcpclient: no downstream client for source \"" + source + "\""
  }

  /** A tools/call with the manager as the bridge's forwarder; answer is what the
      downstream server replies if it is asked. */
  method ServeCall(b: Bridge, manager: Manager, id: string, name: string, answer: Reply)
    requires b.Valid() && name in b.tools && b.forwards == (|manager.clients| > 0)
    modifies b`out, b`forwarded, b.resolver
    ensures b.Valid() && b.Abs() == Advance(b.Cfg(), old(b.Abs()), Call(name))
    ensures b.out == old(b.out) + (if Notifies(b.Cfg(), old(b.Abs()), name) then [ListChanged] else []) +
      [match FateOf(manager.clients, b.tools[name])
       case Placeholder => CallResult(id, b.Routed(name, b.tools[name]), false)
       case NoClient => CallResult(id, "mcpclient: no downstream client for source \"" + b.tools[name].source + "\"", true)
       case Asks(_, _) => if answer.Failure? then CallResult(id, answer.error, true) else CallResult(id, answer.result, false)]
  {
    var d := b.tools[name];
    var asked := manager.Call(d.source, d.toolName);
    var reply := if asked.None? then Failure(NoClientError(d.source)) else answer;
    b.HandleToolsCall(id, name, reply);
  }

  /** Tool ids of distinct sources never collide. */
  lemma ToolIdInjective(a: Source, x: Descriptor, b: Source, y: Descriptor)
    requires '.' !in a.name && '.' !in b.name && ToolId(a, x) == ToolId(b, y)
    ensures a.name == b.name && x.name == y.name
  {
    SplitIdOfPair(a.name, x.name);
    SplitIdOfPair(b.name, y.name);
  }
}

/** The schemas a client of the bridge sees, against those the downstream servers gave. */
module ServedSchemas {
  import opened Json
  import opened Registry
  import opened SchemaWeakening
  import opened ToolSchema
  import opened McpSource
  import opened Bridge
  import opened Startup

  /** Every argument object the tool's own schema accepts, the served one does. */
  ghost predicate Serves(own: Json, served: Json) { forall v: Json :: v.JObject? && Accepts(own, v) ==> Accepts(served, v) }

  // ----- Where a registered tool comes from -----

  /** The i-th descriptor of the n-th source was imported. */
  predicate Imported(cs: seq<SourceConfig>, n: nat, i: nat) {
    n < |cs| && Imports(cs[n]) && i < Importable(cs[n].listing.value)
  }

  lemma {:induction false} FromDescriptor(before: map<string, Tool>, src: Source, ds: seq<Descriptor>, k: string)
      returns (i: nat)
    requires k in ImportedTools(before, src, ds)
    requires !(k in before && ImportedTools(before, src, ds)[k] == before[k])
    ensures i < Importable(ds) && ImportedTools(before, src, ds)[k] == ToolFrom(src, ds[i])
    decreases |ds|
  {
    var after := before[ToolId(src, ds[0]) := ToolFrom(src, ds[0])];
    var tools := ImportedTools(before, src, ds);
    assert tools == ImportedTools(after, src, ds[1..]);
    if k in after && tools[k] == after[k] {
      i := 0;
    } else {
      var j := FromDescriptor(after, src, ds[1..], k);
      i := j + 1;
    }
  }

  lemma {:induction false} FromSource(cs: seq<SourceConfig>, k: string) returns (n: nat, i: nat)
    requires k in ImportSources(EMPTY, cs).tools
    ensures Imported(cs, n, i)
    ensures ImportSources(EMPTY, cs).tools[k] == ToolFrom(SourceOf(cs[n]), cs[n].listing.value[i])
  {
    var last := |cs| - 1;
    var before, tools := ImportSources(EMPTY, cs[..last]).tools, ImportSources(EMPTY, cs).tools;
    ImportLast(EMPTY, cs);
    if k in before && tools[k] == before[k] {
      n, i := FromSource(cs[..last], k);
      assert cs[..last][n] == cs[n];
    } else {
      n := last;
      i := FromDescriptor(before, SourceOf(cs[last]), cs[last].listing.value, k);
    }
  }

  // ----- What is served for it -----

  lemma RenderingServes(id: string, own: Json, tool: McpTool)
    requires Rendering(id, Compacted(own), tool) && InDomain(own)
    ensures tool.name == id && Serves(own, tool.inputSchema)
  {
    var required :| ListsRequired(Compacted(own), required) &&
      tool == McpTool(id, "[ACP-compacted] " + id, InputSchema(Compacted(own), required));
    forall v: Json | v.JObject? && Accepts(own, v) ensures Accepts(tool.inputSchema, v) { ToolSchemaWeakens(own, required, v); }
  }

  /** Every tool in an answer to a list request, whatever of the surface is in scope, comes
      from an imported descriptor, and if its schema is in the domain the served one
      accepts every argument object that schema accepts. */
  lemma ListedToolServes(cs: seq<SourceConfig>, ids: set<string>, rendered: seq<McpTool>, x: nat) returns (n: nat, i: nat)
    requires ids <= ImportSources(EMPTY, cs).tools.Keys
    requires Renders(ToolsAt(ImportSources(EMPTY, cs).tools, ids), rendered) && x < |rendered|
    ensures Imported(cs, n, i)
    ensures var d := cs[n].listing.value[i];
      rendered[x].name == ToolId(SourceOf(cs[n]), d) && (InDomain(d.inputSchema) ==> Serves(d.inputSchema, rendered[x].inputSchema))
  {
    var tools := ImportSources(EMPTY, cs).tools;
    ImportsAreClean(EMPTY, cs);
    ToolsAtMembers(tools, ids);
    var t := ToolsAt(tools, ids)[x];
    n, i := FromSource(cs, t.id);
    var d := cs[n].listing.value[i];
    assert Rendering(t.id, Compacted(d.inputSchema), rendered[x]);
    if InDomain(d.inputSchema) { RenderingServes(t.id, d.inputSchema, rendered[x]); }
  }
}

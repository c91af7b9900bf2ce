# The governed execution pipeline, modelled and proved

The repository turns capability requests into execution manifests and governs the
calls made under them. This project models that pipeline from end to end, and the
Agent Native Format (ANF) printer with its translators, and proves what the code
promises about them.

- **Sources and registry** (`McpSource`, `K8sSource`, `Registry`, `Seed`, `McpEgress`): tools come
  from MCP servers and annotated Kubernetes services and are found by capability tag.
- **Manifests and scheduling** (`Builder`, `Pipeline`, `Manifest`, `Graphs`, `Scheduler`,
  `LangGraph`): tags become a dependency graph over action ids, which Kahn's algorithm
  orders and the LangGraph adapter wires between START and END.
- **Enforcement** (`Proxy`, `Urls`): which calls the proxy forwards, and to whom.
- **The deferred-intent bridge** (`Resolver`, `Bridge`, `Startup`, `SourceNames`, `ServedSchemas`): a
  sliding window narrows the listed tools, changes are announced, calls are routed.
- **The schema mini-language** (`SchemaLanguage`, `SchemaWeakening`, `ToolSchema`,
  `Json`): tool schemas printed compactly and expanded again.
- **The stdio client** (`Stdio`): requests, late replies and left-over readers over one
  stream of lines.
- **ANF** (`Anf`, `AnfEncoder`, `AnfDecoder`, `AnfRoundTrip`, `AnfDocument`, `GenericTranslator`,
  `TranslateAlike`, `DocumentsAlike`, `KubernetesTranslator`, `KubernetesShown`, `KubernetesReadBack`,
  `KubernetesDocument`): documents, their printer, decoders and what fills them.
- **Shared** (`Text`, `Sorting`, `Wrappers`): strings, library sorts, options.

Objects whose methods update fields are classes, loops are loops; each method is proved
against a function of its inputs and old state, and the theorems are about those
functions or about the state machines the methods step through. Strings are sequences
of ASCII characters. A Go map is walked in arbitrary order, so that results do not
depend on it is proved, not assumed. Library sorts promise an ordered permutation and
nothing about ties. `dafny verify dfyconfig.toml` checks everything.

Where the code and its own words disagree the model follows the code:

- `compactToJSONSchema` is called the inverse of compaction; `ExpandInvertsPrint` and
  `FieldRoundTrip` say exactly when it is.
- `maybeNotifyListChanged` is said to notify when the surface changed; it compares
  counts. `NotifiesExactly` says what it does and `EqualSizesAreMissed` what it misses.
- The adapter's START edges are meant for sources; its guard asks for no dependency at
  all, where the scheduler ignores dependencies outside the manifest (`EveryActionRuns`,
  `NoWayIn`).
- A call to a tool imported over HTTP is forwarded like any other; the manager has clients
  for stdio sources only (`EveryCallGoes`).
- The format makes a status optional everywhere; below the top the printer's lines need it
  (`StatuslessIsAmbiguous`).
- The importer's `hostOf` and the proxy's `url.Parse` read different hosts off some URLs
  (`EndpointListed`, `ServicePasses`).
- A narrowing threshold above the window size is accepted and never reached
  (`NarrowedExactly`).

## Main results

- `TopologicalOrder` fails exactly on a cycle; its order is unique (`ScheduleUnique`) and
  layered (`Layered`); `EveryRequestSchedules` says which registries always schedule.
- `EdgesExactly`, `ComesFromDependency`, `EveryActionRuns`: the graph's edges, that no action
  starts before a dependency, and when every action lies between START and END.
- `BuiltAnswers`: what the builder returns, in terms of the registered tools and the request.
- `WindowIsSuffix`, `AnsweredExactly`, `InViewExactly`, `NotifiesExactly`, `NothingMissedAfterFullList`,
  `CalledToolStaysListed`: the resolver and the bridge over all runs.
- `ExpandInvertsPrint`, `CompactionIsStable`, `FieldWeakens`, `ListedToolServes`: the
  mini-language's domain of inversion and of weakening, up to what a client is served.
- `AllEndAsAnswered`, `NoCrossTalk`, `AnswerSafeIffNoReaderLeft`, `DeadlineCostsOneLine`: what
  requests return, and which answers can be lost.
- `EveryCallGoes`, `CallReadsBack`, `DecisionsAreRight`, `CallReachesItsTool`, `ServicePasses`,
  `EndpointListed`: where calls go, and which pass the proxy.
- `DocumentDecodesBack`, `ViewReadsBack`: which documents ANF text determines; `Conserves`,
  `DocumentPlaces`, `SameDocumentIffAlike`: what the generic translation keeps and what it
  cannot tell apart; `ViewShown`, `TextShowsView`: what a document shows of a namespace.
- `HealthyIffQuiet`, `HealthyIffUnnamed`: when status and alerts agree.

## Model

| member | source | states |
|---|---|---|
| `Scheduler.TopologicalOrder` | adapters/python/acp_common/__init__.py:239-268 | Raises `CycleError` exactly when the in-manifest dependency graph has a cycle (self-dependencies, repeated and external ids included); otherwise returns a schedule: every action once, dependencies first, first in first out with ties by id. The error lists the ids in order. |
| `Scheduler.Drain` | adapters/python/acp_common/__init__.py:259-265 | The main loop keeps: dequeued plus waiting actions are exactly those released so far, in release order. |
| `Scheduler.Release` | adapters/python/acp_common/__init__.py:262-265 | After a dequeue the counters are those of one open action less, and exactly the actions it was the last to hold up are appended, in id order. |
| `Scheduler.QueueStep` | adapters/python/acp_common/__init__.py:259-265 | Dequeueing an action and enqueueing what it frees preserves the queue invariant. |
| `Scheduler.QueueComplete` | adapters/python/acp_common/__init__.py:266-268 | If everything was enqueued the dependency graph is acyclic. |
| `Scheduler.QueueStuck` | adapters/python/acp_common/__init__.py:266-267 | If the queue runs dry first, the actions left over hold a cycle. |
| `Scheduler.ScheduleUnique` | adapters/python/acp_common/__init__.py:239-244 | A manifest has at most one schedule, so the ordering is deterministic. |
| `Scheduler.ListingIrrelevant` | adapters/python/acp_common/__init__.py:242-243 | The result is the same for every permutation of a list with distinct ids. |
| `Scheduler.ScheduleIsPermutation` | adapters/python/acp_common/__init__.py:240 | With distinct ids the order is a permutation of the actions. |
| `Scheduler.DependenciesFirst` | adapters/python/acp_common/__init__.py:240 | Every in-manifest dependency comes strictly before its dependent. |
| `Scheduler.Layered` | adapters/python/acp_common/__init__.py:257-265 | Depth never decreases along the order: whatever dependency chain hangs from an action, every later action has one at least as long. |
| `LangGraph.BuildGraph` | adapters/python/acp_langgraph/__init__.py:106-129 | Fails exactly on a dependency cycle; otherwise one node per action and, in terms of the manifest alone, exactly these edges: START to the actions that name no dependency, each in-manifest dependency to its dependent, and the actions no other names to END. |
| `LangGraph.EdgesExactly` | adapters/python/acp_langgraph/__init__.py:114-127 | The edges of the graph are exactly those three kinds, read off the fields of the manifest's actions. |
| `LangGraph.ComesFromDependency` | adapters/python/acp_langgraph/__init__.py:114-127 | Every walk from START to an action that names dependencies comes to it straight from a manifest action it waits for. |
| `LangGraph.EveryActionRuns` | adapters/python/acp_langgraph/__init__.py:114-127 | Every action reaches END; every action is reached from START exactly when none names dependencies without naming one in the manifest. |
| `LangGraph.NoWayIn` | adapters/python/acp_langgraph/__init__.py:122-124 | An action that waits only for ids outside the manifest is not reachable from START, although the scheduler treats those ids as done. |
| `Registry.MemoryRegistry.Register` | internal/registry/registry.go:65-76 | Refuses a blank id or an empty tag list, otherwise inserts or replaces under the id and changes nothing else. |
| `Registry.MemoryRegistry.Lookup` | internal/registry/registry.go:92-112 | Returns exactly the tools with a tag whose lower-case form is a normalised request tag, by id, whatever order the map is walked in. |
| `Registry.MemoryRegistry.All` | internal/registry/registry.go:115-124 | Returns every tool once, by id, whatever order the map is walked in. |
| `Builder.Builder.Build` | internal/builder/builder.go:93-158 | Fails exactly when no registered tool provides a requested tag; otherwise the manifest's actions correspond one to one, in id order, to the tools that do, each with its own tool's kind, endpoint, verb, schema, auth and timeout and the ids of the other actions whose tools feed it; boundary, ttl, feedback endpoint and id as given. |
| `Builder.BuiltAnswers` | internal/builder/builder.go:93-158 | The same of the builder's answer as a function, with no mention of how it is put together. |
| `Builder.ManifestDescribes` | internal/builder/builder.go:105-157 | A manifest of any list of tools carries each tool's fields, the union of their egress hosts, the approvals they ask for and the options' limits. |
| `Builder.Assemble` | internal/builder/builder.go:105-143 | The loops over the matched tools compute the actions, the sorted duplicate-free egress hosts and the ids that need approval. |
| `Builder.IndexCapabilities` | internal/builder/builder.go:105-113 | The index has an id under a tag exactly when that action's tool provides the tag up to case. |
| `Builder.DependsOnFor` | internal/builder/builder.go:160-182 | The sorted ids of exactly the other actions whose tool provides a capability this tool depends on. |
| `Builder.ActionsDistinct` | internal/builder/builder.go:106-130 | A built manifest has distinct action ids. |
| `Pipeline.ManifestEdgesExact` | internal/builder/builder.go:119-129 | The manifest's dependency graph is exactly the tool-level relation "provides a capability I depend on" between the matched tools, minus self-loops. |
| `Pipeline.ManifestCycleIsToolCycle` | internal/builder/builder.go:93-182 | A cyclic manifest needs a cycle between tools. |
| `Pipeline.ToolCycleIsManifestCycle` | internal/builder/builder.go:93-182 | A cycle between matchable tools shows in the manifest of the request that asks for every tag. |
| `Pipeline.EveryRequestSchedules` | internal/builder/builder.go:88-158 | The scheduler succeeds for every capability request exactly when the registry's matchable tools do not depend on each other in a circle. |
| `Pipeline.RankedRegistrySchedules` | internal/builder/builder.go:88-92 | If tools can be ranked with dependencies going strictly down, no request yields a cyclic manifest. |
| `Seed.Seed` | internal/registry/seed.go:23-90 | Registers the five demo tools over whatever was there. |
| `Seed.SeedNeeds` | internal/registry/seed.go:24-83 | Dependencies between demo tools go strictly down a ranking. |
| `Seed.SeededAlwaysSchedules` | internal/registry/seed.go:23-90 | Every capability request against the demo registry yields a manifest the scheduler can order. |
| `Seed.RankedToolsSchedule` | internal/registry/seed.go:24-83 | So does every registry whose tools fit the same ranking. |
| `Proxy.EgressAllowed` | internal/proxy/proxy.go:278-289 | Whether the host, without its port and up to case, is on the allow list. |
| `Proxy.MemoryStore.ServeHTTP` | internal/proxy/proxy.go:128-217 | The decision on a request: every refusal in the handler's order, an endpoint that does not parse or names no host among them, or forwarding to the action's host. |
| `Proxy.DecisionsAreRight` | internal/proxy/proxy.go:128-217 | Every decision is given for its own reason, stated on the path, the first action of the id, the approval list, the endpoint's host and the allow list. |
| `Proxy.PathSplitsBack` | adapters/python/acp_common/__init__.py:271-279 | The path the adapters write, once its escapes are replaced, splits back to the same two ids exactly when the manifest id is a non-empty path segment. |
| `Proxy.UrlCarriesPath` | adapters/python/acp_common/__init__.py:279 | The whole URL goes to the proxy's own host, whatever slashes end the base, and the path read there is that one exactly when the manifest id holds no `?`, `#` or `%`. |
| `Proxy.CallReadsBack` | adapters/python/acp_common/__init__.py:271-279 | The call the adapters make for an action is read by the proxy as one for that action exactly when the manifest id is non-empty and holds none of `/`, `?`, `#` and `%`. |
| `Proxy.BuiltActionFound` | internal/proxy/proxy.go:260-267 | In a built manifest an action id finds the action of its own tool. |
| `Proxy.ApprovalListed` | internal/builder/builder.go:134-136 | An id is on the approval list exactly when its own tool asks for approval. |
| `Proxy.CallReachesItsTool` | internal/proxy/proxy.go:128-217 | A call made by the adapters for a stored built manifest is decided for its own tool: gated exactly by that tool's flag, then checked against that tool's endpoint. |
| `K8sSource.SplitCsv` | internal/sources/k8s/source.go:175-190 | The trimmed, lower-cased, non-empty parts, each once, sorted. |
| `K8sSource.ParseCompactSchema` | internal/sources/k8s/source.go:194-213 | The well-formed pairs as a map, a later pair replacing an earlier one. |
| `K8sSource.Convert` | internal/sources/k8s/source.go:115-172 | Fails exactly on a blank tool id or an empty tag list, in that order; otherwise fills every field with its annotation or default. |
| `K8sSource.ToolIsDescribed` | internal/sources/k8s/source.go:115-172 | Tags, schema, host, path, verb, timeout and approval of the tool are what the service's annotations say, with their defaults. |
| `K8sSource.RegisterAll` | internal/sources/k8s/source.go:89-105 | Registers opted-in services in order; a malformed one ends the import and what came before stays. |
| `K8sSource.ImportSucceeds` | internal/sources/k8s/source.go:85-105 | An import succeeds exactly when no exposed service is malformed. |
| `K8sSource.TakenIsRegistered` | internal/sources/k8s/source.go:85-105 | Under the id of an exposed service before the first malformed one stands its tool, or that of the last such service of the id. |
| `K8sSource.OthersUntouched` | internal/sources/k8s/source.go:85-105 | Under any other id the registry is as before. |
| `K8sSource.CountIsTaken` | internal/sources/k8s/source.go:85-105 | The count returned is the number of services taken. |
| `K8sSource.ServiceHost` | internal/sources/k8s/source.go:126-158 | Host and port of the endpoint read back as they were put in, for every host without `/`, `?`, `#`, `@` and `:`; the endpoint is refused exactly when the host holds a character no host may have or the path is malformed. |
| `K8sSource.ServicePasses` | internal/sources/k8s/source.go:126-169 | For every service, its own egress entry admits its own endpoint exactly when its host holds only the characters of a host name and its path is well formed. |
| `K8sSource.ServiceCallForwards` | internal/sources/k8s/source.go:115-172 | An action made from a service with an ordinary host name is gated exactly when the service's annotation asks for approval; past the gate it is forwarded to that service, whatever else is in the manifest, unless its path annotation is malformed. |
| `Resolver.DeferredResolver.Observe` | internal/resolver/deferred.go:97-108 | Blank tags change nothing; others enter the window normalised and push out the oldest beyond its size. |
| `Resolver.DeferredResolver.Resolve` | internal/resolver/deferred.go:131-177 | A tag is in the strictly sorted answer exactly when a hint says it or, over the history since the last reset, it is known and nothing is narrowed, or it is one of the last W accepted observations or what the fallback makes of a stated intent; an error exactly when there is no such tag. |
| `Resolver.WindowIsSuffix` | internal/resolver/deferred.go:97-124 | After any run of observations and resets the window is the last W accepted observations since the last reset. |
| `Resolver.NarrowedExactly` | internal/resolver/deferred.go:126-130 | The surface is narrowed exactly when W is at least the threshold and at least that many observations were accepted since the last reset. |
| `Resolver.AnsweredExactly` | internal/resolver/deferred.go:131-177 | The same after any run of observations and resets, stated on the run. |
| `Resolver.AcceptedAre` | internal/resolver/deferred.go:97-124 | What counts since a reset are all observations made after it that are not blank, normalised, in their order. |
| `Resolver.StaysNarrowed` | internal/resolver/deferred.go:128-130 | Once narrowed, only a reset brings the full surface back. |
| `Bridge.Bridge.HandleToolsList` | internal/bridge/bridge.go:192-222 | Answers with one rendered tool per tool of the current surface, in id order, and takes the state machine's list step. |
| `Bridge.Bridge.HandleToolsCall` | internal/bridge/bridge.go:229-283 | Takes the state machine's call step, announces a change exactly when the state machine says so, answers once, and forwards to the registered source and name. |
| `Bridge.Bridge.CallIsRepliedRight` | internal/bridge/bridge.go:229-283 | An unknown tool is an error, a downstream answer is passed on, a downstream failure is passed on and marked as such, and without a forwarder the call is acknowledged. |
| `Bridge.Bridge.MaybeNotifyListChanged` | internal/bridge/bridge.go:287-301 | Sends one notification exactly when the matched count differs from a positive counter. |
| `Bridge.Bridge.HandleMessage` | internal/bridge/bridge.go:157-190 | What each kind of request does to state and output. |
| `Bridge.CounterIsLastSize` | internal/bridge/bridge.go:215-217 | On every run the counter is the size of the last listed surface. |
| `Bridge.NotifiesExactly` | internal/bridge/bridge.go:285-301 | On every run a call announces a change exactly when the number of tools now differs from that of a non-empty last listed surface. |
| `Bridge.NotificationIsTrue` | internal/bridge/bridge.go:285-301 | An announced change is a change of the tool set. |
| `Bridge.NothingMissedAfterFullList` | internal/bridge/bridge.go:285-301 | After a list that showed every tool, a change is announced exactly when the set differs: a subset of equal size is the whole set. |
| `Bridge.EqualSizesAreMissed` | internal/bridge/bridge.go:298-300 | Between narrowed lists of equal size a change goes unannounced: for any two tools with different tags and a window of one, a bridge startup can set up. |
| `Bridge.FullUntilNarrowed` | internal/bridge/bridge.go:192-213 | Until narrowing the surface is every registered tool. |
| `Bridge.ListedInFull` | internal/bridge/bridge.go:192-222 | If the last list of a run was served before narrowing, it showed every tool. |
| `Bridge.ListedWithinTools` | internal/bridge/bridge.go:203-213 | Whatever was listed are registered tools. |
| `Bridge.InViewExactly` | internal/bridge/bridge.go:192-251 | On every run a registered tool is listed exactly when nothing is narrowed or one of its lower-cased tags is among the last W tags of the tools called. |
| `Bridge.CalledToolStaysListed` | internal/bridge/bridge.go:245-251 | After a call the called tool is still in the surface, even with more tags than the window holds. |
| `SchemaLanguage.CompactPrints` | internal/sources/mcp/source.go:279-308 | Compaction prints the field's shape, whatever the field. |
| `SchemaLanguage.ExpandInvertsPrint` | internal/bridge/bridge.go:334-372 | Expanding undoes printing exactly on the invertible shapes: scalars and arrays of them to any depth, and enums outside arrays with bar-free values, a required one not ending in a question mark. |
| `SchemaLanguage.ExpandPlain` | internal/bridge/bridge.go:336-372 | Shapes that do not end in an enum come back exactly, nested to any depth, marked optional or not. |
| `SchemaLanguage.ExpandEnum` | internal/bridge/bridge.go:337-346 | Everything after `enum:` is read as enum values, array brackets included, less one optional mark. |
| `SchemaLanguage.CompactionIsStable` | internal/sources/mcp/source.go:279-308 | For every field at all, compacting the expansion of its compact form gives that form back, less one question mark at its end. |
| `SchemaLanguage.FieldRoundTrip` | internal/bridge/bridge.go:334-335 | Importing and re-expanding a field of recognised type gives its type, enum and items back exactly when its shape is invertible. |
| `ToolSchema.CompactSchema` | internal/sources/mcp/source.go:247-263 | Every declared property in compact form, marked optional unless required, whatever order the map is walked in. |
| `ToolSchema.ToolToMcp` | internal/bridge/bridge.go:305-332 | Every field expanded; `required` lists, each once, exactly the fields whose compact form does not end in a question mark, and is left out when there are none. |
| `ToolSchema.RequiredKept` | internal/bridge/bridge.go:310-317 | A field is required of a client exactly when the schema declares it, lists it as required, and its compact form does not end in a question mark. |
| `ToolSchema.FieldsKept` | internal/sources/mcp/source.go:247-277 | Exactly the declared properties are printed, each in its compact form and marked when the schema does not list it as required. |
| `ToolSchema.MistakenForOptional` | internal/bridge/bridge.go:312 | The forms mistaken for optional are exactly enums whose last value ends in a question mark. |
| `SchemaWeakening.FieldWeakens` | internal/bridge/bridge.go:336-372 | The bridge's schema of a recognised field accepts all the original accepts exactly when no array ends in an enum, no enum value has a bar, and a required enum's last value ending in a question mark is listed before too. |
| `SchemaWeakening.OfferedKeeps` | internal/sources/mcp/source.go:283-289 | Which enum values survive the trip. |
| `SchemaWeakening.WordAccepts` | internal/bridge/bridge.go:336-372 | What the bridge accepts for a field of each plain word. |
| `SchemaWeakening.ArrayAccepts` | internal/bridge/bridge.go:348-354 | For an array, exactly the lists of what it accepts for the items. |
| `SchemaWeakening.UnknownIsString` | internal/sources/mcp/source.go:279-308 | A field of an unknown type is taken for a string, an array without item type for one of strings. |
| `ToolSchema.ToolSchemaWeakens` | internal/bridge/bridge.go:303-332 | On that domain every argument object the tool's own `inputSchema` accepts is accepted by the bridge's (JSON Schema Validation 2020-12, sections 6.1.1, 6.1.2 and 6.5.3). |
| `ServedSchemas.FromSource` | cmd/acp-bridge/main.go:160-181 | Every tool registered at startup is the conversion of a descriptor some source imported. |
| `ServedSchemas.ListedToolServes` | internal/bridge/bridge.go:192-222 | Every tool in an answer to a list request comes from an imported descriptor, and if that schema is in the domain, the served one accepts every argument object it accepts. |
| `McpSource.InferCapabilities` | internal/sources/mcp/source.go:191-221 | Strictly sorted tags: the source's extras, the name's words of two letters or more, and what verbs imply. |
| `McpSource.TagsEarned` | internal/sources/mcp/source.go:191-245 | A tag is inferred exactly when it is an extra or a word of the name, of two characters or more, or `write` or `read` for a word that is one of their verbs. |
| `McpSource.RegisterAll` | internal/sources/mcp/source.go:135-148 | Registers descriptors in order up to the first without a name, and counts them. |
| `McpSource.ToolIsDescribed` | internal/sources/mcp/source.go:152-186 | What a stdio and an HTTP source's tool say, field by field, their tags those earned or the source's name. |
| `McpSource.HostIsCut` | internal/sources/mcp/source.go:310-319 | The host cut off a URL is what stands between its scheme and the next slash, colon or question mark. |
| `McpSource.ImportableExactly` | internal/sources/mcp/source.go:135-148 | Imported are exactly the descriptors before the first without a name. |
| `McpSource.LastStays` | internal/sources/mcp/source.go:135-148 | Of the imported descriptors of one name the last stays registered. |
| `McpSource.ToolTagsAreLower` | internal/sources/mcp/source.go:152-159 | Every imported tool has tags, and they are normalised exactly unless the source's own name has to serve as the tag and is not. |
| `McpSource.RegistersFine` | internal/sources/mcp/source.go:138-145 | The registry refuses no imported tool, whatever the source's name. |
| `McpEgress.EndpointListed` | internal/sources/mcp/source.go:175-184 | For every base URL, an HTTP tool's own egress entry admits its own endpoint exactly when the base names a host after two slashes, the endpoint parses, and the host the importer cut off is the URL's host, without user and port, up to case. |
| `McpEgress.HttpEndpointListed` | internal/sources/mcp/source.go:310-319 | With a lower-case http or https scheme and an endpoint that parses: if the URL names a user, exactly when what the importer cut happens to be the name after the last `@`; otherwise exactly when no `#` ends the host. |
| `McpEgress.OtherSchemeListed` | internal/sources/mcp/source.go:310-319 | With any other scheme the importer takes the scheme for the host, so exactly when the two agree up to case. |
| `SourceNames.SafeSourceName` | cmd/acp-bridge/main.go:339-356 | The loop writes allowed characters and one underscore for every run of others, then trims underscores. |
| `SourceNames.SafeNameIsSafe` | cmd/acp-bridge/main.go:339-356 | A safe name has only lower-case letters, digits and single inner underscores. |
| `SourceNames.SafeNameFixpoints` | cmd/acp-bridge/main.go:339-356 | The names left alone are exactly the safe ones. |
| `SourceNames.SafeNameIdempotent` | cmd/acp-bridge/main.go:339-356 | Making a name safe twice is making it safe once. |
| `SourceNames.SafeNameJoinsWords` | cmd/acp-bridge/main.go:339-356 | A safe name is the words of the name, its runs of letters and digits, in lower case and joined by underscores. |
| `SourceNames.SafeNameIsEmpty` | cmd/acp-bridge/main.go:339-356 | It is empty exactly when the name has neither letter nor digit. |
| `SourceNames.SafeHasNoDot` | cmd/acp-bridge/main.go:339-356 | A safe name has no dot. |
| `SourceNames.SplitToolId` | cmd/acp-bridge/main.go:217-227 | Splits at the first dot; without one both parts are the whole id. |
| `SourceNames.SplitIdOfPair` | cmd/acp-bridge/main.go:218-227 | A dotless source name comes back with the tool name whole, dots included. |
| `Startup.Manager.Call` | internal/mcpclient/stdio.go:295-305 | The call goes to the client under the source name, under the tool name given; an error exactly when there is none. |
| `Startup.ImportAll` | cmd/acp-bridge/main.go:160-181 | The registry and the manager after importing every configured source, failures skipped. |
| `Startup.ImportOne` | cmd/acp-bridge/main.go:244-281 | One source: its client is registered for stdio only, its tools if its server could be listed. |
| `Startup.TransportExactly` | cmd/acp-bridge/main.go:283-298 | Which kinds and URLs make a source HTTP and which stdio. |
| `Startup.ImportsExactly` | cmd/acp-bridge/main.go:244-281 | A source is imported exactly when its name has a letter or digit, its server gave a listing, and it is a stdio source or an HTTP source with a URL. |
| `Startup.CalledOverTransport` | cmd/acp-bridge/main.go:244-281 | The tools of a source are called the way it was connected, an HTTP source's under its own URL. |
| `Startup.SetUp` | cmd/acp-bridge/main.go:183-229 | The bridge can call what the registry holds, knows the sorted tags of all tools, forwards exactly if a client is connected, and starts in the state machine's first state. |
| `Startup.CallableKeys` | cmd/acp-bridge/main.go:217-229 | The bridge can call exactly the registered tools. |
| `Startup.StartupIsNormal` | cmd/acp-bridge/main.go:153-229 | Whatever the sources list, startup establishes what the bridge's run theorems assume. |
| `Startup.EveryCallGoes` | cmd/acp-bridge/main.go:153-229 | Where the call to every imported tool goes, stdio or HTTP: a placeholder answer exactly when no stdio source came up; otherwise the client of the last source that connected under the safe name of the tool's source, under the name that server gave the tool, and an error exactly when there is none. |
| `Startup.ClientIffConnected` | cmd/acp-bridge/main.go:244-281 | The manager has a client under a name exactly when some stdio source connected under it. |
| `Startup.ServeCall` | internal/bridge/bridge.go:245-282 | With the manager as forwarder, what the bridge answers in each of these cases. |
| `Startup.CallsReachTheirServer` | cmd/acp-bridge/main.go:153-229 | In particular a stdio tool's call reaches its own source's client unless a later source connects under the same safe name. |
| `Startup.ToolIdInjective` | internal/sources/mcp/source.go:164 | Tool ids of different sources, or of different tools, never collide. |
| `Stdio.StdioClient.Request` | internal/mcpclient/stdio.go:152-178 | Takes the state machine's steps until the request ends, and what it returns is said by the line that ended it: a result that line's result, a server error its error; a timeout exactly on a deadline, a read failure exactly on one. |
| `Stdio.StepKeepsInv` | internal/mcpclient/stdio.go:152-218 | Every move (lines arriving, late readers taking lines, deadlines, read errors) keeps the connection invariant. |
| `Stdio.RunKeepsInv` | internal/mcpclient/stdio.go:152-218 | So does every run. |
| `Stdio.NoCrossTalk` | internal/mcpclient/stdio.go:161-177 | On every run the line that ended a request answers that request and no other, and the request returns its result or fails with its error. |
| `Stdio.AllEndAsAnswered` | internal/mcpclient/stdio.go:161-177 | On every run every request returns p exactly when a line of its id with result p ended it, and fails with the server's message exactly when a line of its id with that error did. |
| `Stdio.LinesUsedOnce` | internal/mcpclient/stdio.go:161-177 | Requests end in the order they were issued and no line ends two of them. |
| `Stdio.AnswerSafeIffNoReaderLeft` | internal/mcpclient/stdio.go:152-218 | Over all runs of a request, whatever arrives and whoever reads: an answer can be taken from the stream while the request neither ends with it nor times out exactly when a reader is left over from an earlier request at the time of sending. |
| `Stdio.DeadlineCostsOneLine` | internal/mcpclient/stdio.go:190-218 | Sent with no reader left over, a request that times out costs at most the one line that was next when the deadline struck, whether its reader held it already or takes it later. |
| `Stdio.AnswerReturned` | internal/mcpclient/stdio.go:161-177 | Sent with no reader left over, a request that still waits after any run finds its answer among the unread lines, and reading on past malformed lines, notices and stale answers returns it. |
| `Stdio.AnswerIsFound` | internal/mcpclient/stdio.go:161-177 | From any state, the request's own reads alone skip what does not concern it and return the first answer. |
| `Stdio.AnswerGiven` | internal/mcpclient/stdio.go:161-177 | With no reader left over, the first answer after the send is what the request comes back with, a result as a result and an error as an error. |
| `Stdio.LeftoverReaderCanTakeAnswer` | internal/mcpclient/stdio.go:204-212 | With a reader left over, from any state a run of the open request loses its answer. |
| `Stdio.TimeoutLeavesReader` | internal/mcpclient/stdio.go:209-211 | Any request that times out before a line arrives leaves such a reader. |
| `Stdio.IdsRepeatAfterRange` | internal/mcpclient/stdio.go:156 | Two requests share an id exactly when their numbers differ by a multiple of 2^64. |
| `Anf.Itoa` | pkg/anf/types.go:114-134 | For every 64-bit integer the writes stay inside the 20-byte buffer and the text is its decimal form, except the least, which prints as a lone sign. |
| `Anf.PrintDuration` | pkg/anf/types.go:101-112 | A whole number of the largest dividing unit, then the unit's letter. |
| `Anf.DurationReadsBack` | pkg/anf/types.go:101-112 | The printed duration denotes the same number of seconds. |
| `Anf.DaysAreTheirs` | pkg/anf/types.go:101-112 | Whole days print as days, a day being 24 hours of 60 minutes of 60 seconds. |
| `Anf.HoursAreTheirs` | pkg/anf/types.go:101-112 | Whole hours that make no whole days print as hours. |
| `Anf.MinutesAreTheirs` | pkg/anf/types.go:101-112 | Whole minutes that make no whole hours print as minutes. |
| `Anf.SecondsAreTheirs` | pkg/anf/types.go:101-112 | Seconds that make no whole minutes print as seconds. |
| `Anf.LargestUnit` | pkg/anf/types.go:101-112 | No larger unit divides a positive duration exactly. |
| `AnfEncoder.Encode` | pkg/anf/encoder.go:11-49 | What is printed depends on the document alone, not on the order its maps are walked in: headers, entities, alerts, actions, an empty line between sections that have content. |
| `AnfEncoder.WriteEntity` | pkg/anf/encoder.go:58-92 | An entity's line, its properties and its children, each one level deeper. |
| `AnfEncoder.EntityLooks` | pkg/anf/encoder.go:58-79 | The line of an entity with a status and one pair, written out: kind, name, status in brackets, pair. |
| `AnfEncoder.NestingLooks` | pkg/anf/encoder.go:80-92 | An entity with one property and one child, written out: both stand two blanks deeper. |
| `AnfEncoder.MarkedLooks` | pkg/anf/encoder.go:94-126 | An alert and an action of one pair, written out behind `!` and `?`. |
| `AnfDecoder.ForestReads` | pkg/anf/encoder.go:58-92 | The decoder reads back any printed forest that fits, at any depth, and stops where the printed lines end or an empty line comes. |
| `AnfDecoder.ForestSound` | pkg/anf/encoder.go:58-92 | What the decoder reads off any lines fits, and printing it gives those lines back. |
| `AnfRoundTrip.DecodesBack` | pkg/anf/encoder.go:58-92 | Decoding a printed forest, of any depth and width, with the decoder given here returns it exactly when it fits the syntax: statuses below the top, single words for kinds, names and keys, inline values without a colon after their first word, no property that reads as an entity. |
| `AnfRoundTrip.DecodeSound` | pkg/anf/encoder.go:58-92 | Whatever text decodes is the printing of what it decodes to. |
| `AnfRoundTrip.PrintsApart` | pkg/anf/encoder.go:58-92 | No two forests that fit print the same. |
| `AnfRoundTrip.PlainPropFits` | pkg/anf/encoder.go:80-86 | A property value without `[` never reads as an entity. |
| `AnfRoundTrip.StatuslessIsAmbiguous` | pkg/anf/encoder.go:64-86 | Below the top no decoder could do without: a child without a status prints like a property of its parent. |
| `AnfDocument.AlertReads` | pkg/anf/encoder.go:94-110 | An alert line that fits is read back, its pairs as the same map. |
| `AnfDocument.DocumentDecodesBack` | pkg/anf/encoder.go:11-49 | Decoding a whole printed document, headers, entities, alerts and actions, returns it exactly when every part fits the syntax and, without headers, the first entity does not start with `@`. |
| `AnfDocument.DecodedIsPrinted` | pkg/anf/encoder.go:11-49 | Whatever text decodes as a document is the printing of that document. |
| `AnfDocument.DocumentsPrintApart` | pkg/anf/encoder.go:11-49 | No two documents that fit print the same. |
| `GenericTranslator.Translate` | translators/generic/translate.go:38-79 | Succeeds exactly when the input nests no deeper than the bound, and then yields one document, whatever order maps are walked in, without alerts or actions. |
| `GenericTranslator.EntityFromValue` | translators/generic/translate.go:83-119 | Fails exactly when depth plus nesting exceeds the bound; otherwise the value's tree. |
| `GenericTranslator.HeightOfObject` | translators/generic/translate.go:88-101 | An object nests as deep as its deepest container field requires; scalar fields do not count. |
| `GenericTranslator.HeightOfArray` | translators/generic/translate.go:102-111 | An array nests one deeper than its deepest item, scalar items included. |
| `GenericTranslator.Conserves` | translators/generic/translate.go:33-37 | The multiset of property values in the document is that of the texts of the input's scalars: strings as they are, numbers as written, booleans and null as their JSON literals. |
| `GenericTranslator.ScalarDenotes` | translators/generic/translate.go:171-193 | The text printed for a scalar is the one that reads back as it: a literal for booleans and null, the text of a number or a string. |
| `GenericTranslator.TreePlaces` | translators/generic/translate.go:81-119 | Every value keeps the keys that lead to it, counted. |
| `GenericTranslator.DocumentPlaces` | translators/generic/translate.go:38-79 | The same for the whole document, each value as the text that reads back as it: scalar fields of a top-level object under `object`, container fields under their own keys, items under `array`, a lone scalar under `value`. |
| `GenericTranslator.DocumentIsPlain` | translators/generic/translate.go:33-37 | No entity has a status or an inline property: nothing is inferred. |
| `GenericTranslator.CalledByName` | translators/generic/translate.go:83-119 | An entity stands under its key and is called by its object's text `name`, else its text `id`, else not at all. |
| `GenericTranslator.TopIsCalled` | translators/generic/translate.go:45-76 | The entity of the top-level scalar fields comes first, and it, a lone array and a lone scalar are called by the scope. |
| `GenericTranslator.HeadersSay` | translators/generic/translate.go:38-79 | Source, scope if there is one, time and translator, in that order. |
| `GenericTranslator.ObjectInOrder` | translators/generic/translate.go:88-101 | The properties and children of an object come strictly by key. |
| `GenericTranslator.ItemsInOrder` | translators/generic/translate.go:102-111 | The items of an array keep their number and order. |
| `TranslateAlike.SameEntityIffAlike` | translators/generic/translate.go:81-119 | Two JSON values under a key translate to the same entity exactly when they are alike: objects field by field, arrays item by item, scalars by their text, an empty object and an empty array, an object of one container field under the key itself and an array of one such item, a scalar and an object boxing it as `value`. |
| `DocumentsAlike.SameDocumentIffAlike` | translators/generic/translate.go:38-79 | Two inputs give the same entities under a scope exactly when they are alike: objects field by field, the scalar fields of one possibly inside a field `object` of the other that comes first and is named like the scope; arrays item by item; scalars by their text; and, without a scope, an object of one field `array` or `value` that stands for a lone array or scalar. |
| `KubernetesTranslator.Translate` | translators/kubernetes/translator.go:110-153 | The whole document of a namespace view, up to the order of alerts of one severity. |
| `KubernetesTranslator.StatusOf` | translators/kubernetes/translator.go:433-449 | Failing, degraded or healthy by readiness, load and struggling pods. |
| `KubernetesTranslator.DeriveAlerts` | translators/kubernetes/translator.go:300-376 | A severity-sorted permutation of the alerts found. |
| `KubernetesTranslator.DeriveActions` | translators/kubernetes/translator.go:379-429 | The permitted actions of every deployment and its pods, in order. |
| `KubernetesTranslator.HealthyIffQuiet` | translators/kubernetes/translator.go:303-449 | A deployment is healthy exactly when it and its pods give rise to no alert above information. |
| `KubernetesTranslator.AllHealthyIffQuiet` | translators/kubernetes/translator.go:110-153 | Every deployment of a document shows as healthy exactly when the document raises no alert above information. |
| `KubernetesTranslator.UnnamedIffUnclashed` | translators/kubernetes/translator.go:300-376 | For every view, no alert above information names a deployment or one of its pods exactly when no deployment in trouble has its name and no struggling pod the name of one of its pods. |
| `KubernetesTranslator.HealthyIffUnnamed` | translators/kubernetes/translator.go:300-449 | For every view, the status shown for a deployment agrees with the alerts naming it or its pods exactly when a healthy deployment clashes with none by name. |
| `KubernetesTranslator.HealthyIffUnnamedApart` | translators/kubernetes/translator.go:300-449 | With names apart, as in one namespace, they always agree. |
| `KubernetesTranslator.NamesakesMislead` | translators/kubernetes/translator.go:303-366 | A healthy deployment is named by an alert above information whenever a namesake, or a namesake of one of its pods, is in trouble. |
| `KubernetesTranslator.StatusesShown` | translators/kubernetes/translator.go:119-122 | The i-th entity of a document shows the status of the i-th deployment. |
| `KubernetesTranslator.AboutIsShown` | translators/kubernetes/translator.go:155-233 | Every deployment and every pod of the view is present in the document under its own kind and name. |
| `KubernetesShown.ViewShown` | translators/kubernetes/translator.go:110-464 | Every deployment, pod, service, job and cron job is shown in its place with its own name, state, numbers and times, read back off the document; headers, alerts and actions are those the view calls for. |
| `KubernetesShown.TextShowsView` | translators/kubernetes/translator.go:110-464 | The same of what is decoded from the printed text, for views that fit. |
| `KubernetesShown.StateShows` | translators/kubernetes/translator.go:433-449 | A deployment shows as failing exactly when none of its replicas is ready and some should be, and as healthy exactly when replicas, loads and pods are all in order. |
| `KubernetesShown.PhaseShows` | translators/kubernetes/translator.go:451-464 | Which pod phases show as running, pending, failing, completed and unknown. |
| `KubernetesShown.AlertsWarranted` | translators/kubernetes/translator.go:300-376 | The alerts of a document are exactly those the numbers of its deployments and pods call for. |
| `KubernetesShown.AlertsCounted` | translators/kubernetes/translator.go:300-376 | Each is raised once. |
| `KubernetesShown.ActionsOffered` | translators/kubernetes/translator.go:379-429 | The actions are the permitted ones of each deployment and its pods, with their parameters, in order. |
| `KubernetesReadBack.DeploymentReadsBack` | translators/kubernetes/translator.go:155-233 | A deployment's entity reads back, the two-word key of its usage line restored, exactly when its names, image, strategy and rates, and its pods' names and nodes, keep clear of the syntax. |
| `KubernetesReadBack.JobReadsBack` | translators/kubernetes/translator.go:255-278 | A job's entity reads back exactly when its name is a word and its last run fits an inline value. |
| `KubernetesReadBack.ServiceReadsBack` | translators/kubernetes/translator.go:235-253 | A service's entity, which has no status, reads back exactly when its name is a word and its type does not go on like an entity's line. |
| `KubernetesReadBack.CronJobReadsBack` | translators/kubernetes/translator.go:280-297 | A cron job's entity, whose schedule may hold blanks, reads back exactly when its name is a word and schedule and times have no colon after their first word. |
| `KubernetesReadBack.EntitiesPrintApart` | translators/kubernetes/translator.go:110-138 | The text of a namespace's entities determines them, usage lines and cron jobs included. |
| `KubernetesDocument.ViewReadsBack` | translators/kubernetes/translator.go:110-153 | The whole document of a namespace reads back exactly when cluster, namespace and time are single lines, its deployments, services, jobs and cron jobs fit, and so do the image texts that alerts and rollouts quote. |
| `KubernetesDocument.ViewsPrintApart` | translators/kubernetes/translator.go:110-153 | Two namespaces that fit and print the same have the same document. |
| `KubernetesTranslator.FailingIsCritical` | translators/kubernetes/translator.go:325-332 | A failing deployment raises a critical alert of its own. |
| `KubernetesTranslator.CriticalComesFirst` | translators/kubernetes/translator.go:370-373 | Nothing less severe precedes a critical alert, and no information a warning. |
| `KubernetesTranslator.AlertIsShown` | translators/kubernetes/translator.go:300-376 | Every alert names an entity present in the document. |
| `KubernetesTranslator.ActionIsShown` | translators/kubernetes/translator.go:379-429 | Every action names an entity present in the document. |
| `KubernetesTranslator.ActionIsGranted` | translators/kubernetes/translator.go:383-424 | No action is offered without its permission. |
| `KubernetesTranslator.RolloutIffOutdated` | translators/kubernetes/translator.go:334-404 | A rollout is offered exactly when it is permitted and an informational alert says the image is outdated. |

## Left out

- HTTP handlers around the proxy's decision, reverse proxying, header and credential injection, bearer authentication: input and output around the decisions; the approval gate's and the injector's answers are parameters.
- Process spawning, pipes, signals and configuration loading: sources come with the listing their server gave, or none.
- Locks and data races between goroutines: the bridge and the resolver are modelled one request at a time; the stdio client's left-over readers are modelled as moves of a state machine.
- A failing write on the stdio connection: it ends a request as a failing read does. An id of zero, which the encoder would leave out of the message, first comes up when the 64-bit counter has wrapped half way.
- JSON decoding and encoding: the model starts from parsed values. `url.Parse` is modelled as in the Go version the module file names, but for IP literals in brackets and escapes in a host, which count as refused; what an HTTP client or a router does to a URL it is given is not.
- Unicode: letters, digits, case and white space are the ASCII ones.
- How floating-point numbers and timestamps print: numbers carry their text, times come as text.
- The embedding resolver and the keyword resolver: the fallback is any function from an intent to tags or an error.
- Observability, benchmarks, scripts, the ANF MCP server's fixed tables, manifest expiry, signing and audit logs.
- The other adapters, the graph's node callables and the Python `expand_schema_field`.
- `MemoryRegistry.Get`, `ObservationCount` and the `MemoryStore` lookup on its own: one map access each.
- Events, pod ages and the exec and describe permissions of a namespace view: the translator never reads them.
- The texts of the Kubernetes annotation keys: an enumeration stands for them.
- `formatDurationCompact` computes in floating point; the model divides whole nanoseconds.
- McpEgress.EndpointListed: does not speak of base URLs whose host is an IP literal in brackets or holds an escape.
- K8sSource.ServiceCallForwards: asks for a host with the characters of a host name only; `ServicePasses` says what becomes of the others.
- ToolSchema.ToolSchemaWeakens: validation knows the keywords type, enum, required, items and properties; an original schema with further keywords only accepts less, so the theorem holds for it too.
- Stdio.NoCrossTalk: asks for fewer than 2^64 requests on one connection, after which ids repeat (`IdsRepeatAfterRange`).
- AnfRoundTrip.DecodesBack: the format's own reference parsers are not in the repository, so its negative half, like that of `DocumentDecodesBack` and `ViewReadsBack`, is about the decoder given here; comments and `---` separators, which the printer never writes, are not decoded.

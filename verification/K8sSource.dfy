/** Kubernetes services as tools (internal/sources/k8s/source.go). */
module K8sSource {
  import opened Wrappers
  import opened Text
  import opened Sorting
  import opened Urls
  import opened Manifest
  import opened Registry
  import opened Builder
  import opened Proxy

  /** The annotations under acp.clawdlinux.org/ the importer reads. */
  datatype Key = Expose | ToolId | Capabilities | EndpointPath | Verb | Schema | Timeout | RequireApproval

  datatype Service = Service(namespace: string, name: string, clusterHost: string, port: int, annotations: map<Key, string>)

  datatype ConvertResult = Converted(tool: Tool) | MissingToolId | MissingTags

  function Annotation(svc: Service, key: Key): string {
    if key in svc.annotations then svc.annotations[key] else ""
  }

  predicate IsTrue(s: string) { ToLower(TrimSpace(s)) == "true" }

  predicate OptedIn(svc: Service) {
    Expose in svc.annotations && IsTrue(svc.annotations[Expose])
  }

  /** "a, b , ,C" lists the tags a, b and c: lower-cased, each once, sorted. */
  function CsvTags(raw: string): seq<string> {
    SortedSeq(Wanted(Split(raw, ',')))
  }

  method SplitCsv(raw: string) returns (out: seq<string>)
    ensures out == CsvTags(raw)
  {
    var parts := Split(raw, ',');
    var seen: set<string> := {};
    for i := 0 to |parts|
      invariant seen == Wanted(parts[..i])
    {
      WantedStep(parts, i);
      var p := Normalize(parts[i]);
      if p == "" {
        continue;
      }
      seen := seen + {p};
    }
    assert parts[..|parts|] == parts;
    out := SortSet(seen);
  }

  /** The field a "name:type" pair declares, if it is well formed. */
  function PairField(raw: string): Option<(string, string)> {
    var pair := TrimSpace(raw);
    var head := UpTo(pair, {':'});
    if pair == "" || |head| == |pair| || head == "" || |head| == |pair| - 1 then None
    else
      var name, typ := TrimSpace(head), TrimSpace(pair[|head| + 1..]);
      if name == "" || typ == "" then None else Some((name, typ))
  }

  /** Later pairs replace earlier ones of the same name. */
  function PairFields(pairs: seq<string>): map<string, string> {
    if pairs == [] then map[]
    else
      var init, last := PairFields(pairs[..|pairs| - 1]), PairField(pairs[|pairs| - 1]);
      if last.None? then init else init[last.value.0 := last.value.1]
  }

  method ParseCompactSchema(raw: string) returns (out: map<string, string>)
    ensures out == PairFields(Split(raw, ','))
  {
    var pairs := Split(raw, ',');
    out := map[];
    for i := 0 to |pairs|
      invariant out == PairFields(pairs[..i])
    {
      assert pairs[..i + 1][..i] == pairs[..i];
      var field := PairField(pairs[i]);
      if field.None? {
        continue;
      }
      out := out[field.value.0 := field.value.1];
    }
    assert pairs[..|pairs|] == pairs;
  }

  function HostOf(svc: Service): string {
    if svc.clusterHost == "" then svc.name + "." + svc.namespace + ".svc.cluster.local" else svc.clusterHost
  }

  function PathOf(svc: Service): string {
    var path := TrimSpace(Annotation(svc, EndpointPath));
    if path == "" then "/" else if HasPrefix(path, "/") then path else "/" + path
  }

  function PortOf(svc: Service): string { Decimal(if svc.port <= 0 then 80 else svc.port) }

  function EndpointOf(svc: Service): string {
    "http://" + HostOf(svc) + ":" + PortOf(svc) + PathOf(svc)
  }

  predicate HasTags(svc: Service) { Wanted(Split(Annotation(svc, Capabilities), ',')) != {} }

  lemma TagsEmptyIff(svc: Service)
    ensures |CsvTags(Annotation(svc, Capabilities))| == 0 <==> !HasTags(svc)
  {
    StrictlySortedSize(Wanted(Split(Annotation(svc, Capabilities), ',')));
  }

  method Convert(svc: Service) returns (r: ConvertResult)
    ensures r.MissingToolId? <==> TrimSpace(Annotation(svc, ToolId)) == ""
    ensures r.MissingTags? <==> TrimSpace(Annotation(svc, ToolId)) != "" && !HasTags(svc)
    ensures r.Converted? ==> r.tool == ToolOf(svc)
  {
    var id := TrimSpace(Annotation(svc, ToolId));
    if id == "" {
      return MissingToolId;
    }
    var caps := SplitCsv(Annotation(svc, Capabilities));
    TagsEmptyIff(svc);
    if |caps| == 0 {
      return MissingTags;
    }
    var tool := FillIn(svc, id, caps);
    return Converted(tool);
  }

  /** The rest of the conversion: every other field has a default. */
  method FillIn(svc: Service, id: string, caps: seq<string>) returns (t: Tool)
    ensures t == ToolWith(svc, id, caps)
  {
    var verb := OrDefault(ToUpper(TrimSpace(Annotation(svc, Verb))), "POST");
    var timeout := OrDefault(TrimSpace(Annotation(svc, Timeout)), "30s");
    var schema := ParseCompactSchema(Annotation(svc, Schema));
    return MakeTool(id, EndpointOf(svc), verb, schema, timeout, caps, HostOf(svc), IsTrue(Annotation(svc, RequireApproval)));
  }

  function MakeTool(id: string, endpoint: string, verb: string, schema: map<string, string>, timeout: string,
                    caps: seq<string>, host: string, approval: bool): Tool {
    Tool(id, "http", endpoint, verb, schema, "pre-injected", timeout, caps, [host], [], approval)
  }

  function ToUpper(s: string): string {
    if s == [] then [] else [if 'a' <= s[0] <= 'z' then s[0] - 32 as char else s[0]] + ToUpper(s[1..])
  }

  function OrDefault(s: string, d: string): string { if s == "" then d else s }

  function ToolWith(svc: Service, id: string, caps: seq<string>): Tool {
    MakeTool(
      id, EndpointOf(svc),
      OrDefault(ToUpper(TrimSpace(Annotation(svc, Verb))), "POST"),
      PairFields(Split(Annotation(svc, Schema), ',')),
      OrDefault(TrimSpace(Annotation(svc, Timeout)), "30s"),
      caps, HostOf(svc), IsTrue(Annotation(svc, RequireApproval)))
  }

  function ToolOf(svc: Service): Tool {
    ToolWith(svc, TrimSpace(Annotation(svc, ToolId)), CsvTags(Annotation(svc, Capabilities)))
  }

  // ----- What the annotations say -----

  /** The word, in whatever case and with blanks around it. */
  predicate Says(raw: string, word: string) { ToLower(TrimSpace(raw)) == word }

  /** A pair "name:type", blanks around either, both there. */
  ghost predicate Declares(raw: string, name: string, typ: string) {
    name != "" && typ != "" &&
    exists a, b :: TrimSpace(raw) == a + [':'] + b && ':' !in a && TrimSpace(a) == name && TrimSpace(b) == typ
  }

  ghost predicate DeclaresName(raw: string, name: string) { exists typ :: Declares(raw, name, typ) }

  ghost predicate LastToDeclare(pairs: seq<string>, i: nat, name: string, typ: string) {
    i < |pairs| && Declares(pairs[i], name, typ) && forall j :: i < j < |pairs| ==> !DeclaresName(pairs[j], name)
  }

  ghost predicate Declared(pairs: seq<string>, name: string, typ: string) {
    exists i: nat :: LastToDeclare(pairs, i, name, typ)
  }

  predicate FieldIs(schema: map<string, string>, name: string, typ: string) { name in schema && schema[name] == typ }

  /** A field has the type the last pair of its name declares. */
  ghost predicate SchemaSays(pairs: seq<string>, schema: map<string, string>) {
    forall name, typ :: FieldIs(schema, name, typ) <==> Declared(pairs, name, typ)
  }

  /** The tags listed, lower-cased, without blanks, each once and in order. */
  ghost predicate TagsSay(raw: string, tags: seq<string>) {
    StrictlySorted(tags) && forall t :: t in tags <==> t != "" && exists part :: part in Split(raw, ',') && Says(part, t)
  }

  /** The path as it is written, or with the slash it lacks. */
  predicate PathSays(raw: string, path: string) {
    path != "" && path[0] == '/' && if raw != "" && raw[0] == '/' then path == raw else path == ['/'] + raw
  }

  predicate HostSays(svc: Service, host: string) {
    if svc.clusterHost != "" then host == svc.clusterHost
    else host == svc.name + "." + svc.namespace + ".svc.cluster.local"
  }

  /** The verb in upper case, POST if none is given. */
  predicate VerbSays(raw: string, verb: string) {
    if raw == "" then verb == "POST"
    else ToLower(verb) == ToLower(raw) && forall c :: c in verb ==> !('a' <= c <= 'z')
  }

  /** The endpoint is on the service's host, the only one the tool may call. */
  ghost predicate LocatedAt(svc: Service, t: Tool, host: string, path: string) {
    && HostSays(svc, host) && PathSays(TrimSpace(Annotation(svc, EndpointPath)), path) && t.egress == [host]
    && t.endpoint == "http://" + host + ":" + Decimal(if svc.port > 0 then svc.port else 80) + path
  }

  predicate TimeoutSays(raw: string, timeout: string) { if raw == "" then timeout == "30s" else timeout == raw }

  /** Everything a tool made from a service says is what the service and its annotations
      say, or the default for what they leave out. */
  ghost predicate DescribedBy(svc: Service, t: Tool) {
    && t.id == TrimSpace(Annotation(svc, ToolId)) && t.kind == "http" && t.auth == "pre-injected" && t.dependsOnCaps == []
    && (exists host, path :: LocatedAt(svc, t, host, path))
    && VerbSays(TrimSpace(Annotation(svc, Verb)), t.verb)
    && TimeoutSays(TrimSpace(Annotation(svc, Timeout)), t.timeout)
    && TagsSay(Annotation(svc, Capabilities), t.capabilities)
    && SchemaSays(Split(Annotation(svc, Schema), ','), t.schema)
    && (t.requireApproval <==> Says(Annotation(svc, RequireApproval), "true"))
  }

  lemma {:induction false} UpperSays(s: string)
    ensures ToLower(ToUpper(s)) == ToLower(s) && forall c :: c in ToUpper(s) ==> !('a' <= c <= 'z')
    ensures ToUpper(s) == "" <==> s == ""
  {
    if s == [] {
    } else {
      UpperSays(s[1..]);
      assert ToUpper(s)[1..] == ToUpper(s[1..]);
    }
  }

  lemma {:induction false} UpToMark(s: string, c: char)
    ensures |UpTo(s, {c})| < |s| ==> s == UpTo(s, {c}) + [c] + s[|UpTo(s, {c})| + 1..]
    ensures |UpTo(s, {c})| == |s| ==> c !in s
  {
    if s == "" || s[0] == c {
    } else {
      UpToMark(s[1..], c);
      assert s == [s[0]] + s[1..];
    }
  }

  lemma NoBlanksLeft()
    ensures TrimSpace("") == ""
  {
  }

  /** The parts of a pair are where the first colon parts it. */
  lemma PairParts(pair: string, a: string, b: string)
    requires pair == a + [':'] + b && ':' !in a
    ensures UpTo(pair, {':'}) == a && |a| < |pair| && pair[|a| + 1..] == b
  {
    UpToStops(a, ':', b, {':'});
  }

  lemma PairFieldDeclares(raw: string, name: string, typ: string)
    ensures PairField(raw) == Some((name, typ)) <==> Declares(raw, name, typ)
  {
    var pair := TrimSpace(raw);
    var head := UpTo(pair, {':'});
    UpToMark(pair, ':');
    NoBlanksLeft();
    if PairField(raw) == Some((name, typ)) {
      assert pair == head + [':'] + pair[|head| + 1..];
    }
    if Declares(raw, name, typ) {
      var a, b :| pair == a + [':'] + b && ':' !in a && TrimSpace(a) == name && TrimSpace(b) == typ;
      PairParts(pair, a, b);
      assert a != "" && b != "";
    }
  }

  lemma NameDeclared(raw: string, name: string)
    ensures PairField(raw).Some? && PairField(raw).value.0 == name <==> DeclaresName(raw, name)
  {
    if PairField(raw).Some? { PairFieldDeclares(raw, name, PairField(raw).value.1); }
    if typ :| Declares(raw, name, typ) { PairFieldDeclares(raw, name, typ); }
  }

  lemma LastDeclares(pairs: seq<string>, name: string, typ: string)
    requires pairs != [] && DeclaresName(Last(pairs), name)
    ensures Declared(pairs, name, typ) <==> Declares(Last(pairs), name, typ)
  {
    var n: nat := |pairs| - 1;
    if Declares(pairs[n], name, typ) { assert LastToDeclare(pairs, n, name, typ); }
    if i: nat :| LastToDeclare(pairs, i, name, typ) { assert i == n; }
  }

  lemma LastSilent(init: seq<string>, last: string, i: nat, name: string, typ: string)
    requires !DeclaresName(last, name)
    ensures LastToDeclare(init + [last], i, name, typ) <==> LastToDeclare(init, i, name, typ)
  {
    var pairs := init + [last];
    assert forall j :: 0 <= j < |init| ==> pairs[j] == init[j];
    assert Declares(last, name, typ) ==> DeclaresName(last, name);
    if LastToDeclare(pairs, i, name, typ) {
      forall j | i < j < |init| ensures !DeclaresName(init[j], name) { assert !DeclaresName(pairs[j], name); }
    }
  }

  lemma LastPairDecides(pairs: seq<string>, name: string, typ: string)
    requires pairs != []
    ensures Declared(pairs, name, typ) <==>
            if DeclaresName(Last(pairs), name) then Declares(Last(pairs), name, typ)
            else Declared(pairs[..|pairs| - 1], name, typ)
  {
    if DeclaresName(Last(pairs), name) {
      LastDeclares(pairs, name, typ);
    } else {
      var init := pairs[..|pairs| - 1];
      assert pairs == init + [Last(pairs)];
      forall i: nat ensures LastToDeclare(pairs, i, name, typ) <==> LastToDeclare(init, i, name, typ) {
        LastSilent(init, Last(pairs), i, name, typ);
      }
    }
  }

  lemma FieldsStep(pairs: seq<string>, name: string, typ: string)
    requires pairs != []
    ensures FieldIs(PairFields(pairs), name, typ) <==>
            if DeclaresName(Last(pairs), name) then Declares(Last(pairs), name, typ)
            else FieldIs(PairFields(pairs[..|pairs| - 1]), name, typ)
  {
    PairFieldDeclares(Last(pairs), name, typ);
    NameDeclared(Last(pairs), name);
  }

  lemma {:induction false} FieldsSay(pairs: seq<string>, name: string, typ: string)
    ensures FieldIs(PairFields(pairs), name, typ) <==> Declared(pairs, name, typ)
  {
    if pairs == [] {
    } else {
      FieldsSay(pairs[..|pairs| - 1], name, typ);
      FieldsStep(pairs, name, typ);
      LastPairDecides(pairs, name, typ);
    }
  }

  lemma SchemaIsSaid(pairs: seq<string>)
    ensures SchemaSays(pairs, PairFields(pairs))
  {
    forall name, typ ensures FieldIs(PairFields(pairs), name, typ) <==> Declared(pairs, name, typ) { FieldsSay(pairs, name, typ); }
  }

  lemma TagsAreSaid(raw: string)
    ensures TagsSay(raw, CsvTags(raw))
  {
    var tags := CsvTags(raw);
    assert forall t :: t in tags <==> t in Elems(tags);
  }

  lemma PathIsSaid(svc: Service)
    ensures PathSays(TrimSpace(Annotation(svc, EndpointPath)), PathOf(svc))
  {
  }

  lemma ToolIsDescribed(svc: Service)
    ensures DescribedBy(svc, ToolOf(svc))
  {
    UpperSays(TrimSpace(Annotation(svc, Verb)));
    PathIsSaid(svc);
    TagsAreSaid(Annotation(svc, Capabilities));
    SchemaIsSaid(Split(Annotation(svc, Schema), ','));
    assert LocatedAt(svc, ToolOf(svc), HostOf(svc), PathOf(svc));
  }

  // ----- Importing -----

  datatype Import = Import(tools: map<string, Tool>, count: nat, ok: bool)

  predicate Convertible(svc: Service) {
    TrimSpace(Annotation(svc, ToolId)) != "" && HasTags(svc)
  }

  /** A service not opted in is skipped; a malformed one ends the import. */
  function ImportOne(imp: Import, svc: Service): Import {
    if !imp.ok || !OptedIn(svc) then imp
    else if !Convertible(svc) then imp.(ok := false)
    else Import(imp.tools[ToolOf(svc).id := ToolOf(svc)], imp.count + 1, true)
  }

  /** The services are taken in order, and what was registered before a malformed one
      stays. */
  function ImportAll(before: map<string, Tool>, services: seq<Service>): Import {
    if services == [] then Import(before, 0, true)
    else ImportOne(ImportAll(before, services[..|services| - 1]), services[|services| - 1])
  }

  method RegisterAll(reg: MemoryRegistry, services: seq<Service>) returns (count: nat, ok: bool)
    requires reg.Valid()
    modifies reg
    ensures reg.Valid()
    ensures Import(reg.tools, count, ok) == ImportAll(old(reg.tools), services)
  {
    count, ok := 0, true;
    for i := 0 to |services|
      invariant reg.Valid() && ok
      invariant Import(reg.tools, count, ok) == ImportAll(old(reg.tools), services[..i])
    {
      ImportStep(old(reg.tools), services, i);
      count, ok := RegisterOne(reg, services[i], count);
      if !ok {
        ImportStopped(old(reg.tools), services, i + 1);
        return;
      }
    }
    assert services[..|services|] == services;
  }

  lemma ImportStep(before: map<string, Tool>, services: seq<Service>, i: nat)
    requires i < |services|
    ensures ImportAll(before, services[..i + 1]) == ImportOne(ImportAll(before, services[..i]), services[i])
  {
    assert services[..i + 1][..i] == services[..i];
  }

  /** The loop body: one service. */
  method RegisterOne(reg: MemoryRegistry, svc: Service, count0: nat) returns (count: nat, ok: bool)
    requires reg.Valid()
    modifies reg
    ensures reg.Valid()
    ensures Import(reg.tools, count, ok) == ImportOne(Import(old(reg.tools), count0, true), svc)
  {
    if !OptedIn(svc) {
      return count0, true;
    }
    var c := Convert(svc);
    if !c.Converted? {
      return count0, false;
    }
    ConvertedRegisters(svc);
    var e := reg.Register(c.tool);
    return count0 + 1, true;
  }

  lemma ConvertedRegisters(svc: Service)
    requires Convertible(svc)
    ensures TrimSpace(ToolOf(svc).id) != "" && ToolOf(svc).capabilities != []
  {
    TagsEmptyIff(svc);
    TrimSpaceTrims(Annotation(svc, ToolId));
    TrimSpaceTrims(TrimSpace(Annotation(svc, ToolId)));
  }

  lemma {:induction false} ImportStopped(before: map<string, Tool>, services: seq<Service>, n: nat)
    requires n <= |services| && !ImportAll(before, services[..n]).ok
    ensures ImportAll(before, services) == ImportAll(before, services[..n])
    decreases |services|
  {
    if n == |services| {
      assert services[..n] == services;
    } else {
      var init := services[..|services| - 1];
      assert init[..n] == services[..n];
      ImportStopped(before, init, n);
    }
  }

  // ----- What an import leaves behind -----

  /** The service asks to be imported. */
  predicate Exposed(svc: Service) { Says(Annotation(svc, Expose), "true") }

  /** It has an id and a tag. */
  predicate WellFormed(svc: Service) {
    TrimSpace(Annotation(svc, ToolId)) != "" && exists part :: part in Split(Annotation(svc, Capabilities), ',') && TrimSpace(part) != ""
  }

  /** The import gets as far as the i-th service and takes it: nothing exposed up to it is
      malformed. */
  predicate Taken(services: seq<Service>, i: nat) {
    i < |services| && Exposed(services[i]) && forall j :: 0 <= j <= i && Exposed(services[j]) ==> WellFormed(services[j])
  }

  predicate TakenAs(services: seq<Service>, i: nat, id: string) {
    Taken(services, i) && TrimSpace(Annotation(services[i], ToolId)) == id
  }

  lemma ExposedIsOptedIn(svc: Service)
    ensures Exposed(svc) <==> OptedIn(svc)
  {
    NoBlanksLeft();
  }

  lemma WellFormedIsConvertible(svc: Service)
    ensures WellFormed(svc) <==> Convertible(svc)
  {
    var parts := Split(Annotation(svc, Capabilities), ',');
    forall part ensures TrimSpace(part) != "" <==> Normalize(part) != "" { assert |Normalize(part)| == |TrimSpace(part)|; }
    if part :| part in parts && TrimSpace(part) != "" { assert Normalize(part) in Wanted(parts); }
    if tag :| tag in Wanted(parts) {}
  }

  predicate NoneMalformed(services: seq<Service>) { forall j :: 0 <= j < |services| && Exposed(services[j]) ==> WellFormed(services[j]) }

  lemma ImportOneIs(imp: Import, svc: Service)
    ensures ImportOne(imp, svc) ==
      if !imp.ok || !Exposed(svc) then imp
      else if !WellFormed(svc) then imp.(ok := false)
      else Import(imp.tools[ToolOf(svc).id := ToolOf(svc)], imp.count + 1, true)
  {
    ExposedIsOptedIn(svc);
    WellFormedIsConvertible(svc);
  }

  lemma ImportGrows(before: map<string, Tool>, services: seq<Service>)
    requires services != []
    ensures ImportAll(before, services) == ImportOne(ImportAll(before, services[..|services| - 1]), Last(services))
  {
  }

  lemma OneMoreFormed(services: seq<Service>)
    requires services != []
    ensures NoneMalformed(services) <==>
            NoneMalformed(services[..|services| - 1]) && (Exposed(Last(services)) ==> WellFormed(Last(services)))
  {
    var init := services[..|services| - 1];
    assert forall j :: 0 <= j < |init| ==> services[j] == init[j];
    if NoneMalformed(init) && (Exposed(Last(services)) ==> WellFormed(Last(services))) {
      forall j | 0 <= j < |services| && Exposed(services[j]) ensures WellFormed(services[j]) {
        if j < |init| { assert init[j] == services[j]; }
      }
    }
    if NoneMalformed(services) {
      forall j | 0 <= j < |init| && Exposed(init[j]) ensures WellFormed(init[j]) { assert init[j] == services[j]; }
    }
  }

  /** An import succeeds exactly when no exposed service is malformed. */
  lemma {:induction false} ImportSucceeds(before: map<string, Tool>, services: seq<Service>)
    ensures ImportAll(before, services).ok <==> NoneMalformed(services)
  {
    if services == [] {
    } else {
      var init := services[..|services| - 1];
      ImportSucceeds(before, init);
      ImportGrows(before, services);
      ImportOneIs(ImportAll(before, init), Last(services));
      OneMoreFormed(services);
    }
  }

  lemma TakenInit(init: seq<Service>, last: Service, i: nat)
    ensures i < |init| ==> (Taken(init + [last], i) <==> Taken(init, i))
    ensures Taken(init + [last], |init|) <==> NoneMalformed(init) && Exposed(last) && WellFormed(last)
  {
    var all := init + [last];
    assert forall j :: 0 <= j < |init| ==> all[j] == init[j];
    if NoneMalformed(init) && Exposed(last) && WellFormed(last) {
      forall j | 0 <= j <= |init| && Exposed(all[j]) ensures WellFormed(all[j]) { if j < |init| { assert all[j] == init[j]; } }
    }
    if Taken(all, |init|) {
      forall j | 0 <= j < |init| && Exposed(init[j]) ensures WellFormed(init[j]) { assert all[j] == init[j]; }
    }
  }

  lemma LastTaken(services: seq<Service>)
    requires services != []
    ensures Taken(services, |services| - 1) <==>
            NoneMalformed(services[..|services| - 1]) && Exposed(Last(services)) && WellFormed(Last(services))
  {
    var init := services[..|services| - 1];
    TakenInit(init, Last(services), 0);
    assert services == init + [Last(services)];
  }

  /** What a service adds to an import that got as far as it. */
  function WithTool(imp: Import, svc: Service): Import { Import(imp.tools[ToolOf(svc).id := ToolOf(svc)], imp.count + 1, true) }

  /** What the last service adds to an import. */
  lemma LastImported(before: map<string, Tool>, services: seq<Service>)
    requires services != []
    ensures var init, all := ImportAll(before, services[..|services| - 1]), ImportAll(before, services);
      if Taken(services, |services| - 1) then all == WithTool(init, Last(services))
      else all.tools == init.tools && all.count == init.count
  {
    ImportSucceeds(before, services[..|services| - 1]);
    ImportGrows(before, services);
    ImportOneIs(ImportAll(before, services[..|services| - 1]), Last(services));
    LastTaken(services);
  }

  lemma IdIsAnnotated(svc: Service)
    ensures ToolOf(svc).id == TrimSpace(Annotation(svc, ToolId))
  {
  }

  lemma TakenAsInit(services: seq<Service>, k: nat, id: string)
    requires services != [] && k < |services| - 1
    ensures TakenAs(services[..|services| - 1], k, id) <==> TakenAs(services, k, id)
  {
    TakenInit(services[..|services| - 1], Last(services), k);
    assert services == services[..|services| - 1] + [Last(services)];
  }

  /** The last service leaves alone what stands under an id it is not taken as. */
  lemma LastLeavesAlone(before: map<string, Tool>, services: seq<Service>, id: string)
    requires services != [] && !TakenAs(services, |services| - 1, id)
    ensures var init, all := ImportAll(before, services[..|services| - 1]).tools, ImportAll(before, services).tools;
      (id in all <==> id in init) && (id in init ==> all[id] == init[id])
  {
    LastImported(before, services);
    IdIsAnnotated(Last(services));
  }

  lemma LastIsRegistered(before: map<string, Tool>, services: seq<Service>, id: string)
    requires services != [] && TakenAs(services, |services| - 1, id)
    ensures var tools := ImportAll(before, services).tools; id in tools && tools[id] == ToolOf(Last(services))
  {
    LastImported(before, services);
    IdIsAnnotated(Last(services));
  }

  /** Under the id of a service that was taken stands its tool, or that of the last taken
      under the same id. */
  lemma {:induction false} TakenIsRegistered(before: map<string, Tool>, services: seq<Service>, i: nat, id: string)
    requires TakenAs(services, i, id) && forall k :: i < k < |services| ==> !TakenAs(services, k, id)
    ensures var tools := ImportAll(before, services).tools; id in tools && tools[id] == ToolOf(services[i])
  {
    var n: nat := |services| - 1;
    if i == n {
      LastIsRegistered(before, services, id);
    } else {
      forall k: nat | k < n ensures TakenAs(services[..n], k, id) <==> TakenAs(services, k, id) { TakenAsInit(services, k, id); }
      TakenIsRegistered(before, services[..n], i, id);
      LastLeavesAlone(before, services, id);
    }
  }

  /** Under any other id nothing changes. */
  lemma {:induction false} OthersUntouched(before: map<string, Tool>, services: seq<Service>, id: string)
    requires forall k: nat :: k < |services| ==> !TakenAs(services, k, id)
    ensures var tools := ImportAll(before, services).tools;
      (id in tools <==> id in before) && (id in before ==> tools[id] == before[id])
  {
    if services == [] {
    } else {
      var n: nat := |services| - 1;
      forall k: nat | k < n ensures !TakenAs(services[..n], k, id) { TakenAsInit(services, k, id); }
      OthersUntouched(before, services[..n], id);
      LastLeavesAlone(before, services, id);
    }
  }

  ghost function TakenSet(services: seq<Service>): set<nat> { set i: nat | i < |services| && Taken(services, i) }

  lemma OneMore<T>(a: set<T>, b: set<T>, x: T, more: bool)
    requires x !in a && b == if more then a + {x} else a
    ensures |b| == |a| + if more then 1 else 0
  {
  }

  lemma OneMoreTaken(init: seq<Service>, last: Service)
    ensures |TakenSet(init + [last])| == |TakenSet(init)| + if Taken(init + [last], |init|) then 1 else 0
  {
    var n, all := |init|, init + [last];
    forall k: nat | k < n ensures Taken(all, k) <==> Taken(init, k) { TakenInit(init, last, k); }
    forall k: nat ensures k in TakenSet(all) <==> k in TakenSet(init) || (k == n && Taken(all, n)) {}
    OneMore(TakenSet(init), TakenSet(all), n, Taken(all, n));
  }

  /** The count reported is how many were taken. */
  lemma {:induction false} CountIsTaken(before: map<string, Tool>, services: seq<Service>)
    ensures ImportAll(before, services).count == |TakenSet(services)|
  {
    if services == [] {
    } else {
      var init := services[..|services| - 1];
      assert services == init + [Last(services)];
      CountIsTaken(before, init);
      LastImported(before, services);
      OneMoreTaken(init, Last(services));
    }
  }

  // ----- The endpoint stays inside the tool's own egress -----

  predicate PlainHost(host: string) { host != "" && forall c :: c in host ==> HostChar(c) && c != ':' }

  lemma EndpointSpelled(svc: Service)
    ensures AfterSlashes(EndpointOf(svc)) == Some(HostOf(svc) + ":" + PortOf(svc) + PathOf(svc))
    ensures HostOf(svc) != "" && PathOf(svc) != "" && PathOf(svc)[0] == '/'
  {
    var rest := HostOf(svc) + ":" + PortOf(svc) + PathOf(svc);
    Regroup("http://", HostOf(svc), ":", PortOf(svc), PathOf(svc));
    HttpUrl(rest);
    assert svc.clusterHost == "" ==> |HostOf(svc)| >= |"."|;
  }

  lemma Regroup(first: string, host: string, colon: string, port: string, path: string)
    ensures first + host + colon + port + path == first + (host + colon + port + path)
  {
  }

  lemma HttpUrl(rest: string)
    ensures AfterSlashes("http://" + rest) == Some(rest)
  {
    assert IsScheme("http");
    SlashesAfterScheme("http", rest);
    assert "http://" + rest == "http" + ("://" + rest);
  }

  lemma PortIsDigits(svc: Service)
    ensures forall c :: c in PortOf(svc) ==> DigitChar(c)
  {
  }

  lemma {:induction false} AfterLastColon(host: string, port: string)
    requires ':' !in port
    ensures AfterLast(host + ":" + port, ':') == port
  {
    var s := host + ":" + port;
    assert s[|host|] == ':';
    if host == "" {
      assert s[1..] == port;
    } else {
      assert s[1..] == host[1..] + ":" + port;
      AfterLastColon(host[1..], port);
    }
  }

  lemma HostAndPort(host: string, port: string)
    requires forall c :: c in port ==> DigitChar(c)
    ensures HostAccepted(host + ":" + port) <==> forall c :: c in host ==> HostChar(c)
  {
    assert ':' !in port && HostChar(':') && forall c :: DigitChar(c) ==> HostChar(c);
    AfterLastColon(host, port);
    assert forall c :: c in host + ":" + port <==> c in host || c == ':' || c in port;
  }

  lemma NoUser(authority: string)
    requires '@' !in authority
    ensures HostOfAuthority(authority) == authority && (AuthorityAccepted(authority) <==> HostAccepted(authority))
  {
    assert authority[..0] == "";
  }

  /** What the authority of an endpoint put together like this is accepted for. */
  lemma AuthorityOfParts(host: string, port: string)
    requires host != "" && '@' !in host && forall c :: c in port ==> DigitChar(c)
    ensures AuthorityAccepted(host + ":" + port) <==> forall c :: c in host ==> HostChar(c)
    ensures HostOfAuthority(host + ":" + port) == host + ":" + port
  {
    NoUser(host + ":" + port);
    HostAndPort(host, port);
  }

  /** Characters that end the host, or start it anew, in one of the two readings. */
  const HOST_MARKS := {'/', '?', '#', '@', ':'}

  predicate Unmarked(host: string) { forall c :: c in host ==> c !in HOST_MARKS }

  lemma HostOfParts(host: string, port: string, path: string)
    requires Unmarked(host) && host != "" && path != "" && path[0] == '/'
    requires forall c :: c in port ==> DigitChar(c)
    ensures var rest := host + ":" + port + path;
      (Accepted(rest) <==> PlainHost(host) && PathReads(path)) && HostOfAuthority(Authority(rest)) == host + ":" + port
  {
    AuthorityOfParts(host, port);
    AcceptedParts(host + ":" + port, path);
    PartsOfRest(host + ":" + port, path);
  }

  /** Host and port of the endpoint read back as they were put in, unless the host holds
      a character no host may have or the path is malformed. */
  lemma ServiceHost(svc: Service)
    requires Unmarked(HostOf(svc))
    ensures UrlHost(EndpointOf(svc)) ==
            if PlainHost(HostOf(svc)) && PathReads(PathOf(svc)) then HostOf(svc) + ":" + PortOf(svc) else ""
  {
    EndpointSpelled(svc);
    PortIsDigits(svc);
    HostOfParts(HostOf(svc), PortOf(svc), PathOf(svc));
  }

  lemma {:induction false} ToLowerConcat(a: string, b: string)
    ensures ToLower(a + b) == ToLower(a) + ToLower(b)
  {
    if a == "" {
      assert a + b == b;
    } else {
      assert (a + b)[1..] == a[1..] + b;
      ToLowerConcat(a[1..], b);
    }
  }

  lemma ServiceHostListed(svc: Service, egress: seq<string>)
    requires PlainHost(HostOf(svc)) && PathReads(PathOf(svc)) && HostOf(svc) in egress
    ensures HostListed(egress, UrlHost(EndpointOf(svc)))
  {
    PlainIsUnmarked(HostOf(svc));
    ServiceHost(svc);
    PortDropped(HostOf(svc), PortOf(svc));
  }

  lemma PlainIsUnmarked(host: string)
    requires PlainHost(host)
    ensures Unmarked(host)
  {
    assert !HostChar('@') && !HostChar('/') && !HostChar('?') && !HostChar('#');
  }

  lemma PortDropped(host: string, port: string)
    requires ':' !in host
    ensures UpTo(ToLower(host + ":" + port), {':'}) == ToLower(host)
  {
    assert ToLower(host + ":" + port) == ToLower(host) + [':'] + ToLower(port) by {
      ToLowerConcat(host + ":", port);
      ToLowerConcat(host, ":");
      assert ToLower(":") == [':'];
    }
    forall x | x in ToLower(host) ensures x !in {':'} {
      var k :| 0 <= k < |host| && ToLower(host)[k] == x;
      assert host[k] != ':';
    }
    UpToStops(ToLower(host), ':', ToLower(port), {':'});
  }

  lemma AfterLastShorter(s: string, c: char)
    requires c in s
    ensures |AfterLast(s, c)| < |s|
  {
  }

  lemma {:induction false} EndsEarly(a: string, b: string, cut: set<char>)
    requires exists c :: c in a && c in cut
    ensures |UpTo(a + b, cut)| < |a|
  {
    if a[0] in cut {
    } else {
      assert (a + b)[1..] == a[1..] + b;
      EndsEarly(a[1..], b, cut);
    }
  }

  lemma {:induction false} AfterLastInHead(a: string, b: string, c: char)
    requires c in a && c !in b
    ensures AfterLast(a + b, c) == AfterLast(a, c) + b
  {
    assert a + b == [a[0]] + (a[1..] + b) && c in a + b;
    if c in a[1..] {
      AfterLastInHead(a[1..], b, c);
    } else {
      assert a[1..] + b == (a + b)[1..];
    }
  }

  /** The name the proxy reads is shorter than a host with a mark. */
  lemma MarkShortens(host: string, port: string, path: string)
    requires !Unmarked(host) && path != "" && path[0] == '/'
    requires forall c :: c in port ==> DigitChar(c)
    ensures |UpTo(HostOfAuthority(Authority(host + ":" + port + path)), {':'})| < |host|
  {
    var tail := ":" + port + path;
    assert host + ":" + port + path == host + tail;
    if exists c :: c in host && c in AUTHORITY_ENDS {
      EndsEarly(host, tail, AUTHORITY_ENDS);
    } else {
      PartsOfRest(host + ":" + port, path);
      assert (host + ":" + port) + path == host + ":" + port + path;
      NameShortens(host, ":" + port);
      assert host + ":" + port == host + (":" + port);
    }
  }

  lemma NameShortens(host: string, port: string)
    requires ('@' in host || ':' in host) && port != "" && port[0] == ':' && '@' !in port
    ensures |UpTo(AfterLast(host + port, '@'), {':'})| < |host|
  {
    if '@' in host {
      AfterLastInHead(host, port, '@');
      AfterLastShorter(host, '@');
      ColonEnds(AfterLast(host, '@'), port);
    } else {
      assert '@' !in host + port;
      EndsEarly(host, port, {':'});
    }
  }

  lemma {:induction false} ColonEnds(a: string, b: string)
    requires b != "" && b[0] == ':'
    ensures |UpTo(a + b, {':'})| <= |a|
  {
    if a == "" {
      assert a + b == b;
    } else if a[0] != ':' {
      assert (a + b)[1..] == a[1..] + b;
      ColonEnds(a[1..], b);
    }
  }

  /** A service's own egress entry admits its own endpoint exactly when its host has only
      the characters of a host name and its path is well formed. */
  lemma ServicePasses(svc: Service)
    ensures Passes([HostOf(svc)], EndpointOf(svc)) <==> PlainHost(HostOf(svc)) && PathReads(PathOf(svc))
  {
    if Unmarked(HostOf(svc)) {
      ServiceHost(svc);
      if PlainHost(HostOf(svc)) && PathReads(PathOf(svc)) { ServiceHostListed(svc, [HostOf(svc)]); }
    } else {
      EndpointSpelled(svc);
      PortIsDigits(svc);
      MarkShortens(HostOf(svc), PortOf(svc), PathOf(svc));
      ShorterNotListed(HostOf(svc), UrlHost(EndpointOf(svc)));
      if PlainHost(HostOf(svc)) { PlainIsUnmarked(HostOf(svc)); }
    }
  }

  lemma ShorterNotListed(h: string, host: string)
    requires host != "" ==> |UpTo(host, {':'})| < |h|
    ensures !(host != "" && HostListed([h], host))
  {
    SameCut(host);
    assert forall x :: x in [h] ==> x == h;
  }

  lemma {:induction false} SameCut(s: string)
    ensures |UpTo(ToLower(s), {':'})| == |UpTo(s, {':'})|
  {
    if s == "" || s[0] == ':' {
    } else {
      SameCut(s[1..]);
      assert ToLower(s)[1..] == ToLower(s[1..]);
    }
  }

  /** An action made from a Kubernetes service is gated exactly when its annotation asks for
      approval, and is forwarded to that service once the gate is passed, whatever else the
      manifest holds, unless its path is malformed. */
  lemma ServiceCallForwards(manifests: map<string, ExecutionManifest>, tools: seq<Tool>, manifestId: string, opts: Options,
                            i: nat, svc: Service, approved: bool)
    requires manifestId != "" && '/' !in manifestId
    requires manifestId in manifests && manifests[manifestId] == ManifestOf(tools, manifestId, opts)
    requires i < |tools| && tools[i] == ToolOf(svc) && PlainHost(HostOf(svc))
    ensures Decide(manifests, UpstreamPath(manifestId, ActionId(i)), approved, true) ==
      if Says(Annotation(svc, RequireApproval), "true") && !approved then ApprovalRequired
      else if !PathReads(PathOf(svc)) then InvalidEndpoint
      else Forward(ActionAt(tools, i), HostOf(svc) + ":" + PortOf(svc))
  {
    CallReachesItsTool(manifests, tools, manifestId, opts, i, approved, true);
    ToolIsDescribed(svc);
    EgressHas(tools, i, HostOf(svc));
    PlainIsUnmarked(HostOf(svc));
    ServiceHost(svc);
    if PathReads(PathOf(svc)) { ServiceHostListed(svc, SortedSeq(EgressOf(tools))); }
  }
}

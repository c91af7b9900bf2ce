/** The deferred-intent bridge (internal/bridge/bridge.go) as a state machine over its
    list and call requests, and the class that runs it. */
module Bridge {
  import opened Wrappers
  import opened Text
  import opened Sorting
  import opened Graphs
  import opened Registry
  import opened Resolver
  import opened ToolSchema

  /** Where a tool came from. */
  datatype Downstream = Downstream(source: string, toolName: string, tool: Tool)

  /** What stays fixed while the bridge serves. */
  datatype Config = Config(
    tools: map<string, Tool>,
    callable: map<string, Downstream>,
    all: seq<string>,
    windowSize: nat,
    threshold: nat)

  datatype State = State(window: seq<string>, prev: nat)

  datatype Step = List | Call(name: string)

  // ----- The state machine -----

  /** The tags in scope: all until narrowed, then those observed. */
  function Scope(cfg: Config, window: seq<string>): set<string> {
    if Narrowed(window, cfg.threshold) then Elems(window) else Elems(cfg.all)
  }

  function Surface(cfg: Config, window: seq<string>): set<string> {
    MatchIds(cfg.tools, SortedSeq(Scope(cfg, window)))
  }

  function ObserveAll(window: seq<string>, windowSize: nat, capabilities: seq<string>): seq<string> {
    if capabilities == [] then window
    else Observed(ObserveAll(window, windowSize, capabilities[..|capabilities| - 1]), windowSize, capabilities[|capabilities| - 1])
  }

  function WindowAfterCall(cfg: Config, window: seq<string>, name: string): seq<string> {
    if name in cfg.callable then ObserveAll(window, cfg.windowSize, cfg.callable[name].tool.capabilities) else window
  }

  function Advance(cfg: Config, s: State, step: Step): State {
    match step
    case List => if Scope(cfg, s.window) == {} then s else s.(prev := |Surface(cfg, s.window)|)
    case Call(name) => s.(window := WindowAfterCall(cfg, s.window, name))
  }

  /** Whether a call makes the bridge announce a changed list. */
  predicate Notifies(cfg: Config, s: State, name: string) {
    var window := WindowAfterCall(cfg, s.window, name);
    name in cfg.callable && Scope(cfg, window) != {} && |Surface(cfg, window)| != s.prev && s.prev > 0
  }

  function After(cfg: Config, run: seq<Step>): State {
    if run == [] then State([], 0) else Advance(cfg, After(cfg, run[..|run| - 1]), run[|run| - 1])
  }

  /** The surface the last list request of the run was answered with. */
  function LastListed(cfg: Config, run: seq<Step>): Option<set<string>> {
    if run == [] then None
    else
      var init := run[..|run| - 1];
      if run[|run| - 1] == List then Some(Surface(cfg, After(cfg, init).window)) else LastListed(cfg, init)
  }

  // ----- Runs over a registry with normalised tags -----

  predicate NormalTag(c: string) { c != "" && Trimmed(c) }

  /** What startup sets up: every registered tool is callable, the tag list holds the
      tags of all tools, tags have no outer white space, and sizes are positive. */
  ghost predicate Normal(cfg: Config) {
    && WellKeyed(cfg.tools)
    && cfg.windowSize >= 1 && cfg.threshold >= 1
    && cfg.callable.Keys == cfg.tools.Keys
    && (forall k :: k in cfg.tools ==> cfg.callable[k].tool == cfg.tools[k])
    && Elems(cfg.all) == TagsOf(cfg.tools)
    && (forall c :: c in cfg.all ==> NormalTag(c))
  }

  function TagsOf(tools: map<string, Tool>): set<string> {
    set k, c | k in tools && c in tools[k].capabilities :: c
  }

  lemma TagIsNormal(cfg: Config, name: string, c: string)
    requires Normal(cfg) && name in cfg.tools && c in cfg.tools[name].capabilities
    ensures NormalTag(c) && c in cfg.all
  {
    assert c in TagsOf(cfg.tools);
    assert c in Elems(cfg.all);
  }

  lemma InScopeIsListed(cfg: Config, window: seq<string>, name: string, c: string)
    requires name in cfg.tools && c in cfg.tools[name].capabilities && NormalTag(c)
    requires c in Scope(cfg, window) || ToLower(c) in Scope(cfg, window)
    ensures name in Surface(cfg, window)
  {
    var scope := SortedSeq(Scope(cfg, window));
    assert Elems(scope) == Scope(cfg, window);
    NormalizeNormal(c);
    LowerKeepsTrimmed(c);
    NormalizeNormal(ToLower(c));
    LowerIdempotent(c);
    assert ToLower(c) in Wanted(scope) by {
      if c in scope { assert Normalize(c) in Wanted(scope); } else { assert ToLower(c) in scope; }
    }
  }

  /** The full surface until narrowing. */
  lemma FullUntilNarrowed(cfg: Config, window: seq<string>)
    requires Normal(cfg) && !Narrowed(window, cfg.threshold)
    ensures Surface(cfg, window) == cfg.tools.Keys
  {
    forall k | k in cfg.tools ensures k in Surface(cfg, window) {
      assert cfg.tools[k].capabilities != [];
      var c := cfg.tools[k].capabilities[0];
      TagIsNormal(cfg, k, c);
      InScopeIsListed(cfg, window, k, c);
    }
  }

  lemma ScopeNotEmpty(cfg: Config, window: seq<string>, k: string)
    requires Normal(cfg) && k in cfg.tools
    ensures Scope(cfg, window) != {}
  {
    if Narrowed(window, cfg.threshold) {
      assert window[0] in Elems(window);
    } else {
      TagIsNormal(cfg, k, cfg.tools[k].capabilities[0]);
      assert cfg.tools[k].capabilities[0] in Elems(cfg.all);
    }
  }

  lemma EmptyScope(cfg: Config, window: seq<string>)
    requires Normal(cfg) && Scope(cfg, window) == {}
    ensures cfg.tools.Keys == {} && Surface(cfg, window) == {}
  {
    if k :| k in cfg.tools { ScopeNotEmpty(cfg, window, k); }
  }

  /** The counter holds the size of the last listed surface. */
  lemma {:induction false} CounterIsLastSize(cfg: Config, run: seq<Step>)
    requires Normal(cfg)
    ensures After(cfg, run).prev == match LastListed(cfg, run) { case None => 0 case Some(s) => |s| }
  {
    if run == [] {
    } else {
      var init := run[..|run| - 1];
      CounterIsLastSize(cfg, init);
      var s := After(cfg, init);
      if run[|run| - 1] == List && Scope(cfg, s.window) == {} {
        EmptyScope(cfg, s.window);
        ListedWithinTools(cfg, init);
      }
    }
  }

  /** Whatever was listed are registered tools. */
  lemma {:induction false} ListedWithinTools(cfg: Config, run: seq<Step>)
    ensures LastListed(cfg, run).Some? ==> LastListed(cfg, run).value <= cfg.tools.Keys
  {
    if run == [] {
    } else {
      ListedWithinTools(cfg, run[..|run| - 1]);
    }
  }

  /** If the last list was served before narrowing, it showed every tool. */
  lemma {:induction false} ListedInFull(cfg: Config, run: seq<Step>, n: nat)
    requires Normal(cfg) && n < |run| && run[n] == List && List !in run[n + 1..]
    requires !Narrowed(After(cfg, run[..n]).window, cfg.threshold)
    ensures LastListed(cfg, run) == Some(cfg.tools.Keys)
  {
    var init := run[..|run| - 1];
    if n == |run| - 1 {
      FullUntilNarrowed(cfg, After(cfg, init).window);
    } else {
      assert run[|run| - 1] == run[n + 1..][|run| - 1 - (n + 1)];
      assert init[..n] == run[..n];
      assert init[n + 1..] == run[n + 1..][..|run| - 1 - (n + 1)];
      ListedInFull(cfg, init, n);
    }
  }

  // ----- What the notification tells -----

  /** A call announces a change exactly when the number of tools differs from that of a
      non-empty last listed surface. */
  lemma NotifiesExactly(cfg: Config, run: seq<Step>, name: string)
    requires Normal(cfg) && name in cfg.callable
    ensures var now := Surface(cfg, WindowAfterCall(cfg, After(cfg, run).window, name));
      Notifies(cfg, After(cfg, run), name) <==>
      LastListed(cfg, run).Some? && LastListed(cfg, run).value != {} && |now| != |LastListed(cfg, run).value|
  {
    CounterIsLastSize(cfg, run);
    var window := WindowAfterCall(cfg, After(cfg, run).window, name);
    if Scope(cfg, window) == {} { EmptyScope(cfg, window); }
  }

  /** No false alarms: an announced change is one. */
  lemma NotificationIsTrue(cfg: Config, run: seq<Step>, name: string)
    requires Normal(cfg)
    ensures Notifies(cfg, After(cfg, run), name) ==>
      LastListed(cfg, run).Some? &&
      Surface(cfg, WindowAfterCall(cfg, After(cfg, run).window, name)) != LastListed(cfg, run).value
  {
    if name in cfg.callable { NotifiesExactly(cfg, run, name); }
  }

  /** After a list served in full no change goes unannounced: a part of a finite set that
      is as large as the whole is the whole. */
  lemma NothingMissedAfterFullList(cfg: Config, run: seq<Step>, name: string)
    requires Normal(cfg) && name in cfg.callable
    requires LastListed(cfg, run) == Some(cfg.tools.Keys)
    ensures Notifies(cfg, After(cfg, run), name) <==>
            Surface(cfg, WindowAfterCall(cfg, After(cfg, run).window, name)) != cfg.tools.Keys
  {
    NotifiesExactly(cfg, run, name);
    SubsetSize(Surface(cfg, WindowAfterCall(cfg, After(cfg, run).window, name)), cfg.tools.Keys);
  }

  // ----- The called tool stays in view -----

  /** However small the window, it ends in the last tag observed. */
  lemma EndsInLastTag(window: seq<string>, windowSize: nat, capabilities: seq<string>)
    requires windowSize >= 1 && capabilities != [] && Normalize(Last(capabilities)) != ""
    ensures var w := ObserveAll(window, windowSize, capabilities); w != [] && Last(w) == Normalize(Last(capabilities))
  {
  }

  lemma CalledToolStaysListed(cfg: Config, window: seq<string>, name: string)
    requires Normal(cfg) && name in cfg.tools
    ensures name in Surface(cfg, WindowAfterCall(cfg, window, name))
  {
    var caps := cfg.tools[name].capabilities;
    var after := WindowAfterCall(cfg, window, name);
    var c := Last(caps);
    TagIsNormal(cfg, name, c);
    NormalizeNormal(c);
    EndsInLastTag(window, cfg.windowSize, caps);
    if Narrowed(after, cfg.threshold) { assert Last(after) in Elems(after); }
    InScopeIsListed(cfg, after, name, c);
  }

  // ----- Which tools are in view, over all runs -----

  function Lowered(capabilities: seq<string>): seq<string> {
    seq(|capabilities|, i requires 0 <= i < |capabilities| => ToLower(capabilities[i]))
  }

  /** The lower-cased tags of the tools a run called, in the order of the calls. */
  function CalledTags(cfg: Config, run: seq<Step>): seq<string> {
    if run == [] then [] else CalledTags(cfg, run[..|run| - 1]) + TagsCalled(cfg, run[|run| - 1])
  }

  function TagsCalled(cfg: Config, step: Step): seq<string> {
    if step.Call? && step.name in cfg.tools then Lowered(cfg.tools[step.name].capabilities) else []
  }

  lemma LoweredStep(seen: seq<string>, capabilities: seq<string>)
    requires capabilities != []
    ensures seen + Lowered(capabilities) == (seen + Lowered(capabilities[..|capabilities| - 1])) + [ToLower(Last(capabilities))]
  {
  }

  lemma ObservedNormal(seen: seq<string>, windowSize: nat, c: string)
    requires NormalTag(c)
    ensures Observed(LastOf(seen, windowSize), windowSize, c) == LastOf(seen + [ToLower(c)], windowSize)
  {
    NormalizeNormal(c);
    LastOfStep(seen, windowSize, ToLower(c));
  }

  lemma {:induction false} ObserveAllIs(seen: seq<string>, windowSize: nat, capabilities: seq<string>)
    requires forall c :: c in capabilities ==> NormalTag(c)
    ensures ObserveAll(LastOf(seen, windowSize), windowSize, capabilities) == LastOf(seen + Lowered(capabilities), windowSize)
  {
    if capabilities == [] {
      assert seen + Lowered([]) == seen;
    } else {
      var init := capabilities[..|capabilities| - 1];
      ObserveAllIs(seen, windowSize, init);
      ObservedNormal(seen + Lowered(init), windowSize, Last(capabilities));
      LoweredStep(seen, capabilities);
    }
  }

  lemma CalledStep(cfg: Config, seen: seq<string>, step: Step)
    requires Normal(cfg)
    ensures step.Call? ==>
      WindowAfterCall(cfg, LastOf(seen, cfg.windowSize), step.name) == LastOf(seen + TagsCalled(cfg, step), cfg.windowSize)
    ensures step.List? ==> seen + TagsCalled(cfg, step) == seen
  {
    if step.Call? && step.name in cfg.tools {
      forall c | c in cfg.tools[step.name].capabilities ensures NormalTag(c) { TagIsNormal(cfg, step.name, c); }
      ObserveAllIs(seen, cfg.windowSize, cfg.tools[step.name].capabilities);
    } else {
      assert seen + [] == seen;
    }
  }

  lemma {:induction false} WindowOfRun(cfg: Config, run: seq<Step>)
    requires Normal(cfg)
    ensures After(cfg, run).window == LastOf(CalledTags(cfg, run), cfg.windowSize)
  {
    if run == [] {
    } else {
      var init := run[..|run| - 1];
      WindowOfRun(cfg, init);
      CalledStep(cfg, CalledTags(cfg, init), run[|run| - 1]);
    }
  }

  lemma LoweredIsNormal(cfg: Config, name: string, t: string)
    requires Normal(cfg) && name in cfg.tools && t in Lowered(cfg.tools[name].capabilities)
    ensures t != "" && Normalize(t) == t
  {
    var caps := cfg.tools[name].capabilities;
    var i :| 0 <= i < |caps| && ToLower(caps[i]) == t;
    TagIsNormal(cfg, name, caps[i]);
    LowerKeepsTrimmed(caps[i]);
    NormalizeNormal(t);
    LowerIdempotent(caps[i]);
  }

  lemma CalledAreNormal(cfg: Config, step: Step)
    requires Normal(cfg)
    ensures AllNormalized(TagsCalled(cfg, step))
  {
    forall t | t in TagsCalled(cfg, step) ensures t != "" && Normalize(t) == t { LoweredIsNormal(cfg, step.name, t); }
  }

  predicate AllNormalized(tags: seq<string>) { forall t :: t in tags ==> t != "" && Normalize(t) == t }

  lemma {:induction false} CalledTagsAreNormal(cfg: Config, run: seq<Step>)
    requires Normal(cfg)
    ensures AllNormalized(CalledTags(cfg, run))
  {
    if run == [] {
    } else {
      CalledTagsAreNormal(cfg, run[..|run| - 1]);
      CalledAreNormal(cfg, run[|run| - 1]);
    }
  }

  /** A narrowed surface holds the tools with a tag in the window. */
  lemma NarrowedSurface(cfg: Config, window: seq<string>, name: string)
    requires Narrowed(window, cfg.threshold) && name in cfg.tools
    requires AllNormalized(window)
    ensures name in Surface(cfg, window) <==> exists c :: c in cfg.tools[name].capabilities && ToLower(c) in window
  {
    var scope := SortedSeq(Scope(cfg, window));
    assert forall t :: t in scope <==> t in Elems(scope);
    assert forall t :: t in Wanted(scope) <==> t in window by {
      forall t ensures t in Wanted(scope) <==> t in window { assert t in window ==> t in scope; }
    }
  }

  /** On every run a registered tool is in view exactly when too few tags were observed to
      narrow, or can be, or one of its tags is among the last W of the tools called. */
  lemma InViewExactly(cfg: Config, run: seq<Step>, name: string)
    requires Normal(cfg) && name in cfg.tools
    ensures var called := CalledTags(cfg, run);
      name in Surface(cfg, After(cfg, run).window) <==>
      |called| < cfg.threshold || cfg.windowSize < cfg.threshold ||
      exists c :: c in cfg.tools[name].capabilities && Recent(called, cfg.windowSize, ToLower(c))
  {
    var called, window := CalledTags(cfg, run), After(cfg, run).window;
    WindowOfRun(cfg, run);
    if Narrowed(window, cfg.threshold) {
      CalledTagsAreNormal(cfg, run);
      forall t ensures t in window <==> Recent(called, cfg.windowSize, t) { RecentIsLast(called, cfg.windowSize, t); }
      assert forall t :: t in window ==> t in called;
      NarrowedSurface(cfg, window, name);
    } else {
      FullUntilNarrowed(cfg, window);
    }
  }

  // ----- Where counting is not enough -----

  /** With one observed tag in scope, the surface is what provides it. */
  lemma OneTagSurface(cfg: Config, tag: string)
    requires cfg.threshold == 1 && Normalize(tag) == tag && tag != ""
    ensures forall k :: k in Surface(cfg, [tag]) <==> k in cfg.tools && Provides(cfg.tools[k], {tag})
  {
    var scope := SortedSeq(Scope(cfg, [tag]));
    assert Elems([tag]) == {tag};
    assert Elems(scope) == {tag};
    assert Wanted(scope) == {tag} by {
      assert tag in scope;
      assert forall x :: x in scope ==> x in Elems(scope);
    }
  }

  function OneTagTool(id: string, tag: string): Tool {
    Tool(id, "stdio", "", "tools/call", map[], "none", "30s", [tag], [], [], false)
  }

  /** Two tools x and y with a tag each, p and q, and a window of one. */
  function TwoTools(x: string, y: string, p: string, q: string): Config {
    var s, t := OneTagTool(x, p), OneTagTool(y, q);
    Config(map[x := s, y := t], map[x := Downstream(x, x, s), y := Downstream(y, y, t)], [p, q], 1, 1)
  }

  predicate Plain(tag: string) { tag != "" && Normalize(tag) == tag && ToLower(tag) == tag }

  lemma TwoToolsSurface(x: string, y: string, p: string, q: string)
    requires x != y && p != q && Plain(p) && Plain(q)
    ensures Surface(TwoTools(x, y, p, q), [p]) == {x} && Surface(TwoTools(x, y, p, q), [q]) == {y}
  {
    OneProvider(TwoTools(x, y, p, q), x, y, p);
    OneProvider(TwoTools(x, y, p, q), y, x, q);
  }

  lemma OneProvider(cfg: Config, x: string, y: string, tag: string)
    requires cfg.threshold == 1 && Plain(tag) && x != y && cfg.tools.Keys == {x, y}
    requires cfg.tools[x].capabilities == [tag]
    requires forall c :: c in cfg.tools[y].capabilities ==> ToLower(c) != tag
    ensures Surface(cfg, [tag]) == {x}
  {
    assert Provides(cfg.tools[x], {tag}) by { assert tag in [tag]; }
    assert !Provides(cfg.tools[y], {tag});
    OneTagSurface(cfg, tag);
  }

  lemma CallsMoveTheWindow(x: string, y: string, p: string, q: string)
    requires x != y && Plain(p) && Plain(q)
    ensures WindowAfterCall(TwoTools(x, y, p, q), [], x) == [p]
    ensures WindowAfterCall(TwoTools(x, y, p, q), [p], y) == [q]
  {
    assert [p][..0] == [] && [q][..0] == [];
    assert ([p] + [q])[1..] == [q];
  }

  lemma TagsOfTwo(tools: map<string, Tool>, x: string, y: string, p: string, q: string)
    requires tools.Keys == {x, y} && tools[x].capabilities == [p] && tools[y].capabilities == [q]
    ensures TagsOf(tools) == {p, q}
  {
    assert x in tools && p in tools[x].capabilities && y in tools && q in tools[y].capabilities;
    forall c | c in TagsOf(tools) ensures c == p || c == q {
      var k :| k in tools && c in tools[k].capabilities;
      assert k == x || k == y;
    }
  }

  lemma PlainIsNormal(tag: string)
    requires Plain(tag)
    ensures NormalTag(tag)
  {
    NormalizeNormal(tag);
  }

  lemma TwoToolsKeyed(x: string, y: string, p: string, q: string)
    requires x != y && TrimSpace(x) != "" && TrimSpace(y) != ""
    ensures WellKeyed(map[x := OneTagTool(x, p), y := OneTagTool(y, q)])
  {
    assert OneTagTool(x, p).id == x && OneTagTool(y, q).id == y;
    assert |OneTagTool(x, p).capabilities| == 1 == |OneTagTool(y, q).capabilities|;
  }

  lemma PairElems(p: string, q: string)
    ensures Elems([p, q]) == {p, q} && forall c :: c in [p, q] <==> c == p || c == q
  {
    assert [p, q][0] == p && [p, q][1] == q;
  }

  /** Startup can set such a bridge up. */
  lemma TwoToolsNormal(cfg: Config, x: string, y: string, p: string, q: string)
    requires x != y && WellKeyed(cfg.tools) && NormalTag(p) && NormalTag(q)
    requires cfg.tools.Keys == {x, y} == cfg.callable.Keys
    requires cfg.tools[x].capabilities == [p] && cfg.tools[y].capabilities == [q]
    requires cfg.callable[x].tool == cfg.tools[x] && cfg.callable[y].tool == cfg.tools[y]
    requires cfg.all == [p, q] && cfg.windowSize == 1 && cfg.threshold == 1
    ensures Normal(cfg)
  {
    TagsOfTwo(cfg.tools, x, y, p, q);
    PairElems(p, q);
  }

  /** What the list shows, and what the next call makes of it. */
  lemma ShownThenReplaced(x: string, y: string, p: string, q: string)
    requires x != y && p != q && Plain(p) && Plain(q)
    ensures var cfg, run := TwoTools(x, y, p, q), [Call(x), List];
      && LastListed(cfg, run) == Some({x})
      && Surface(cfg, WindowAfterCall(cfg, After(cfg, run).window, y)) == {y}
      && !Notifies(cfg, After(cfg, run), y)
  {
    var cfg, run := TwoTools(x, y, p, q), [Call(x), List];
    CallsMoveTheWindow(x, y, p, q);
    TwoToolsSurface(x, y, p, q);
    InWindow(cfg, p);
    InWindow(cfg, q);
    assert run[..1] == [Call(x)];
    AfterOneCall(cfg, x);
  }

  /** Between two narrowed lists of the same size a change goes unannounced: x is
      called, the list is fetched and shows x alone, y is called and replaces it. */
  lemma EqualSizesAreMissed(x: string, y: string, p: string, q: string)
    requires x != y && TrimSpace(x) != "" && TrimSpace(y) != "" && p != q && Plain(p) && Plain(q)
    ensures Normal(TwoTools(x, y, p, q))
    ensures var cfg, run := TwoTools(x, y, p, q), [Call(x), List];
      && LastListed(cfg, run) == Some({x})
      && Surface(cfg, WindowAfterCall(cfg, After(cfg, run).window, y)) == {y}
      && !Notifies(cfg, After(cfg, run), y)
  {
    TwoToolsKeyed(x, y, p, q);
    PlainIsNormal(p);
    PlainIsNormal(q);
    TwoToolsNormal(TwoTools(x, y, p, q), x, y, p, q);
    ShownThenReplaced(x, y, p, q);
  }

  lemma InWindow(cfg: Config, tag: string)
    requires cfg.threshold == 1
    ensures Scope(cfg, [tag]) != {}
  {
    assert tag in Elems([tag]);
  }

  lemma AfterOneCall(cfg: Config, x: string)
    ensures After(cfg, [Call(x)]) == State(WindowAfterCall(cfg, [], x), 0) && LastListed(cfg, [Call(x)]) == None
  {
    assert [Call(x)][..0] == [];
  }

  // ----- The bridge -----

  datatype Reply = Answer(result: string) | Failure(error: string)

  /** A decoded request; reply is what the downstream server would answer a call with,
      and an absent id marks a notification. */
  datatype Request =
    | Initialize(id: string)
    | Initialized
    | ToolsList(id: string)
    | ToolsCall(id: string, name: string, reply: Reply)
    | InvalidCall(id: string)
    | Ping(id: string)
    | Unknown(maybeId: Option<string>)

  datatype Message =
    | Listing(id: string, tools: seq<McpTool>)
    | CallResult(id: string, text: string, isError: bool)
    | Error(id: string, code: int)
    | Acknowledged(id: string)
    | ListChanged

  /** One rendered tool per matched tool, in order. */
  ghost predicate Renders(tools: seq<Tool>, rendered: seq<McpTool>) {
    |rendered| == |tools| && forall i :: 0 <= i < |tools| ==> Rendering(tools[i].id, tools[i].schema, rendered[i])
  }

  class Bridge {
    const reg: MemoryRegistry
    const resolver: DeferredResolver
    const forwards: bool
    var tools: map<string, Downstream>
    var out: seq<Message>
    var prevToolCount: nat
    /** The downstream calls made, source and tool name. */
    ghost var forwarded: seq<(string, string)>

    ghost predicate Valid()
      reads this, reg, resolver
    {
      reg.Valid() && resolver.Valid()
    }

    ghost function Cfg(): Config
      reads this, reg, resolver
    {
      Config(reg.tools, tools, resolver.allCapabilities, resolver.windowSize, resolver.narrowThreshold)
    }

    ghost function Abs(): State
      reads this, resolver
    {
      State(resolver.window, prevToolCount)
    }

    constructor (reg: MemoryRegistry, resolver: DeferredResolver, forwards: bool)
      requires reg.Valid() && resolver.Valid()
      ensures Valid() && this.reg == reg && this.resolver == resolver && this.forwards == forwards
      ensures tools == map[] && out == [] && prevToolCount == 0 && forwarded == []
    {
      this.reg, this.resolver, this.forwards := reg, resolver, forwards;
      tools, out, prevToolCount, forwarded := map[], [], 0, [];
    }

    method RegisterTool(source: string, toolName: string, tool: Tool)
      modifies this`tools
      ensures tools == old(tools)[tool.id := Downstream(source, toolName, tool)]
    {
      tools := tools[tool.id := Downstream(source, toolName, tool)];
    }

    method Send(m: Message)
      modifies this`out
      ensures out == old(out) + [m]
    {
      out := out + [m];
    }

    /** The tags in scope and the tools they match; none if nothing is in scope. */
    method Current() returns (matched: Option<seq<Tool>>)
      requires Valid()
      ensures var scope := Scope(Cfg(), resolver.window);
        matched == if scope == {} then None else Some(ToolsAt(reg.tools, Surface(Cfg(), resolver.window)))
    {
      ResolvedIsScope(Cfg(), resolver.window, resolver.fallback);
      var caps := resolver.Resolve("", []);
      if caps.None? {
        return None;
      }
      var found := reg.Lookup(caps.value);
      return Some(found);
    }

    method HandleToolsList(id: string)
      requires Valid()
      modifies this`out, this`prevToolCount
      ensures Valid() && Abs() == Advance(Cfg(), old(Abs()), List)
      ensures exists rendered :: out == old(out) + [Listing(id, rendered)] &&
                Renders(ToolsAt(reg.tools, Surface(Cfg(), resolver.window)), rendered)
    {
      var matched := Current();
      if matched.None? {
        NothingInScope(Cfg(), resolver.window);
        Send(Listing(id, []));
        return;
      }
      var rendered := RenderAll(matched.value);
      ToolsAtSize(reg.tools, Surface(Cfg(), resolver.window));
      prevToolCount := |rendered|;
      Send(Listing(id, rendered));
    }

    method RenderAll(tools: seq<Tool>) returns (rendered: seq<McpTool>)
      ensures Renders(tools, rendered)
    {
      rendered := [];
      for i := 0 to |tools|
        invariant Renders(tools[..i], rendered)
      {
        var tool := ToolToMcp(tools[i].id, tools[i].schema);
        assert tools[..i + 1] == tools[..i] + [tools[i]];
        rendered := rendered + [tool];
      }
      assert tools[..|tools|] == tools;
    }

    /** Announces a change if the number of tools is not the one last listed. */
    method MaybeNotifyListChanged()
      requires Valid()
      modifies this`out
      ensures var scope, size := Scope(Cfg(), resolver.window), |Surface(Cfg(), resolver.window)|;
        out == old(out) + if scope != {} && size != prevToolCount && prevToolCount > 0 then [ListChanged] else []
    {
      var matched := Current();
      if matched.None? {
        return;
      }
      ToolsAtSize(reg.tools, Surface(Cfg(), resolver.window));
      if |matched.value| != prevToolCount && prevToolCount > 0 {
        Send(ListChanged);
      }
    }

    method ObserveCapabilities(caps: seq<string>)
      requires Valid()
      modifies resolver
      ensures Valid() && resolver.window == ObserveAll(old(resolver.window), resolver.windowSize, caps)
    {
      for i := 0 to |caps|
        invariant Valid() && resolver.window == ObserveAll(old(resolver.window), resolver.windowSize, caps[..i])
      {
        assert caps[..i + 1][..i] == caps[..i];
        resolver.Observe(caps[i]);
      }
      assert caps[..|caps|] == caps;
    }

    method HandleToolsCall(id: string, name: string, reply: Reply)
      requires Valid()
      modifies this`out, this`forwarded, resolver
      ensures Valid() && Cfg() == old(Cfg()) && Abs() == Advance(Cfg(), old(Abs()), Call(name))
      ensures out == old(out) +
        (if Notifies(Cfg(), old(Abs()), name) then [ListChanged] else []) +
        [CallReply(id, name, reply)]
      ensures forwarded == old(forwarded) +
        if name in tools && forwards then [(tools[name].source, tools[name].toolName)] else []
    {
      if name !in tools {
        Send(Error(id, -32602));
        return;
      }
      var downstream := tools[name];
      ObserveCapabilities(downstream.tool.capabilities);
      MaybeNotifyListChanged();
      if forwards {
        forwarded := forwarded + [(downstream.source, downstream.toolName)];
        if reply.Failure? {
          Send(CallResult(id, reply.error, true));
        } else {
          Send(CallResult(id, reply.result, false));
        }
        return;
      }
      Send(CallResult(id, Routed(name, downstream), false));
    }

    /** An unknown tool is an error; what the server answers or fails with is passed on, a
        failure marked as such; without a forwarder the call is only acknowledged. */
    ghost predicate RepliesRight(id: string, name: string, reply: Reply, m: Message)
      reads this
    {
      && (name !in tools ==> m == Error(id, -32602))
      && (name in tools && forwards ==> forall text :: reply == Answer(text) ==> m == CallResult(id, text, false))
      && (name in tools && forwards ==> forall text :: reply == Failure(text) ==> m == CallResult(id, text, true))
      && (name in tools && !forwards ==>
           m == CallResult(id, "Tool " + name + " routed to downstream " + tools[name].source + "." + tools[name].toolName, false))
    }

    lemma CallIsRepliedRight(id: string, name: string, reply: Reply)
      ensures RepliesRight(id, name, reply, CallReply(id, name, reply))
    {
    }

    function CallReply(id: string, name: string, reply: Reply): Message
      reads this
    {
      if name !in tools then Error(id, -32602)
      else if !forwards then CallResult(id, Routed(name, tools[name]), false)
      else if reply.Failure? then CallResult(id, reply.error, true)
      else CallResult(id, reply.result, false)
    }

    function Routed(name: string, d: Downstream): string {
      "Tool " + name + " routed to downstream " + d.source + "." + d.toolName
    }

    method HandleMessage(r: Request)
      requires Valid()
      modifies this`out, this`prevToolCount, this`forwarded, resolver
      ensures Valid() && Cfg() == old(Cfg())
      ensures Abs() == match r
        case ToolsList(_) => Advance(Cfg(), old(Abs()), List)
        case ToolsCall(_, name, _) => Advance(Cfg(), old(Abs()), Call(name))
        case _ => old(Abs())
      ensures r.ToolsList? ==> |out| == |old(out)| + 1 && old(out) <= out && out[|old(out)|].Listing? && out[|old(out)|].id == r.id
      ensures !r.ToolsList? ==> out == old(out) + (match r
        case ToolsCall(id, name, reply) =>
          (if Notifies(Cfg(), old(Abs()), name) then [ListChanged] else []) + [CallReply(id, name, reply)]
        case Initialize(id) => [Acknowledged(id)]
        case Ping(id) => [Acknowledged(id)]
        case InvalidCall(id) => [Error(id, -32602)]
        case Unknown(maybeId) => if maybeId.Some? then [Error(maybeId.value, -32601)] else []
        case _ => [])
    {
      match r
      case Initialize(id) => Send(Acknowledged(id));
      case Initialized =>
      case ToolsList(id) => HandleToolsList(id);
      case ToolsCall(id, name, reply) => HandleToolsCall(id, name, reply);
      case InvalidCall(id) => Send(Error(id, -32602));
      case Ping(id) => Send(Acknowledged(id));
      case Unknown(maybeId) => if maybeId.Some? { Send(Error(maybeId.value, -32601)); }
    }
  }

  /** Without intent and hints, what is resolved is what is in scope. */
  lemma ResolvedIsScope(cfg: Config, window: seq<string>, fallback: Fallback)
    ensures ResolvedSet(cfg.all, window, cfg.threshold, fallback, "", []) == Scope(cfg, window)
  {
    assert Wanted([]) == {};
  }

  lemma ToolsAtSize(tools: map<string, Tool>, ids: set<string>)
    requires ids <= tools.Keys
    ensures |ToolsAt(tools, ids)| == |ids|
  {
    StrictlySortedSize(ids);
  }

  lemma NothingInScope(cfg: Config, window: seq<string>)
    requires Scope(cfg, window) == {}
    ensures Surface(cfg, window) == {} && ToolsAt(cfg.tools, Surface(cfg, window)) == []
  {
    StrictlySortedSize({});
    var scope := SortedSeq(Scope(cfg, window));
    assert Elems(scope) == {};
    assert Wanted(scope) == {} by { assert forall x :: x in scope ==> x in Elems(scope); }
    ToolsAtSize(cfg.tools, Surface(cfg, window));
  }
}

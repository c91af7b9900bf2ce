/** Which of a namespace's entities print as ANF that reads back. */
module KubernetesReadBack {
  import opened Wrappers
  import opened Text
  import opened Sorting
  import opened Anf
  import opened AnfEncoder
  import opened AnfDecoder
  import opened AnfRoundTrip
  import opened KubernetesTranslator

  // ----- The usage line -----

  /** The translator writes processor and memory use with a key of two words, `cpu 42%`,
      which reads as a key of one. */
  function Joined(p: Property): Property {
    match Cut(p.key, ' ')
    case None => p
    case Some(c) => Property(c.0, c.1 + " " + p.value)
  }

  /** A reader who knows takes the key's second word back from the value. */
  function TakenApart(p: Property): Property {
    if p.key == "cpu" || p.key == "mem" then
      match Cut(p.value, ' ')
      case None => p
      case Some(c) => Property(p.key + " " + c.0, c.1)
    else p
  }

  function EachProp(f: Property -> Property, props: seq<Property>): seq<Property> {
    if props == [] then [] else [f(props[0])] + EachProp(f, props[1..])
  }

  /** The same for the properties of the entities at the top. */
  function EachEntity(f: Property -> Property, es: seq<Entity>): (r: seq<Entity>)
    ensures |r| == |es|
  {
    if es == [] then [] else [es[0].(props := EachProp(f, es[0].props))] + EachEntity(f, es[1..])
  }

  lemma JoinedPrints(p: Property)
    ensures Joined(p).key + " " + Joined(p).value == p.key + " " + p.value
  {
    if Cut(p.key, ' ').Some? {
      CutSound(p.key, ' ');
      var c := Cut(p.key, ' ').value;
      assert c.0 + " " + (c.1 + " " + p.value) == (c.0 + [' '] + c.1) + " " + p.value;
    }
  }

  lemma {:induction false} JoinedLines(props: seq<Property>, depth: nat)
    ensures PropLines(EachProp(Joined, props), depth) == PropLines(props, depth)
  {
    if props == [] {
    } else {
      JoinedPrints(props[0]);
      JoinedLines(props[1..], depth);
      var rest := EachProp(Joined, props[1..]);
      assert EachProp(Joined, props) == [Joined(props[0])] + rest && ([Joined(props[0])] + rest)[1..] == rest;
    }
  }

  lemma {:induction false} JoinedForest(es: seq<Entity>)
    ensures ForestLines(EachEntity(Joined, es), 0) == ForestLines(es, 0)
  {
    if es == [] {
    } else {
      JoinedLines(es[0].props, 1);
      JoinedForest(es[1..]);
      var rest := EachEntity(Joined, es[1..]);
      var e := es[0].(props := EachProp(Joined, es[0].props));
      assert EachEntity(Joined, es) == [e] + rest && ([e] + rest)[1..] == rest;
    }
  }

  lemma TakenApartJoins(p: Property)
    requires Word(p.key)
    ensures Joined(TakenApart(p)) == p
  {
    NoBlankNoCut(p.key);
    if (p.key == "cpu" || p.key == "mem") && Cut(p.value, ' ').Some? {
      CutSound(p.value, ' ');
      var c := Cut(p.value, ' ').value;
      CutFinds(p.key, ' ', c.0);
      assert p.key + " " + c.0 == p.key + [' '] + c.0;
    }
  }

  lemma {:induction false} NoBlankNoCut(s: string)
    ensures Cut(s, ' ').None? <==> ' ' !in s
  {
    if s == "" {
    } else {
      NoBlankNoCut(s[1..]);
    }
  }

  lemma {:induction false} PropsTakenApartJoin(props: seq<Property>)
    requires AllPropsFit(props)
    ensures EachProp(Joined, EachProp(TakenApart, props)) == props
  {
    if props == [] {
    } else {
      assert PropFits(props[0]);
      TakenApartJoins(props[0]);
      PropsTakenApartJoin(props[1..]);
      var rest := EachProp(TakenApart, props[1..]);
      assert ([TakenApart(props[0])] + rest)[1..] == rest;
      assert props == [props[0]] + props[1..];
    }
  }

  lemma {:induction false} EntitiesTakenApartJoin(es: seq<Entity>)
    requires AllFit(es, 0)
    ensures EachEntity(Joined, EachEntity(TakenApart, es)) == es
  {
    if es == [] {
    } else {
      assert Fits(es[0], 0);
      PropsTakenApartJoin(es[0].props);
      EntitiesTakenApartJoin(es[1..]);
      var rest := EachEntity(TakenApart, es[1..]);
      var e := es[0].(props := EachProp(TakenApart, es[0].props));
      assert ([e] + rest)[1..] == rest;
      assert es == [es[0]] + es[1..];
    }
  }

  // ----- What a namespace has to keep to -----

  /** After a key, a value that goes on like an entity's line: a name, a bracketed status,
      then inline properties. */
  predicate GoesOnAsEntity(value: string) {
    var words := Split(value, ' ');
    |words| >= 2 && Bracketed(words[1]) && ReadInline(words[2..]).Some?
  }

  predicate LineFits(value: string) { '\n' !in value && !GoesOnAsEntity(value) }

  predicate Loaded(dep: Deployment) { dep.cpuPercent > 0 || dep.memPercent > 0 }

  predicate UsageFits(dep: Deployment) {
    if Loaded(dep) then
      && (dep.requestsPerSec.value > 0.0 ==> '\n' !in dep.requestsPerSec.text)
      && (dep.errorRate.value > 0.0 ==> '\n' !in dep.errorRate.text)
    else
      && (dep.requestsPerSec.value > 0.0 ==> Word(dep.requestsPerSec.text))
      && (dep.errorRate.value > 0.0 ==>
           if dep.requestsPerSec.value > 0.0 then LineFits("errors:" + dep.errorRate.text + "%")
           else Word(dep.errorRate.text))
  }

  predicate PodFits(pod: Pod) { Word(pod.name) && ValueFits(pod.node) }

  predicate DeploymentFits(dep: Deployment) {
    && Word(dep.name) && LineFits(dep.image)
    && (dep.strategy != "" ==> LineFits(StrategyLine(dep)))
    && UsageFits(dep)
    && forall pod :: pod in dep.pods ==> PodFits(pod)
  }

  predicate ServiceFits(svc: Service) { Word(svc.name) && LineFits(svc.kind) }

  predicate TimeFits(time: Option<string>) { time.Some? ==> ValueFits(time.value) }

  predicate JobFits(job: Job) { Word(job.name) && TimeFits(job.lastRun) }

  /** A schedule may hold blanks, but no colon after the first. */
  predicate CronJobFits(cj: CronJob) {
    Word(cj.name) && ValueFits(cj.schedule) && TimeFits(cj.lastRun) && TimeFits(cj.nextRun)
  }

  // ----- Words -----

  lemma WordConcat(a: string, b: string)
    ensures Word(a + b) <==> Word(a) && Word(b)
  {
    assert forall c :: c in a + b <==> c in a || c in b;
  }

  lemma DecimalWord(n: int)
    ensures Word(Decimal(n))
  {
    DecimalHasNo(n, ' ');
    DecimalHasNo(n, '\n');
  }

  lemma FractionWord(a: int, b: int)
    ensures Word(Fraction(a, b))
  {
    DecimalWord(a);
    DecimalWord(b);
    WordConcat(Decimal(a) + "/", Decimal(b));
    WordConcat(Decimal(a), "/");
  }

  lemma NumberAndUnit(n: int, unit: string)
    requires Word(unit)
    ensures Word(Decimal(n) + unit)
  {
    DecimalWord(n);
    WordConcat(Decimal(n), unit);
  }

  lemma WordValueFits(value: string)
    requires Word(value)
    ensures ValueFits(value)
  {
    SplitWhole(value, ' ');
  }

  lemma WordLineFits(value: string)
    requires Word(value)
    ensures LineFits(value)
  {
    SplitWhole(value, ' ');
  }

  /** Whether a property fits depends on its value alone, given a proper key. */
  lemma PropFitsByValue(key: string, value: string)
    requires key != "" && Word(key)
    ensures PropFits(Property(key, value)) <==> LineFits(value)
  {
    SplitHead(key, value, ' ');
    assert key + [' '] + value == key + " " + value;
    HeadAfterKey(key, Split(value, ' '));
  }

  lemma HeadAfterKey(key: string, rest: seq<string>)
    ensures var words := [key] + rest;
      (|words| >= 3 <==> |rest| >= 2) && (|rest| >= 2 ==> words[2] == rest[1] && words[3..] == rest[2..])
  {
  }

  lemma InlineConcat(a: seq<Property>, b: seq<Property>)
    ensures InlineFits(a + b) <==> InlineFits(a) && InlineFits(b)
  {
    if InlineFits(a + b) {
      assert forall p :: p in a || p in b ==> p in a + b;
    }
  }

  lemma OneInline(p: Property)
    ensures InlineFits([p]) <==> PairFits(p)
  {
    assert p in [p];
  }

  lemma OneWordProp(key: string, value: string)
    requires Word(key) && ':' !in key && Word(value)
    ensures InlineFits([Property(key, value)])
  {
    WordValueFits(value);
  }

  // ----- Pods -----

  lemma PodStatusWord(pod: Pod)
    ensures PodStatus(pod) != "" && Word(PodStatus(pod))
  {
  }

  /** The node, if there is one. */
  function NodeProps(pod: Pod): seq<Property> { if pod.node != "" then [Property("node", pod.node)] else [] }

  function LoadProps(pod: Pod): seq<Property> {
    (if pod.cpuPercent > 0 then [Property("cpu", Percent(pod.cpuPercent))] else []) +
    (if pod.memPercent > 0 then [Property("mem", Percent(pod.memPercent))] else [])
  }

  lemma PercentFits(key: string, n: int)
    requires Word(key) && ':' !in key
    ensures InlineFits([Property(key, Percent(n))])
  {
    NumberAndUnit(n, "%");
    OneWordProp(key, Percent(n));
  }

  lemma LoadFits(pod: Pod)
    ensures InlineFits(LoadProps(pod))
  {
    PercentFits("cpu", pod.cpuPercent);
    PercentFits("mem", pod.memPercent);
  }

  lemma RestartsFit(n: int)
    ensures InlineFits([Property("restarts", Decimal(n))])
  {
    DecimalWord(n);
    OneWordProp("restarts", Decimal(n));
  }

  lemma PodInlineParts(pod: Pod)
    ensures PodInline(pod) == NodeProps(pod) + LoadProps(pod) + [Property("restarts", Decimal(pod.restarts))]
  {
  }

  lemma NodeFits(pod: Pod)
    ensures InlineFits(NodeProps(pod)) <==> ValueFits(pod.node)
  {
    if pod.node != "" { OneInline(Property("node", pod.node)); } else { WordValueFits(""); }
  }

  lemma PodInlineFits(pod: Pod)
    ensures InlineFits(PodInline(pod)) <==> ValueFits(pod.node)
  {
    PodInlineParts(pod);
    InlineConcat(NodeProps(pod) + LoadProps(pod), [Property("restarts", Decimal(pod.restarts))]);
    InlineConcat(NodeProps(pod), LoadProps(pod));
    NodeFits(pod);
    LoadFits(pod);
    RestartsFit(pod.restarts);
  }

  /** An entity without properties and children. */
  lemma LeafFits(kind: string, name: string, status: string, inline: seq<Property>, depth: nat)
    requires kind != "" && Word(kind) && StatusFits(status, inline, depth)
    ensures Fits(Entity(kind, name, status, inline, [], []), depth) <==> Word(name) && InlineFits(inline)
  {
  }

  lemma PodReadsBack(pod: Pod)
    ensures Fits(PodEntity(pod), 1) <==> PodFits(pod)
  {
    PodStatusWord(pod);
    PodInlineFits(pod);
    LeafFits(POD, pod.name, PodStatus(pod), PodInline(pod), 1);
  }

  lemma {:induction false} PodsReadBack(pods: seq<Pod>)
    ensures AllFit(PodEntities(pods), 1) <==> forall pod :: pod in pods ==> PodFits(pod)
  {
    if pods == [] {
    } else {
      PodReadsBack(pods[0]);
      PodsReadBack(pods[1..]);
      assert PodEntities(pods)[1..] == PodEntities(pods[1..]);
      assert forall pod :: pod in pods <==> pod == pods[0] || pod in pods[1..];
    }
  }

  // ----- Deployments -----

  lemma ReplicasFit(value: string)
    requires Word(value)
    ensures InlineFits([Property("replicas", value)])
  {
    OneWordProp("replicas", value);
  }

  lemma AgeFits(value: string)
    requires Word(value)
    ensures InlineFits([Property("age", value)])
  {
    OneWordProp("age", value);
  }

  lemma DeploymentInlineFits(dep: Deployment)
    ensures InlineFits(DeploymentInline(dep))
  {
    FractionWord(dep.readyReplicas, dep.replicas);
    ReplicasFit(Fraction(dep.readyReplicas, dep.replicas));
    NumberAndUnit(dep.ageDays, "d");
    AgeFits(Decimal(dep.ageDays) + "d");
  }

  lemma DeploymentStatusWord(dep: Deployment)
    ensures DeploymentStatus(dep) != "" && Word(DeploymentStatus(dep))
  {
  }

  lemma PropsConcat(a: seq<Property>, b: seq<Property>)
    ensures AllPropsFit(a + b) <==> AllPropsFit(a) && AllPropsFit(b)
  {
    if AllPropsFit(a + b) {
      assert forall p :: p in a || p in b ==> p in a + b;
    }
  }

  lemma OneProp(p: Property)
    ensures AllPropsFit([p]) <==> PropFits(p)
  {
    assert p in [p];
  }

  function StrategyProps(dep: Deployment): seq<Property> {
    if dep.strategy != "" then [Property("strategy", StrategyLine(dep))] else []
  }

  function RequestsPart(dep: Deployment): string { "requests:" + dep.requestsPerSec.text + "/s" }

  function ErrorsPart(dep: Deployment): string { "errors:" + dep.errorRate.text + "%" }

  lemma RequestsWord(dep: Deployment)
    ensures Word(RequestsPart(dep)) <==> Word(dep.requestsPerSec.text)
  {
    WordConcat("requests:" + dep.requestsPerSec.text, "/s");
    WordConcat("requests:", dep.requestsPerSec.text);
  }

  lemma ErrorsWord(dep: Deployment)
    ensures Word(ErrorsPart(dep)) <==> Word(dep.errorRate.text)
  {
    WordConcat("errors:" + dep.errorRate.text, "%");
    WordConcat("errors:", dep.errorRate.text);
  }

  /** Without processor and memory use, the parts are the two rates. */
  lemma RateParts(dep: Deployment)
    requires dep.cpuPercent <= 0 && dep.memPercent <= 0
    ensures UsageParts(dep) ==
            (if dep.requestsPerSec.value > 0.0 then [RequestsPart(dep)] else []) +
            (if dep.errorRate.value > 0.0 then [ErrorsPart(dep)] else [])
  {
  }

  lemma UsageOf2(first: string, second: string)
    ensures UsageProps([first]) == [Property(first, "")] && UsageProps([first, second]) == [Property(first, second)]
  {
    assert [first][1..] == [] && [first, second][1..] == [second];
  }

  /** Joining and taking apart leave a property with a one-word key alone. */
  lemma PlainKept(p: Property)
    requires ' ' !in p.key && p.key != "cpu" && p.key != "mem"
    ensures Joined(p) == p && TakenApart(Joined(p)) == p
  {
    NoBlankNoCut(p.key);
  }

  /** A property reads back: as it reads it fits, and it is restored. */
  predicate ReadsBack(props: seq<Property>) {
    AllPropsFit(EachProp(Joined, props)) && EachProp(TakenApart, EachProp(Joined, props)) == props
  }

  lemma {:induction false} EachConcat(f: Property -> Property, a: seq<Property>, b: seq<Property>)
    ensures EachProp(f, a + b) == EachProp(f, a) + EachProp(f, b)
  {
    if a == [] {
      assert a + b == b;
    } else {
      assert (a + b)[1..] == a[1..] + b;
      EachConcat(f, a[1..], b);
    }
  }

  lemma {:induction false} EachLength(f: Property -> Property, props: seq<Property>)
    ensures |EachProp(f, props)| == |props|
  {
    if props == [] {
    } else {
      EachLength(f, props[1..]);
    }
  }

  lemma SameParts(a: seq<Property>, b: seq<Property>, c: seq<Property>, d: seq<Property>)
    requires |a| == |c|
    ensures a + b == c + d <==> a == c && b == d
  {
    if a + b == c + d {
      assert a == (a + b)[..|a|] == (c + d)[..|c|] == c;
      assert b == (a + b)[|a|..] == (c + d)[|c|..] == d;
    }
  }

  lemma ReadsBackConcat(a: seq<Property>, b: seq<Property>)
    ensures ReadsBack(a + b) <==> ReadsBack(a) && ReadsBack(b)
  {
    var ja, jb := EachProp(Joined, a), EachProp(Joined, b);
    EachConcat(Joined, a, b);
    EachConcat(TakenApart, ja, jb);
    EachLength(Joined, a);
    EachLength(TakenApart, ja);
    PropsConcat(ja, jb);
    SameParts(EachProp(TakenApart, ja), EachProp(TakenApart, jb), a, b);
  }

  lemma OneReadsBack(p: Property)
    ensures ReadsBack([p]) <==> PropFits(Joined(p)) && TakenApart(Joined(p)) == p
  {
    OneEach(Joined, p);
    OneEach(TakenApart, Joined(p));
    OneProp(Joined(p));
    assert [TakenApart(Joined(p))][0] == TakenApart(Joined(p)) && [p][0] == p;
  }

  lemma OneEach(f: Property -> Property, p: Property)
    ensures EachProp(f, [p]) == [f(p)]
  {
    assert [p][1..] == [];
  }

  /** A property under a plain key. */
  lemma PlainReadsBack(key: string, value: string)
    requires key != "" && Word(key) && key != "cpu" && key != "mem"
    ensures ReadsBack([Property(key, value)]) <==> LineFits(value)
  {
    PlainKept(Property(key, value));
    OneReadsBack(Property(key, value));
    PropFitsByValue(key, value);
  }

  lemma StrategyReadsBack(dep: Deployment)
    ensures ReadsBack(StrategyProps(dep)) <==> (dep.strategy != "" ==> LineFits(StrategyLine(dep)))
  {
    if dep.strategy != "" { PlainReadsBack("strategy", StrategyLine(dep)); }
  }

  // ----- The usage line, if it starts with a rate -----

  /** Another key: with a blank in it, it is not restored. */
  lemma RateReadsBack(key: string, value: string)
    requires key != "" && key[0] != 'c' && key[0] != 'm' && key[0] != ' '
    ensures ReadsBack([Property(key, value)]) <==> Word(key) && LineFits(value)
  {
    var p := Property(key, value);
    NoBlankNoCut(key);
    OneReadsBack(p);
    if ' ' in key {
      CutSound(key, ' ');
      var c := Cut(key, ' ').value;
      assert c.0 != "" && c.0[0] == key[0];
      NotRestored(c.0, c.1 + " " + value, p);
    } else {
      PlainKept(p);
      if Word(key) { PropFitsByValue(key, value); }
    }
  }

  lemma NotRestored(key: string, value: string, p: Property)
    requires ' ' !in key && ' ' in p.key && key != "cpu" && key != "mem"
    ensures TakenApart(Property(key, value)) != p
  {
  }

  lemma RatesReadBack(dep: Deployment)
    requires !Loaded(dep)
    ensures ReadsBack(UsageProps(UsageParts(dep))) <==> UsageFits(dep)
  {
    var requests, errors := RequestsPart(dep), ErrorsPart(dep);
    RateParts(dep);
    RequestsWord(dep);
    ErrorsWord(dep);
    WordLineFits("");
    if dep.requestsPerSec.value > 0.0 {
      UsageOf2(requests, errors);
      RateReadsBack(requests, if dep.errorRate.value > 0.0 then errors else "");
    } else if dep.errorRate.value > 0.0 {
      UsageOf2(errors, "");
      RateReadsBack(errors, "");
    }
  }

  // ----- The usage line, if it starts with a load -----

  /** What follows the first part. */
  function LoadRest(dep: Deployment): seq<string> {
    (if dep.cpuPercent > 0 && dep.memPercent > 0 then ["mem " + Percent(dep.memPercent)] else []) +
    (if dep.requestsPerSec.value > 0.0 then [RequestsPart(dep)] else []) +
    (if dep.errorRate.value > 0.0 then [ErrorsPart(dep)] else [])
  }

  function LoadKey(dep: Deployment): string { if dep.cpuPercent > 0 then "cpu" else "mem" }

  function LoadPercent(dep: Deployment): string { Percent(if dep.cpuPercent > 0 then dep.cpuPercent else dep.memPercent) }

  lemma FirstOut(x: string, a: seq<string>, b: seq<string>, c: seq<string>)
    ensures ([x] + a) + b + c == [x] + (a + b + c) && ([] + [x]) + b + c == [x] + ([] + b + c)
  {
  }

  lemma LoadedParts(dep: Deployment)
    requires Loaded(dep)
    ensures UsageParts(dep) == [LoadKey(dep) + " " + LoadPercent(dep)] + LoadRest(dep)
  {
    var memory := if dep.memPercent > 0 then ["mem " + Percent(dep.memPercent)] else [];
    var requests := if dep.requestsPerSec.value > 0.0 then [RequestsPart(dep)] else [];
    var errors := if dep.errorRate.value > 0.0 then [ErrorsPart(dep)] else [];
    assert "cpu" + " " == "cpu " && "mem" + " " == "mem ";
    if dep.cpuPercent > 0 {
      assert LoadRest(dep) == memory + requests + errors;
      FirstOut("cpu " + Percent(dep.cpuPercent), memory, requests, errors);
    } else {
      FirstOut("mem " + Percent(dep.memPercent), [], requests, errors);
    }
  }

  lemma LoadedUsage(dep: Deployment)
    requires Loaded(dep)
    ensures UsageProps(UsageParts(dep)) == [Property(LoadKey(dep) + " " + LoadPercent(dep), Join(LoadRest(dep), ' '))]
  {
    LoadedParts(dep);
    assert UsageParts(dep)[1..] == LoadRest(dep);
  }

  lemma LoadJoins(key: string, percent: string, value: string)
    requires (key == "cpu" || key == "mem") && Word(percent)
    ensures var p := Property(key + " " + percent, value);
            Joined(p) == Property(key, percent + " " + value) && TakenApart(Joined(p)) == p
  {
    assert ' ' !in "cpu" && ' ' !in "mem";
    CutFinds(key, ' ', percent);
    CutFinds(percent, ' ', value);
    assert key + " " + percent == key + [' '] + percent && percent + " " + value == percent + [' '] + value;
  }

  /** No part of a usage line starts like a status. */
  predicate Unlike(parts: seq<string>) { forall w :: w in parts ==> w != "" && w[0] != ' ' && w[0] != '[' }

  lemma FirstWordStarts(s: string)
    requires s != "" && s[0] != ' '
    ensures Split(s, ' ')[0] != "" && Split(s, ' ')[0][0] == s[0]
  {
  }

  lemma AfterPercent(percent: string, parts: seq<string>)
    requires Word(percent) && Unlike(parts)
    ensures !GoesOnAsEntity(percent + " " + Join(parts, ' '))
  {
    var rest := Join(parts, ' ');
    SplitHead(percent, rest, ' ');
    assert percent + " " + rest == percent + [' '] + rest;
    if rest != "" {
      assert rest[0] == parts[0][0];
      FirstWordStarts(rest);
    }
  }

  lemma RestIsUnlike(dep: Deployment)
    ensures Unlike(LoadRest(dep))
  {
  }

  lemma {:induction false} JoinNewline(parts: seq<string>)
    ensures '\n' in Join(parts, ' ') <==> exists w :: w in parts && '\n' in w
  {
    if parts == [] {
    } else if |parts| == 1 {
      assert parts[0] in parts;
    } else {
      JoinNewline(parts[1..]);
      assert parts == [parts[0]] + parts[1..];
      assert forall w :: w in parts <==> w == parts[0] || w in parts[1..];
    }
  }

  lemma RateNewlines(dep: Deployment)
    ensures '\n' in RequestsPart(dep) <==> '\n' in dep.requestsPerSec.text
    ensures '\n' in ErrorsPart(dep) <==> '\n' in dep.errorRate.text
  {
    assert '\n' !in "requests:" && '\n' !in "/s" && '\n' !in "errors:" && '\n' !in "%";
  }

  lemma RestNewlines(dep: Deployment)
    requires Loaded(dep)
    ensures '\n' !in Join(LoadRest(dep), ' ') <==> UsageFits(dep)
  {
    JoinNewline(LoadRest(dep));
    RateNewlines(dep);
    NumberAndUnit(dep.memPercent, "%");
    assert '\n' !in "mem " + Percent(dep.memPercent);
    if dep.requestsPerSec.value > 0.0 { assert RequestsPart(dep) in LoadRest(dep); }
    if dep.errorRate.value > 0.0 { assert ErrorsPart(dep) in LoadRest(dep); }
  }

  lemma LoadReadsBack(key: string, percent: string, value: string)
    requires (key == "cpu" || key == "mem") && Word(percent) && !GoesOnAsEntity(percent + " " + value)
    ensures ReadsBack([Property(key + " " + percent, value)]) <==> '\n' !in value
  {
    LoadJoins(key, percent, value);
    OneReadsBack(Property(key + " " + percent, value));
    assert Word("cpu") && Word("mem");
    PropFitsByValue(key, percent + " " + value);
  }

  lemma LoadedReadsBack(dep: Deployment)
    requires Loaded(dep)
    ensures ReadsBack(UsageProps(UsageParts(dep))) <==> UsageFits(dep)
  {
    LoadedUsage(dep);
    NumberAndUnit(if dep.cpuPercent > 0 then dep.cpuPercent else dep.memPercent, "%");
    RestIsUnlike(dep);
    AfterPercent(LoadPercent(dep), LoadRest(dep));
    RestNewlines(dep);
    LoadReadsBack(LoadKey(dep), LoadPercent(dep), Join(LoadRest(dep), ' '));
  }

  lemma UsageReadsBack(dep: Deployment)
    ensures ReadsBack(UsageProps(UsageParts(dep))) <==> UsageFits(dep)
  {
    if Loaded(dep) { LoadedReadsBack(dep); } else { RatesReadBack(dep); }
  }

  // ----- A deployment's entity -----

  lemma PropsReadBack(dep: Deployment)
    ensures ReadsBack(DeploymentProps(dep)) <==>
            LineFits(dep.image) && (dep.strategy != "" ==> LineFits(StrategyLine(dep))) && UsageFits(dep)
  {
    var image, usage := [Property("image", dep.image)], UsageProps(UsageParts(dep));
    ReadsBackConcat(image + StrategyProps(dep), usage);
    ReadsBackConcat(image, StrategyProps(dep));
    PlainReadsBack("image", dep.image);
    StrategyReadsBack(dep);
    UsageReadsBack(dep);
  }

  /** An entity at the top reads back: it fits as it reads, and is restored. */
  predicate EntityReadsBack(e: Entity) {
    Fits(e.(props := EachProp(Joined, e.props)), 0) && EachProp(TakenApart, EachProp(Joined, e.props)) == e.props
  }

  lemma BranchFits(e: Entity, kind: string, status: string, inline: seq<Property>)
    requires e.kind == kind && e.status == status && e.inline == inline
    requires kind != "" && Word(kind) && StatusFits(status, inline, 0)
    ensures EntityReadsBack(e) <==> Word(e.name) && InlineFits(inline) && ReadsBack(e.props) && AllFit(e.children, 1)
  {
  }

  lemma KindWords()
    ensures DEPLOYMENT != "" && Word(DEPLOYMENT) && Word("service") && Word("job") && Word("cronjob")
  {
  }

  lemma FitsByParts(dep: Deployment, e: Entity)
    requires e == DeploymentEntity(dep)
    ensures EntityReadsBack(e) <==> Word(dep.name) && ReadsBack(DeploymentProps(dep)) && AllFit(PodEntities(dep.pods), 1)
  {
    KindWords();
    DeploymentStatusWord(dep);
    DeploymentInlineFits(dep);
    BranchFits(e, DEPLOYMENT, DeploymentStatus(dep), DeploymentInline(dep));
  }

  /** A deployment reads back exactly when its names, texts and rates keep clear of the
      syntax. */
  lemma DeploymentReadsBack(dep: Deployment)
    ensures EntityReadsBack(DeploymentEntity(dep)) <==> DeploymentFits(dep)
  {
    FitsByParts(dep, DeploymentEntity(dep));
    PropsReadBack(dep);
    PodsReadBack(dep.pods);
  }

  // ----- Jobs, services and cron jobs -----

  lemma JobStatusWord(job: Job)
    ensures JobStatus(job) != "" && Word(JobStatus(job))
  {
  }

  lemma DurationWord(d: int)
    ensures Word(CompactDuration(d))
  {
    NumberAndUnit(d / (86400 * SECOND), "d");
    NumberAndUnit(d / (3600 * SECOND), "h");
    NumberAndUnit(d / (60 * SECOND), "m");
    NumberAndUnit(d / SECOND, "s");
  }

  /** A time, if there is one, under its key. */
  function TimeProps(key: string, time: Option<string>): seq<Property> {
    if time.Some? then [Property(key, time.value)] else []
  }

  lemma TimesFit(key: string, time: Option<string>)
    requires Word(key) && ':' !in key
    ensures InlineFits(TimeProps(key, time)) <==> TimeFits(time)
  {
    if time.Some? { OneInline(Property(key, time.value)); }
  }

  function RunTime(job: Job): seq<Property> {
    if job.duration > 0 then [Property("duration", CompactDuration(job.duration))] else []
  }

  lemma RunTimeFits(job: Job)
    ensures InlineFits(RunTime(job))
  {
    DurationWord(job.duration);
    OneWordProp("duration", CompactDuration(job.duration));
  }

  lemma NoProps(e: Entity)
    requires e.props == []
    ensures ReadsBack(e.props)
  {
  }

  /** An entity without properties and children, at the top. */
  lemma LeafReadsBack(kind: string, name: string, status: string, inline: seq<Property>)
    requires kind != "" && Word(kind) && StatusFits(status, inline, 0)
    ensures EntityReadsBack(Entity(kind, name, status, inline, [], [])) <==> Word(name) && InlineFits(inline)
  {
    NoProps(Entity(kind, name, status, inline, [], []));
    BranchFits(Entity(kind, name, status, inline, [], []), kind, status, inline);
  }

  lemma JobReadsBack(job: Job)
    ensures EntityReadsBack(JobEntity(job)) <==> JobFits(job)
  {
    KindWords();
    TimesFit("last", job.lastRun);
    RunTimeFits(job);
    InlineConcat(TimeProps("last", job.lastRun), RunTime(job));
    JobStatusWord(job);
    LeafReadsBack("job", job.name, JobStatus(job), TimeProps("last", job.lastRun) + RunTime(job));
  }

  /** A first inline property under an ordinary key does not look like a status. */
  lemma NoStatusFirst(inline: seq<Property>)
    requires inline != [] ==> inline[0].key != "" && inline[0].key[0] != ' ' && inline[0].key[0] != '['
    ensures StatusFits("", inline, 0)
  {
    if inline != [] {
      var word := inline[0].key + ":" + inline[0].value;
      FirstWordStarts(word);
      assert InlineWords(inline)[0] == Split(word, ' ')[0];
    }
  }

  function Schedule(cj: CronJob): seq<Property> { [Property("schedule", cj.schedule)] }

  lemma ScheduleFits(cj: CronJob)
    ensures InlineFits(Schedule(cj)) <==> ValueFits(cj.schedule)
  {
    OneInline(Property("schedule", cj.schedule));
  }

  lemma CronJobReadsBack(cj: CronJob)
    ensures EntityReadsBack(CronJobEntity(cj)) <==> CronJobFits(cj)
  {
    var last, next := TimeProps("last-run", cj.lastRun), TimeProps("next", cj.nextRun);
    KindWords();
    ScheduleFits(cj);
    TimesFit("last-run", cj.lastRun);
    TimesFit("next", cj.nextRun);
    InlineConcat(Schedule(cj) + last, next);
    InlineConcat(Schedule(cj), last);
    NoStatusFirst(Schedule(cj) + last + next);
    LeafReadsBack("cronjob", cj.name, "", Schedule(cj) + last + next);
  }

  function PortProps(svc: Service): seq<Property> {
    if svc.port > 0 && svc.targetPort > 0
    then [Property("ports", Decimal(svc.port) + ">" + Decimal(svc.targetPort))] else []
  }

  function EndpointProps(svc: Service): seq<Property> {
    if svc.totalPods > 0 then [Property("endpoints", Fraction(svc.endpoints, svc.totalPods))] else []
  }

  lemma PortsFit(svc: Service)
    ensures InlineFits(PortProps(svc) + EndpointProps(svc)) && StatusFits("", PortProps(svc) + EndpointProps(svc), 0)
  {
    DecimalWord(svc.port);
    NumberAndUnit(svc.port, ">");
    DecimalWord(svc.targetPort);
    WordConcat(Decimal(svc.port) + ">", Decimal(svc.targetPort));
    OneWordProp("ports", Decimal(svc.port) + ">" + Decimal(svc.targetPort));
    FractionWord(svc.endpoints, svc.totalPods);
    OneWordProp("endpoints", Fraction(svc.endpoints, svc.totalPods));
    InlineConcat(PortProps(svc), EndpointProps(svc));
    NoStatusFirst(PortProps(svc) + EndpointProps(svc));
  }

  lemma ServiceReadsBack(svc: Service)
    ensures EntityReadsBack(ServiceEntity(svc)) <==> ServiceFits(svc)
  {
    KindWords();
    PortsFit(svc);
    PlainReadsBack("type", svc.kind);
    BranchFits(ServiceEntity(svc), "service", "", PortProps(svc) + EndpointProps(svc));
  }

  // ----- All entities -----

  predicate AllReadBack(es: seq<Entity>) { forall e :: e in es ==> EntityReadsBack(e) }

  lemma HeadReadsBack(e: Entity, es: seq<Entity>)
    ensures AllReadBack([e] + es) <==> EntityReadsBack(e) && AllReadBack(es)
  {
    assert forall x :: x in [e] + es <==> x == e || x in es;
  }

  lemma AllFitStep(e: Entity, es: seq<Entity>)
    ensures AllFit([e] + es, 0) <==> Fits(e, 0) && AllFit(es, 0)
  {
    assert ([e] + es)[1..] == es;
  }

  lemma EachStep(f: Property -> Property, e: Entity, es: seq<Entity>)
    ensures EachEntity(f, [e] + es) == [e.(props := EachProp(f, e.props))] + EachEntity(f, es)
  {
    assert ([e] + es)[1..] == es;
  }

  lemma {:induction false} ForestReadsBack(es: seq<Entity>)
    ensures AllFit(EachEntity(Joined, es), 0) && EachEntity(TakenApart, EachEntity(Joined, es)) == es <==> AllReadBack(es)
  {
    if es == [] {
    } else {
      var e, rest := es[0], es[1..];
      var joined, more := e.(props := EachProp(Joined, e.props)), EachEntity(Joined, rest);
      ForestReadsBack(rest);
      assert es == [e] + rest;
      HeadReadsBack(e, rest);
      EachStep(Joined, e, rest);
      EachStep(TakenApart, joined, more);
      AllFitStep(joined, more);
      HeadsAndTails(joined.(props := EachProp(TakenApart, joined.props)), EachEntity(TakenApart, more), e, rest);
      SameProps(e, EachProp(TakenApart, joined.props));
    }
  }

  lemma SameProps(e: Entity, props: seq<Property>)
    ensures e.(props := props) == e <==> props == e.props
  {
  }

  lemma AllReadBackConcat(a: seq<Entity>, b: seq<Entity>)
    ensures AllReadBack(a + b) <==> AllReadBack(a) && AllReadBack(b)
  {
    assert forall e :: e in a + b <==> e in a || e in b;
  }

  lemma {:induction false} DeploymentsReadBack(deps: seq<Deployment>)
    ensures AllReadBack(DeploymentEntities(deps)) <==> forall dep :: dep in deps ==> DeploymentFits(dep)
  {
    if deps == [] {
    } else {
      DeploymentReadsBack(deps[0]);
      DeploymentsReadBack(deps[1..]);
      HeadReadsBack(DeploymentEntity(deps[0]), DeploymentEntities(deps[1..]));
      assert forall dep :: dep in deps <==> dep == deps[0] || dep in deps[1..];
    }
  }

  lemma {:induction false} ServicesReadBack(svcs: seq<Service>)
    ensures AllReadBack(ServiceEntities(svcs)) <==> forall svc :: svc in svcs ==> ServiceFits(svc)
  {
    if svcs == [] {
    } else {
      ServiceReadsBack(svcs[0]);
      ServicesReadBack(svcs[1..]);
      HeadReadsBack(ServiceEntity(svcs[0]), ServiceEntities(svcs[1..]));
      assert forall svc :: svc in svcs <==> svc == svcs[0] || svc in svcs[1..];
    }
  }

  lemma {:induction false} JobsReadBack(jobs: seq<Job>)
    ensures AllReadBack(JobEntities(jobs)) <==> forall job :: job in jobs ==> JobFits(job)
  {
    if jobs == [] {
    } else {
      JobReadsBack(jobs[0]);
      JobsReadBack(jobs[1..]);
      HeadReadsBack(JobEntity(jobs[0]), JobEntities(jobs[1..]));
      assert forall job :: job in jobs <==> job == jobs[0] || job in jobs[1..];
    }
  }

  lemma {:induction false} CronJobsReadBack(cjs: seq<CronJob>)
    ensures AllReadBack(CronJobEntities(cjs)) <==> forall cj :: cj in cjs ==> CronJobFits(cj)
  {
    if cjs == [] {
    } else {
      CronJobReadsBack(cjs[0]);
      CronJobsReadBack(cjs[1..]);
      HeadReadsBack(CronJobEntity(cjs[0]), CronJobEntities(cjs[1..]));
      assert forall cj :: cj in cjs <==> cj == cjs[0] || cj in cjs[1..];
    }
  }

  /** The entities' part of the condition. */
  predicate EntitiesFit(view: View) {
    && (forall dep :: dep in view.deployments ==> DeploymentFits(dep))
    && (forall svc :: svc in view.services ==> ServiceFits(svc))
    && (forall job :: job in view.jobs ==> JobFits(job))
    && (forall cj :: cj in view.cronJobs ==> CronJobFits(cj))
  }

  lemma EntitiesReadBack(view: View)
    ensures AllReadBack(ViewEntities(view)) <==> EntitiesFit(view)
  {
    var deps, svcs := DeploymentEntities(view.deployments), ServiceEntities(view.services);
    var jobs, cronJobs := JobEntities(view.jobs), CronJobEntities(view.cronJobs);
    AllReadBackConcat(deps + svcs + jobs, cronJobs);
    AllReadBackConcat(deps + svcs, jobs);
    AllReadBackConcat(deps, svcs);
    DeploymentsReadBack(view.deployments);
    ServicesReadBack(view.services);
    JobsReadBack(view.jobs);
    CronJobsReadBack(view.cronJobs);
  }

  /** The text of a namespace's entities determines them. */
  lemma EntitiesPrintApart(v: View, w: View)
    requires EntitiesFit(v) && EntitiesFit(w) && ForestText(ViewEntities(v)) == ForestText(ViewEntities(w))
    ensures ViewEntities(v) == ViewEntities(w)
  {
    EntitiesReadBack(v);
    EntitiesReadBack(w);
    ForestReadsBack(ViewEntities(v));
    ForestReadsBack(ViewEntities(w));
    JoinedForest(ViewEntities(v));
    JoinedForest(ViewEntities(w));
    PrintsApart(EachEntity(Joined, ViewEntities(v)), EachEntity(Joined, ViewEntities(w)));
  }
}

/** What a reader learns of a namespace from its document: each number, name and state read
    off the entities, alerts and actions is the cluster's own. */
module KubernetesShown {
  import opened Wrappers
  import opened Text
  import opened Sorting
  import opened Anf
  import opened AnfEncoder
  import opened AnfDecoder
  import opened KubernetesTranslator
  import opened KubernetesDocument

  // ----- Reading values -----

  predicate Digital(c: char) { '0' <= c <= '9' }

  function ReadInt(s: string): Option<int> {
    if s != "" && (s[0] == '-' || Digital(s[0])) && forall i :: 1 <= i < |s| ==> Digital(s[i])
    then Some(DecimalValue(s)) else None
  }

  /** A number followed by a unit. */
  function ReadUnit(s: string, unit: string): Option<int> {
    if HasSuffix(s, unit) then ReadInt(TrimSuffix(s, unit)) else None
  }

  /** Two numbers with a mark between them. */
  function ReadPair(s: string, mark: char): Option<(int, int)> {
    match Cut(s, mark)
    case None => None
    case Some(p) => match (ReadInt(p.0), ReadInt(p.1))
      case (Some(a), Some(b)) => Some((a, b))
      case _ => None
  }

  /** What stands under a key. */
  function Under(props: seq<Property>, key: string): Option<string> {
    if props == [] then None
    else if props[0].key == key then Some(props[0].value)
    else Under(props[1..], key)
  }

  function Number(props: seq<Property>, key: string, unit: string): Option<int> {
    match Under(props, key) case None => None case Some(v) => ReadUnit(v, unit)
  }

  function Pair(props: seq<Property>, key: string, mark: char): Option<(int, int)> {
    match Under(props, key) case None => None case Some(v) => ReadPair(v, mark)
  }

  lemma DecimalReads(n: int)
    ensures ReadInt(Decimal(n)) == Some(n)
  {
    DecimalDenotes(n);
  }

  lemma UnitReads(n: int, unit: string)
    ensures ReadUnit(Decimal(n) + unit, unit) == Some(n)
  {
    TrimSuffixOfAppend(Decimal(n), unit);
    DecimalReads(n);
  }

  lemma PairReads(a: int, b: int, mark: char)
    requires !Digital(mark) && mark != '-'
    ensures ReadPair(Decimal(a) + [mark] + Decimal(b), mark) == Some((a, b))
  {
    DecimalHasNo(a, mark);
    CutFinds(Decimal(a), mark, Decimal(b));
    DecimalReads(a);
    DecimalReads(b);
  }

  lemma {:induction false} UnderConcat(a: seq<Property>, b: seq<Property>, key: string)
    ensures Under(a + b, key) == if Under(a, key).Some? then Under(a, key) else Under(b, key)
  {
    if a == [] {
      assert a + b == b;
    } else {
      assert (a + b)[1..] == a[1..] + b;
      UnderConcat(a[1..], b, key);
    }
  }

  lemma UnderOne(p: Property, key: string)
    ensures Under([p], key) == if p.key == key then Some(p.value) else None
  {
  }

  function Given<T>(present: bool, value: T): Option<T> { if present then Some(value) else None }

  // ----- Deployments -----

  /** What stands behind the strategy, if it is set. */
  function Clause(lead: string, value: string): string { if value == "" then "" else lead + value }

  /** A part of the usage line with the blank that follows it. */
  function Metric(present: bool, text: string): string { if present then text + " " else "" }

  /** The usage line with a blank at its end: use of processor and memory, requests and
      errors, each left out when it is not positive. */
  function UsageLine(dep: Deployment): string {
    Metric(dep.cpuPercent > 0, "cpu " + Decimal(dep.cpuPercent) + "%") +
    Metric(dep.memPercent > 0, "mem " + Decimal(dep.memPercent) + "%") +
    Metric(dep.requestsPerSec.value > 0.0, "requests:" + dep.requestsPerSec.text + "/s") +
    Metric(dep.errorRate.value > 0.0, "errors:" + dep.errorRate.text + "%")
  }

  /** A property as a line with one blank at its end. */
  function LineOf(p: Property): string { p.key + " " + p.value + if p.value == "" then "" else " " }

  function StrategyShown(dep: Deployment): string {
    dep.strategy + Clause(" maxSurge:", dep.maxSurge) + Clause(" maxUnavail:", dep.maxUnavailable)
  }

  ghost predicate ShowsInline(dep: Deployment, inline: seq<Property>) {
    && Pair(inline, "replicas", '/') == Some((dep.readyReplicas, dep.replicas))
    && Number(inline, "age", "d") == Given(dep.ageDays > 0, dep.ageDays)
  }

  ghost predicate ShowsProps(dep: Deployment, props: seq<Property>) {
    && props != [] && props[0] == Property("image", dep.image)
    && var usage := if dep.strategy == "" then 1 else 2;
       && |props| == (if UsageLine(dep) == "" then usage else usage + 1)
       && (dep.strategy != "" ==> props[1] == Property("strategy", StrategyShown(dep)))
       && (UsageLine(dep) != "" ==> LineOf(props[usage]) == UsageLine(dep))
  }

  lemma InlineShows(dep: Deployment)
    ensures ShowsInline(dep, DeploymentInline(dep))
  {
    var replicas := Property("replicas", Fraction(dep.readyReplicas, dep.replicas));
    var age := if dep.ageDays > 0 then [Property("age", Decimal(dep.ageDays) + "d")] else [];
    PairReads(dep.readyReplicas, dep.replicas, '/');
    UnitReads(dep.ageDays, "d");
    UnderOne(replicas, "replicas");
    UnderOne(replicas, "age");
    UnderConcat([replicas], age, "replicas");
    UnderConcat([replicas], age, "age");
  }

  /** The parts of a line, each with a blank behind it. */
  function Trailed(parts: seq<string>): string { if parts == [] then "" else parts[0] + " " + Trailed(parts[1..]) }

  lemma {:induction false} TrailedConcat(a: seq<string>, b: seq<string>)
    ensures Trailed(a + b) == Trailed(a) + Trailed(b)
  {
    if a == [] {
      assert a + b == b;
    } else {
      assert (a + b)[1..] == a[1..] + b;
      TrailedConcat(a[1..], b);
    }
  }

  lemma TrailedOne(present: bool, text: string)
    ensures Trailed(if present then [text] else []) == Metric(present, text)
  {
    if present { assert [text][1..] == []; }
  }

  lemma {:induction false} TrailedJoin(parts: seq<string>)
    requires parts != []
    ensures Trailed(parts) == Join(parts, ' ') + " "
  {
    if |parts| == 1 {
    } else {
      TrailedJoin(parts[1..]);
    }
  }

  lemma PartsTrail(dep: Deployment)
    ensures Trailed(UsageParts(dep)) == UsageLine(dep)
  {
    var requests := if dep.requestsPerSec.value > 0.0 then ["requests:" + dep.requestsPerSec.text + "/s"] else [];
    var errors := if dep.errorRate.value > 0.0 then ["errors:" + dep.errorRate.text + "%"] else [];
    LoadTrails(dep);
    TrailedConcat(LoadParts(dep) + requests, errors);
    TrailedConcat(LoadParts(dep), requests);
    TrailedOne(dep.requestsPerSec.value > 0.0, "requests:" + dep.requestsPerSec.text + "/s");
    TrailedOne(dep.errorRate.value > 0.0, "errors:" + dep.errorRate.text + "%");
  }

  lemma LoadTrails(dep: Deployment)
    ensures Trailed(LoadParts(dep)) == Metric(dep.cpuPercent > 0, "cpu " + Decimal(dep.cpuPercent) + "%") +
                                       Metric(dep.memPercent > 0, "mem " + Decimal(dep.memPercent) + "%")
  {
    PercentAfter("cpu ", dep.cpuPercent);
    PercentAfter("mem ", dep.memPercent);
    TrailedOne(dep.cpuPercent > 0, "cpu " + Percent(dep.cpuPercent));
    TrailedOne(dep.memPercent > 0, "mem " + Percent(dep.memPercent));
    TrailedConcat(if dep.cpuPercent > 0 then ["cpu " + Percent(dep.cpuPercent)] else [],
                  if dep.memPercent > 0 then ["mem " + Percent(dep.memPercent)] else []);
  }

  lemma PercentAfter(lead: string, n: int)
    ensures lead + Percent(n) == lead + Decimal(n) + "%"
  {
  }

  lemma UsageShows(parts: seq<string>)
    requires parts != [] && forall w :: w in parts ==> w != ""
    ensures |UsageProps(parts)| == 1 && LineOf(UsageProps(parts)[0]) == Trailed(parts)
  {
    if |parts| > 1 {
      TrailedJoin(parts[1..]);
      assert parts[1] in parts;
    } else {
      assert parts[1..] == [];
    }
  }

  lemma DeploymentPropsShow(dep: Deployment)
    ensures ShowsProps(dep, DeploymentProps(dep))
  {
    var parts := UsageParts(dep);
    PartsTrail(dep);
    assert parts == [] ==> Trailed(parts) == "";
    assert parts != [] ==> |Trailed(parts)| > 0;
    if parts != [] { UsageShows(parts); }
  }

  /** Failing when nothing of what should run is ready; degraded when only part of it is, when
      memory or processor use passes 80%, or when a pod restarted more than twice in a day
      or uses more than 90% of its memory; healthy otherwise. */
  ghost predicate ShowsState(dep: Deployment, status: string) {
    && (status == "failing" <==> dep.readyReplicas == 0 < dep.replicas)
    && (status == "healthy" <==>
         dep.readyReplicas >= dep.replicas && dep.memPercent <= 80 && dep.cpuPercent <= 80 &&
         forall pod :: pod in dep.pods ==> pod.restarts24h <= 2 && pod.memPercent <= 90)
    && status in ["failing", "healthy", "degraded"]
  }

  lemma StateShows(dep: Deployment)
    ensures ShowsState(dep, DeploymentStatus(dep))
  {
    if pod :| pod in dep.pods && PodStruggles(pod) { assert pod.restarts24h > 2 || pod.memPercent > 90; }
    assert forall pod :: pod in dep.pods ==> (PodStruggles(pod) <==> !(pod.restarts24h <= 2 && pod.memPercent <= 90));
  }

  /** The phase, in whatever case, names the state. */
  ghost predicate ShowsPhase(phase: string, status: string) {
    var p := ToLower(phase);
    && (status == "running" <==> p == "running") && (status == "pending" <==> p == "pending")
    && (status == "failing" <==> p == "failed") && (status == "completed" <==> p == "succeeded")
    && (status == "unknown" <==> p !in ["running", "pending", "failed", "succeeded"])
  }

  ghost predicate ShowsPod(pod: Pod, e: Entity) {
    && e.kind == "pod" && e.name == pod.name && ShowsPhase(pod.phase, e.status)
    && Under(e.inline, "node") == Given(pod.node != "", pod.node)
    && Number(e.inline, "cpu", "%") == Given(pod.cpuPercent > 0, pod.cpuPercent)
    && Number(e.inline, "mem", "%") == Given(pod.memPercent > 0, pod.memPercent)
    && Number(e.inline, "restarts", "") == Some(pod.restarts)
    && e.props == [] && e.children == []
  }

  lemma PhaseShows(pod: Pod)
    ensures ShowsPhase(pod.phase, PodStatus(pod))
  {
  }

  /** A property that is there only sometimes. */
  function Maybe(present: bool, key: string, value: string): seq<Property> { if present then [Property(key, value)] else [] }

  lemma UnderMaybe(present: bool, key: string, value: string, k: string)
    ensures Under(Maybe(present, key, value), k) == Given(present && key == k, value)
  {
    UnderOne(Property(key, value), k);
  }

  /** Of properties with different keys each is found under its own. */
  lemma UnderThree(a: seq<Property>, b: seq<Property>, c: seq<Property>, k: string)
    ensures Under(a + b + c, k) ==
            if Under(a, k).Some? then Under(a, k) else if Under(b, k).Some? then Under(b, k) else Under(c, k)
  {
    UnderConcat(a + b, c, k);
    UnderConcat(a, b, k);
  }

  lemma PodInlineUnder(pod: Pod, k: string)
    ensures Under(PodInline(pod), k) ==
            if k == "node" then Given(pod.node != "", pod.node)
            else if k == "cpu" then Given(pod.cpuPercent > 0, Percent(pod.cpuPercent))
            else if k == "mem" then Given(pod.memPercent > 0, Percent(pod.memPercent))
            else Given(k == "restarts", Decimal(pod.restarts))
  {
    var node := Maybe(pod.node != "", "node", pod.node);
    var cpu := Maybe(pod.cpuPercent > 0, "cpu", Percent(pod.cpuPercent));
    var mem := Maybe(pod.memPercent > 0, "mem", Percent(pod.memPercent));
    var restarts := Property("restarts", Decimal(pod.restarts));
    assert PodInline(pod) == (node + cpu + mem) + [restarts];
    UnderConcat(node + cpu + mem, [restarts], k);
    UnderThree(node, cpu, mem, k);
    UnderMaybe(pod.node != "", "node", pod.node, k);
    UnderMaybe(pod.cpuPercent > 0, "cpu", Percent(pod.cpuPercent), k);
    UnderMaybe(pod.memPercent > 0, "mem", Percent(pod.memPercent), k);
    UnderOne(restarts, k);
  }

  lemma PlainNumber(n: int)
    ensures ReadUnit(Decimal(n), "") == Some(n)
  {
    UnitReads(n, "");
    assert Decimal(n) + "" == Decimal(n);
  }

  lemma PodShows(pod: Pod)
    ensures ShowsPod(pod, PodEntity(pod))
  {
    PhaseShows(pod);
    PodInlineUnder(pod, "node");
    PodInlineUnder(pod, "cpu");
    PodInlineUnder(pod, "mem");
    PodInlineUnder(pod, "restarts");
    UnitReads(pod.cpuPercent, "%");
    UnitReads(pod.memPercent, "%");
    PlainNumber(pod.restarts);
  }

  /** The entity of a deployment shows it, and its children show its pods in order. */
  ghost predicate ShowsDeployment(dep: Deployment, e: Entity) {
    && e.kind == "deployment" && e.name == dep.name && ShowsState(dep, e.status)
    && ShowsInline(dep, e.inline) && ShowsProps(dep, e.props)
    && |e.children| == |dep.pods| && forall i :: 0 <= i < |dep.pods| ==> ShowsPod(dep.pods[i], e.children[i])
  }

  lemma DeploymentShows(dep: Deployment)
    ensures ShowsDeployment(dep, DeploymentEntity(dep))
  {
    StateShows(dep);
    InlineShows(dep);
    DeploymentPropsShow(dep);
    forall i | 0 <= i < |dep.pods| ensures ShowsPod(dep.pods[i], PodEntities(dep.pods)[i]) {
      PodEntityAt(dep.pods, i);
      PodShows(dep.pods[i]);
    }
  }

  // ----- Services, jobs and cron jobs -----

  ghost predicate ShowsService(svc: Service, e: Entity) {
    && e.kind == "service" && e.name == svc.name && e.status == "" && e.children == []
    && Pair(e.inline, "ports", '>') == Given(svc.port > 0 && svc.targetPort > 0, (svc.port, svc.targetPort))
    && Pair(e.inline, "endpoints", '/') == Given(svc.totalPods > 0, (svc.endpoints, svc.totalPods))
    && e.props == [Property("type", svc.kind)]
  }

  lemma ServiceShows(svc: Service)
    ensures ShowsService(svc, ServiceEntity(svc))
  {
    var ports := Maybe(svc.port > 0 && svc.targetPort > 0, "ports", Decimal(svc.port) + ">" + Decimal(svc.targetPort));
    var endpoints := Maybe(svc.totalPods > 0, "endpoints", Fraction(svc.endpoints, svc.totalPods));
    assert ServiceEntity(svc).inline == ports + endpoints;
    PairReads(svc.port, svc.targetPort, '>');
    PairReads(svc.endpoints, svc.totalPods, '/');
    UnderConcat(ports, endpoints, "ports");
    UnderConcat(ports, endpoints, "endpoints");
    UnderMaybe(svc.port > 0 && svc.targetPort > 0, "ports", Decimal(svc.port) + ">" + Decimal(svc.targetPort), "ports");
    UnderMaybe(svc.port > 0 && svc.targetPort > 0, "ports", Decimal(svc.port) + ">" + Decimal(svc.targetPort), "endpoints");
    UnderMaybe(svc.totalPods > 0, "endpoints", Fraction(svc.endpoints, svc.totalPods), "ports");
    UnderMaybe(svc.totalPods > 0, "endpoints", Fraction(svc.endpoints, svc.totalPods), "endpoints");
  }

  /** Seconds in a unit of the short form. */
  function UnitLength(unit: char): Option<int> {
    match unit case 'd' => Some(86400) case 'h' => Some(3600) case 'm' => Some(60) case 's' => Some(1) case _ => None
  }

  /** The text counts whole units of the largest kind that fits, the rest dropped. */
  ghost predicate Counts(text: string, nanoseconds: int) {
    exists n: int, unit: char :: CountsIn(text, n, unit, nanoseconds)
  }

  predicate CountsIn(text: string, n: int, unit: char, nanoseconds: int) {
    && text == Decimal(n) + [unit] && UnitLength(unit).Some?
    && var length := UnitLength(unit).value * SECOND;
       && n * length <= nanoseconds < (n + 1) * length
       && (nanoseconds >= 86400 * SECOND ==> unit == 'd')
       && (3600 * SECOND <= nanoseconds < 86400 * SECOND ==> unit == 'h')
       && (60 * SECOND <= nanoseconds < 3600 * SECOND ==> unit == 'm')
       && (nanoseconds < 60 * SECOND ==> unit == 's')
  }

  lemma WholeUnits(d: int, length: int)
    requires length > 0
    ensures (d / length) * length <= d < (d / length + 1) * length
  {
  }

  lemma DurationCounts(d: int)
    ensures Counts(CompactDuration(d), d)
  {
    if d >= 86400 * SECOND {
      WholeUnits(d, 86400 * SECOND);
      assert CountsIn(CompactDuration(d), d / (86400 * SECOND), 'd', d);
    } else if d >= 3600 * SECOND {
      WholeUnits(d, 3600 * SECOND);
      assert CountsIn(CompactDuration(d), d / (3600 * SECOND), 'h', d);
    } else if d >= 60 * SECOND {
      WholeUnits(d, 60 * SECOND);
      assert CountsIn(CompactDuration(d), d / (60 * SECOND), 'm', d);
    } else {
      WholeUnits(d, SECOND);
      assert CountsIn(CompactDuration(d), d / SECOND, 's', d);
    }
  }

  ghost predicate ShowsJob(job: Job, e: Entity) {
    && e.kind == "job" && e.name == job.name && e.props == [] && e.children == []
    && (e.status == "running" <==> !job.completed)
    && (e.status == "completed" <==> job.completed && job.succeeded)
    && (e.status == "failing" <==> job.completed && !job.succeeded)
    && Under(e.inline, "last") == job.lastRun
    && (Under(e.inline, "duration").Some? <==> job.duration > 0)
    && (job.duration > 0 ==> Counts(Under(e.inline, "duration").value, job.duration))
  }

  lemma TimeUnder(key: string, time: Option<string>, k: string)
    ensures Under(if time.Some? then [Property(key, time.value)] else [], k) == if key == k then time else None
  {
    if time.Some? { UnderOne(Property(key, time.value), k); }
  }

  lemma JobShows(job: Job)
    ensures ShowsJob(job, JobEntity(job))
  {
    var last := if job.lastRun.Some? then [Property("last", job.lastRun.value)] else [];
    var duration := Maybe(job.duration > 0, "duration", CompactDuration(job.duration));
    assert JobEntity(job).inline == last + duration;
    DurationCounts(job.duration);
    UnderConcat(last, duration, "last");
    UnderConcat(last, duration, "duration");
    TimeUnder("last", job.lastRun, "last");
    TimeUnder("last", job.lastRun, "duration");
    UnderMaybe(job.duration > 0, "duration", CompactDuration(job.duration), "last");
    UnderMaybe(job.duration > 0, "duration", CompactDuration(job.duration), "duration");
  }

  ghost predicate ShowsCronJob(cj: CronJob, e: Entity) {
    && e.kind == "cronjob" && e.name == cj.name && e.status == "" && e.props == [] && e.children == []
    && Under(e.inline, "schedule") == Some(cj.schedule)
    && Under(e.inline, "last-run") == cj.lastRun && Under(e.inline, "next") == cj.nextRun
  }

  lemma CronJobUnder(cj: CronJob, k: string)
    ensures Under(CronJobEntity(cj).inline, k) ==
            if k == "schedule" then Some(cj.schedule) else if k == "last-run" then cj.lastRun
            else if k == "next" then cj.nextRun else None
  {
    var last := if cj.lastRun.Some? then [Property("last-run", cj.lastRun.value)] else [];
    var next := if cj.nextRun.Some? then [Property("next", cj.nextRun.value)] else [];
    UnderThree([Property("schedule", cj.schedule)], last, next, k);
    UnderOne(Property("schedule", cj.schedule), k);
    TimeUnder("last-run", cj.lastRun, k);
    TimeUnder("next", cj.nextRun, k);
  }

  lemma CronJobShows(cj: CronJob)
    ensures ShowsCronJob(cj, CronJobEntity(cj))
  {
    CronJobUnder(cj, "schedule");
    CronJobUnder(cj, "last-run");
    CronJobUnder(cj, "next");
  }

  // ----- Alerts -----

  /** The alerts a deployment's own numbers call for. */
  ghost predicate CalledFor(dep: Deployment, a: Alert) {
    a.kind == "deployment" && a.name == dep.name &&
    match a.severity
    case "critical" =>
      dep.readyReplicas < dep.replicas && a.props == map[] &&
      a.message == "replicas:" + Decimal(dep.readyReplicas) + "/" + Decimal(dep.replicas)
    case "warning" =>
      a.props == map["threshold" := "80%"] &&
      ((dep.memPercent > 80 && a.message == "mem:" + Decimal(dep.memPercent) + "%") ||
       (dep.cpuPercent > 80 && a.message == "cpu:" + Decimal(dep.cpuPercent) + "%"))
    case "info" =>
      dep.latestImage !in ["", dep.image] && a.message == "image-outdated" &&
      a.props == map["current" := dep.image, "latest" := dep.latestImage]
    case _ => false
  }

  /** And those a pod's call for. */
  ghost predicate CalledForPod(pod: Pod, a: Alert) {
    a.kind == "pod" && a.name == pod.name &&
    match a.severity
    case "critical" =>
      pod.memPercent > 90 && a.props == map["threshold" := "90%"] && a.message == "mem:" + Decimal(pod.memPercent) + "%"
    case "warning" =>
      pod.restarts24h > 2 && a.props == map["threshold" := "2"] && a.message == "restarts:" + Decimal(pod.restarts24h) + "/24h"
    case _ => false
  }

  lemma LoadAlertsCalledFor(dep: Deployment, a: Alert)
    ensures a in MemoryAlerts(dep) || a in CpuAlerts(dep) <==> CalledFor(dep, a) && a.severity == "warning"
  {
    PercentAfter("mem:", dep.memPercent);
    PercentAfter("cpu:", dep.cpuPercent);
  }

  lemma OwnAlertsCalledFor(dep: Deployment, a: Alert)
    ensures a in OwnAlerts(dep) <==> CalledFor(dep, a)
  {
    LoadAlertsCalledFor(dep, a);
    assert a in ReplicaAlerts(dep) <==> CalledFor(dep, a) && a.severity == "critical";
    assert a in ImageAlerts(dep) <==> CalledFor(dep, a) && a.severity == "info";
  }

  lemma {:induction false} PodAlertsCalledFor(pods: seq<Pod>, a: Alert)
    ensures a in AllPodAlerts(pods) <==> exists pod :: pod in pods && CalledForPod(pod, a)
  {
    if pods == [] {
    } else {
      PodAlertsCalledFor(pods[1..], a);
      PercentAfter("mem:", pods[0].memPercent);
      assert a in PodAlerts(pods[0]) <==> CalledForPod(pods[0], a);
      assert forall pod :: pod in pods <==> pod == pods[0] || pod in pods[1..];
    }
  }

  /** Something in the deployment calls for the alert. */
  ghost predicate Warrants(dep: Deployment, a: Alert) {
    CalledFor(dep, a) || exists pod :: pod in dep.pods && CalledForPod(pod, a)
  }

  lemma AlertsOfWarranted(dep: Deployment, a: Alert)
    ensures a in AlertsOf(dep) <==> Warrants(dep, a)
  {
    OwnAlertsCalledFor(dep, a);
    PodAlertsCalledFor(dep.pods, a);
  }

  /** The alerts are exactly those the deployments and pods call for. */
  ghost predicate AlertsRight(deps: seq<Deployment>, alerts: seq<Alert>) {
    forall a :: a in alerts <==> exists i :: 0 <= i < |deps| && Warrants(deps[i], a)
  }

  lemma AlertsWarranted(view: View, now: string, doc: Document)
    requires IsTranslation(view, now, doc)
    ensures AlertsRight(view.deployments, doc.alerts)
  {
    var deps := view.deployments;
    SameAlerts(RawAlerts(deps), doc.alerts);
    forall a ensures a in doc.alerts <==> exists i :: 0 <= i < |deps| && Warrants(deps[i], a) {
      RawAlertsAre(deps, a);
      forall i | 0 <= i < |deps| ensures a in AlertsOf(deps[i]) <==> Warrants(deps[i], a) { AlertsOfWarranted(deps[i], a); }
    }
  }

  function Flag(b: bool): nat { if b then 1 else 0 }

  function PodTroubles(pods: seq<Pod>): nat {
    if pods == [] then 0 else Flag(pods[0].restarts24h > 2) + Flag(pods[0].memPercent > 90) + PodTroubles(pods[1..])
  }

  /** How many alerts the deployments and pods call for. */
  function Troubles(deps: seq<Deployment>): nat {
    if deps == [] then 0
    else
      Flag(deps[0].memPercent > 80) + Flag(deps[0].cpuPercent > 80) + Flag(deps[0].readyReplicas < deps[0].replicas) +
      Flag(deps[0].latestImage !in ["", deps[0].image]) + PodTroubles(deps[0].pods) + Troubles(deps[1..])
  }

  lemma {:induction false} PodAlertsCounted(pods: seq<Pod>)
    ensures |AllPodAlerts(pods)| == PodTroubles(pods)
  {
    if pods == [] {
    } else {
      PodAlertsCounted(pods[1..]);
    }
  }

  /** Each is raised once. */
  lemma {:induction false} AlertsCounted(deps: seq<Deployment>)
    ensures |RawAlerts(deps)| == Troubles(deps)
  {
    if deps == [] {
    } else {
      PodAlertsCounted(deps[0].pods);
      AlertsCounted(deps[1..]);
    }
  }

  lemma AsMany(found: seq<Alert>, listed: seq<Alert>)
    requires multiset(found) == multiset(listed)
    ensures |found| == |listed|
  {
    assert |multiset(found)| == |found| && |multiset(listed)| == |listed|;
  }

  // ----- Actions -----

  /** What an agent may do with a deployment: scale it, roll out its latest image if that
      is another, restart it. */
  function OwnOffers(dep: Deployment, may: Permissions): seq<Action> {
    Offer(may.canScale, Action("scale", "deployment", dep.name, map["current" := Decimal(dep.replicas), "range" := "1-10"])) +
    Offer(may.canRollout && dep.latestImage !in ["", dep.image],
          Action("rollout", "deployment", dep.name, map["to" := dep.latestImage, "strategy" := dep.strategy])) +
    Offer(may.canRestart, Action("restart", "deployment", dep.name, map[]))
  }

  function Offer(allowed: bool, a: Action): seq<Action> { if allowed then [a] else [] }

  /** With a pod: read its logs. */
  function PodOffers(pods: seq<Pod>, may: Permissions): seq<Action> {
    if may.canLogs then seq(|pods|, i requires 0 <= i < |pods| => Action("logs", "pod", pods[i].name, map["since" := "1h"]))
    else []
  }

  lemma {:induction false} PodActionsOffered(pods: seq<Pod>, may: Permissions)
    ensures PodActions(pods, may) == PodOffers(pods, may)
  {
    if pods == [] {
    } else {
      PodActionsOffered(pods[1..], may);
    }
  }

  lemma ActionsOfOffered(dep: Deployment, may: Permissions)
    ensures ActionsOf(dep, may) == OwnOffers(dep, may) + PodOffers(dep.pods, may)
  {
    PodActionsOffered(dep.pods, may);
    assert OwnActions(dep, may) == OwnOffers(dep, may);
  }

  /** What is offered for each deployment, with its pods. */
  function Offers(deps: seq<Deployment>, may: Permissions): seq<seq<Action>> {
    seq(|deps|, i requires 0 <= i < |deps| => OwnOffers(deps[i], may) + PodOffers(deps[i].pods, may))
  }

  lemma PartsOffered(deps: seq<Deployment>, may: Permissions)
    ensures ActionParts(deps, may) == Offers(deps, may)
  {
    forall i | 0 <= i < |deps| ensures ActionParts(deps, may)[i] == Offers(deps, may)[i] { ActionsOfOffered(deps[i], may); }
  }

  /** The actions of the document are those offered, deployment by deployment. */
  lemma ActionsOffered(view: View, now: string, doc: Document)
    requires IsTranslation(view, now, doc)
    ensures doc.actions == Flat(Offers(view.deployments, view.permissions))
  {
    ActionsAreFlat(view.deployments, view.permissions);
    PartsOffered(view.deployments, view.permissions);
  }

  // ----- The whole document -----

  ghost predicate ShowsHeaders(view: View, now: string, hs: seq<Header>) {
    hs == [Header("source", "kubernetes/" + view.cluster), Header("scope", "namespace:" + view.ns), Header("time", now),
           Header("ttl", "1m"), Header("translator", TRANSLATOR_VERSION)]
  }

  ghost predicate DeploymentsShown(deps: seq<Deployment>, es: seq<Entity>) {
    |es| == |deps| && forall i :: 0 <= i < |deps| ==> ShowsDeployment(deps[i], es[i])
  }

  ghost predicate ServicesShown(svcs: seq<Service>, es: seq<Entity>) {
    |es| == |svcs| && forall i :: 0 <= i < |svcs| ==> ShowsService(svcs[i], es[i])
  }

  ghost predicate JobsShown(jobs: seq<Job>, es: seq<Entity>) {
    |es| == |jobs| && forall i :: 0 <= i < |jobs| ==> ShowsJob(jobs[i], es[i])
  }

  ghost predicate CronJobsShown(cjs: seq<CronJob>, es: seq<Entity>) {
    |es| == |cjs| && forall i :: 0 <= i < |cjs| ==> ShowsCronJob(cjs[i], es[i])
  }

  /** Deployments come first, then services, jobs and cron jobs, each kind in its order. */
  ghost predicate EntitiesShow(view: View, es: seq<Entity>) {
    var d, s, j := |view.deployments|, |view.services|, |view.jobs|;
    && |es| == d + s + j + |view.cronJobs|
    && DeploymentsShown(view.deployments, es[..d]) && ServicesShown(view.services, es[d..d + s])
    && JobsShown(view.jobs, es[d + s..d + s + j]) && CronJobsShown(view.cronJobs, es[d + s + j..])
  }

  ghost predicate ShowsView(view: View, now: string, doc: Document) {
    && ShowsHeaders(view, now, doc.headers) && EntitiesShow(view, doc.entities)
    && AlertsRight(view.deployments, doc.alerts) && |doc.alerts| == Troubles(view.deployments)
    && doc.actions == Flat(Offers(view.deployments, view.permissions))
  }

  lemma DeploymentsShow(deps: seq<Deployment>)
    ensures DeploymentsShown(deps, DeploymentEntities(deps))
  {
    forall i | 0 <= i < |deps| ensures ShowsDeployment(deps[i], DeploymentEntities(deps)[i]) {
      DeploymentEntityAt(deps, i);
      DeploymentShows(deps[i]);
    }
  }

  lemma {:induction false} ServicesShow(svcs: seq<Service>)
    ensures ServicesShown(svcs, ServiceEntities(svcs))
  {
    if svcs == [] {
    } else {
      ServiceShows(svcs[0]);
      ServicesShow(svcs[1..]);
    }
  }

  lemma {:induction false} JobsShow(jobs: seq<Job>)
    ensures JobsShown(jobs, JobEntities(jobs))
  {
    if jobs == [] {
    } else {
      JobShows(jobs[0]);
      JobsShow(jobs[1..]);
    }
  }

  lemma {:induction false} CronJobsShow(cjs: seq<CronJob>)
    ensures CronJobsShown(cjs, CronJobEntities(cjs))
  {
    if cjs == [] {
    } else {
      CronJobShows(cjs[0]);
      CronJobsShow(cjs[1..]);
    }
  }

  lemma HeadersShow(view: View, now: string)
    ensures ShowsHeaders(view, now, ViewHeaders(view, now))
  {
    assert FormatDuration(60) == "1m" by { assert Decimal(1) == "1"; }
  }

  lemma FourParts<T>(a: seq<T>, b: seq<T>, c: seq<T>, d: seq<T>)
    ensures var s := a + b + c + d;
      && s[..|a|] == a && s[|a|..|a| + |b|] == b
      && s[|a| + |b|..|a| + |b| + |c|] == c && s[|a| + |b| + |c|..] == d
  {
  }

  lemma PartsShow(view: View, a: seq<Entity>, b: seq<Entity>, c: seq<Entity>, d: seq<Entity>)
    requires DeploymentsShown(view.deployments, a) && ServicesShown(view.services, b)
    requires JobsShown(view.jobs, c) && CronJobsShown(view.cronJobs, d)
    ensures EntitiesShow(view, a + b + c + d)
  {
    FourParts(a, b, c, d);
  }

  lemma EntitiesShown(view: View)
    ensures EntitiesShow(view, ViewEntities(view))
  {
    DeploymentsShow(view.deployments);
    ServicesShow(view.services);
    JobsShow(view.jobs);
    CronJobsShow(view.cronJobs);
    PartsShow(view, DeploymentEntities(view.deployments), ServiceEntities(view.services), JobEntities(view.jobs),
              CronJobEntities(view.cronJobs));
  }

  /** Every deployment, pod, service, job and cron job of the namespace is shown with its own
      numbers and state in its own place, with the alerts and actions it calls for. */
  lemma ViewShown(view: View, now: string, doc: Document)
    requires IsTranslation(view, now, doc)
    ensures ShowsView(view, now, doc)
  {
    HeadersShow(view, now);
    EntitiesShown(view);
    AlertsWarranted(view, now, doc);
    AlertsCounted(view.deployments);
    AsMany(RawAlerts(view.deployments), doc.alerts);
    ActionsOffered(view, now, doc);
  }

  /** And so it is by the text: whoever decodes what is printed reads the cluster's state
      off it. */
  lemma TextShowsView(view: View, now: string, doc: Document)
    requires IsTranslation(view, now, doc) && ViewFits(view, now)
    ensures var read := DecodeView(DocumentText(doc)); read.Some? && ShowsView(view, now, read.value)
  {
    ViewReadsBack(view, now, doc);
    ViewShown(view, now, doc);
  }
}

/** From a namespace's objects to ANF (translators/kubernetes/translator.go). */
module KubernetesTranslator {
  import opened Wrappers
  import opened Text
  import opened Sorting
  import opened Anf

  // ----- The input -----

  /** A measured quantity and how it prints, which Go's formatting of floating point
      fixes and this model leaves open. */
  datatype Gauge = Gauge(value: real, text: string)

  datatype Pod = Pod(
    name: string,
    phase: string,
    node: string,
    cpuPercent: int,
    memPercent: int,
    restarts: int,
    restarts24h: int)

  datatype Deployment = Deployment(
    name: string,
    replicas: int,
    readyReplicas: int,
    image: string,
    strategy: string,
    maxSurge: string,
    maxUnavailable: string,
    ageDays: int,
    cpuPercent: int,
    memPercent: int,
    requestsPerSec: Gauge,
    errorRate: Gauge,
    pods: seq<Pod>,
    latestImage: string)

  datatype Service = Service(name: string, kind: string, port: int, targetPort: int, endpoints: int, totalPods: int)

  /** Times come printed, or not at all; a duration counts nanoseconds. */
  datatype Job = Job(name: string, completed: bool, lastRun: Option<string>, duration: int, succeeded: bool)

  datatype CronJob = CronJob(name: string, schedule: string, lastRun: Option<string>, nextRun: Option<string>)

  datatype Permissions = Permissions(canScale: bool, canRollout: bool, canRestart: bool, canLogs: bool)

  datatype View = View(
    cluster: string,
    ns: string,
    deployments: seq<Deployment>,
    services: seq<Service>,
    jobs: seq<Job>,
    cronJobs: seq<CronJob>,
    permissions: Permissions)

  // ----- Words of the format -----

  const HEALTHY := "healthy"
  const DEGRADED := "degraded"
  const FAILING := "failing"
  const PENDING := "pending"
  const RUNNING := "running"
  const COMPLETED := "completed"
  const UNKNOWN := "unknown"

  const CRITICAL := "critical"
  const WARNING := "warning"
  const INFO := "info"

  const DEPLOYMENT := "deployment"
  const POD := "pod"

  function SeverityRank(s: string): int {
    if s == CRITICAL then 0 else if s == WARNING then 1 else if s == INFO then 2 else 3
  }

  predicate BySeverity(a: Alert, b: Alert) { SeverityRank(a.severity) <= SeverityRank(b.severity) }

  // ----- Status -----

  predicate PodStruggles(pod: Pod) { pod.restarts24h > 2 || pod.memPercent > 90 }

  function DeploymentStatus(dep: Deployment): string {
    if dep.readyReplicas == 0 && dep.replicas > 0 then FAILING
    else if dep.readyReplicas < dep.replicas then DEGRADED
    else if dep.memPercent > 80 || dep.cpuPercent > 80 then DEGRADED
    else if exists pod :: pod in dep.pods && PodStruggles(pod) then DEGRADED
    else HEALTHY
  }

  method StatusOf(dep: Deployment) returns (status: string)
    ensures status == DeploymentStatus(dep)
  {
    if dep.readyReplicas == 0 && dep.replicas > 0 {
      return FAILING;
    }
    if dep.readyReplicas < dep.replicas {
      return DEGRADED;
    }
    if dep.memPercent > 80 || dep.cpuPercent > 80 {
      return DEGRADED;
    }
    for i := 0 to |dep.pods|
      invariant forall k :: 0 <= k < i ==> !PodStruggles(dep.pods[k])
    {
      if PodStruggles(dep.pods[i]) {
        return DEGRADED;
      }
    }
    return HEALTHY;
  }

  function PodStatus(pod: Pod): string {
    var phase := ToLower(pod.phase);
    if phase == "running" then RUNNING
    else if phase == "pending" then PENDING
    else if phase == "failed" then FAILING
    else if phase == "succeeded" then COMPLETED
    else UNKNOWN
  }

  // ----- Alerts -----

  function Percent(n: int): string { Decimal(n) + "%" }

  function Outdated(dep: Deployment): bool { dep.latestImage != "" && dep.latestImage != dep.image }

  function DeploymentAlert(dep: Deployment, severity: string, message: string, props: map<string, string>): Alert {
    Alert(severity, DEPLOYMENT, dep.name, message, props)
  }

  function MemoryAlerts(dep: Deployment): seq<Alert> {
    if dep.memPercent > 80
    then [DeploymentAlert(dep, WARNING, "mem:" + Percent(dep.memPercent), map["threshold" := "80%"])] else []
  }

  function CpuAlerts(dep: Deployment): seq<Alert> {
    if dep.cpuPercent > 80
    then [DeploymentAlert(dep, WARNING, "cpu:" + Percent(dep.cpuPercent), map["threshold" := "80%"])] else []
  }

  function ReplicaAlerts(dep: Deployment): seq<Alert> {
    if dep.readyReplicas < dep.replicas then [DeploymentAlert(dep, CRITICAL, ReplicasMessage(dep), map[])] else []
  }

  function ImageAlerts(dep: Deployment): seq<Alert> {
    if Outdated(dep)
    then [DeploymentAlert(dep, INFO, "image-outdated", map["current" := dep.image, "latest" := dep.latestImage])] else []
  }

  function OwnAlerts(dep: Deployment): seq<Alert> {
    MemoryAlerts(dep) + CpuAlerts(dep) + ReplicaAlerts(dep) + ImageAlerts(dep)
  }

  function ReplicasMessage(dep: Deployment): string {
    "replicas:" + Decimal(dep.readyReplicas) + "/" + Decimal(dep.replicas)
  }

  function RestartAlerts(pod: Pod): seq<Alert> {
    if pod.restarts24h > 2
    then [Alert(WARNING, POD, pod.name, "restarts:" + Decimal(pod.restarts24h) + "/24h", map["threshold" := "2"])] else []
  }

  function PodMemoryAlerts(pod: Pod): seq<Alert> {
    if pod.memPercent > 90
    then [Alert(CRITICAL, POD, pod.name, "mem:" + Percent(pod.memPercent), map["threshold" := "90%"])] else []
  }

  function PodAlerts(pod: Pod): seq<Alert> { RestartAlerts(pod) + PodMemoryAlerts(pod) }

  function AllPodAlerts(pods: seq<Pod>): seq<Alert> {
    if pods == [] then [] else PodAlerts(pods[0]) + AllPodAlerts(pods[1..])
  }

  function AlertsOf(dep: Deployment): seq<Alert> { OwnAlerts(dep) + AllPodAlerts(dep.pods) }

  /** All alerts, in the order they are found. */
  function RawAlerts(deps: seq<Deployment>): seq<Alert> {
    if deps == [] then [] else AlertsOf(deps[0]) + RawAlerts(deps[1..])
  }

  lemma BySeverityIsPreorder()
    ensures TotalPreorder(BySeverity)
  {
  }

  lemma PodAlertsStep(pods: seq<Pod>, i: nat, alerts: seq<Alert>)
    requires i < |pods|
    ensures alerts + AllPodAlerts(pods[i..]) == (alerts + PodAlerts(pods[i])) + AllPodAlerts(pods[i + 1..])
  {
    assert pods[i..][1..] == pods[i + 1..];
  }

  method AddPodAlerts(pods: seq<Pod>, alerts0: seq<Alert>) returns (alerts: seq<Alert>)
    ensures alerts == alerts0 + AllPodAlerts(pods)
  {
    alerts := alerts0;
    assert pods[0..] == pods;
    for i := 0 to |pods|
      invariant alerts + AllPodAlerts(pods[i..]) == alerts0 + AllPodAlerts(pods)
    {
      PodAlertsStep(pods, i, alerts);
      alerts := alerts + PodAlerts(pods[i]);
    }
    assert alerts + [] == alerts;
  }

  lemma RawAlertsStep(deps: seq<Deployment>, i: nat, alerts: seq<Alert>)
    requires i < |deps|
    ensures alerts + RawAlerts(deps[i..]) ==
            ((alerts + OwnAlerts(deps[i])) + AllPodAlerts(deps[i].pods)) + RawAlerts(deps[i + 1..])
  {
    var own, pods, later := OwnAlerts(deps[i]), AllPodAlerts(deps[i].pods), RawAlerts(deps[i + 1..]);
    assert deps[i..][1..] == deps[i + 1..];
    AppendThree(alerts, own, pods, later);
  }

  lemma AppendThree<T>(a: seq<T>, b: seq<T>, c: seq<T>, d: seq<T>)
    ensures a + ((b + c) + d) == ((a + b) + c) + d
  {
  }

  method FindAlerts(deps: seq<Deployment>) returns (alerts: seq<Alert>)
    ensures alerts == RawAlerts(deps)
  {
    alerts := [];
    assert deps[0..] == deps;
    for i := 0 to |deps|
      invariant alerts + RawAlerts(deps[i..]) == RawAlerts(deps)
    {
      RawAlertsStep(deps, i, alerts);
      alerts := alerts + OwnAlerts(deps[i]);
      alerts := AddPodAlerts(deps[i].pods, alerts);
    }
    assert alerts + [] == alerts;
  }

  /** The sort is not stable, so the order within a severity is left open. */
  method DeriveAlerts(deps: seq<Deployment>) returns (alerts: seq<Alert>)
    ensures SortedBy(alerts, BySeverity) && multiset(alerts) == multiset(RawAlerts(deps))
  {
    alerts := FindAlerts(deps);
    BySeverityIsPreorder();
    alerts := Sort(alerts, BySeverity);
  }

  // ----- Actions -----

  const SCALE := "scale"
  const ROLLOUT := "rollout"
  const RESTART := "restart"
  const LOGS := "logs"

  function OwnActions(dep: Deployment, may: Permissions): seq<Action> {
    (if may.canScale
     then [Action(SCALE, DEPLOYMENT, dep.name, map["current" := Decimal(dep.replicas), "range" := "1-10"])] else []) +
    (if may.canRollout && Outdated(dep)
     then [Action(ROLLOUT, DEPLOYMENT, dep.name, map["to" := dep.latestImage, "strategy" := dep.strategy])] else []) +
    (if may.canRestart then [Action(RESTART, DEPLOYMENT, dep.name, map[])] else [])
  }

  function PodActions(pods: seq<Pod>, may: Permissions): seq<Action> {
    if pods == [] then []
    else (if may.canLogs then [Action(LOGS, POD, pods[0].name, map["since" := "1h"])] else []) + PodActions(pods[1..], may)
  }

  function ActionsOf(dep: Deployment, may: Permissions): seq<Action> { OwnActions(dep, may) + PodActions(dep.pods, may) }

  function Actions(deps: seq<Deployment>, may: Permissions): seq<Action> {
    if deps == [] then [] else ActionsOf(deps[0], may) + Actions(deps[1..], may)
  }

  method AddActions(dep: Deployment, may: Permissions, actions0: seq<Action>) returns (actions: seq<Action>)
    ensures actions == actions0 + ActionsOf(dep, may)
  {
    actions := actions0 + OwnActions(dep, may);
    assert dep.pods[0..] == dep.pods;
    for i := 0 to |dep.pods|
      invariant actions + PodActions(dep.pods[i..], may) == actions0 + ActionsOf(dep, may)
    {
      assert dep.pods[i..][1..] == dep.pods[i + 1..];
      if may.canLogs {
        actions := actions + [Action(LOGS, POD, dep.pods[i].name, map["since" := "1h"])];
      }
    }
    assert actions + [] == actions;
  }

  method DeriveActions(deps: seq<Deployment>, may: Permissions) returns (actions: seq<Action>)
    ensures actions == Actions(deps, may)
  {
    actions := [];
    assert deps[0..] == deps;
    for i := 0 to |deps|
      invariant actions + Actions(deps[i..], may) == Actions(deps, may)
    {
      assert deps[i..][1..] == deps[i + 1..];
      actions := AddActions(deps[i], may, actions);
    }
    assert actions + [] == actions;
  }

  // ----- Entities -----

  function Fraction(a: int, b: int): string { Decimal(a) + "/" + Decimal(b) }

  function DeploymentInline(dep: Deployment): seq<Property> {
    [Property("replicas", Fraction(dep.readyReplicas, dep.replicas))] +
    (if dep.ageDays > 0 then [Property("age", Decimal(dep.ageDays) + "d")] else [])
  }

  function StrategyLine(dep: Deployment): string {
    dep.strategy + (if dep.maxSurge != "" then " maxSurge:" + dep.maxSurge else "") +
    (if dep.maxUnavailable != "" then " maxUnavail:" + dep.maxUnavailable else "")
  }

  function LoadParts(dep: Deployment): seq<string> {
    (if dep.cpuPercent > 0 then ["cpu " + Percent(dep.cpuPercent)] else []) +
    (if dep.memPercent > 0 then ["mem " + Percent(dep.memPercent)] else [])
  }

  function UsageParts(dep: Deployment): seq<string> {
    LoadParts(dep) +
    (if dep.requestsPerSec.value > 0.0 then ["requests:" + dep.requestsPerSec.text + "/s"] else []) +
    (if dep.errorRate.value > 0.0 then ["errors:" + dep.errorRate.text + "%"] else [])
  }

  /** The first usage part serves as the key of the rest. */
  function UsageProps(parts: seq<string>): seq<Property> {
    if parts == [] then [] else [Property(parts[0], Join(parts[1..], ' '))]
  }

  function DeploymentProps(dep: Deployment): seq<Property> {
    [Property("image", dep.image)] +
    (if dep.strategy != "" then [Property("strategy", StrategyLine(dep))] else []) +
    UsageProps(UsageParts(dep))
  }

  function PodInline(pod: Pod): seq<Property> {
    (if pod.node != "" then [Property("node", pod.node)] else []) +
    (if pod.cpuPercent > 0 then [Property("cpu", Percent(pod.cpuPercent))] else []) +
    (if pod.memPercent > 0 then [Property("mem", Percent(pod.memPercent))] else []) +
    [Property("restarts", Decimal(pod.restarts))]
  }

  function PodEntity(pod: Pod): Entity { Entity(POD, pod.name, PodStatus(pod), PodInline(pod), [], []) }

  function PodEntities(pods: seq<Pod>): (es: seq<Entity>)
    ensures |es| == |pods|
  {
    if pods == [] then [] else [PodEntity(pods[0])] + PodEntities(pods[1..])
  }

  function DeploymentEntity(dep: Deployment): Entity {
    Entity(DEPLOYMENT, dep.name, DeploymentStatus(dep), DeploymentInline(dep), DeploymentProps(dep), PodEntities(dep.pods))
  }

  function ServiceEntity(svc: Service): Entity {
    var ports := if svc.port > 0 && svc.targetPort > 0
                 then [Property("ports", Decimal(svc.port) + ">" + Decimal(svc.targetPort))] else [];
    var endpoints := if svc.totalPods > 0 then [Property("endpoints", Fraction(svc.endpoints, svc.totalPods))] else [];
    Entity("service", svc.name, "", ports + endpoints, [Property("type", svc.kind)], [])
  }

  const SECOND: int := 1_000_000_000

  /** Whole days, hours, minutes or seconds, rounded down. */
  function CompactDuration(d: int): string {
    if d >= 86400 * SECOND then Decimal(d / (86400 * SECOND)) + "d"
    else if d >= 3600 * SECOND then Decimal(d / (3600 * SECOND)) + "h"
    else if d >= 60 * SECOND then Decimal(d / (60 * SECOND)) + "m"
    else Decimal(d / SECOND) + "s"
  }

  function JobStatus(job: Job): string {
    if job.completed then (if job.succeeded then COMPLETED else FAILING) else RUNNING
  }

  function JobEntity(job: Job): Entity {
    var last := if job.lastRun.Some? then [Property("last", job.lastRun.value)] else [];
    var duration := if job.duration > 0 then [Property("duration", CompactDuration(job.duration))] else [];
    Entity("job", job.name, JobStatus(job), last + duration, [], [])
  }

  function CronJobEntity(cj: CronJob): Entity {
    var last := if cj.lastRun.Some? then [Property("last-run", cj.lastRun.value)] else [];
    var next := if cj.nextRun.Some? then [Property("next", cj.nextRun.value)] else [];
    Entity("cronjob", cj.name, "", [Property("schedule", cj.schedule)] + last + next, [], [])
  }

  function DeploymentEntities(deps: seq<Deployment>): (es: seq<Entity>)
    ensures |es| == |deps|
  {
    if deps == [] then [] else [DeploymentEntity(deps[0])] + DeploymentEntities(deps[1..])
  }

  function ServiceEntities(svcs: seq<Service>): seq<Entity> {
    if svcs == [] then [] else [ServiceEntity(svcs[0])] + ServiceEntities(svcs[1..])
  }

  function JobEntities(jobs: seq<Job>): seq<Entity> {
    if jobs == [] then [] else [JobEntity(jobs[0])] + JobEntities(jobs[1..])
  }

  function CronJobEntities(cjs: seq<CronJob>): seq<Entity> {
    if cjs == [] then [] else [CronJobEntity(cjs[0])] + CronJobEntities(cjs[1..])
  }

  lemma PodEntitiesStep(pods: seq<Pod>, i: nat, es: seq<Entity>)
    requires i < |pods|
    ensures es + PodEntities(pods[i..]) == (es + [PodEntity(pods[i])]) + PodEntities(pods[i + 1..])
  {
    assert pods[i..][1..] == pods[i + 1..];
  }

  lemma DeploymentEntitiesStep(deps: seq<Deployment>, i: nat, es: seq<Entity>)
    requires i < |deps|
    ensures es + DeploymentEntities(deps[i..]) == (es + [DeploymentEntity(deps[i])]) + DeploymentEntities(deps[i + 1..])
  {
    assert deps[i..][1..] == deps[i + 1..];
  }

  method TranslatePods(pods: seq<Pod>) returns (es: seq<Entity>)
    ensures es == PodEntities(pods)
  {
    es := [];
    assert pods[0..] == pods;
    for i := 0 to |pods|
      invariant es + PodEntities(pods[i..]) == PodEntities(pods)
    {
      PodEntitiesStep(pods, i, es);
      es := es + [PodEntity(pods[i])];
    }
    assert es + [] == es;
  }

  method InlineOf(dep: Deployment) returns (inline: seq<Property>)
    ensures inline == DeploymentInline(dep)
  {
    inline := [Property("replicas", Fraction(dep.readyReplicas, dep.replicas))];
    if dep.ageDays > 0 {
      inline := inline + [Property("age", Decimal(dep.ageDays) + "d")];
    }
  }

  method LoadOf(dep: Deployment) returns (parts: seq<string>)
    ensures parts == LoadParts(dep)
  {
    parts := [];
    if dep.cpuPercent > 0 {
      parts := parts + ["cpu " + Percent(dep.cpuPercent)];
    }
    if dep.memPercent > 0 {
      parts := parts + ["mem " + Percent(dep.memPercent)];
    }
  }

  method UsageOf(dep: Deployment) returns (parts: seq<string>)
    ensures parts == UsageParts(dep)
  {
    parts := LoadOf(dep);
    if dep.requestsPerSec.value > 0.0 {
      parts := parts + ["requests:" + dep.requestsPerSec.text + "/s"];
    }
    if dep.errorRate.value > 0.0 {
      parts := parts + ["errors:" + dep.errorRate.text + "%"];
    }
  }

  method StrategyOf(dep: Deployment) returns (line: string)
    ensures line == StrategyLine(dep)
  {
    line := dep.strategy;
    if dep.maxSurge != "" {
      line := line + " maxSurge:" + dep.maxSurge;
    }
    if dep.maxUnavailable != "" {
      line := line + " maxUnavail:" + dep.maxUnavailable;
    }
  }

  method PropsOf(dep: Deployment) returns (props: seq<Property>)
    ensures props == DeploymentProps(dep)
  {
    props := [Property("image", dep.image)];
    if dep.strategy != "" {
      var line := StrategyOf(dep);
      props := props + [Property("strategy", line)];
    }
    var usage := UsageOf(dep);
    if |usage| > 0 {
      props := props + [Property(usage[0], Join(usage[1..], ' '))];
    }
  }

  method TranslateDeployment(dep: Deployment) returns (e: Entity)
    ensures e == DeploymentEntity(dep)
  {
    var status := StatusOf(dep);
    var inline := InlineOf(dep);
    var props := PropsOf(dep);
    var children := TranslatePods(dep.pods);
    e := Entity(DEPLOYMENT, dep.name, status, inline, props, children);
  }

  method AddDeployments(deps: seq<Deployment>) returns (es: seq<Entity>)
    ensures es == DeploymentEntities(deps)
  {
    es := [];
    assert deps[0..] == deps;
    for i := 0 to |deps|
      invariant es + DeploymentEntities(deps[i..]) == DeploymentEntities(deps)
    {
      DeploymentEntitiesStep(deps, i, es);
      var e := TranslateDeployment(deps[i]);
      es := es + [e];
    }
    assert es + [] == es;
  }

  method AddServices(svcs: seq<Service>, es0: seq<Entity>) returns (es: seq<Entity>)
    ensures es == es0 + ServiceEntities(svcs)
  {
    es := es0;
    assert svcs[0..] == svcs;
    for i := 0 to |svcs|
      invariant es + ServiceEntities(svcs[i..]) == es0 + ServiceEntities(svcs)
    {
      assert svcs[i..][1..] == svcs[i + 1..];
      es := es + [ServiceEntity(svcs[i])];
    }
    assert es + [] == es;
  }

  method AddJobs(jobs: seq<Job>, es0: seq<Entity>) returns (es: seq<Entity>)
    ensures es == es0 + JobEntities(jobs)
  {
    es := es0;
    assert jobs[0..] == jobs;
    for i := 0 to |jobs|
      invariant es + JobEntities(jobs[i..]) == es0 + JobEntities(jobs)
    {
      assert jobs[i..][1..] == jobs[i + 1..];
      es := es + [JobEntity(jobs[i])];
    }
    assert es + [] == es;
  }

  method AddCronJobs(cjs: seq<CronJob>, es0: seq<Entity>) returns (es: seq<Entity>)
    ensures es == es0 + CronJobEntities(cjs)
  {
    es := es0;
    assert cjs[0..] == cjs;
    for i := 0 to |cjs|
      invariant es + CronJobEntities(cjs[i..]) == es0 + CronJobEntities(cjs)
    {
      assert cjs[i..][1..] == cjs[i + 1..];
      es := es + [CronJobEntity(cjs[i])];
    }
    assert es + [] == es;
  }

  // ----- The document -----

  const TRANSLATOR_VERSION := "clawdlinux/k8s-translator:0.1.0"

  function ViewHeaders(view: View, now: string): seq<Header> {
    [Header("source", "kubernetes/" + view.cluster), Header("scope", "namespace:" + view.ns), Header("time", now),
     Header("ttl", FormatDuration(60)), Header("translator", TRANSLATOR_VERSION)]
  }

  function ViewEntities(view: View): seq<Entity> {
    DeploymentEntities(view.deployments) + ServiceEntities(view.services) + JobEntities(view.jobs) +
    CronJobEntities(view.cronJobs)
  }

  /** Everything about the translation but the order of alerts of one severity. */
  ghost predicate IsTranslation(view: View, now: string, doc: Document) {
    && doc.headers == ViewHeaders(view, now)
    && doc.entities == ViewEntities(view)
    && SortedBy(doc.alerts, BySeverity) && multiset(doc.alerts) == multiset(RawAlerts(view.deployments))
    && doc.actions == Actions(view.deployments, view.permissions)
  }

  method Translate(view: View, now: string) returns (doc: Document)
    ensures IsTranslation(view, now, doc)
  {
    var ttl := PrintDuration(60);
    var headers := [Header("source", "kubernetes/" + view.cluster), Header("scope", "namespace:" + view.ns),
                    Header("time", now), Header("ttl", ttl), Header("translator", TRANSLATOR_VERSION)];
    var es := AddDeployments(view.deployments);
    es := AddServices(view.services, es);
    es := AddJobs(view.jobs, es);
    es := AddCronJobs(view.cronJobs, es);
    var alerts := DeriveAlerts(view.deployments);
    var actions := DeriveActions(view.deployments, view.permissions);
    doc := Document(headers, es, alerts, actions);
  }

  // ----- Status and alerts agree -----

  /** At most informational. */
  predicate Minor(a: Alert) { a.severity == INFO }

  predicate AllMinor(alerts: seq<Alert>) { forall a :: a in alerts ==> Minor(a) }

  lemma AllMinorConcat(a: seq<Alert>, b: seq<Alert>)
    ensures AllMinor(a + b) <==> AllMinor(a) && AllMinor(b)
  {
    assert AllMinor(a + b) ==> (forall x :: x in a || x in b ==> x in a + b);
  }

  lemma OneMinor(a: Alert)
    ensures AllMinor([a]) <==> Minor(a)
  {
    assert AllMinor([a]) ==> a in [a];
  }

  lemma MemoryMinor(dep: Deployment)
    ensures AllMinor(MemoryAlerts(dep)) <==> dep.memPercent <= 80
  {
    if dep.memPercent > 80 { OneMinor(MemoryAlerts(dep)[0]); }
  }

  lemma CpuMinor(dep: Deployment)
    ensures AllMinor(CpuAlerts(dep)) <==> dep.cpuPercent <= 80
  {
    if dep.cpuPercent > 80 { OneMinor(CpuAlerts(dep)[0]); }
  }

  lemma ReplicasMinor(dep: Deployment)
    ensures AllMinor(ReplicaAlerts(dep)) <==> dep.readyReplicas >= dep.replicas
  {
    if dep.readyReplicas < dep.replicas { OneMinor(ReplicaAlerts(dep)[0]); }
  }

  lemma ImageMinor(dep: Deployment)
    ensures AllMinor(ImageAlerts(dep))
  {
    if Outdated(dep) { OneMinor(ImageAlerts(dep)[0]); }
  }

  lemma OwnAlertsMinor(dep: Deployment)
    ensures AllMinor(OwnAlerts(dep)) <==>
            dep.memPercent <= 80 && dep.cpuPercent <= 80 && dep.readyReplicas >= dep.replicas
  {
    MemoryMinor(dep);
    CpuMinor(dep);
    ReplicasMinor(dep);
    ImageMinor(dep);
    AllMinorConcat(MemoryAlerts(dep), CpuAlerts(dep));
    AllMinorConcat(MemoryAlerts(dep) + CpuAlerts(dep), ReplicaAlerts(dep));
    AllMinorConcat(MemoryAlerts(dep) + CpuAlerts(dep) + ReplicaAlerts(dep), ImageAlerts(dep));
  }

  lemma PodAlertsMinor(pod: Pod)
    ensures AllMinor(PodAlerts(pod)) <==> !PodStruggles(pod)
  {
    if pod.restarts24h > 2 { OneMinor(RestartAlerts(pod)[0]); }
    if pod.memPercent > 90 { OneMinor(PodMemoryAlerts(pod)[0]); }
    AllMinorConcat(RestartAlerts(pod), PodMemoryAlerts(pod));
  }

  lemma {:induction false} AllPodAlertsMinor(pods: seq<Pod>)
    ensures AllMinor(AllPodAlerts(pods)) <==> forall pod :: pod in pods ==> !PodStruggles(pod)
  {
    if pods == [] {
    } else {
      PodAlertsMinor(pods[0]);
      AllPodAlertsMinor(pods[1..]);
      AllMinorConcat(PodAlerts(pods[0]), AllPodAlerts(pods[1..]));
      assert forall pod :: pod in pods <==> pod == pods[0] || pod in pods[1..];
    }
  }

  /** A deployment is healthy exactly when it and its pods give rise to no alert above
      information. */
  lemma HealthyIffQuiet(dep: Deployment)
    ensures DeploymentStatus(dep) == HEALTHY <==> AllMinor(AlertsOf(dep))
  {
    OwnAlertsMinor(dep);
    AllPodAlertsMinor(dep.pods);
    AllMinorConcat(OwnAlerts(dep), AllPodAlerts(dep.pods));
  }

  predicate AllHealthy(deps: seq<Deployment>) {
    forall i :: 0 <= i < |deps| ==> DeploymentStatus(deps[i]) == HEALTHY
  }

  lemma {:induction false} RawAlertsMinor(deps: seq<Deployment>)
    ensures AllMinor(RawAlerts(deps)) <==> AllHealthy(deps)
  {
    if deps == [] {
    } else {
      HealthyIffQuiet(deps[0]);
      RawAlertsMinor(deps[1..]);
      AllMinorConcat(AlertsOf(deps[0]), RawAlerts(deps[1..]));
      HeadAndTail(deps);
    }
  }

  lemma HeadAndTail(deps: seq<Deployment>)
    requires deps != []
    ensures AllHealthy(deps) <==> DeploymentStatus(deps[0]) == HEALTHY && AllHealthy(deps[1..])
  {
    assert forall i :: 1 <= i < |deps| ==> deps[i] == deps[1..][i - 1];
    assert forall i :: 0 <= i < |deps| - 1 ==> deps[1..][i] == deps[i + 1];
  }

  lemma {:induction false} DeploymentEntityAt(deps: seq<Deployment>, i: nat)
    requires i < |deps|
    ensures DeploymentEntities(deps)[i] == DeploymentEntity(deps[i])
  {
    if i == 0 {
    } else {
      DeploymentEntityAt(deps[1..], i - 1);
    }
  }

  lemma {:induction false} PodEntityAt(pods: seq<Pod>, i: nat)
    requires i < |pods|
    ensures PodEntities(pods)[i] == PodEntity(pods[i])
  {
    if i == 0 {
    } else {
      PodEntityAt(pods[1..], i - 1);
    }
  }

  lemma SameAlerts(found: seq<Alert>, listed: seq<Alert>)
    requires multiset(found) == multiset(listed)
    ensures forall a :: a in found <==> a in listed
  {
    forall a ensures a in found <==> a in listed { assert a in multiset(found) <==> a in multiset(listed); }
  }

  /** Every deployment shows as healthy exactly when the document raises no alert above
      information. */
  lemma AllHealthyIffQuiet(view: View, now: string, doc: Document)
    requires IsTranslation(view, now, doc)
    ensures |doc.entities| >= |view.deployments|
    ensures AllMinor(doc.alerts) <==> forall i :: 0 <= i < |view.deployments| ==> doc.entities[i].status == HEALTHY
  {
    var deps := view.deployments;
    StatusesShown(view);
    SameAlerts(RawAlerts(deps), doc.alerts);
    RawAlertsMinor(deps);
  }

  lemma StatusesShown(view: View)
    ensures |ViewEntities(view)| >= |view.deployments|
    ensures forall i :: 0 <= i < |view.deployments| ==> ViewEntities(view)[i].status == DeploymentStatus(view.deployments[i])
  {
    var deps := view.deployments;
    forall i | 0 <= i < |deps| ensures ViewEntities(view)[i].status == DeploymentStatus(deps[i]) {
      DeploymentEntityAt(deps, i);
      assert ViewEntities(view)[i] == DeploymentEntity(deps[i]);
    }
  }

  // ----- Alerts and actions refer to what the document shows -----

  /** A kind and name of the deployment or of one of its pods. */
  predicate About(kind: string, name: string, dep: Deployment) {
    (kind == DEPLOYMENT && name == dep.name) || (kind == POD && exists pod :: pod in dep.pods && name == pod.name)
  }

  lemma OwnAlertsAbout(dep: Deployment, a: Alert)
    requires a in OwnAlerts(dep)
    ensures a.kind == DEPLOYMENT && a.name == dep.name
  {
  }

  lemma {:induction false} PodAlertsAbout(pods: seq<Pod>, a: Alert)
    requires a in AllPodAlerts(pods)
    ensures a.kind == POD && exists pod :: pod in pods && a.name == pod.name
  {
    if a in PodAlerts(pods[0]) {
      assert a.name == pods[0].name && pods[0] in pods;
    } else {
      PodAlertsAbout(pods[1..], a);
    }
  }

  lemma AlertsAbout(dep: Deployment, a: Alert)
    requires a in AlertsOf(dep)
    ensures About(a.kind, a.name, dep)
  {
    if a in OwnAlerts(dep) { OwnAlertsAbout(dep, a); } else { PodAlertsAbout(dep.pods, a); }
  }

  lemma OwnActionsAbout(dep: Deployment, may: Permissions, a: Action)
    requires a in OwnActions(dep, may)
    ensures a.kind == DEPLOYMENT && a.name == dep.name
  {
  }

  lemma {:induction false} PodActionsAbout(pods: seq<Pod>, may: Permissions, a: Action)
    requires a in PodActions(pods, may)
    ensures a.kind == POD && exists pod :: pod in pods && a.name == pod.name
  {
    if a in PodActions(pods[1..], may) {
      PodActionsAbout(pods[1..], may, a);
    } else {
      assert a.name == pods[0].name && pods[0] in pods;
    }
  }

  lemma ActionsAbout(dep: Deployment, may: Permissions, a: Action)
    requires a in ActionsOf(dep, may)
    ensures About(a.kind, a.name, dep)
  {
    if a in OwnActions(dep, may) { OwnActionsAbout(dep, may, a); } else { PodActionsAbout(dep.pods, may, a); }
  }

  function AlertParts(deps: seq<Deployment>): seq<seq<Alert>> {
    seq(|deps|, i requires 0 <= i < |deps| => AlertsOf(deps[i]))
  }

  function ActionParts(deps: seq<Deployment>, may: Permissions): seq<seq<Action>> {
    seq(|deps|, i requires 0 <= i < |deps| => ActionsOf(deps[i], may))
  }

  lemma {:induction false} AlertsAreFlat(deps: seq<Deployment>)
    ensures RawAlerts(deps) == Flat(AlertParts(deps))
  {
    if deps == [] {
    } else {
      AlertsAreFlat(deps[1..]);
      assert AlertParts(deps)[1..] == AlertParts(deps[1..]);
    }
  }

  lemma {:induction false} ActionsAreFlat(deps: seq<Deployment>, may: Permissions)
    ensures Actions(deps, may) == Flat(ActionParts(deps, may))
  {
    if deps == [] {
    } else {
      ActionsAreFlat(deps[1..], may);
      assert ActionParts(deps, may)[1..] == ActionParts(deps[1..], may);
    }
  }

  /** The alerts are those of the deployments, taken together. */
  lemma RawAlertsAre(deps: seq<Deployment>, a: Alert)
    ensures a in RawAlerts(deps) <==> exists i :: 0 <= i < |deps| && a in AlertsOf(deps[i])
  {
    var parts := AlertParts(deps);
    AlertsAreFlat(deps);
    if a in Flat(parts) {
      var i := FlatSource(parts, a);
      assert a in AlertsOf(deps[i]);
    }
    forall i | 0 <= i < |deps| && a in AlertsOf(deps[i]) ensures a in Flat(parts) { FlatHas(parts, i, a); }
  }

  lemma ActionSource(deps: seq<Deployment>, may: Permissions, a: Action) returns (i: nat)
    requires a in Actions(deps, may)
    ensures i < |deps| && a in ActionsOf(deps[i], may)
  {
    ActionsAreFlat(deps, may);
    i := FlatSource(ActionParts(deps, may), a);
  }

  predicate IsCalled(e: Entity, kind: string, name: string) { e.kind == kind && e.name == name }

  /** An entity of the document, or a child of one. */
  predicate Shown(es: seq<Entity>, kind: string, name: string) {
    exists i :: 0 <= i < |es| &&
      (IsCalled(es[i], kind, name) || exists c :: c in es[i].children && IsCalled(c, kind, name))
  }

  lemma AboutIsShown(view: View, i: nat, kind: string, name: string)
    requires i < |view.deployments| && About(kind, name, view.deployments[i])
    ensures Shown(ViewEntities(view), kind, name)
  {
    var dep, es := view.deployments[i], ViewEntities(view);
    DeploymentEntityAt(view.deployments, i);
    assert es[i] == DeploymentEntity(dep);
    if kind == DEPLOYMENT && name == dep.name {
      assert IsCalled(es[i], kind, name);
    } else {
      var j :| 0 <= j < |dep.pods| && name == dep.pods[j].name;
      PodEntityAt(dep.pods, j);
      var c := PodEntities(dep.pods)[j];
      assert c in es[i].children && IsCalled(c, kind, name);
    }
  }

  lemma AlertIsShown(view: View, now: string, doc: Document, a: Alert)
    requires IsTranslation(view, now, doc)
    ensures a in doc.alerts ==> Shown(doc.entities, a.kind, a.name)
  {
    if a in doc.alerts {
      SameAlerts(RawAlerts(view.deployments), doc.alerts);
      RawAlertsAre(view.deployments, a);
      var i :| 0 <= i < |view.deployments| && a in AlertsOf(view.deployments[i]);
      AlertsAbout(view.deployments[i], a);
      AboutIsShown(view, i, a.kind, a.name);
    }
  }

  lemma ActionIsShown(view: View, now: string, doc: Document, a: Action)
    requires IsTranslation(view, now, doc)
    ensures a in doc.actions ==> Shown(doc.entities, a.kind, a.name)
  {
    if a in doc.actions {
      var i := ActionSource(view.deployments, view.permissions, a);
      ActionsAbout(view.deployments[i], view.permissions, a);
      AboutIsShown(view, i, a.kind, a.name);
    }
  }

  // ----- When a deployment's status and the alerts naming it agree -----

  /** No alert above information names the deployment or one of its pods. */
  predicate QuietAbout(alerts: seq<Alert>, dep: Deployment) {
    forall a :: a in alerts && About(a.kind, a.name, dep) ==> Minor(a)
  }

  predicate Overloaded(dep: Deployment) {
    dep.memPercent > 80 || dep.cpuPercent > 80 || dep.readyReplicas < dep.replicas
  }

  /** A pod of the name struggles. */
  predicate StrugglesAs(pods: seq<Pod>, name: string) { exists q :: q in pods && q.name == name && PodStruggles(q) }

  /** e is in trouble under d's name, or one of its pods is under the name of one of d's. */
  predicate Clash(d: Deployment, e: Deployment) {
    (e.name == d.name && Overloaded(e)) || exists p :: p in d.pods && StrugglesAs(e.pods, p.name)
  }

  lemma QuietAboutConcat(a: seq<Alert>, b: seq<Alert>, d: Deployment)
    ensures QuietAbout(a + b, d) <==> QuietAbout(a, d) && QuietAbout(b, d)
  {
    if QuietAbout(a + b, d) {
      assert forall x :: x in a || x in b ==> x in a + b;
    }
  }

  lemma QuietOwn(d: Deployment, e: Deployment)
    ensures QuietAbout(OwnAlerts(e), d) <==> !(e.name == d.name && Overloaded(e))
  {
    OwnAlertsMinor(e);
    forall a | a in OwnAlerts(e) ensures About(a.kind, a.name, d) <==> e.name == d.name { OwnAlertsAbout(e, a); }
  }

  /** The pod's alerts name one of d's pods. */
  predicate HasPod(d: Deployment, name: string) { exists p :: p in d.pods && p.name == name }

  lemma QuietPod(d: Deployment, q: Pod)
    ensures QuietAbout(PodAlerts(q), d) <==> !(PodStruggles(q) && HasPod(d, q.name))
  {
    PodAlertsMinor(q);
    forall a | a in PodAlerts(q) ensures About(a.kind, a.name, d) <==> HasPod(d, q.name) { OnePodAbout(d, q, a); }
  }

  lemma OnePodAbout(d: Deployment, q: Pod, a: Alert)
    requires a in PodAlerts(q)
    ensures About(a.kind, a.name, d) <==> HasPod(d, q.name)
  {
    assert a.kind == POD && a.name == q.name;
  }

  lemma {:induction false} QuietPods(d: Deployment, pods: seq<Pod>)
    ensures QuietAbout(AllPodAlerts(pods), d) <==> forall q :: q in pods ==> !(PodStruggles(q) && HasPod(d, q.name))
  {
    if pods == [] {
    } else {
      QuietPod(d, pods[0]);
      QuietPods(d, pods[1..]);
      QuietAboutConcat(PodAlerts(pods[0]), AllPodAlerts(pods[1..]), d);
      assert forall q :: q in pods <==> q == pods[0] || q in pods[1..];
    }
  }

  /** e raises no alert above information about d exactly when the two do not clash. */
  lemma QuietUnlessClash(d: Deployment, e: Deployment)
    ensures QuietAbout(AlertsOf(e), d) <==> !Clash(d, e)
  {
    QuietOwn(d, e);
    QuietPods(d, e.pods);
    QuietAboutConcat(OwnAlerts(e), AllPodAlerts(e.pods), d);
    SharedPods(d, e);
  }

  lemma SharedPods(d: Deployment, e: Deployment)
    ensures (exists p :: p in d.pods && StrugglesAs(e.pods, p.name)) <==>
            exists q :: q in e.pods && PodStruggles(q) && HasPod(d, q.name)
  {
    if p :| p in d.pods && StrugglesAs(e.pods, p.name) {
      var q :| q in e.pods && q.name == p.name && PodStruggles(q);
      assert HasPod(d, q.name);
    }
    if q :| q in e.pods && PodStruggles(q) && HasPod(d, q.name) {
      var p :| p in d.pods && p.name == q.name;
      assert StrugglesAs(e.pods, p.name);
    }
  }

  /** No deployment of the view, itself included, clashes with this one. */
  predicate Unclashed(deps: seq<Deployment>, d: Deployment) {
    forall j :: 0 <= j < |deps| ==> !Clash(d, deps[j])
  }

  /** No alert above information names a deployment or its pods exactly when it clashes
      with no deployment of the view. */
  lemma UnnamedIffUnclashed(view: View, now: string, doc: Document, d: Deployment)
    requires IsTranslation(view, now, doc)
    ensures QuietAbout(doc.alerts, d) <==> Unclashed(view.deployments, d)
  {
    var deps := view.deployments;
    SameAlerts(RawAlerts(deps), doc.alerts);
    if QuietAbout(doc.alerts, d) {
      forall j | 0 <= j < |deps| ensures !Clash(d, deps[j]) {
        forall a | a in AlertsOf(deps[j]) ensures a in doc.alerts { RawAlertsAre(deps, a); }
        QuietUnlessClash(d, deps[j]);
      }
    }
    if Unclashed(deps, d) {
      forall a | a in doc.alerts && About(a.kind, a.name, d) ensures Minor(a) {
        RawAlertsAre(deps, a);
        var j :| 0 <= j < |deps| && a in AlertsOf(deps[j]);
        QuietUnlessClash(d, deps[j]);
      }
    }
  }

  lemma HealthyIffNoOwnClash(d: Deployment)
    ensures DeploymentStatus(d) == HEALTHY <==> !Clash(d, d)
  {
    if pod :| pod in d.pods && PodStruggles(pod) {
      assert StrugglesAs(d.pods, pod.name);
    }
  }

  /** The status a document shows for a deployment agrees with the alerts naming it or its
      pods exactly when a healthy deployment clashes with no other. */
  lemma HealthyIffUnnamed(view: View, now: string, doc: Document, i: nat)
    requires IsTranslation(view, now, doc) && i < |view.deployments|
    ensures |view.deployments| <= |doc.entities|
    ensures (doc.entities[i].status == HEALTHY <==> QuietAbout(doc.alerts, view.deployments[i])) <==>
            (DeploymentStatus(view.deployments[i]) == HEALTHY ==> Unclashed(view.deployments, view.deployments[i]))
  {
    var d := view.deployments[i];
    StatusesShown(view);
    UnnamedIffUnclashed(view, now, doc, d);
    HealthyIffNoOwnClash(d);
  }

  /** As in a namespace: no two deployments and no two deployments' pods share a name. */
  predicate NamesApart(deps: seq<Deployment>) {
    forall i, j :: 0 <= i < |deps| && 0 <= j < |deps| && i != j ==> Apart(deps[i], deps[j])
  }

  predicate Apart(d: Deployment, e: Deployment) {
    d.name != e.name && forall p, q :: p in d.pods && q in e.pods ==> p.name != q.name
  }

  lemma ApartDoNotClash(d: Deployment, e: Deployment)
    requires Apart(d, e)
    ensures !Clash(d, e)
  {
  }

  /** With names apart they always agree. */
  lemma HealthyIffUnnamedApart(view: View, now: string, doc: Document, i: nat)
    requires IsTranslation(view, now, doc) && i < |view.deployments| && NamesApart(view.deployments)
    ensures |view.deployments| <= |doc.entities|
    ensures doc.entities[i].status == HEALTHY <==> QuietAbout(doc.alerts, view.deployments[i])
  {
    var deps := view.deployments;
    HealthyIffUnnamed(view, now, doc, i);
    HealthyIffNoOwnClash(deps[i]);
    forall j | 0 <= j < |deps| && j != i ensures !Clash(deps[i], deps[j]) { ApartDoNotClash(deps[i], deps[j]); }
  }

  /** Namesakes mislead: a healthy deployment is named by an alert above information
      whenever one of its name, or a pod of the name of one of its pods, is in trouble. */
  lemma NamesakesMislead(view: View, now: string, doc: Document, i: nat, j: nat)
    requires IsTranslation(view, now, doc) && i < |view.deployments| && j < |view.deployments|
    requires DeploymentStatus(view.deployments[i]) == HEALTHY && Clash(view.deployments[i], view.deployments[j])
    ensures !QuietAbout(doc.alerts, view.deployments[i])
  {
    UnnamedIffUnclashed(view, now, doc, view.deployments[i]);
  }

  // ----- More agreement -----

  /** A failing deployment raises a critical alert of its own. */
  lemma FailingIsCritical(dep: Deployment)
    requires DeploymentStatus(dep) == FAILING
    ensures exists a :: a in AlertsOf(dep) && a.severity == CRITICAL && a.kind == DEPLOYMENT && a.name == dep.name
  {
    var a := ReplicaAlerts(dep)[0];
    assert a in OwnAlerts(dep);
  }

  /** Critical alerts come first, then warnings, then information. */
  lemma CriticalComesFirst(view: View, now: string, doc: Document, i: nat, j: nat)
    requires IsTranslation(view, now, doc) && i < j < |doc.alerts|
    ensures doc.alerts[j].severity == "critical" ==> doc.alerts[i].severity == "critical"
    ensures doc.alerts[j].severity == "warning" ==> doc.alerts[i].severity in ["critical", "warning"]
  {
    SortedAt(doc.alerts, i, j);
  }

  lemma SortedAt(alerts: seq<Alert>, i: nat, j: nat)
    requires SortedBy(alerts, BySeverity) && i < j < |alerts|
    ensures alerts[j].severity == "critical" ==> alerts[i].severity == "critical"
    ensures alerts[j].severity == "warning" ==> alerts[i].severity in ["critical", "warning"]
  {
    assert BySeverity(alerts[i], alerts[j]);
  }

  /** What an action needs. */
  predicate Granted(may: Permissions, verb: string) {
    (verb == SCALE && may.canScale) || (verb == ROLLOUT && may.canRollout) ||
    (verb == RESTART && may.canRestart) || (verb == LOGS && may.canLogs)
  }

  lemma OwnActionGranted(dep: Deployment, may: Permissions, a: Action)
    requires a in OwnActions(dep, may)
    ensures Granted(may, a.verb) && a.verb != LOGS
  {
  }

  lemma {:induction false} PodActionGranted(pods: seq<Pod>, may: Permissions, a: Action)
    requires a in PodActions(pods, may)
    ensures Granted(may, a.verb) && a.verb == LOGS
  {
    if a in PodActions(pods[1..], may) { PodActionGranted(pods[1..], may, a); }
  }

  /** No action is offered without its permission. */
  lemma ActionIsGranted(view: View, now: string, doc: Document, a: Action)
    requires IsTranslation(view, now, doc)
    ensures a in doc.actions ==> Granted(view.permissions, a.verb)
  {
    if a in doc.actions {
      var i := ActionSource(view.deployments, view.permissions, a);
      var dep := view.deployments[i];
      if a in OwnActions(dep, view.permissions) {
        OwnActionGranted(dep, view.permissions, a);
      } else {
        PodActionGranted(dep.pods, view.permissions, a);
      }
    }
  }

  lemma {:induction false} PodAlertsSerious(pods: seq<Pod>, a: Alert)
    requires a in AllPodAlerts(pods)
    ensures !Minor(a)
  {
    if a !in PodAlerts(pods[0]) { PodAlertsSerious(pods[1..], a); }
  }

  lemma OwnAlertMinor(dep: Deployment, a: Alert)
    requires a in OwnAlerts(dep) && Minor(a)
    ensures Outdated(dep)
  {
  }

  lemma RolloutNeedsImage(dep: Deployment, may: Permissions, a: Action)
    requires a in OwnActions(dep, may) && a.verb == ROLLOUT
    ensures may.canRollout && Outdated(dep)
  {
  }

  /** A rollout is offered exactly when it is permitted and an informational alert says
      the image is outdated. */
  lemma RolloutIffOutdated(dep: Deployment, may: Permissions)
    ensures (exists a :: a in ActionsOf(dep, may) && a.verb == ROLLOUT) <==>
            may.canRollout && exists a :: a in AlertsOf(dep) && Minor(a)
  {
    if x :| x in ActionsOf(dep, may) && x.verb == ROLLOUT {
      if x in OwnActions(dep, may) { RolloutNeedsImage(dep, may, x); } else { PodActionGranted(dep.pods, may, x); }
      var a := ImageAlerts(dep)[0];
      assert a in OwnAlerts(dep) && a in AlertsOf(dep);
    }
    if may.canRollout {
      if a :| a in AlertsOf(dep) && Minor(a) {
        if a in OwnAlerts(dep) { OwnAlertMinor(dep, a); } else { PodAlertsSerious(dep.pods, a); }
        RolloutOffered(dep, may);
      }
    }
  }

  lemma RolloutOffered(dep: Deployment, may: Permissions)
    requires may.canRollout && Outdated(dep)
    ensures exists a :: a in ActionsOf(dep, may) && a.verb == ROLLOUT
  {
    var a := Action(ROLLOUT, DEPLOYMENT, dep.name, map["to" := dep.latestImage, "strategy" := dep.strategy]);
    assert a in OwnActions(dep, may);
  }
}

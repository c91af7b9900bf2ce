/** Which namespaces print as ANF documents that read back whole, headers, alerts and
    actions included. */
module KubernetesDocument {
  import opened Wrappers
  import opened Text
  import opened Sorting
  import opened Anf
  import opened AnfEncoder
  import opened AnfDecoder
  import opened AnfDocument
  import opened KubernetesTranslator
  import opened KubernetesReadBack

  // ----- The decoder -----

  /** The decoder for documents of this translator. */
  function DecodeView(text: string): Option<Document> {
    match DecodeDocument(text)
    case None => None
    case Some(doc) => Some(doc.(entities := EachEntity(TakenApart, doc.entities)))
  }

  /** The document with its keys of two words joined, as the text reads. */
  function AsRead(doc: Document): Document { doc.(entities := EachEntity(Joined, doc.entities)) }

  lemma ReadsTheSame(doc: Document)
    ensures DocumentText(AsRead(doc)) == DocumentText(doc)
  {
    JoinedForest(doc.entities);
  }

  lemma OneReading(doc: Document)
    requires DecodeView(DocumentText(doc)) == Some(doc)
    ensures DecodeDocument(DocumentText(doc)) == Some(AsRead(doc)) && DocumentFits(AsRead(doc))
  {
    DecodedIsPrinted(DocumentText(doc));
    EntitiesTakenApartJoin(DecodeDocument(DocumentText(doc)).value.entities);
  }

  /** The document reads back, keys of two words included, exactly when it fits the syntax
      as it reads and taking the keys apart restores it. */
  lemma DecodesBackApart(doc: Document)
    ensures DecodeView(DocumentText(doc)) == Some(doc) <==>
            DocumentFits(AsRead(doc)) && EachEntity(TakenApart, EachEntity(Joined, doc.entities)) == doc.entities
  {
    ReadsTheSame(doc);
    if DecodeView(DocumentText(doc)) == Some(doc) { OneReading(doc); }
    if DocumentFits(AsRead(doc)) { DecodeOfPrinted(AsRead(doc)); }
  }

  // ----- What a namespace has to keep to -----

  /** What an alert on an outdated image, and a rollout if permitted, say of it. */
  predicate ImagesFit(dep: Deployment, may: Permissions) {
    Outdated(dep) ==>
      ValueFits(dep.image) && ValueFits(dep.latestImage) && (may.canRollout ==> ValueFits(dep.strategy))
  }

  predicate AllImagesFit(view: View) { forall dep :: dep in view.deployments ==> ImagesFit(dep, view.permissions) }

  predicate ViewFits(view: View, now: string) {
    '\n' !in view.cluster && '\n' !in view.ns && '\n' !in now && EntitiesFit(view) && AllImagesFit(view)
  }

  // ----- Alerts -----

  predicate PlainKey(key: string) { Word(key) && ':' !in key }

  lemma PairsFit(m: map<string, string>)
    ensures InlineFits(SortedPairs(m)) <==> forall k :: k in m ==> PairFits(Property(k, m[k]))
  {
    var keys, pairs := SortedSeq(m.Keys), SortedPairs(m);
    assert forall k :: k in keys <==> k in Elems(keys);
    if InlineFits(pairs) {
      forall k | k in m ensures PairFits(Property(k, m[k])) {
        var i :| 0 <= i < |keys| && keys[i] == k;
        assert pairs[i] in pairs;
      }
    }
  }

  lemma OnePairFits(key: string, value: string)
    requires PlainKey(key) && Word(value)
    ensures InlineFits(SortedPairs(map[key := value]))
  {
    PairsFit(map[key := value]);
    WordValueFits(value);
  }

  predicate AlertsFit(alerts: seq<Alert>) { forall a :: a in alerts ==> AlertFits(a) }

  lemma AlertsConcat(a: seq<Alert>, b: seq<Alert>)
    ensures AlertsFit(a + b) <==> AlertsFit(a) && AlertsFit(b)
  {
    assert forall x :: x in a + b <==> x in a || x in b;
  }

  lemma WordAlertFits(severity: string, kind: string, name: string, message: string, key: string, value: string)
    requires Word(severity) && Word(kind) && Word(name) && Word(message) && PlainKey(key) && Word(value)
    ensures AlertsFit([Alert(severity, kind, name, message, map[key := value])])
  {
    OnePairFits(key, value);
    WordValueFits(message);
  }

  lemma AlertWords()
    ensures Word(CRITICAL) && Word(WARNING) && Word(INFO) && Word(DEPLOYMENT) && Word(POD)
    ensures PlainKey("threshold")
  {
  }

  lemma PercentMessage(first: string, n: int)
    requires Word(first)
    ensures Word(first + Percent(n))
  {
    NumberAndUnit(n, "%");
    WordConcat(first, Percent(n));
  }

  lemma LoadAlertsFit(dep: Deployment)
    requires Word(dep.name)
    ensures AlertsFit(MemoryAlerts(dep)) && AlertsFit(CpuAlerts(dep))
  {
    AlertWords();
    PercentMessage("mem:", dep.memPercent);
    PercentMessage("cpu:", dep.cpuPercent);
    WordAlertFits(WARNING, DEPLOYMENT, dep.name, "mem:" + Percent(dep.memPercent), "threshold", "80%");
    WordAlertFits(WARNING, DEPLOYMENT, dep.name, "cpu:" + Percent(dep.cpuPercent), "threshold", "80%");
  }

  lemma ReplicaAlertsFit(dep: Deployment)
    requires Word(dep.name)
    ensures AlertsFit(ReplicaAlerts(dep))
  {
    AlertWords();
    FractionWord(dep.readyReplicas, dep.replicas);
    WordConcat("replicas:", Fraction(dep.readyReplicas, dep.replicas));
    assert ReplicasMessage(dep) == "replicas:" + Fraction(dep.readyReplicas, dep.replicas);
    WordValueFits(ReplicasMessage(dep));
    PairsFit(map[]);
  }

  lemma TwoPairs(first: string, a: string, second: string, b: string)
    requires PlainKey(first) && PlainKey(second) && first != second
    ensures InlineFits(SortedPairs(map[first := a, second := b])) <==> ValueFits(a) && ValueFits(b)
  {
    var m := map[first := a, second := b];
    PairsFit(m);
    assert m[first] == a && m[second] == b;
    assert PairFits(Property(first, a)) <==> ValueFits(a);
    assert PairFits(Property(second, b)) <==> ValueFits(b);
  }

  lemma PlainKeys()
    ensures PlainKey("current") && PlainKey("latest") && PlainKey("to") && PlainKey("strategy") && PlainKey("range")
  {
  }

  lemma ImageAlertsFit(dep: Deployment)
    requires Word(dep.name)
    ensures AlertsFit(ImageAlerts(dep)) <==> (Outdated(dep) ==> ValueFits(dep.image) && ValueFits(dep.latestImage))
  {
    AlertWords();
    PlainKeys();
    TwoPairs("current", dep.image, "latest", dep.latestImage);
    WordValueFits("image-outdated");
    if Outdated(dep) { assert AlertsFit(ImageAlerts(dep)) <==> AlertFits(ImageAlerts(dep)[0]); }
  }

  lemma PodAlertsFit(pod: Pod)
    requires Word(pod.name)
    ensures AlertsFit(PodAlerts(pod))
  {
    AlertWords();
    NumberAndUnit(pod.restarts24h, "/24h");
    WordConcat("restarts:", Decimal(pod.restarts24h) + "/24h");
    assert "restarts:" + Decimal(pod.restarts24h) + "/24h" == "restarts:" + (Decimal(pod.restarts24h) + "/24h");
    PercentMessage("mem:", pod.memPercent);
    WordAlertFits(WARNING, POD, pod.name, "restarts:" + Decimal(pod.restarts24h) + "/24h", "threshold", "2");
    WordAlertFits(CRITICAL, POD, pod.name, "mem:" + Percent(pod.memPercent), "threshold", "90%");
    AlertsConcat(RestartAlerts(pod), PodMemoryAlerts(pod));
  }

  lemma {:induction false} AllPodAlertsFit(pods: seq<Pod>)
    requires forall pod :: pod in pods ==> Word(pod.name)
    ensures AlertsFit(AllPodAlerts(pods))
  {
    if pods == [] {
    } else {
      PodAlertsFit(pods[0]);
      AllPodAlertsFit(pods[1..]);
      AlertsConcat(PodAlerts(pods[0]), AllPodAlerts(pods[1..]));
    }
  }

  /** Names of a deployment and its pods are words. */
  predicate Named(dep: Deployment) { Word(dep.name) && forall pod :: pod in dep.pods ==> Word(pod.name) }

  lemma AlertsOfFit(dep: Deployment)
    requires Named(dep)
    ensures AlertsFit(AlertsOf(dep)) <==> (Outdated(dep) ==> ValueFits(dep.image) && ValueFits(dep.latestImage))
  {
    LoadAlertsFit(dep);
    ReplicaAlertsFit(dep);
    ImageAlertsFit(dep);
    AllPodAlertsFit(dep.pods);
    AlertsConcat(MemoryAlerts(dep), CpuAlerts(dep));
    AlertsConcat(MemoryAlerts(dep) + CpuAlerts(dep), ReplicaAlerts(dep));
    AlertsConcat(MemoryAlerts(dep) + CpuAlerts(dep) + ReplicaAlerts(dep), ImageAlerts(dep));
    AlertsConcat(OwnAlerts(dep), AllPodAlerts(dep.pods));
  }

  lemma {:induction false} RawAlertsFit(deps: seq<Deployment>)
    requires forall dep :: dep in deps ==> Named(dep)
    ensures AlertsFit(RawAlerts(deps)) <==>
            forall dep :: dep in deps && Outdated(dep) ==> ValueFits(dep.image) && ValueFits(dep.latestImage)
  {
    if deps == [] {
    } else {
      AlertsOfFit(deps[0]);
      RawAlertsFit(deps[1..]);
      AlertsConcat(AlertsOf(deps[0]), RawAlerts(deps[1..]));
      assert forall dep :: dep in deps <==> dep == deps[0] || dep in deps[1..];
    }
  }

  // ----- Actions -----

  predicate ActionsFit(actions: seq<Action>) { forall a :: a in actions ==> ActionFits(a) }

  lemma ActionsConcat(a: seq<Action>, b: seq<Action>)
    ensures ActionsFit(a + b) <==> ActionsFit(a) && ActionsFit(b)
  {
    assert forall x :: x in a + b <==> x in a || x in b;
  }

  lemma OneAction(a: Action)
    ensures ActionsFit([a]) <==> ActionFits(a)
  {
    assert a in [a];
  }

  lemma ActionWords()
    ensures Word(SCALE) && Word(ROLLOUT) && Word(RESTART) && Word(LOGS) && Word(DEPLOYMENT) && Word(POD)
  {
  }

  lemma ScaleFits(dep: Deployment)
    requires Word(dep.name)
    ensures ActionsFit([Action(SCALE, DEPLOYMENT, dep.name, map["current" := Decimal(dep.replicas), "range" := "1-10"])])
  {
    ActionWords();
    DecimalWord(dep.replicas);
    WordValueFits(Decimal(dep.replicas));
    WordValueFits("1-10");
    PlainKeys();
    TwoPairs("current", Decimal(dep.replicas), "range", "1-10");
  }

  lemma RolloutFits(dep: Deployment)
    requires Word(dep.name)
    ensures ActionsFit([Action(ROLLOUT, DEPLOYMENT, dep.name, map["to" := dep.latestImage, "strategy" := dep.strategy])]) <==>
            ValueFits(dep.latestImage) && ValueFits(dep.strategy)
  {
    ActionWords();
    PlainKeys();
    TwoPairs("to", dep.latestImage, "strategy", dep.strategy);
    OneAction(Action(ROLLOUT, DEPLOYMENT, dep.name, map["to" := dep.latestImage, "strategy" := dep.strategy]));
  }

  lemma RestartFits(dep: Deployment)
    requires Word(dep.name)
    ensures ActionsFit([Action(RESTART, DEPLOYMENT, dep.name, map[])])
  {
    ActionWords();
    PairsFit(map[]);
  }

  lemma OwnActionsFit(dep: Deployment, may: Permissions)
    requires Word(dep.name)
    ensures ActionsFit(OwnActions(dep, may)) <==>
            (may.canRollout && Outdated(dep) ==> ValueFits(dep.latestImage) && ValueFits(dep.strategy))
  {
    var scale := if may.canScale
      then [Action(SCALE, DEPLOYMENT, dep.name, map["current" := Decimal(dep.replicas), "range" := "1-10"])] else [];
    var rollout := if may.canRollout && Outdated(dep)
      then [Action(ROLLOUT, DEPLOYMENT, dep.name, map["to" := dep.latestImage, "strategy" := dep.strategy])] else [];
    var restart := if may.canRestart then [Action(RESTART, DEPLOYMENT, dep.name, map[])] else [];
    ScaleFits(dep);
    RolloutFits(dep);
    RestartFits(dep);
    ActionsConcat(scale + rollout, restart);
    ActionsConcat(scale, rollout);
  }

  lemma LogsFit(pod: Pod)
    requires Word(pod.name)
    ensures ActionsFit([Action(LOGS, POD, pod.name, map["since" := "1h"])])
  {
    ActionWords();
    OnePairFits("since", "1h");
  }

  lemma {:induction false} PodActionsFit(pods: seq<Pod>, may: Permissions)
    requires forall pod :: pod in pods ==> Word(pod.name)
    ensures ActionsFit(PodActions(pods, may))
  {
    if pods == [] {
    } else {
      LogsFit(pods[0]);
      PodActionsFit(pods[1..], may);
      ActionsConcat(if may.canLogs then [Action(LOGS, POD, pods[0].name, map["since" := "1h"])] else [], PodActions(pods[1..], may));
    }
  }

  lemma {:induction false} AllActionsFit(deps: seq<Deployment>, may: Permissions)
    requires forall dep :: dep in deps ==> Named(dep)
    ensures ActionsFit(Actions(deps, may)) <==>
            forall dep :: dep in deps && may.canRollout && Outdated(dep) ==> ValueFits(dep.latestImage) && ValueFits(dep.strategy)
  {
    if deps == [] {
    } else {
      assert Named(deps[0]);
      OwnActionsFit(deps[0], may);
      PodActionsFit(deps[0].pods, may);
      ActionsConcat(OwnActions(deps[0], may), PodActions(deps[0].pods, may));
      AllActionsFit(deps[1..], may);
      ActionsConcat(ActionsOf(deps[0], may), Actions(deps[1..], may));
      assert forall dep :: dep in deps <==> dep == deps[0] || dep in deps[1..];
    }
  }

  // ----- Headers -----

  predicate AllHeadersFit(hs: seq<Header>) { forall h :: h in hs ==> HeaderFits(h) }

  lemma HeadersFit(view: View, now: string)
    ensures AllHeadersFit(ViewHeaders(view, now)) <==>
            '\n' !in view.cluster && '\n' !in view.ns && '\n' !in now
  {
    var hs := ViewHeaders(view, now);
    HeaderWords();
    HeaderValues();
    assert hs[0] in hs && hs[1] in hs && hs[2] in hs;
    assert HeaderFits(hs[0]) <==> '\n' !in view.cluster;
    assert HeaderFits(hs[1]) <==> '\n' !in view.ns;
    assert HeaderFits(hs[2]) <==> '\n' !in now;
  }

  lemma HeaderWords()
    ensures Word("source") && Word("scope") && Word("time") && Word("ttl") && Word("translator")
  {
  }

  lemma HeaderValues()
    ensures '\n' !in "kubernetes/" && '\n' !in "namespace:" && '\n' !in TRANSLATOR_VERSION && '\n' !in FormatDuration(60)
  {
    NumberAndUnit(1, "m");
  }

  // ----- The whole document -----

  lemma NamesInside(dep: Deployment)
    requires DeploymentFits(dep)
    ensures Named(dep)
  {
    assert forall pod :: pod in dep.pods ==> PodFits(pod);
  }

  lemma SectionsFit(view: View, now: string, doc: Document)
    requires IsTranslation(view, now, doc) && EntitiesFit(view)
    ensures AlertsFit(doc.alerts) && ActionsFit(doc.actions) <==> AllImagesFit(view)
  {
    forall dep | dep in view.deployments ensures Named(dep) { NamesInside(dep); }
    SameAlerts(RawAlerts(view.deployments), doc.alerts);
    RawAlertsFit(view.deployments);
    AllActionsFit(view.deployments, view.permissions);
  }

  lemma DocumentParts(doc: Document)
    requires doc.headers != []
    ensures DocumentFits(AsRead(doc)) <==>
            AllHeadersFit(doc.headers) && AllFit(EachEntity(Joined, doc.entities), 0) && AlertsFit(doc.alerts) && ActionsFit(doc.actions)
  {
  }

  lemma ViewParts(view: View, now: string)
    ensures ViewFits(view, now) <==> AllHeadersFit(ViewHeaders(view, now)) && EntitiesFit(view) && AllImagesFit(view)
  {
    HeadersFit(view, now);
  }

  /** The document of a namespace reads back whole exactly when its names, texts, times and
      images keep clear of the syntax. */
  lemma ViewReadsBack(view: View, now: string, doc: Document)
    requires IsTranslation(view, now, doc)
    ensures DecodeView(DocumentText(doc)) == Some(doc) <==> ViewFits(view, now)
  {
    DecodesBackApart(doc);
    DocumentParts(doc);
    ForestReadsBack(doc.entities);
    EntitiesReadBack(view);
    ViewParts(view, now);
    if EntitiesFit(view) { SectionsFit(view, now, doc); }
  }

  /** So the text determines the document. */
  lemma ViewsPrintApart(v: View, w: View, now: string, later: string, doc: Document, other: Document)
    requires IsTranslation(v, now, doc) && IsTranslation(w, later, other) && ViewFits(v, now) && ViewFits(w, later)
    requires DocumentText(doc) == DocumentText(other)
    ensures doc == other
  {
    ViewReadsBack(v, now, doc);
    ViewReadsBack(w, later, other);
  }
}

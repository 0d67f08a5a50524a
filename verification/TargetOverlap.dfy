/** What happens when one metro id does reach into the target keys of another: some outcome of the
    base phase makes two tasks want one dedup key, so one of the two metros loses its targets. */
module TargetOverlap {
  import opened Containers
  import opened CollectionTypes
  import opened CollectionPlan
  import opened ExecutionState
  import opened TopResults
  import opened Materialize
  import opened Replay
  import opened DependentTargets
  import PlanCoverage
  import TaskGraph
  import TaskIds

  // ----- One domain and one URL everywhere -------------------------------------------------

  /** What comes before the first colon. */
  function BeforeColon(s: string): (r: string)
    ensures ':' !in r
    ensures ':' !in s ==> r == s
  {
    if s == "" || s[0] == ':' then "" else [s[0]] + BeforeColon(s[1..])
  }

  /** Texts are taken as they are, and domains are cut at the first colon. */
  function PlainText(): TextOps {
    TextOps(
      (v: Value) => if v.Text? then v.text else "",
      (s: string) => s, (s: string) => s, BeforeColon, (s: string) => s,
      (v: Value) => None,
      {})
  }

  lemma PlainDomains()
    ensures PlainText().DomainsHoldNoColon()
  {
  }

  /** The domain and the URL that every organic row names. */
  datatype Site = Site(domain: string, url: string)
  {
    predicate IsProper() {
      domain != "" && ':' !in domain && url != ""
    }

    function Wanted(wanted: Wanted): string {
      match wanted
      case Domains => domain
      case Urls => url
    }
  }

  function OneItem(x: Site): Item {
    map["domain" := Text(x.domain), "url" := Text(x.url)]
  }

  /** Every task is answered with one row that holds one item. */
  function OneAnswer(x: Site): Outcomes {
    (t: CollectionTask) => OkResponse(One(RowDatum(Row(map[], [OneItem(x)]))), 0.0)
  }

  lemma OneCandidate(wanted: Wanted, x: Site)
    requires x.IsProper()
    ensures Candidate(PlainText(), wanted, OneItem(x)) == [Keyed(x.Wanted(wanted), x.Wanted(wanted))]
  {
  }

  lemma {:induction false} FlatOfSame<T, R>(f: T -> seq<R>, xs: seq<T>, c: R)
    requires forall x :: x in xs ==> f(x) == [c]
    ensures |Flat(f, xs)| == |xs| && forall i :: 0 <= i < |xs| ==> Flat(f, xs)[i] == c
  {
    if xs != [] {
      FlatOfSame(f, Front(xs), c);
    }
  }

  lemma {:induction false} FirstOfSame<V>(xs: seq<Keyed<V>>, c: Keyed<V>)
    requires xs != [] && forall i :: 0 <= i < |xs| ==> xs[i] == c
    ensures FirstByKey(xs) == [c]
  {
    if |xs| > 1 {
      FirstOfSame(Front(xs), c);
      assert Keys([c])  == {c.key} by { KeysSnoc([], c); assert [] + [c] == [c]; }
    } else {
      assert xs == [c] && Front(xs) == [];
      assert Keys<V>(FirstByKey<V>([])) == {};
    }
  }

  lemma OneRow(wanted: Wanted, x: Site)
    requires x.IsProper()
    ensures Flat(ScanRow(PlainText(), wanted), [Row(map[], [OneItem(x)])])
         == [Keyed(x.Wanted(wanted), x.Wanted(wanted))]
  {
    hide OneItem, PlainText, Candidate;
    OneCandidate(wanted, x);
    var row := Row(map[], [OneItem(x)]);
    FlatSnoc(ScanItem(PlainText(), wanted), [], OneItem(x));
    assert [] + [OneItem(x)] == [OneItem(x)];
    FlatSnoc(ScanRow(PlainText(), wanted), [], row);
    assert [] + [row] == [row];
  }

  /** The state after the base phase, finished in the order of log. */
  function AfterBase(log: seq<CollectionTask>, outcomes: Outcomes): Data {
    RecordAll(InitialData(), log, outcomes)
  }

  lemma Answered(log: seq<CollectionTask>, x: Site, t: CollectionTask)
    requires TaskGraph.UniqueIds(log) && t in log
    ensures var d := AfterBase(log, OneAnswer(x));
            && t.taskId in d.categories.vals && d.categories.vals[t.taskId] == t.taskType
            && ResultsOf(d.results.vals, t.taskId) == [Row(map[], [OneItem(x)])]
            && d.seen == {}
  {
    hide RecordAll, OneItem;
    RecordAllLook(InitialData(), log, OneAnswer(x), t.taskId);
    var e := Look(AfterBase(log, OneAnswer(x)), t.taskId);
    assert e == EntryOf(t, OneAnswer(x)(t));
    var row := Row(map[], [OneItem(x)]);
    assert RowsOf([]) == [];
    assert RowsOf([RowDatum(row)]) == [row];
    assert e.result == Some([row]);
  }

  lemma {:induction false} OrganicIds(
      metroId: string, tasks: seq<CollectionTask>, categories: map<string, TaskType>, id: string)
    ensures id in OrganicTaskIds(metroId, tasks, categories) <==>
      exists t :: t in tasks && t.taskId == id && t.taskType == SerpOrganic && t.metroId == metroId
                  && t.taskId in categories && categories[t.taskId] == SerpOrganic
  {
    if tasks != [] {
      OrganicIds(metroId, Front(tasks), categories, id);
      assert forall t :: t in tasks <==> t in Front(tasks) || t == Last(tasks);
    }
  }

  lemma BaseIdsAlong(request: CollectionRequest, log: seq<CollectionTask>)
    requires IsPermutation(PlanOf(request).baseTasks, log)
    ensures TaskGraph.UniqueIds(log)
  {
    BaseTaskIdsUnique(request);
    UniqueIdsPermutation(PlanOf(request).baseTasks, log);
  }

  /** A metro with organic tasks then has that domain and that URL as its only targets. */
  lemma OneTarget(request: CollectionRequest, log: seq<CollectionTask>, x: Site, metroId: string, wanted: Wanted)
    requires x.IsProper() && IsPermutation(PlanOf(request).baseTasks, log)
    requires exists t :: t in PlanOf(request).baseTasks && t.metroId == metroId && t.taskType == SerpOrganic
    ensures TopOrganic(PlainText(), wanted, metroId, PlanOf(request), AfterBase(log, OneAnswer(x)), TARGET_LIMIT)
         == [x.Wanted(wanted)]
  {
    hide PlanOf, OneItem, PlainText, AfterBase, OrganicTaskIds, OneAnswer, Flat, FirstByKey, ResultsOf;
    var tasks, d := PlanOf(request).baseTasks, AfterBase(log, OneAnswer(x));
    var c := Keyed(x.Wanted(wanted), x.Wanted(wanted));
    BaseIdsAlong(request, log);
    PermutationLength(tasks, log);
    var ids := OrganicTaskIds(metroId, tasks, d.categories.vals);
    var f := ScanTask(PlainText(), wanted, d.results.vals);
    forall id | id in ids ensures f(id) == [c] {
      OrganicIds(metroId, tasks, d.categories.vals, id);
      var t :| t in tasks && t.taskId == id;
      Answered(log, x, t);
      OneRow(wanted, x);
    }
    var t :| t in tasks && t.metroId == metroId && t.taskType == SerpOrganic;
    Answered(log, x, t);
    OrganicIds(metroId, tasks, d.categories.vals, t.taskId);
    FlatOfSame(f, ids, c);
    FirstOfSame(Flat(f, ids), c);
  }

  // ----- Two tasks for one key -------------------------------------------------------------

  lemma {:induction false} EmitAllSeen(acc: Progress, template: CollectionTask, es: seq<Emission>)
    ensures acc.seen <= EmitAll(acc, template, es).seen
  {
    if es != [] {
      EmitAllSeen(acc, template, Front(es));
    }
  }

  /** A template of another slot changes neither the targets of this one nor forgets keys. */
  lemma OtherSlot(acc: Progress, template: CollectionTask, es: seq<Emission>, metroId: string, t: TaskType)
    requires !SameSlot(template, metroId, t)
    ensures var p := Process(acc, template, es);
            TargetsOf(p.tasks, metroId, t) == TargetsOf(acc.tasks, metroId, t) && acc.seen <= p.seen
  {
    hide EmitAll, TargetsOf;
    TargetsOfOthers(acc, template, es, metroId, t);
    EmitAllSeen(acc, template, es);
  }

  /** The template that has key as its own: it is marked afterwards, and does nothing if it was before. */
  lemma OwnedKey(acc: Progress, template: CollectionTask, es: seq<Emission>, key: string)
    requires key != "" && template.dedupKey == Some(key)
    ensures var p := Process(acc, template, es);
            key in p.seen && acc.seen <= p.seen && (key in acc.seen ==> p == acc)
  {
    hide EmitAll;
    EmitAllSeen(acc, template, es);
  }

  /** The template that has x as its only target: it does not add it when its key is marked, and
      marks the key when it adds it. */
  lemma WantedKey(ops: TextOps, acc: Progress, template: CollectionTask, x: string)
    requires TargetType(template.taskType) && HasKey(template.dedupKey)
    ensures var key := template.dedupKey.value + ":" + KeyPart(ops, template.taskType, x);
            var p := Process(acc, template, TargetEmissions(ops, template, [x]));
            && acc.seen <= p.seen
            && (key in acc.seen ==> p.tasks == acc.tasks)
            && (key !in p.seen ==> p.tasks == acc.tasks)
  {
    hide TaskIds.DependentTaskId;
    var e := TargetEmission(ops, template, x);
    assert TargetEmissions(ops, template, [x]) == [e];
    SingleEmission(acc, template, e);
  }

  /** One key, wanted for the only target of one slot and owned by the template of another. */
  ghost predicate Contested(
      ops: TextOps, plan: Plan, d: Data, m: string, t: TaskType, x: string, m': string, key: string)
  {
    && TargetType(t) && m != m'
    && TopOrganic(ops, WantedBy(t), m, plan, d, TARGET_LIMIT) == [x]
    && key == TemplateKey(m, t) + ":" + KeyPart(ops, t, x)
    && key == TemplateKey(m', Backlinks)
  }

  lemma WantedEmissions(ops: TextOps, plan: Plan, d: Data, code: int, template: CollectionTask, x: string)
    requires TargetType(template.taskType)
    requires TopOrganic(ops, WantedBy(template.taskType), template.metroId, plan, d, TARGET_LIMIT) == [x]
    ensures Emissions(ops, plan, d, code, template) == TargetEmissions(ops, template, [x])
  {
    hide TopOrganic;
  }

  lemma NoTargetsAtFirst(metroId: string, t: TaskType)
    ensures TargetsOf([], metroId, t) == []
  {
  }

  /** Whichever of the two templates comes first takes the key; the other slot stays empty. */
  lemma {:induction false} NotBothGetTargets(
      ops: TextOps, plan: Plan, request: CollectionRequest, d: Data, ts: seq<CollectionTask>,
      m: string, t: TaskType, x: string, m': string, key: string)
    requires KnowsMetros(request.metros, ts) && forall i :: 0 <= i < |ts| ==> PlannedTemplate(ts[i])
    requires Contested(ops, plan, d, m, t, x, m', key)
    ensures var p := ProcessAll(ops, plan, request, d, ts);
            var wanted, owned := TargetsOf(p.tasks, m, t) != [], TargetsOf(p.tasks, m', Backlinks) != [];
            !(wanted && owned) && (wanted || owned ==> key in p.seen)
  {
    hide Emissions, EmitAll, TargetsOf, TemplateKey, KeyPart, Process;
    if ts == [] {
      NoTargetsAtFirst(m, t);
      NoTargetsAtFirst(m', Backlinks);
    } else {
      var front, last := Front(ts), Last(ts);
      assert last == ts[|ts| - 1] && last in ts;
      assert forall i :: 0 <= i < |front| ==> front[i] == ts[i];
      NotBothGetTargets(ops, plan, request, d, front, m, t, x, m', key);
      var acc := ProcessAll(ops, plan, request, d, front);
      var es := Emissions(ops, plan, d, LocationCode(request.metros, last.metroId), last);
      KeyNonEmpty(last.metroId, last.taskType);
      if SameSlot(last, m, t) {
        OtherSlot(acc, last, es, m', Backlinks);
        WantedEmissions(ops, plan, d, LocationCode(request.metros, last.metroId), last, x);
        WantedKey(ops, acc, last, x);
      } else if SameSlot(last, m', Backlinks) {
        OtherSlot(acc, last, es, m, t);
        OwnedKey(acc, last, es, key);
      } else {
        OtherSlot(acc, last, es, m, t);
        OtherSlot(acc, last, es, m', Backlinks);
      }
    }
  }

  // ----- A request whose metro ids are not apart -------------------------------------------

  lemma TemplatesAskPlan(request: CollectionRequest, metroId: string)
    requires SerpKeywords(request) != [] && request.profile == Full
    requires exists m :: m in request.metros && m.metroId == metroId
    ensures Asks(PlanOf(request).dependentTemplates, metroId, Backlinks)
  {
    TemplatesAsk(request, request.metros, metroId, Backlinks);
  }

  lemma OrganicTaskOf(request: CollectionRequest, metro: MetroInput)
    requires metro in request.metros && SerpKeywords(request) != [] && request.profile == Full
    requires DistinctMetroIds(request.metros)
    ensures exists t :: t in PlanOf(request).baseTasks && t.metroId == metro.metroId && t.taskType == SerpOrganic
  {
    hide PlanOf, SerpKeywords;
    TemplatesAskPlan(request, metro.metroId);
    var ts := PlanOf(request).dependentTemplates;
    var i :| 0 <= i < |ts| && SameSlot(ts[i], metro.metroId, Backlinks);
    PlanCoverage.TemplatesWaitForTheirSource(request, ts[i]);
  }

  lemma PlanTemplates(request: CollectionRequest)
    ensures forall i :: 0 <= i < |PlanOf(request).dependentTemplates| ==>
        PlannedTemplate(PlanOf(request).dependentTemplates[i])
  {
    hide TemplateKey;
    var ts := PlanOf(request).dependentTemplates;
    forall i | 0 <= i < |ts| ensures PlannedTemplate(ts[i]) {
      TemplateSlot(request, request.metros, ts[i]);
    }
  }

  /** The type of target of m that can be given the backlinks key of m'. */
  function ContestedType(m: string, m': string): TaskType {
    if m' == TemplateKey(m, Backlinks) then Backlinks else Lighthouse
  }

  lemma TypeNameNonEmpty(t: TaskType)
    ensures TypeName(t) != ""
  {
  }

  lemma SplitAfter(prefix: string, middle: string, s: string)
    requires prefix <= middle <= s && middle != s
    ensures prefix + s[|prefix|..] == s && s[|prefix|..] != ""
  {
  }

  /** A site whose domain, or whose URL, completes a target key of m to the backlinks key of m'. */
  lemma ContestedSite(m: string, m': string) returns (x: Site)
    requires Reaches(m, m')
    ensures x.IsProper()
    ensures var t := ContestedType(m, m');
            TemplateKey(m, t) + ":" + KeyPart(PlainText(), t, x.Wanted(WantedBy(t))) == TemplateKey(m', Backlinks)
  {
    TypeNameNonEmpty(Backlinks);
    TypeNamesColonFree(Backlinks);
    hide TypeName;
    var key := TemplateKey(m', Backlinks);
    assert key == (m' + ":") + TypeName(Backlinks);
    if m' == TemplateKey(m, Backlinks) {
      x := Site(TypeName(Backlinks), TypeName(Backlinks));
    } else {
      var prefix := TemplateKey(m, Lighthouse) + ":";
      SplitAfter(prefix, m' + ":", key);
      x := Site(TypeName(Backlinks), key[|prefix|..]);
    }
  }

  ghost predicate OneLoses(
      request: CollectionRequest, a: MetroInput, b: MetroInput, log: seq<CollectionTask>, x: Site)
    requires KnowsMetros(request.metros, PlanOf(request).dependentTemplates)
  {
    var d := AfterBase(log, OneAnswer(x));
    || !HasItsTargets(PlainText(), request, d, a.metroId, ContestedType(a.metroId, b.metroId))
    || !HasItsTargets(PlainText(), request, d, b.metroId, Backlinks)
  }

  lemma SiteLosesTargets(
      request: CollectionRequest, a: MetroInput, b: MetroInput, log: seq<CollectionTask>, x: Site)
    requires a in request.metros && b in request.metros && a.metroId != b.metroId
    requires DistinctMetroIds(request.metros)
    requires SerpKeywords(request) != [] && request.profile == Full
    requires KnowsMetros(request.metros, PlanOf(request).dependentTemplates)
    requires IsPermutation(PlanOf(request).baseTasks, log) && x.IsProper()
    requires var t := ContestedType(a.metroId, b.metroId);
             TemplateKey(a.metroId, t) + ":" + KeyPart(PlainText(), t, x.Wanted(WantedBy(t)))
             == TemplateKey(b.metroId, Backlinks)
    ensures OneLoses(request, a, b, log, x)
  {
    var t := ContestedType(a.metroId, b.metroId);
    assert TargetType(t);
    hide PlanOf, AfterBase, OneAnswer, TopOrganic, SerpKeywords, ContestedType, TemplateKey, TargetsOf;
    hide PlannedTemplate, KeyPart, PlainText;
    var d, y, key := AfterBase(log, OneAnswer(x)), x.Wanted(WantedBy(t)), TemplateKey(b.metroId, Backlinks);
    var ts := PlanOf(request).dependentTemplates;
    OrganicTaskOf(request, a);
    OrganicTaskOf(request, b);
    OneTarget(request, log, x, a.metroId, WantedBy(t));
    OneTarget(request, log, x, b.metroId, WantedBy(Backlinks));
    PlanTemplates(request);
    assert Contested(PlainText(), PlanOf(request), d, a.metroId, t, y, b.metroId, key);
    NotBothGetTargets(PlainText(), PlanOf(request), request, d, ts, a.metroId, t, y, b.metroId, key);
    assert Texted([y]) != [] && Texted([x.Wanted(WantedBy(Backlinks))]) != [];
  }

  /** When one id reaches into the target keys of another, an answer that names the contested site
      leaves one of the two metros without its targets, whatever the order of completion. */
  lemma OverlapLosesTargets(request: CollectionRequest, a: MetroInput, b: MetroInput) returns (x: Site)
    requires a in request.metros && b in request.metros && a.metroId != b.metroId
    requires DistinctMetroIds(request.metros)
    requires SerpKeywords(request) != [] && request.profile == Full && Reaches(a.metroId, b.metroId)
    ensures KnowsMetros(request.metros, PlanOf(request).dependentTemplates)
    ensures forall log :: IsPermutation(PlanOf(request).baseTasks, log) ==> OneLoses(request, a, b, log, x)
  {
    hide PlanOf, SerpKeywords, Reaches, OneLoses;
    PlanKnowsMetros(request);
    x := ContestedSite(a.metroId, b.metroId);
    forall log | IsPermutation(PlanOf(request).baseTasks, log) ensures OneLoses(request, a, b, log, x) {
      SiteLosesTargets(request, a, b, log, x);
    }
  }

  /** Every metro gets its targets, whatever the base tasks come to and in whatever order, under every
      domain normaliser that cuts at the colon and every URL key. */
  ghost predicate TargetsNeverLost(request: CollectionRequest)
    requires KnowsMetros(request.metros, PlanOf(request).dependentTemplates)
  {
    forall ops: TextOps, log, outcomes, k: int, t ::
      ops.DomainsHoldNoColon() && IsPermutation(PlanOf(request).baseTasks, log)
      && 0 <= k < |request.metros| && TargetType(t) ==>
        HasItsTargets(ops, request, AfterBase(log, outcomes), request.metros[k].metroId, t)
  }

  lemma AfterBaseSeen(request: CollectionRequest, log: seq<CollectionTask>, outcomes: Outcomes)
    requires IsPermutation(PlanOf(request).baseTasks, log)
    ensures AfterBase(log, outcomes).seen == {}
  {
    BaseIdsAlong(request, log);
    RecordAllLook(InitialData(), log, outcomes, "");
  }

  /** The targets of a planned run are never lost exactly when nothing asks for targets or the metro
      ids of the request are apart. */
  lemma TargetsNeverLostIff(request: CollectionRequest)
    requires DistinctMetroIds(request.metros)
    ensures KnowsMetros(request.metros, PlanOf(request).dependentTemplates)
    ensures TargetsNeverLost(request) <==> TargetsAreSafe(request)
  {
    hide PlanOf, AfterBase, HasItsTargets, SerpKeywords, TemplateKey, TextOps.DomainsHoldNoColon;
    PlanKnowsMetros(request);
    if TargetsAreSafe(request) {
      forall ops: TextOps, log, outcomes, k: int, t |
        ops.DomainsHoldNoColon() && IsPermutation(PlanOf(request).baseTasks, log)
        && 0 <= k < |request.metros| && TargetType(t)
        ensures HasItsTargets(ops, request, AfterBase(log, outcomes), request.metros[k].metroId, t)
      {
        AfterBaseSeen(request, log, outcomes);
        PlannedRunTargets(ops, request, AfterBase(log, outcomes), request.metros[k], t);
      }
    } else {
      var i, j :| 0 <= i < |request.metros| && 0 <= j < |request.metros| && i != j
                  && Reaches(request.metros[i].metroId, request.metros[j].metroId);
      var a, b := request.metros[i], request.metros[j];
      var x := OverlapLosesTargets(request, a, b);
      var log := PlanOf(request).baseTasks;
      assert OneLoses(request, a, b, log, x);
      PlainDomains();
      assert TargetType(ContestedType(a.metroId, b.metroId)) && TargetType(Backlinks);
      var d := AfterBase(log, OneAnswer(x));
      assert !HasItsTargets(PlainText(), request, d, request.metros[i].metroId, ContestedType(a.metroId, b.metroId))
          || !HasItsTargets(PlainText(), request, d, request.metros[j].metroId, Backlinks);
    }
  }

  // ----- A concrete request ----------------------------------------------------------------

  /** Once the key of a slot's only target is marked, the slot stays empty. */
  lemma {:induction false} StaysEmpty(
      ops: TextOps, plan: Plan, request: CollectionRequest, d: Data, xs: seq<CollectionTask>, ys: seq<CollectionTask>,
      m: string, t: TaskType, x: string)
    requires KnowsMetros(request.metros, xs + ys) && KnowsMetros(request.metros, xs) && TargetType(t)
    requires forall i :: 0 <= i < |ys| ==> PlannedTemplate(ys[i])
    requires TopOrganic(ops, WantedBy(t), m, plan, d, TARGET_LIMIT) == [x]
    requires TemplateKey(m, t) + ":" + KeyPart(ops, t, x) in ProcessAll(ops, plan, request, d, xs).seen
    requires TargetsOf(ProcessAll(ops, plan, request, d, xs).tasks, m, t) == []
    ensures var p := ProcessAll(ops, plan, request, d, xs + ys);
            TargetsOf(p.tasks, m, t) == [] && TemplateKey(m, t) + ":" + KeyPart(ops, t, x) in p.seen
  {
    hide Emissions, EmitAll, TargetsOf, TemplateKey, KeyPart, Process;
    if ys == [] {
      assert xs + ys == xs;
    } else {
      var front, last := Front(ys), Last(ys);
      assert Front(xs + ys) == xs + front && Last(xs + ys) == last && last in xs + ys;
      assert forall u :: u in xs + front ==> u in xs + ys;
      StaysEmpty(ops, plan, request, d, xs, front, m, t, x);
      var acc := ProcessAll(ops, plan, request, d, xs + front);
      var es := Emissions(ops, plan, d, LocationCode(request.metros, last.metroId), last);
      KeyNonEmpty(last.metroId, last.taskType);
      assert PlannedTemplate(last);
      if SameSlot(last, m, t) {
        WantedEmissions(ops, plan, d, LocationCode(request.metros, last.metroId), last, x);
        WantedKey(ops, acc, last, x);
      } else {
        OtherSlot(acc, last, es, m, t);
      }
    }
  }

  /** Two metros, the first with a colon in its id, and one keyword that asks for SERP results. */
  function CollidingRequest(): CollectionRequest {
    CollectionRequest(
      [KeywordDescriptor("plumber", 1, "transactional")],
      [MetroInput("a:backlinks", 1, None), MetroInput("a", 2, None)],
      Full)
  }

  lemma CollidingIsValid()
    ensures ValidRequest(CollidingRequest()) && SerpKeywords(CollidingRequest()) != []
  {
    var k := KeywordDescriptor("plumber", 1, "transactional");
    assert k.IsSerpEligible();
    assert CollidingRequest().keywords == [k];
    assert Eligible([k])[0] == k;
  }

  /** Templates xs, none of the slot, come first, and one of them owns the key of its only target. */
  lemma EarlierTemplateTakesKey(
      ops: TextOps, plan: Plan, request: CollectionRequest, d: Data, xs: seq<CollectionTask>, ys: seq<CollectionTask>,
      m: string, t: TaskType, x: string, owner: CollectionTask)
    requires KnowsMetros(request.metros, xs + ys) && TargetType(t) && !Asks(xs, m, t)
    requires forall i :: 0 <= i < |ys| ==> PlannedTemplate(ys[i])
    requires TopOrganic(ops, WantedBy(t), m, plan, d, TARGET_LIMIT) == [x]
    requires owner in xs && owner.dedupKey == Some(TemplateKey(m, t) + ":" + KeyPart(ops, t, x))
    ensures TargetsOf(ProcessAll(ops, plan, request, d, xs + ys).tasks, m, t) == []
  {
    hide TopOrganic, TemplateKey, TargetsOf, PlannedTemplate, KeyPart, ProcessAll, Asks, Deduplicated, Numbered;
    assert forall u :: u in xs ==> u in xs + ys;
    NobodyAsksNoTargets(ops, plan, request, d, xs, m, t);
    MaterializedIsDeduplicated(ops, plan, request, d, xs);
    assert |owner.dedupKey.value| >= 1;
    StaysEmpty(ops, plan, request, d, xs, ys, m, t, x);
  }

  lemma TwoMetroTemplates(request: CollectionRequest, first: MetroInput, second: MetroInput)
    requires request.metros == [first, second]
    ensures PlanOf(request).dependentTemplates
         == TemplatesFor(request, first, 1) + TemplatesFor(request, second, |BaseTasks(request, [first])| + 1)
  {
    hide TemplatesFor, MetroTasks;
    assert Front([first, second]) == [first] && Front([first]) == [];
    assert BaseTasks(request, []) == [] && Templates(request, []) == [];
    assert Templates(request, [first]) == TemplatesFor(request, first, 1);
  }

  lemma GbpTemplate(request: CollectionRequest, metro: MetroInput, start: nat)
    requires SerpKeywords(request) != [] && request.profile == Full
    ensures exists t ::
        t in TemplatesFor(request, metro, start) && t.dedupKey == Some(TemplateKey(metro.metroId, GbpInfo))
  {
    hide TaskIds.BaseTaskId, TemplateKey, Chunks, SerpKeywords, KeywordTexts;
    assert TemplatesFor(request, metro, start)[2].dedupKey == Some(TemplateKey(metro.metroId, GbpInfo));
  }

  lemma TemplatesSplit(request: CollectionRequest, first: MetroInput, second: MetroInput)
    returns (xs: seq<CollectionTask>, ys: seq<CollectionTask>, owner: CollectionTask)
    requires request.metros == [first, second] && first.metroId != second.metroId
    requires SerpKeywords(request) != [] && request.profile == Full
    ensures PlanOf(request).dependentTemplates == xs + ys
    ensures !Asks(xs, second.metroId, Backlinks)
    ensures forall i :: 0 <= i < |ys| ==> PlannedTemplate(ys[i])
    ensures owner in xs && owner.dedupKey == Some(TemplateKey(first.metroId, GbpInfo))
  {
    hide PlanOf, SerpKeywords, TemplateKey, PlannedTemplate, BaseTasks, TemplatesFor, Asks;
    TwoMetroTemplates(request, first, second);
    var start := |BaseTasks(request, [first])| + 1;
    xs, ys := TemplatesFor(request, first, 1), TemplatesFor(request, second, start);
    TemplatesForPlanned(request, first, 1);
    TemplatesForPlanned(request, second, start);
    AsksOnlyOwn(xs, first.metroId, second.metroId, Backlinks);
    GbpTemplate(request, first, 1);
    owner :| owner in xs && owner.dedupKey == Some(TemplateKey(first.metroId, GbpInfo));
  }

  /** After this run of the base phase the metro has exactly one backlinks target, and no task for it. */
  ghost predicate OnlyTargetLost(request: CollectionRequest, log: seq<CollectionTask>, x: Site, metroId: string)
    requires KnowsMetros(request.metros, PlanOf(request).dependentTemplates)
  {
    var plan, d := PlanOf(request), AfterBase(log, OneAnswer(x));
    && TopOrganic(PlainText(), Domains, metroId, plan, d, TARGET_LIMIT) == [x.domain]
    && TargetsOf(Materialized(PlainText(), plan, request, d).tasks, metroId, Backlinks) == []
  }

  /** The gbp_info template of the first metro owns the key that the second metro's only domain needs. */
  lemma FirstMetroTakesKey(
      request: CollectionRequest, first: MetroInput, second: MetroInput, log: seq<CollectionTask>, x: Site)
    requires request.metros == [first, second] && first.metroId != second.metroId && x.IsProper()
    requires DistinctMetroIds(request.metros)
    requires SerpKeywords(request) != [] && request.profile == Full
    requires TemplateKey(first.metroId, GbpInfo) == TemplateKey(second.metroId, Backlinks) + ":" + x.domain
    requires IsPermutation(PlanOf(request).baseTasks, log)
    ensures KnowsMetros(request.metros, PlanOf(request).dependentTemplates)
    ensures OnlyTargetLost(request, log, x, second.metroId)
  {
    var m := second.metroId;
    assert second in request.metros && WantedBy(Backlinks) == Domains && x.Wanted(Domains) == x.domain;
    assert KeyPart(PlainText(), Backlinks, x.domain) == x.domain;
    hide AfterBase, OneAnswer, TopOrganic, SerpKeywords, TemplateKey, TargetsOf, PlannedTemplate, PlainText;
    hide KeyPart, PlanOf, ProcessAll, Asks, DistinctMetroIds;
    PlanKnowsMetros(request);
    OrganicTaskOf(request, second);
    OneTarget(request, log, x, m, Domains);
    var xs, ys, owner := TemplatesSplit(request, first, second);
    var plan, d := PlanOf(request), AfterBase(log, OneAnswer(x));
    EarlierTemplateTakesKey(PlainText(), plan, request, d, xs, ys, m, Backlinks, x.domain, owner);
  }

  function CollidingSite(): Site {
    Site("gbp_info", "https://gbp_info/")
  }

  lemma CollidingFacts()
    ensures var r := CollidingRequest();
            && |r.metros| == 2 && r.profile == Full && r.metros[1].metroId == "a"
            && r.metros[0].metroId != r.metros[1].metroId
            && TemplateKey(r.metros[0].metroId, GbpInfo)
               == TemplateKey(r.metros[1].metroId, Backlinks) + ":" + CollidingSite().domain
    ensures CollidingSite().IsProper()
  {
  }

  /** Metro "a" comes after metro "a:backlinks": whenever every organic row names the domain "gbp_info",
      "a" has exactly one target and gets none. */
  lemma ColonIdsCollide(log: seq<CollectionTask>)
    requires IsPermutation(PlanOf(CollidingRequest()).baseTasks, log)
    ensures var request := CollidingRequest();
            && ValidRequest(request)
            && KnowsMetros(request.metros, PlanOf(request).dependentTemplates)
            && OnlyTargetLost(request, log, CollidingSite(), "a")
  {
    hide OnlyTargetLost, SerpKeywords, TemplateKey, CollidingRequest;
    hide CollidingSite, PlanOf, ValidRequest, Site.IsProper;
    var request := CollidingRequest();
    CollidingIsValid();
    CollidingFacts();
    assert request.metros == [request.metros[0], request.metros[1]];
    FirstMetroTakesKey(request, request.metros[0], request.metros[1], log, CollidingSite());
  }

  /** What follows the target key may hold colons without any harm: the backlinks keys of "a" and
      the keys of "a:backlinks:x" never meet. */
  lemma LongerIdsAreApart()
    ensures Apart([MetroInput("a", 1, None), MetroInput("a:backlinks:x", 2, None)])
  {
    var a, b := "a", "a:backlinks:x";
    assert TemplateKey(a, Backlinks) == "a:backlinks" && TemplateKey(a, Lighthouse) == "a:lighthouse";
    assert (TemplateKey(a, Lighthouse) + ":")[2] == 'l' && (b + ":")[2] == 'b';
    assert |TemplateKey(b, Backlinks)| > |a| && |TemplateKey(b, Lighthouse)| > |a|;
  }
}

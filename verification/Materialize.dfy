/** The dependent tasks built from first-phase results, with their dedup keys. */
module Materialize {
  import opened Containers
  import opened CollectionTypes
  import opened CollectionPlan
  import opened ExecutionState
  import opened TaskIds
  import opened TopResults
  import opened MapsProfiles
  import TaskGraph

  const TARGET_LIMIT: nat := 5

  /** A dedup key counts only when it is a non-empty string. */
  predicate HasKey(key: Option<string>) {
    key.Some? && key.value != ""
  }

  predicate Seen(key: Option<string>, seen: set<string>) {
    HasKey(key) && key.value in seen
  }

  function Mark(key: Option<string>, seen: set<string>): set<string> {
    if HasKey(key) then seen + {key.value} else seen
  }

  function OptionalValue(t: Option<string>): Value {
    match t case Some(s) => Text(s) case None => Null
  }

  /** One task a template asks for: its payload and its concrete dedup key. */
  datatype Emission = Emission(payload: Payload, key: Option<string>)

  function TargetKey(template: CollectionTask, target: string): Option<string> {
    if HasKey(template.dedupKey) then Some(template.dedupKey.value + ":" + target) else None
  }

  // ----- What each template asks for -------------------------------------------------------

  function ProfilePayload(template: CollectionTask, locationCode: int, p: Profile): Payload {
    var query :=
      if template.taskType == GbpInfo then
        match p.businessName
        case Some(n) => n
        case None => (match p.sourceQuery case Some(q) => q case None => p.query)
      else p.query;
    template.payload + map[
      "keyword" := Text(query),
      "location_code" := Number(locationCode),
      "cid" := OptionalValue(p.cid),
      "place_id" := OptionalValue(p.placeId),
      "business_name" := OptionalValue(p.businessName),
      "source_query" := OptionalValue(p.sourceQuery),
      "preferred_identifier_mode" := Text(p.identifierMode),
      "review_retrieval_mode" := if template.taskType == GoogleReviews then Text(p.identifierMode) else Null,
      "gbp_retrieval_mode" := if template.taskType == GbpInfo then Text("keyword") else Null]
  }

  function ListingsPayload(template: CollectionTask, locationCode: int, keyword: Option<string>): Payload {
    template.payload + map[
      "keyword" := Text(match keyword case Some(k) => k case None => ""),
      "location_code" := Number(locationCode)]
  }

  function BacklinkEmission(template: CollectionTask, domain: string): Emission {
    Emission(template.payload + map["target" := Text(domain)], TargetKey(template, domain))
  }

  function LighthouseEmission(ops: TextOps, template: CollectionTask, url: string): Emission {
    Emission(template.payload + map["url" := Text(url)], TargetKey(template, ops.urlKey(url)))
  }

  function TargetEmission(ops: TextOps, template: CollectionTask, target: string): Emission {
    if template.taskType == Backlinks then BacklinkEmission(template, target)
    else LighthouseEmission(ops, template, target)
  }

  function TargetEmissions(ops: TextOps, template: CollectionTask, targets: seq<string>): seq<Emission> {
    seq(|targets|, i requires 0 <= i < |targets| => TargetEmission(ops, template, targets[i]))
  }

  function ProfileEmissions(ops: TextOps, d: Data, locationCode: int, template: CollectionTask): seq<Emission> {
    match BestMapsProfile(ops, template.metroId, d)
    case None => []
    case Some(p) => [Emission(ProfilePayload(template, locationCode, p), template.dedupKey)]
  }

  /** Everything the template asks for, before dedup keys are consulted. */
  function Emissions(ops: TextOps, plan: Plan, d: Data, locationCode: int, template: CollectionTask): seq<Emission> {
    match template.taskType
    case GoogleReviews => ProfileEmissions(ops, d, locationCode, template)
    case GbpInfo => ProfileEmissions(ops, d, locationCode, template)
    case BusinessListings =>
      [Emission(ListingsPayload(template, locationCode, FirstMapsKeyword(ops, template.metroId, d)), template.dedupKey)]
    case Backlinks => TargetEmissions(ops, template, TopOrganic(ops, Domains, template.metroId, plan, d, TARGET_LIMIT))
    case Lighthouse => TargetEmissions(ops, template, TopOrganic(ops, Urls, template.metroId, plan, d, TARGET_LIMIT))
    case _ => []
  }

  // ----- Emitting under dedup keys ---------------------------------------------------------

  datatype Progress = Progress(tasks: seq<CollectionTask>, seen: set<string>)

  function ConcreteTask(template: CollectionTask, n: nat, e: Emission): CollectionTask {
    CollectionTask(DependentTaskId(n), template.metroId, template.taskType, e.payload, [], e.key)
  }

  function Emit(acc: Progress, template: CollectionTask, e: Emission): Progress {
    if Seen(e.key, acc.seen) then acc
    else Progress(acc.tasks + [ConcreteTask(template, |acc.tasks| + 1, e)], Mark(e.key, acc.seen))
  }

  function EmitAll(acc: Progress, template: CollectionTask, es: seq<Emission>): Progress {
    if es == [] then acc else Emit(EmitAll(acc, template, Front(es)), template, Last(es))
  }

  /** One turn of the template loop: seen templates are skipped, processed ones are marked. */
  function Process(acc: Progress, template: CollectionTask, es: seq<Emission>): Progress {
    if Seen(template.dedupKey, acc.seen) then acc
    else
      var emitted := EmitAll(acc, template, es);
      emitted.(seen := Mark(template.dedupKey, emitted.seen))
  }

  ghost predicate KnowsMetros(metros: seq<MetroInput>, templates: seq<CollectionTask>) {
    forall t :: t in templates ==> exists m :: m in metros && m.metroId == t.metroId
  }

  /** The location code of the metro dictionary: of several metros with one id, the last wins. */
  function LocationCode(metros: seq<MetroInput>, metroId: string): int
    requires exists m :: m in metros && m.metroId == metroId
  {
    if Last(metros).metroId == metroId then Last(metros).locationCode
    else
      assert metros == Front(metros) + [Last(metros)];
      LocationCode(Front(metros), metroId)
  }

  function ProcessAll(
      ops: TextOps, plan: Plan, request: CollectionRequest, d: Data, templates: seq<CollectionTask>): Progress
    requires KnowsMetros(request.metros, templates)
  {
    if templates == [] then Progress([], d.seen)
    else
      var t := Last(templates);
      assert t in templates;
      Process(ProcessAll(ops, plan, request, d, Front(templates)), t,
              Emissions(ops, plan, d, LocationCode(request.metros, t.metroId), t))
  }

  function Materialized(ops: TextOps, plan: Plan, request: CollectionRequest, d: Data): Progress
    requires KnowsMetros(request.metros, plan.dependentTemplates)
  {
    ProcessAll(ops, plan, request, d, plan.dependentTemplates)
  }

  /** What a template asks for depends on the state only through these parts of it. */
  lemma EmissionsAgree(ops: TextOps, plan: Plan, d: Data, d': Data, locationCode: int, template: CollectionTask)
    requires d.results.vals == d'.results.vals && d.categories.vals == d'.categories.vals
    requires MapsTaskIds(template.metroId, d) == MapsTaskIds(template.metroId, d')
    ensures Emissions(ops, plan, d, locationCode, template) == Emissions(ops, plan, d', locationCode, template)
  {
    hide MapsTaskIds, ProfilePayload, ListingsPayload, TargetEmissions, TopByKey;
  }

  // ----- The loops -------------------------------------------------------------------------

  /** The target loop of backlinks and lighthouse templates. */
  method EmitTargets(ops: TextOps, template: CollectionTask, targets: seq<string>, tasks: seq<CollectionTask>,
                     state: State)
    returns (tasks': seq<CollectionTask>)
    requires template.taskType in {Backlinks, Lighthouse}
    modifies state`seenDedupKeys
    ensures Progress(tasks', state.seenDedupKeys)
         == EmitAll(Progress(tasks, old(state.seenDedupKeys)), template, TargetEmissions(ops, template, targets))
  {
    hide TargetEmission, ConcreteTask;
    ghost var es := TargetEmissions(ops, template, targets);
    ghost var start := Progress(tasks, state.seenDedupKeys);
    tasks' := tasks;
    for i := 0 to |targets|
      invariant Progress(tasks', state.seenDedupKeys) == EmitAll(start, template, es[..i])
    {
      var e := TargetEmission(ops, template, targets[i]);
      assert Front(es[..i + 1]) == es[..i] && Last(es[..i + 1]) == e;
      if Seen(e.key, state.seenDedupKeys) { continue; }
      tasks' := tasks' + [ConcreteTask(template, |tasks'| + 1, e)];
      if HasKey(e.key) { state.seenDedupKeys := state.seenDedupKeys + {e.key.value}; }
    }
    assert es[..|es|] == es;
  }

  lemma SingleEmission(acc: Progress, template: CollectionTask, e: Emission)
    ensures EmitAll(acc, template, [e]) == Emit(acc, template, e)
  {
    assert Front([e]) == [];
  }

  /** The body of the template loop. */
  method ProcessTemplate(ops: TextOps, plan: Plan, request: CollectionRequest, template: CollectionTask,
                         tasks: seq<CollectionTask>, state: State)
    returns (tasks': seq<CollectionTask>)
    requires exists m :: m in request.metros && m.metroId == template.metroId
    modifies state`seenDedupKeys
    ensures var d := old(state.View());
            Progress(tasks', state.seenDedupKeys)
            == Process(Progress(tasks, d.seen), template,
                       Emissions(ops, plan, d, LocationCode(request.metros, template.metroId), template))
  {
    hide ProfilePayload, ListingsPayload, TopMapsProfiles, TopOrganic, MapsKeywords, DependentTaskId, TargetEmissions;
    ghost var d := state.View();
    if Seen(template.dedupKey, state.seenDedupKeys) { return tasks; }
    var locationCode := LocationCode(request.metros, template.metroId);
    ghost var start := Progress(tasks, state.seenDedupKeys);
    tasks' := tasks;
    if template.taskType in {GoogleReviews, GbpInfo} {
      var profiles := TopMapsProfilesForMetro(ops, template.metroId, state, PROFILE_LIMIT);
      if profiles != [] {
        var e := Emission(ProfilePayload(template, locationCode, profiles[0]), template.dedupKey);
        SingleEmission(start, template, e);
        tasks' := tasks' + [ConcreteTask(template, |tasks'| + 1, e)];
        if HasKey(template.dedupKey) { state.seenDedupKeys := state.seenDedupKeys + {template.dedupKey.value}; }
      }
    } else if template.taskType == BusinessListings {
      var keyword := FirstMapsKeywordForMetro(ops, template.metroId, state);
      var e := Emission(ListingsPayload(template, locationCode, keyword), template.dedupKey);
      SingleEmission(start, template, e);
      tasks' := tasks' + [ConcreteTask(template, |tasks'| + 1, e)];
    } else if template.taskType == Backlinks {
      var domains := TopOrganicForMetro(ops, Domains, template.metroId, plan, state, TARGET_LIMIT);
      tasks' := EmitTargets(ops, template, domains, tasks', state);
    } else if template.taskType == Lighthouse {
      var urls := TopOrganicForMetro(ops, Urls, template.metroId, plan, state, TARGET_LIMIT);
      tasks' := EmitTargets(ops, template, urls, tasks', state);
    }
    if HasKey(template.dedupKey) { state.seenDedupKeys := state.seenDedupKeys + {template.dedupKey.value}; }
  }

  method MaterializeDependentTasks(ops: TextOps, plan: Plan, request: CollectionRequest, state: State)
    returns (tasks: seq<CollectionTask>)
    requires KnowsMetros(request.metros, plan.dependentTemplates)
    modifies state`seenDedupKeys
    ensures Progress(tasks, state.seenDedupKeys) == Materialized(ops, plan, request, old(state.View()))
  {
    ghost var d := state.View();
    var templates := plan.dependentTemplates;
    tasks := [];
    for i := 0 to |templates|
      invariant KnowsMetros(request.metros, templates[..i])
      invariant Progress(tasks, state.seenDedupKeys) == ProcessAll(ops, plan, request, d, templates[..i])
    {
      assert templates[i] in templates;
      assert Front(templates[..i + 1]) == templates[..i];
      EmissionsAgree(ops, plan, d, state.View(), LocationCode(request.metros, templates[i].metroId), templates[i]);
      tasks := ProcessTemplate(ops, plan, request, templates[i], tasks, state);
    }
    assert templates[..|templates|] == templates;
  }

  // ----- Dedup -----------------------------------------------------------------------------

  /** Emitted tasks with a dedup key have pairwise different keys, all of them marked. */
  ghost predicate Deduplicated(p: Progress) {
    && (forall i, j :: 0 <= i < j < |p.tasks| && HasKey(p.tasks[i].dedupKey) ==>
          p.tasks[i].dedupKey != p.tasks[j].dedupKey)
    && (forall i :: 0 <= i < |p.tasks| && HasKey(p.tasks[i].dedupKey) ==> p.tasks[i].dedupKey.value in p.seen)
  }

  /** Dependent tasks are numbered dep-1, dep-2, ... and wait for nothing. */
  ghost predicate Numbered(tasks: seq<CollectionTask>) {
    forall i :: 0 <= i < |tasks| ==> tasks[i].taskId == DependentTaskId(i + 1) && tasks[i].dependsOn == []
  }

  lemma {:induction false} EmitAllKeeps(acc: Progress, template: CollectionTask, es: seq<Emission>)
    requires Deduplicated(acc) && Numbered(acc.tasks)
    ensures Deduplicated(EmitAll(acc, template, es)) && Numbered(EmitAll(acc, template, es).tasks)
    ensures acc.seen <= EmitAll(acc, template, es).seen
    ensures acc.tasks <= EmitAll(acc, template, es).tasks
    ensures |EmitAll(acc, template, es).tasks| <= |acc.tasks| + |es|
    ensures forall i :: |acc.tasks| <= i < |EmitAll(acc, template, es).tasks| ==>
              var t := EmitAll(acc, template, es).tasks[i];
              t.metroId == template.metroId && t.taskType == template.taskType
  {
    hide DependentTaskId;
    if es != [] {
      EmitAllKeeps(acc, template, Front(es));
    }
  }

  lemma ProcessKeeps(acc: Progress, template: CollectionTask, es: seq<Emission>)
    requires Deduplicated(acc) && Numbered(acc.tasks)
    ensures var p := Process(acc, template, es);
            && Deduplicated(p) && Numbered(p.tasks) && acc.seen <= p.seen
            && |p.tasks| <= |acc.tasks| + |es|
            && (HasKey(template.dedupKey) ==> template.dedupKey.value in p.seen)
  {
    hide DependentTaskId, EmitAll;
    EmitAllKeeps(acc, template, es);
  }

  lemma NothingEmitted(d: Data)
    ensures Deduplicated(Progress([], d.seen)) && Numbered([])
  {
  }

  /** No two materialised tasks share a dedup key, and their ids are dep-1, dep-2, ... */
  lemma {:induction false} MaterializedIsDeduplicated(
      ops: TextOps, plan: Plan, request: CollectionRequest, d: Data, templates: seq<CollectionTask>)
    requires KnowsMetros(request.metros, templates)
    ensures var p := ProcessAll(ops, plan, request, d, templates);
            && Deduplicated(p) && Numbered(p.tasks) && d.seen <= p.seen
            && (forall t :: t in templates && HasKey(t.dedupKey) ==> t.dedupKey.value in p.seen)
  {
    hide Deduplicated, Numbered, Process, Emissions;
    if templates == [] {
      NothingEmitted(d);
    } else {
      var t := Last(templates);
      MaterializedIsDeduplicated(ops, plan, request, d, Front(templates));
      assert t in templates;
      var acc := ProcessAll(ops, plan, request, d, Front(templates));
      ProcessKeeps(acc, t, Emissions(ops, plan, d, LocationCode(request.metros, t.metroId), t));
      assert templates == Front(templates) + [t];
    }
  }

  /** Materialising keyed templates again, on any later state, adds nothing. */
  lemma {:induction false} SecondMaterializationIsEmpty(
      ops: TextOps, plan: Plan, request: CollectionRequest, d: Data, templates: seq<CollectionTask>)
    requires KnowsMetros(request.metros, templates)
    requires forall t :: t in templates ==> Seen(t.dedupKey, d.seen)
    ensures ProcessAll(ops, plan, request, d, templates) == Progress([], d.seen)
  {
    hide Emissions;
    if templates != [] {
      assert Last(templates) in templates;
      SecondMaterializationIsEmpty(ops, plan, request, d, Front(templates));
    }
  }

  lemma MaterializeTwice(ops: TextOps, plan: Plan, request: CollectionRequest, d: Data, later: Data)
    requires KnowsMetros(request.metros, plan.dependentTemplates)
    requires forall t :: t in plan.dependentTemplates ==> HasKey(t.dedupKey)
    requires Materialized(ops, plan, request, d).seen <= later.seen
    ensures Materialized(ops, plan, request, later) == Progress([], later.seen)
  {
    MaterializedIsDeduplicated(ops, plan, request, d, plan.dependentTemplates);
    SecondMaterializationIsEmpty(ops, plan, request, later, plan.dependentTemplates);
  }

  lemma {:induction false} EmittedNoEmptyKey(acc: Progress, template: CollectionTask, es: seq<Emission>)
    requires "" !in acc.seen
    ensures "" !in EmitAll(acc, template, es).seen
  {
    hide ConcreteTask;
    if es != [] {
      EmittedNoEmptyKey(acc, template, Front(es));
    }
  }

  /** An empty dedup key is none: it is never marked, so it never keeps a task from being emitted. */
  lemma {:induction false} EmptyKeyNeverMarked(
      ops: TextOps, plan: Plan, request: CollectionRequest, d: Data, templates: seq<CollectionTask>)
    requires KnowsMetros(request.metros, templates) && "" !in d.seen
    ensures "" !in ProcessAll(ops, plan, request, d, templates).seen
  {
    hide Emissions, EmitAll;
    if templates != [] {
      var t := Last(templates);
      assert t in templates;
      EmptyKeyNeverMarked(ops, plan, request, d, Front(templates));
      EmittedNoEmptyKey(
        ProcessAll(ops, plan, request, d, Front(templates)), t,
        Emissions(ops, plan, d, LocationCode(request.metros, t.metroId), t));
    }
  }

  // ----- How many --------------------------------------------------------------------------

  function EmissionBound(template: CollectionTask): nat {
    if template.taskType in {Backlinks, Lighthouse} then TARGET_LIMIT else 1
  }

  function TotalBound(templates: seq<CollectionTask>): nat {
    if templates == [] then 0 else TotalBound(Front(templates)) + EmissionBound(Last(templates))
  }

  lemma EmissionsBounded(ops: TextOps, plan: Plan, d: Data, locationCode: int, template: CollectionTask)
    ensures |Emissions(ops, plan, d, locationCode, template)| <= EmissionBound(template)
  {
    hide ProfilePayload, ListingsPayload, FirstMapsKeyword, BestMapsProfile, FirstByKey, ScanTask, OrganicTaskIds;
  }

  lemma {:induction false} MaterializedBounded(
      ops: TextOps, plan: Plan, request: CollectionRequest, d: Data, templates: seq<CollectionTask>)
    requires KnowsMetros(request.metros, templates)
    ensures |ProcessAll(ops, plan, request, d, templates).tasks| <= TotalBound(templates)
  {
    hide Deduplicated, Numbered, Process, Emissions;
    if templates != [] {
      var t := Last(templates);
      assert t in templates;
      var es := Emissions(ops, plan, d, LocationCode(request.metros, t.metroId), t);
      MaterializedBounded(ops, plan, request, d, Front(templates));
      MaterializedIsDeduplicated(ops, plan, request, d, Front(templates));
      ProcessKeeps(ProcessAll(ops, plan, request, d, Front(templates)), t, es);
      EmissionsBounded(ops, plan, d, LocationCode(request.metros, t.metroId), t);
    }
  }

  /** Dependent tasks form a single schedulable level. */
  lemma NumberedIsSchedulable(tasks: seq<CollectionTask>)
    requires Numbered(tasks)
    ensures TaskGraph.Schedulable(tasks)
  {
    hide DependentTaskId;
    forall i, j | 0 <= i < j < |tasks| ensures tasks[i].taskId != tasks[j].taskId {
      TaskIdsDistinct(i + 1, j + 1);
    }
    forall p ensures !TaskGraph.IsCycle(tasks, p) {
      if TaskGraph.IsCycle(tasks, p) {
        TaskGraph.CycleStep(tasks, p);
      }
    }
  }
}

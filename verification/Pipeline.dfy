/** End-to-end results about a collection run: conservation from outcomes to buckets and costs,
    and the bound on provider calls. */
module Pipeline {
  import opened Containers
  import opened CollectionTypes
  import opened CollectionPlan
  import opened ExecutionState
  import opened TaskGraph
  import opened Replay
  import opened Executor
  import opened Confluence
  import opened Assembler
  import MapsProfiles
  import Materialize
  import TaskIds

  // ----- A completed run as one log --------------------------------------------------------

  lemma {:induction false} RecordAllConcat(d: Data, a: seq<CollectionTask>, b: seq<CollectionTask>, outcomes: Outcomes)
    ensures RecordAll(d, a + b, outcomes) == RecordAll(RecordAll(d, a, outcomes), b, outcomes)
  {
    hide Recorded;
    if b == [] {
      assert a + b == a;
    } else {
      assert Front(a + b) == a + Front(b) && Last(a + b) == Last(b);
      RecordAllConcat(d, a, Front(b), outcomes);
    }
  }

  lemma {:induction false} RecordAllReseen(d: Data, log: seq<CollectionTask>, outcomes: Outcomes, seen: set<string>)
    ensures RecordAll(d.(seen := seen), log, outcomes) == RecordAll(d, log, outcomes).(seen := seen)
  {
    hide Rows, FailuresOf;
    if log != [] {
      RecordAllReseen(d, Front(log), outcomes, seen);
    }
  }

  /** Everything a completed run executed. */
  ghost function Executed(w: World, s: Run): seq<CollectionTask> {
    w.plan.baseTasks + s.tasks
  }

  /** A completed run recorded each executed task once, in some order. */
  ghost predicate RecordedAs(w: World, s: Run, log: seq<CollectionTask>) {
    && IsPermutation(Executed(w, s), log) && UniqueIds(log)
    && s.data == RecordAll(InitialData(), log, w.outcomes).(seen := s.data.seen)
  }

  lemma UniqueConcat(w: World, baseLog: seq<CollectionTask>, log: seq<CollectionTask>, tasks: seq<CollectionTask>)
    requires WellPlanned(w) && IsPermutation(w.plan.baseTasks, baseLog)
    requires Materialize.Numbered(tasks) && UniqueIds(tasks) && IsPermutation(tasks, log)
    ensures UniqueIds(baseLog + log)
  {
    hide KnownDependencies, HasCycle;
    UniqueIdsPermutation(w.plan.baseTasks, baseLog);
    UniqueIdsPermutation(tasks, log);
    PermutationLength(w.plan.baseTasks, baseLog);
    PermutationLength(tasks, log);
    forall i, j | 0 <= i < |baseLog| && 0 <= j < |log| ensures baseLog[i].taskId != log[j].taskId {
      assert log[j] in tasks && baseLog[i] in w.plan.baseTasks;
      var k :| 0 <= k < |tasks| && tasks[k] == log[j];
    }
  }

  lemma FullLog(w: World, s: Run) returns (log: seq<CollectionTask>)
    requires WellPlanned(w) && Reachable(w, s) && Completed(s)
    ensures RecordedAs(w, s, log)
  {
    hide Reachable, Completed, RecordAll, Schedulable, UniqueIds, Materialize.Numbered, Materialize.ProcessAll;
    var baseLog := CompletedAccount(w, s);
    log := baseLog + s.log;
    UniqueConcat(w, baseLog, s.log, s.tasks);
    var d := RecordAll(InitialData(), baseLog, w.outcomes);
    RecordAllConcat(InitialData(), baseLog, s.log, w.outcomes);
    RecordAllReseen(d, s.log, w.outcomes, Materialize.Materialized(w.ops, w.plan, w.request, d).seen);
  }

  // ----- Contributions task by task --------------------------------------------------------

  /** The rows a finished task owes to one bucket. */
  function TaskRows(outcomes: Outcomes, metroId: string, category: TaskType): CollectionTask -> seq<Row> {
    (t: CollectionTask) =>
      match outcomes(t)
      case OkResponse(body, _) =>
        if t.metroId == metroId && t.taskType == category then WithProvenance(category, Rows(body), t.payload) else []
      case _ => []
  }

  function TaskCost(outcomes: Outcomes): CollectionTask -> real {
    (t: CollectionTask) => match outcomes(t) case OkResponse(_, cost) => cost case _ => 0.0
  }

  function OkIds(log: seq<CollectionTask>, outcomes: Outcomes): seq<string> {
    if log == [] then []
    else OkIds(Front(log), outcomes) + if outcomes(Last(log)).OkResponse? then [Last(log).taskId] else []
  }

  lemma RecordedKeys(d: Data, t: CollectionTask, o: Outcome)
    requires Look(d, t.taskId) == NO_ENTRY
    ensures Recorded(d, t, o).results.keys == d.results.keys + if o.OkResponse? then [t.taskId] else []
    ensures Recorded(d, t, o).costs.keys == d.costs.keys + if o.OkResponse? then [t.taskId] else []
  {
    hide Rows, FailuresOf;
  }

  lemma NothingLooked(id: string)
    ensures Look(InitialData(), id) == NO_ENTRY
  {
  }

  lemma {:induction false} RecordAllKeys(log: seq<CollectionTask>, outcomes: Outcomes)
    requires UniqueIds(log)
    ensures RecordAll(InitialData(), log, outcomes).results.keys == OkIds(log, outcomes)
    ensures RecordAll(InitialData(), log, outcomes).costs.keys == OkIds(log, outcomes)
  {
    hide Recorded, Look, WellFormed;
    if log != [] {
      FrontIds(log);
      RecordAllKeys(Front(log), outcomes);
      InitialWellFormed();
      RecordAllLook(InitialData(), Front(log), outcomes, Last(log).taskId);
      assert Look(InitialData(), Last(log).taskId) == NO_ENTRY by { NothingLooked(Last(log).taskId); }
      RecordedKeys(RecordAll(InitialData(), Front(log), outcomes), Last(log), outcomes(Last(log)));
    }
  }

  lemma TaskContribution(d: Data, outcomes: Outcomes, t: CollectionTask, m: string, c: TaskType)
    requires Look(d, t.taskId) == EntryOf(t, outcomes(t)) && outcomes(t).OkResponse? && m != ""
    ensures Contribution(d, m, c)(t.taskId) == TaskRows(outcomes, m, c)(t)
    ensures CostOf(d)(t.taskId) == TaskCost(outcomes)(t)
  {
    hide WithProvenance, Rows;
    assert Find(d.results.vals, t.taskId).Some? && Find(d.costs.vals, t.taskId).Some?;
    assert Find(d.metros, t.taskId).Some? && Find(d.payloads, t.taskId).Some?;
    assert Find(d.categories.vals, t.taskId).Some?;
  }

  lemma SumAppend<T>(f: T -> real, xs: seq<T>, x: T)
    ensures Sum(f, xs + [x]) == Sum(f, xs) + f(x)
  {
    assert Front(xs + [x]) == xs;
  }

  lemma {:induction false} ContributionsOfLog(
      d: Data, log: seq<CollectionTask>, outcomes: Outcomes, m: string, c: TaskType)
    requires forall t :: t in log ==> Look(d, t.taskId) == EntryOf(t, outcomes(t))
    requires m != ""
    ensures Flat(Contribution(d, m, c), OkIds(log, outcomes)) == Flat(TaskRows(outcomes, m, c), log)
    ensures Sum(CostOf(d), OkIds(log, outcomes)) == Sum(TaskCost(outcomes), log)
  {
    hide Look, EntryOf, Contribution, CostOf;
    if log != [] {
      var front, t := Front(log), Last(log);
      assert log == front + [t];
      ContributionsOfLog(d, front, outcomes, m, c);
      var ids := OkIds(front, outcomes);
      if outcomes(t).OkResponse? {
        TaskContribution(d, outcomes, t, m, c);
        FlatSnoc(Contribution(d, m, c), ids, t.taskId);
        SumAppend(CostOf(d), ids, t.taskId);
      } else {
        assert OkIds(log, outcomes) == ids;
        assert TaskRows(outcomes, m, c)(t) == [] && TaskCost(outcomes)(t) == 0.0;
      }
    }
  }

  // ----- Conservation ----------------------------------------------------------------------

  /** Every executed task of a completed run ends in exactly one of the results or one failure. */
  lemma EveryTaskAccountedFor(w: World, s: Run, t: CollectionTask)
    requires WellPlanned(w) && Reachable(w, s) && Completed(s) && t in Executed(w, s)
    ensures var failures := Filter(IsFailureOf(t.taskId), s.data.failures);
            if t.taskId in s.data.results.vals then failures == [] else |failures| == 1
  {
    hide WellPlanned, Reachable, Completed, RecordAll, UniqueIds, WellFormed, Fresh;
    var log := FullLog(w, s);
    PermutationLength(Executed(w, s), log);
    InitialWellFormed();
    ExactlyOneFate(InitialData(), log, w.outcomes, t);
  }

  /** The call counter is the number of tasks with a recorded category, and the number of
      executed tasks the provider answered. */
  lemma CallsAreCounted(w: World, s: Run)
    requires WellPlanned(w) && Reachable(w, s) && Completed(s)
    ensures s.data.totalApiCalls == |s.data.categories.keys| == |Filter(AnsweredScan(w.outcomes), Executed(w, s))|
  {
    hide WellPlanned, Reachable, Completed, RecordAll, UniqueIds, Fresh;
    var log := FullLog(w, s);
    InitialWellFormed();
    RecordAllLook(InitialData(), log, w.outcomes, "");
    RecordAllTotals(InitialData(), log, w.outcomes);
    FilterPermutation(AnsweredScan(w.outcomes), Executed(w, s), log);
    PermutationLength(Filter(AnsweredScan(w.outcomes), Executed(w, s)), Filter(AnsweredScan(w.outcomes), log));
  }

  lemma LookIgnoresSeen(d: Data, seen: set<string>, id: string)
    ensures Look(d.(seen := seen), id) == Look(d, id)
  {
  }

  /** What a task owes to a bucket: the objects of its successful answer, enriched from its payload, if it
      is of that metro and category; and what it cost. */
  ghost predicate Owes(o: Outcome, m: string, c: TaskType, t: CollectionTask, owed: seq<Row>, cost: real) {
    match o
    case OkResponse(body, paid) =>
      && cost == paid
      && (t.metroId == m && t.taskType == c ==>
            exists rows :: Stores(body, rows) && AreEnriched(c, t.payload, rows, owed))
      && (t.metroId != m || t.taskType != c ==> owed == [])
    case _ => owed == [] && cost == 0.0
  }

  lemma OwedRows(outcomes: Outcomes, m: string, c: TaskType, t: CollectionTask)
    ensures Owes(outcomes(t), m, c, t, TaskRows(outcomes, m, c)(t), TaskCost(outcomes)(t))
  {
    hide Rows, Stores, AreEnriched, WithProvenance;
    if outcomes(t).OkResponse? {
      RowsAreTheObjects(outcomes(t).body);
      ProvenanceMeaning(c, Rows(outcomes(t).body), t.payload);
    }
  }

  /** Each bucket of the assembled result holds, as a multiset, exactly the enriched rows of the
      successful tasks of its metro and category, and the total cost is the sum of their costs. */
  lemma NothingLostNothingInvented(w: World, s: Run, results: map<string, MetroResult>, m: string, c: TaskType)
    requires WellPlanned(w) && Reachable(w, s) && Completed(s)
    requires Filled(s.data, s.data.results.keys, results) && m in results && m != ""
    ensures IsPermutation(Bucket(results[m], c), Flat(TaskRows(w.outcomes, m, c), Executed(w, s)))
    ensures Sum(CostOf(s.data), s.data.costs.keys) == Sum(TaskCost(w.outcomes), Executed(w, s))
    ensures forall t :: t in Executed(w, s) ==>
              Owes(w.outcomes(t), m, c, t, TaskRows(w.outcomes, m, c)(t), TaskCost(w.outcomes)(t))
  {
    hide WellPlanned, Reachable, Completed, RecordAll, UniqueIds, WellFormed, Fresh;
    hide Contribution, CostOf, TaskRows, TaskCost, Look, EntryOf, Owes;
    forall t | t in Executed(w, s)
      ensures Owes(w.outcomes(t), m, c, t, TaskRows(w.outcomes, m, c)(t), TaskCost(w.outcomes)(t))
    {
      OwedRows(w.outcomes, m, c, t);
    }
    var log := FullLog(w, s);
    var d := RecordAll(InitialData(), log, w.outcomes);
    InitialWellFormed();
    RecordAllKeys(log, w.outcomes);
    forall t | t in log ensures Look(s.data, t.taskId) == EntryOf(t, w.outcomes(t)) {
      RecordAllLook(InitialData(), log, w.outcomes, t.taskId);
      LookIgnoresSeen(d, s.data.seen, t.taskId);
    }
    ContributionsOfLog(s.data, log, w.outcomes, m, c);
    FlatPermutation(TaskRows(w.outcomes, m, c), Executed(w, s), log);
    SumPermutation(TaskCost(w.outcomes), Executed(w, s), log);
    assert Bucket(results[m], c) == Flat(Contribution(s.data, m, c), s.data.results.keys);
  }

  // ----- Planned runs ----------------------------------------------------------------------

  /** The run of a validated request under the plan built for it. */
  ghost predicate Planned(w: World) {
    ValidRequest(w.request) && w.plan == PlanOf(w.request)
  }

  lemma PlannedIsWellPlanned(w: World)
    requires Planned(w)
    ensures WellPlanned(w) && OneMapsPerMetro(w.plan.baseTasks)
  {
    hide Schedulable, TaskIds.BaseTaskId, TaskIds.DependentTaskId, BaseTasks, Templates;
    var request, tasks := w.request, w.plan.baseTasks;
    IndependentIsSchedulable(request);
    forall t | t in w.plan.dependentTemplates ensures exists m :: m in request.metros && m.metroId == t.metroId {
      TemplateSlot(request, request.metros, t);
    }
    forall t, n: nat | t in tasks ensures t.taskId != TaskIds.DependentTaskId(n) {
      var i :| 0 <= i < |tasks| && tasks[i] == t;
      BaseTaskAt(request, request.metros, i);
      TaskIds.TaskIdsDistinct(i + 1, n);
    }
    forall t, u | t in tasks && u in tasks && t.metroId == u.metroId && t.taskType == SerpMaps && u.taskType == SerpMaps
      ensures t.taskId == u.taskId
    {
      var i :| 0 <= i < |tasks| && tasks[i] == t;
      var j :| 0 <= j < |tasks| && tasks[j] == u;
      if i < j {
        OneMapsTask(request, request.metros, i, j);
      } else if j < i {
        OneMapsTask(request, request.metros, j, i);
      }
    }
  }

  /** Dependent calls of one metro: five backlinks, five lighthouse audits and three profile
      calls in full runs, two calls in interactive ones, none without SERP keywords. */
  function DependentCalls(request: CollectionRequest): nat {
    if SerpKeywords(request) == [] then 0
    else match request.profile case Full => 13 case Interactive => 2
  }

  lemma BoundOfAppended(xs: seq<CollectionTask>, t: CollectionTask)
    ensures Materialize.TotalBound(xs + [t]) == Materialize.TotalBound(xs) + Materialize.EmissionBound(t)
  {
    assert Front(xs + [t]) == xs;
  }

  lemma BoundOfTwo(xs: seq<CollectionTask>, a: CollectionTask, b: CollectionTask)
    ensures Materialize.TotalBound(xs + [a, b])
         == Materialize.TotalBound(xs) + Materialize.EmissionBound(a) + Materialize.EmissionBound(b)
  {
    hide Materialize.TotalBound, Materialize.EmissionBound;
    BoundOfAppended(xs, a);
    BoundOfAppended(xs + [a], b);
    assert xs + [a, b] == xs + [a] + [b];
  }

  lemma MetroTemplatesBound(request: CollectionRequest, metro: MetroInput, start: nat, before: seq<CollectionTask>)
    ensures Materialize.TotalBound(before + TemplatesFor(request, metro, start))
         == Materialize.TotalBound(before) + DependentCalls(request)
  {
    hide TaskIds.BaseTaskId, SerpKeywords, Chunks, TemplateKey, Materialize.TotalBound, KeywordTexts;
    var ts := TemplatesFor(request, metro, start);
    if ts == [] {
      assert before + ts == before;
    } else if request.profile == Interactive {
      BoundOfTwo(before, ts[0], ts[1]);
      assert ts == [ts[0], ts[1]];
    } else {
      BoundOfTwo(before, ts[0], ts[1]);
      BoundOfTwo(before + [ts[0], ts[1]], ts[2], ts[3]);
      BoundOfAppended(before + [ts[0], ts[1]] + [ts[2], ts[3]], ts[4]);
      assert before + ts == before + [ts[0], ts[1]] + [ts[2], ts[3]] + [ts[4]];
    }
  }

  lemma {:induction false} TemplatesBound(request: CollectionRequest, metros: seq<MetroInput>)
    ensures Materialize.TotalBound(Templates(request, metros)) == |metros| * DependentCalls(request)
  {
    hide TemplatesFor, BaseTasks, DependentCalls;
    if metros != [] {
      TemplatesBound(request, Front(metros));
      var start := |BaseTasks(request, Front(metros))| + 1;
      MetroTemplatesBound(request, Last(metros), start, Templates(request, Front(metros)));
    }
  }

  lemma {:induction false} FilterShorter<T>(p: T -> bool, xs: seq<T>)
    ensures |Filter(p, xs)| <= |xs|
  {
    if xs != [] {
      FilterShorter(p, Front(xs));
    }
  }

  lemma CallsPerLog(d: Data, log: seq<CollectionTask>, outcomes: Outcomes)
    ensures RecordAll(d, log, outcomes).totalApiCalls <= d.totalApiCalls + |log|
  {
    hide RecordAll, Filter;
    RecordAllTotals(d, log, outcomes);
    FilterShorter(AnsweredScan(outcomes), log);
  }

  lemma LogWithinTasks(s: Run)
    requires Safe(s)
    ensures |s.log| <= |s.tasks|
  {
    hide InOrder, UniqueIds;
    forall t | t in s.log ensures t in s.tasks {
      FlattenMember(s.levels, t);
      PermutationLength(s.tasks, Flatten(s.levels));
    }
    DistinctWithin(s.log, s.tasks);
  }

  /** In every reachable state, finished or not, the calls made so far are bounded by the base
      tasks plus what the templates can ask for. */
  lemma ReachableCalls(w: World, s: Run)
    requires WellPlanned(w) && Reachable(w, s)
    ensures s.data.totalApiCalls <= |w.plan.baseTasks| + Materialize.TotalBound(w.plan.dependentTemplates)
  {
    hide Safe, RecordAll, Schedulable, Behaviour, Materialize.ProcessAll;
    var trace :| Behaviour(w, trace) && trace != [] && Last(trace) == s;
    BehaviourKeeps(w, trace);
    LogWithinTasks(s);
    if BaseAccount(w, s) {
      CallsPerLog(InitialData(), s.log, w.outcomes);
    } else {
      var baseLog :| DependentAccount(w, s, baseLog);
      var d := RecordAll(InitialData(), baseLog, w.outcomes);
      PermutationLength(w.plan.baseTasks, baseLog);
      CallsPerLog(InitialData(), baseLog, w.outcomes);
      var seen := Materialize.Materialized(w.ops, w.plan, w.request, d).seen;
      CallsPerLog(d.(seen := seen), s.log, w.outcomes);
      Materialize.MaterializedBounded(w.ops, w.plan, w.request, d, w.plan.dependentTemplates);
    }
  }

  /** The call bound of a planned run over M metros, K keywords and E eligible keywords. */
  function CallBound(request: CollectionRequest): nat {
    var e := |Eligible(request.keywords)|;
    var batches := CeilDiv(|request.keywords|, 700);
    |request.metros| *
    (if e == 0 then batches
     else match request.profile
       case Full => batches + e + 14
       case Interactive => batches + Min(e, 6) + 3)
  }

  lemma Distribute(n: nat, a: nat, b: nat)
    ensures n * (a + b) == n * a + n * b
  {
  }

  lemma CallsPerMetro(request: CollectionRequest)
    ensures CallBound(request) == |request.metros| * BaseCalls(request) + |request.metros| * DependentCalls(request)
  {
    hide Eligible, CeilDiv;
    var perMetro := BaseCalls(request) + DependentCalls(request);
    assert CallBound(request) == |request.metros| * perMetro;
    Distribute(|request.metros|, BaseCalls(request), DependentCalls(request));
  }

  lemma PlannedCallBound(w: World, s: Run)
    requires Planned(w) && WellPlanned(w) && Reachable(w, s)
    ensures s.data.totalApiCalls <= CallBound(w.request)
  {
    hide WellPlanned, Reachable, BaseTasks, Templates, Eligible, CeilDiv, ValidRequest;
    var request := w.request;
    ReachableCalls(w, s);
    BaseTaskCount(request, request.metros);
    TemplatesBound(request, request.metros);
    CallsPerMetro(request);
  }

  lemma MaterializedMetros(w: World, d: Data, templates: seq<CollectionTask>, t: CollectionTask)
    requires Materialize.KnowsMetros(w.request.metros, templates)
    requires t in Materialize.ProcessAll(w.ops, w.plan, w.request, d, templates).tasks
    ensures t.metroId in MetroIds(w.request.metros)
  {
    hide Materialize.Emissions, Materialize.Deduplicated, Materialize.Numbered;
    if templates != [] {
      var u := Last(templates);
      assert u in templates;
      var acc := Materialize.ProcessAll(w.ops, w.plan, w.request, d, Front(templates));
      var es := Materialize.Emissions(w.ops, w.plan, d, Materialize.LocationCode(w.request.metros, u.metroId), u);
      if t in acc.tasks {
        MaterializedMetros(w, d, Front(templates), t);
      } else {
        Materialize.MaterializedIsDeduplicated(w.ops, w.plan, w.request, d, Front(templates));
        Materialize.EmitAllKeeps(acc, u, es);
        var all := Materialize.EmitAll(acc, u, es).tasks;
        var i :| 0 <= i < |all| && all[i] == t;
        assert i >= |acc.tasks|;
      }
    }
  }

  lemma MetroOfEntry(d: Data, id: string)
    ensures id in d.metros <==> Look(d, id).metro.Some?
    ensures id in d.metros ==> Look(d, id).metro.value == d.metros[id]
  {
  }

  lemma ExecutedMetro(w: World, s: Run, baseLog: seq<CollectionTask>, t: CollectionTask)
    requires Planned(w) && WellPlanned(w) && DependentAccount(w, s, baseLog) && t in Executed(w, s)
    ensures t.metroId in MetroIds(w.request.metros)
  {
    hide RecordAll, Materialize.ProcessAll, BaseTasks, Templates, Schedulable;
    var tasks := w.plan.baseTasks;
    if t in tasks {
      var i :| 0 <= i < |tasks| && tasks[i] == t;
      BaseTaskAt(w.request, w.request.metros, i);
      var m :| m in w.request.metros && m.metroId == t.metroId;
    } else {
      MaterializedMetros(w, RecordAll(InitialData(), baseLog, w.outcomes), w.plan.dependentTemplates, t);
    }
  }

  /** Assembling a completed planned run never hits a missing metro. */
  lemma AssemblyFindsEveryMetro(w: World, s: Run)
    requires Planned(w) && WellPlanned(w) && Reachable(w, s) && Completed(s)
    ensures !UnknownMetro(s.data, MetroIds(w.request.metros))
  {
    hide Reachable, Completed, RecordAll, UniqueIds, WellFormed;
    hide Fresh, Materialize.ProcessAll, BaseTasks, Templates, Look;
    var baseLog := CompletedAccount(w, s);
    var log := FullLog(w, s);
    PermutationLength(Executed(w, s), log);
    InitialWellFormed();
    forall id | id in s.data.results.keys ensures !Misplaced(s.data, MetroIds(w.request.metros), id) {
      RecordAllLook(InitialData(), log, w.outcomes, id);
      LookIgnoresSeen(RecordAll(InitialData(), log, w.outcomes), s.data.seen, id);
      MetroOfEntry(s.data, id);
      if exists t :: t in log && t.taskId == id {
        var t :| t in log && t.taskId == id;
        ExecutedMetro(w, s, baseLog, t);
      } else {
        NothingLooked(id);
      }
    }
  }

  // ----- From the first phase's profiles to the second phase's rows ------------------------

  /** The identifiers of a profile, as provenance. */
  function ProfileField(p: MapsProfiles.Profile, name: string): Option<string> {
    if name == "cid" then p.cid
    else if name == "place_id" then p.placeId
    else if name == "business_name" then p.businessName
    else if name == "source_query" then p.sourceQuery
    else None
  }

  lemma PayloadKeepsProfile(template: CollectionTask, code: int, p: MapsProfiles.Profile, name: string)
    requires ProfileField(p, name).Some?
    ensures Get(Materialize.ProfilePayload(template, code, p), name) == Text(ProfileField(p, name).value)
  {
  }

  lemma IsProvenance(p: MapsProfiles.Profile, name: string)
    requires ProfileField(p, name).Some?
    ensures name in PROVENANCE_FIELDS
  {
    CarriedMeaning(name);
    hide PROVENANCE_FIELDS;
  }

  /** Whatever identifier the chosen maps profile has reaches every row of the task made from it,
      unless the row brings its own. */
  lemma ProfileReachesRows(
      template: CollectionTask, code: int, p: MapsProfiles.Profile, fields: map<string, Value>, name: string)
    requires ProfileField(p, name).Some?
    ensures Get(Enrich(fields, Materialize.ProfilePayload(template, code, p), PROVENANCE_FIELDS), name)
         == if Blank(Get(fields, name)) then Text(ProfileField(p, name).value) else Get(fields, name)
  {
    hide ProfileField, Materialize.ProfilePayload, PROVENANCE_FIELDS;
    EnrichMeaning(fields, Materialize.ProfilePayload(template, code, p), PROVENANCE_FIELDS, name);
    PayloadKeepsProfile(template, code, p, name);
    IsProvenance(p, name);
  }
}

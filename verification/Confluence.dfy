/** Two completed runs with the same outcomes end in equivalent states, however their tasks
    interleaved, and every task of a completed run is accounted for exactly once. */
module Confluence {
  import opened Containers
  import opened CollectionTypes
  import opened CollectionPlan
  import opened ExecutionState
  import opened TaskGraph
  import opened Replay
  import opened Executor
  import opened MapsProfiles
  import Materialize

  /** The plan pulls maps results at most once per metro. */
  ghost predicate OneMapsPerMetro(tasks: seq<CollectionTask>) {
    forall t, u :: t in tasks && u in tasks && t.metroId == u.metroId ==>
      (t.taskType == SerpMaps && u.taskType == SerpMaps ==> t.taskId == u.taskId)
  }

  lemma InitialWellFormed()
    ensures WellFormed(InitialData())
    ensures forall log :: Fresh(InitialData(), log)
    ensures Equivalent(InitialData(), InitialData())
  {
  }

  /** A recorded maps task of a metro comes from a planned one. */
  lemma RecordedMapsTask(log: seq<CollectionTask>, outcomes: Outcomes, metroId: string, id: string)
    requires UniqueIds(log)
    requires var d := RecordAll(InitialData(), log, outcomes);
             IsMapsTask(metroId, d.categories.vals, d.metros, id)
    ensures exists t :: t in log && t.taskId == id && t.taskType == SerpMaps && t.metroId == metroId
  {
    hide RecordAll, UniqueIds, WellFormed, Fresh, Equivalent;
    InitialWellFormed();
    var d := RecordAll(InitialData(), log, outcomes);
    RecordAllLook(InitialData(), log, outcomes, id);
    assert Look(d, id).category == Some(SerpMaps) && Look(d, id).metro == Some(metroId);
    assert Look(InitialData(), id).category == None;
    assert exists t :: t in log && t.taskId == id;
    var t :| t in log && t.taskId == id;
    assert Look(d, id) == EntryOf(t, outcomes(t));
  }

  /** With at most one match, the matching ids come out the same in any order. */
  lemma {:induction false} AtMostOneMatch(
      metroId: string, categories: map<string, TaskType>, metros: map<string, string>,
                                          ids: seq<string>, id: string)
    requires Distinct(ids)
    requires forall x :: IsMapsTask(metroId, categories, metros, x) ==> x == id
    ensures MapsTasksAmong(metroId, categories, metros, ids)
         == if id in ids && IsMapsTask(metroId, categories, metros, id) then [id] else []
  {
    hide IsMapsTask;
    if ids != [] {
      AtMostOneMatch(metroId, categories, metros, Front(ids), id);
      assert ids == Front(ids) + [Last(ids)];
    }
  }

  lemma SameMapsTasks(w: World, a: seq<CollectionTask>, b: seq<CollectionTask>, metroId: string)
    requires UniqueIds(a) && UniqueIds(b) && OneMapsPerMetro(a)
    requires var d, e := RecordAll(InitialData(), a, w.outcomes), RecordAll(InitialData(), b, w.outcomes);
             Equivalent(d, e) && WellFormed(d) && WellFormed(e)
    ensures MapsTaskIds(metroId, RecordAll(InitialData(), a, w.outcomes))
         == MapsTaskIds(metroId, RecordAll(InitialData(), b, w.outcomes))
  {
    hide RecordAll, UniqueIds, IsMapsTask, MapsTasksAmong;
    var d, e := RecordAll(InitialData(), a, w.outcomes), RecordAll(InitialData(), b, w.outcomes);
    var cs, ms := d.categories.vals, d.metros;
    var id := if exists x :: IsMapsTask(metroId, cs, ms, x) then var x :| IsMapsTask(metroId, cs, ms, x); x else "";
    forall x | IsMapsTask(metroId, cs, ms, x) ensures x == id {
      RecordedMapsTask(a, w.outcomes, metroId, x);
      RecordedMapsTask(a, w.outcomes, metroId, id);
    }
    AtMostOneMatch(metroId, cs, ms, d.categories.keys, id);
    AtMostOneMatch(metroId, cs, ms, e.categories.keys, id);
    PermutationLength(d.categories.keys, e.categories.keys);
  }

  lemma {:induction false} SameEmissions(w: World, d: Data, e: Data, templates: seq<CollectionTask>)
    requires Materialize.KnowsMetros(w.request.metros, templates)
    requires d.results.vals == e.results.vals && d.categories.vals == e.categories.vals && d.seen == e.seen
    requires forall t :: t in templates ==> MapsTaskIds(t.metroId, d) == MapsTaskIds(t.metroId, e)
    ensures Materialize.ProcessAll(w.ops, w.plan, w.request, d, templates)
         == Materialize.ProcessAll(w.ops, w.plan, w.request, e, templates)
  {
    hide MapsTaskIds, Materialize.Process, Materialize.Emissions;
    if templates != [] {
      var t := Last(templates);
      assert t in templates;
      SameEmissions(w, d, e, Front(templates));
      Materialize.EmissionsAgree(w.ops, w.plan, d, e, Materialize.LocationCode(w.request.metros, t.metroId), t);
    }
  }

  /** The dependent tasks are the same list whatever order the base tasks finished in. */
  lemma SameDependentTasks(w: World, a: seq<CollectionTask>, b: seq<CollectionTask>)
    requires WellPlanned(w) && OneMapsPerMetro(w.plan.baseTasks)
    requires IsPermutation(w.plan.baseTasks, a) && IsPermutation(w.plan.baseTasks, b)
    ensures var d, e := RecordAll(InitialData(), a, w.outcomes), RecordAll(InitialData(), b, w.outcomes);
            && Equivalent(d, e) && WellFormed(d) && WellFormed(e)
            && Materialize.Materialized(w.ops, w.plan, w.request, d)
               == Materialize.Materialized(w.ops, w.plan, w.request, e)
  {
    hide RecordAll, UniqueIds, MapsTaskIds, KnownDependencies, HasCycle, WellFormed, Fresh, Materialize.ProcessAll;
    var d, e := RecordAll(InitialData(), a, w.outcomes), RecordAll(InitialData(), b, w.outcomes);
    InitialWellFormed();
    UniqueIdsPermutation(w.plan.baseTasks, a);
    UniqueIdsPermutation(w.plan.baseTasks, b);
    PermutationLength(w.plan.baseTasks, a);
    RecordAllConfluent(InitialData(), InitialData(), a, b, w.outcomes);
    RecordAllLook(InitialData(), a, w.outcomes, "");
    RecordAllLook(InitialData(), b, w.outcomes, "");
    forall t | t in w.plan.dependentTemplates ensures MapsTaskIds(t.metroId, d) == MapsTaskIds(t.metroId, e) {
      SameMapsTasks(w, a, b, t.metroId);
    }
    SameEmissions(w, d, e, w.plan.dependentTemplates);
  }

  /** Dependent ids are new to the state the base phase leaves. */
  lemma DependentIdsFresh(w: World, baseLog: seq<CollectionTask>, seen: set<string>, tasks: seq<CollectionTask>)
    requires WellPlanned(w) && IsPermutation(w.plan.baseTasks, baseLog)
    requires Materialize.Numbered(tasks)
    ensures Fresh(RecordAll(InitialData(), baseLog, w.outcomes).(seen := seen), tasks)
    ensures WellFormed(RecordAll(InitialData(), baseLog, w.outcomes).(seen := seen))
  {
    hide RecordAll, UniqueIds, KnownDependencies, HasCycle;
    var d := RecordAll(InitialData(), baseLog, w.outcomes);
    InitialWellFormed();
    UniqueIdsPermutation(w.plan.baseTasks, baseLog);
    PermutationLength(w.plan.baseTasks, baseLog);
    RecordAllLook(InitialData(), baseLog, w.outcomes, "");
    forall t | t in tasks ensures Look(d.(seen := seen), t.taskId) == NO_ENTRY {
      var i :| 0 <= i < |tasks| && tasks[i] == t;
      RecordAllLook(InitialData(), baseLog, w.outcomes, t.taskId);
      assert Look(d, t.taskId) == Look(InitialData(), t.taskId);
    }
  }

  lemma CompletedAccount(w: World, s: Run) returns (baseLog: seq<CollectionTask>)
    requires WellPlanned(w) && Reachable(w, s) && Completed(s)
    ensures DependentAccount(w, s, baseLog) && IsPermutation(s.tasks, s.log)
    ensures Materialize.Numbered(s.tasks) && UniqueIds(s.tasks)
  {
    hide WellPlanned, Behaviour, RecordAll, Materialize.ProcessAll, Barrier, InOrder, Materialize.Numbered;
    var trace :| Behaviour(w, trace) && trace != [] && Last(trace) == s;
    BehaviourKeeps(w, trace);
    baseLog :| DependentAccount(w, s, baseLog);
    PhaseLog(s);
    MaterializedTasks(w, RecordAll(InitialData(), baseLog, w.outcomes));
  }

  lemma DependentAgree(w: World, s: Run, s': Run, a: seq<CollectionTask>, b: seq<CollectionTask>)
    requires WellPlanned(w) && DependentAccount(w, s, a) && DependentAccount(w, s', b)
    requires IsPermutation(s.tasks, s.log) && IsPermutation(s'.tasks, s'.log)
    requires Materialize.Numbered(s.tasks) && UniqueIds(s.tasks)
    requires var d, e := RecordAll(InitialData(), a, w.outcomes), RecordAll(InitialData(), b, w.outcomes);
             && Equivalent(d, e)
             && Materialize.Materialized(w.ops, w.plan, w.request, d)
                == Materialize.Materialized(w.ops, w.plan, w.request, e)
    ensures s.tasks == s'.tasks
    ensures Equivalent(s.data, s'.data)
  {
    hide RecordAll, Materialize.Numbered, UniqueIds, WellFormed, Schedulable, Materialize.ProcessAll;
    var d, e := RecordAll(InitialData(), a, w.outcomes), RecordAll(InitialData(), b, w.outcomes);
    var seen := Materialize.Materialized(w.ops, w.plan, w.request, d).seen;
    DependentIdsFresh(w, a, seen, s.tasks);
    DependentIdsFresh(w, b, seen, s.tasks);
    UniqueIdsPermutation(s.tasks, s.log);
    PermutationLength(s.tasks, s.log);
    RecordAllConfluent(d.(seen := seen), e.(seen := seen), s.log, s'.log, w.outcomes);
  }

  /** Confluence: the interleaving of a run does not matter for anything but the order of its
      failure list and of its dictionaries. */
  lemma CompletedRunsAgree(w: World, s: Run, s': Run)
    requires WellPlanned(w) && OneMapsPerMetro(w.plan.baseTasks)
    requires Reachable(w, s) && Completed(s) && Reachable(w, s') && Completed(s')
    ensures s.tasks == s'.tasks
    ensures Equivalent(s.data, s'.data)
  {
    hide WellPlanned, Reachable, Completed, RecordAll, Materialize.Numbered;
    hide UniqueIds, Fresh, WellFormed, OneMapsPerMetro;
    var a := CompletedAccount(w, s);
    var b := CompletedAccount(w, s');
    SameDependentTasks(w, a, b);
    DependentAgree(w, s, s', a, b);
  }
}

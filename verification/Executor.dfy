/** A collection run as a transition system: two phases, each executed level by level behind a
    barrier, with at most eight tasks in dispatch.  The steps are those the event loop can
    interleave; what a finished task writes is one atomic step. */
module Executor {
  import opened Containers
  import opened CollectionTypes
  import opened CollectionPlan
  import opened ExecutionState
  import opened TaskGraph
  import opened Replay
  import Materialize
  import TopResults
  import TaskIds

  const M5_MAX_CONCURRENCY: nat := 8

  /** The fixed surroundings of a run. */
  datatype World = World(ops: TopResults.TextOps, plan: Plan, request: CollectionRequest, outcomes: Outcomes)

  datatype Phase = Base | Dependent

  /** tasks are the tasks of the current phase and levels their levelling; level is the one
      being executed; log lists the phase's finished tasks in completion order. */
  datatype Run = Run(
    phase: Phase,
    tasks: seq<CollectionTask>,
    levels: seq<seq<CollectionTask>>,
    level: nat,
    inDispatch: set<CollectionTask>,
    log: seq<CollectionTask>,
    data: Data)

  /** The planner's side of the contract: the base tasks can be scheduled, templates name metros
      of the request, and base ids stay out of the dependent phase's numbering. */
  ghost predicate WellPlanned(w: World) {
    && Schedulable(w.plan.baseTasks)
    && Materialize.KnowsMetros(w.request.metros, w.plan.dependentTemplates)
    && (forall t, n: nat :: t in w.plan.baseTasks ==> t.taskId != TaskIds.DependentTaskId(n))
  }

  ghost predicate StartsPhase(s: Run, phase: Phase, tasks: seq<CollectionTask>) {
    && s.phase == phase && s.tasks == tasks && IsLevelling(tasks, s.levels)
    && s.level == 0 && s.inDispatch == {} && s.log == []
  }

  ghost predicate Init(w: World, s: Run) {
    StartsPhase(s, Base, w.plan.baseTasks) && s.data == InitialData()
  }

  /** A waiting task of the current level gets a free semaphore slot and is dispatched. */
  ghost predicate Start(s: Run, s': Run, t: CollectionTask) {
    && s.level < |s.levels| && t in s.levels[s.level]
    && t !in s.inDispatch && t !in s.log
    && |s.inDispatch| < M5_MAX_CONCURRENCY
    && s' == s.(inDispatch := s.inDispatch + {t})
  }

  /** The dispatched call ends, one way or another, and its outcome is recorded. */
  ghost predicate Finish(w: World, s: Run, s': Run, t: CollectionTask) {
    && t in s.inDispatch
    && s' == s.(inDispatch := s.inDispatch - {t}, log := s.log + [t], data := Recorded(s.data, t, w.outcomes(t)))
  }

  /** The gather of the current level returns once all its tasks are finished. */
  ghost predicate NextLevel(s: Run, s': Run) {
    && s.level < |s.levels|
    && (forall t :: t in s.levels[s.level] ==> t in s.log)
    && s' == s.(level := s.level + 1)
  }

  /** After the last base level the dependent tasks are built and levelled. */
  ghost predicate SecondPhase(w: World, s: Run, s': Run)
    requires WellPlanned(w)
  {
    && s.phase == Base && s.level == |s.levels|
    && (var built := Materialize.Materialized(w.ops, w.plan, w.request, s.data);
        StartsPhase(s', Dependent, built.tasks) && s'.data == s.data.(seen := built.seen))
  }

  ghost predicate Next(w: World, s: Run, s': Run)
    requires WellPlanned(w)
  {
    || (exists t :: Start(s, s', t))
    || (exists t :: Finish(w, s, s', t))
    || NextLevel(s, s')
    || SecondPhase(w, s, s')
  }

  ghost predicate Behaviour(w: World, trace: seq<Run>)
    requires WellPlanned(w)
  {
    && trace != [] && Init(w, trace[0])
    && (forall i, j :: 0 <= i && j == i + 1 < |trace| ==> Next(w, trace[i], trace[j]))
  }

  ghost predicate Completed(s: Run) {
    s.phase == Dependent && s.level == |s.levels|
  }

  // ----- What every reachable state keeps --------------------------------------------------

  /** The barrier of one phase. */
  ghost predicate Barrier(s: Run) {
    && UniqueIds(s.tasks) && IsLevelling(s.tasks, s.levels) && s.level <= |s.levels|
    && Distinct(s.log)
    && (forall t :: t in s.log ==> t !in s.inDispatch)
    && (s.level == |s.levels| ==> s.inDispatch == {})
    && (s.level < |s.levels| ==> forall t :: t in s.inDispatch ==> t in s.levels[s.level])
    && (forall k, t :: 0 <= k < s.level && t in s.levels[k] ==> t in s.log)
    && (forall t :: t in s.log ==> exists k :: 0 <= k <= s.level && k < |s.levels| && t in s.levels[k])
  }

  ghost predicate FinishedBy(log: seq<CollectionTask>, d: string) {
    exists j :: 0 <= j < |log| && log[j].taskId == d
  }

  /** The finished tasks form a topological order. */
  ghost predicate InOrder(log: seq<CollectionTask>) {
    forall i, d :: 0 <= i < |log| && d in log[i].dependsOn ==> FinishedBy(log[..i], d)
  }

  ghost predicate Capped(s: Run) {
    |s.inDispatch| <= M5_MAX_CONCURRENCY
  }

  ghost predicate Safe(s: Run) {
    Barrier(s) && InOrder(s.log) && Capped(s)
  }

  lemma StartSafe(s: Run, s': Run, t: CollectionTask)
    requires Safe(s) && Start(s, s', t)
    ensures Safe(s')
  {
    hide UniqueIds, IsLevelling, InOrder;
  }

  /** Whatever is dispatched has all its dependencies finished. */
  lemma DispatchedIsReady(s: Run, t: CollectionTask, d: string)
    requires Safe(s) && t in s.inDispatch && d in t.dependsOn
    ensures FinishedBy(s.log, d)
  {
    hide UniqueIds, InOrder;
    assert t in s.levels[s.level];
    assert InEarlierLevel(s.levels, s.level, d);
    var k, u :| 0 <= k < s.level && u in s.levels[k] && u.taskId == d;
    assert u in s.log;
    var j :| 0 <= j < |s.log| && s.log[j] == u;
  }

  lemma FinishInOrder(s: Run, t: CollectionTask)
    requires Safe(s) && t in s.inDispatch
    ensures InOrder(s.log + [t])
  {
    hide UniqueIds, IsLevelling, FinishedBy, Barrier;
    var log' := s.log + [t];
    forall i, d | 0 <= i < |log'| && d in log'[i].dependsOn ensures FinishedBy(log'[..i], d) {
      if i < |s.log| {
        assert log'[..i] == s.log[..i];
      } else {
        assert log'[..i] == s.log;
        DispatchedIsReady(s, t, d);
      }
    }
  }

  lemma FinishSafe(w: World, s: Run, s': Run, t: CollectionTask)
    requires Safe(s) && Finish(w, s, s', t)
    ensures Safe(s')
  {
    hide UniqueIds, IsLevelling, Recorded, FinishedBy;
    FinishInOrder(s, t);
    assert t in s.levels[s.level];
    forall u | u in s'.log ensures u !in s'.inDispatch {
      assert u in s.log || u == t;
    }
    forall u | u in s'.log ensures exists k :: 0 <= k <= s'.level && k < |s'.levels| && u in s'.levels[k] {
      assert u in s.log || u == t;
    }
  }

  lemma NextLevelSafe(s: Run, s': Run)
    requires Safe(s) && NextLevel(s, s')
    ensures Safe(s')
  {
    hide UniqueIds, InOrder, IsLevelling;
    assert s.inDispatch == {} by {
      assert forall t :: t in s.inDispatch ==> t in s.log;
    }
    forall k, t | 0 <= k < s'.level && t in s'.levels[k] ensures t in s'.log {}
    forall t | t in s'.log ensures exists k :: 0 <= k <= s'.level && k < |s'.levels| && t in s'.levels[k] {
      var k :| 0 <= k <= s.level && k < |s.levels| && t in s.levels[k];
    }
  }

  lemma PhaseStartSafe(s: Run, phase: Phase, tasks: seq<CollectionTask>)
    requires UniqueIds(tasks) && StartsPhase(s, phase, tasks)
    ensures Safe(s)
  {
    hide UniqueIds;
  }

  // ----- What the state holds --------------------------------------------------------------

  /** The base phase records its finished tasks in completion order. */
  ghost predicate BaseAccount(w: World, s: Run) {
    && s.phase == Base && s.tasks == w.plan.baseTasks
    && s.data == RecordAll(InitialData(), s.log, w.outcomes)
  }

  /** The dependent phase starts from some completion order of all base tasks. */
  ghost predicate DependentAccount(w: World, s: Run, baseLog: seq<CollectionTask>)
    requires WellPlanned(w)
  {
    && s.phase == Dependent && IsPermutation(w.plan.baseTasks, baseLog)
    && (var d := RecordAll(InitialData(), baseLog, w.outcomes);
        var built := Materialize.Materialized(w.ops, w.plan, w.request, d);
        && s.tasks == built.tasks
        && s.data == RecordAll(d.(seen := built.seen), s.log, w.outcomes))
  }

  ghost predicate Accounted(w: World, s: Run)
    requires WellPlanned(w)
  {
    BaseAccount(w, s) || exists baseLog :: DependentAccount(w, s, baseLog)
  }

  ghost predicate Reachable(w: World, s: Run)
    requires WellPlanned(w)
  {
    exists trace :: Behaviour(w, trace) && trace != [] && Last(trace) == s
  }

  lemma DistinctFromIds(tasks: seq<CollectionTask>)
    requires UniqueIds(tasks)
    ensures Distinct(tasks)
  {
  }

  /** At the end of a phase the log is a permutation of the phase's tasks. */
  lemma PhaseLog(s: Run)
    requires Safe(s) && s.level == |s.levels|
    ensures IsPermutation(s.tasks, s.log)
  {
    hide InOrder;
    PermutationLength(s.tasks, Flatten(s.levels));
    forall t ensures t in s.tasks <==> t in s.log {
      FlattenMember(s.levels, t);
    }
    DistinctFromIds(s.tasks);
    SameElements(s.tasks, s.log);
  }

  lemma RecordSnoc(d: Data, log: seq<CollectionTask>, t: CollectionTask, outcomes: Outcomes)
    ensures RecordAll(d, log + [t], outcomes) == Recorded(RecordAll(d, log, outcomes), t, outcomes(t))
  {
    hide Recorded;
    assert Front(log + [t]) == log;
  }

  lemma MaterializedTasks(w: World, d: Data)
    requires WellPlanned(w)
    ensures var built := Materialize.Materialized(w.ops, w.plan, w.request, d);
            Schedulable(built.tasks) && Materialize.Numbered(built.tasks)
  {
    hide Schedulable, Materialize.Numbered, Materialize.Deduplicated;
    Materialize.MaterializedIsDeduplicated(w.ops, w.plan, w.request, d, w.plan.dependentTemplates);
    Materialize.NumberedIsSchedulable(Materialize.Materialized(w.ops, w.plan, w.request, d).tasks);
  }

  lemma RecordNothing(d: Data, outcomes: Outcomes)
    ensures RecordAll(d, [], outcomes) == d
  {
  }

  lemma SecondPhaseKeeps(w: World, s: Run, s': Run)
    requires WellPlanned(w) && Safe(s) && BaseAccount(w, s) && SecondPhase(w, s, s')
    ensures Safe(s') && DependentAccount(w, s', s.log)
  {
    hide Safe, Materialize.Materialized, RecordAll, UniqueIds, KnownDependencies, HasCycle;
    PhaseLog(s);
    MaterializedTasks(w, s.data);
    PhaseStartSafe(s', Dependent, Materialize.Materialized(w.ops, w.plan, w.request, s.data).tasks);
    assert RecordAll(s'.data, [], w.outcomes) == s'.data by { RecordNothing(s'.data, w.outcomes); }
  }

  lemma FinishAccounted(w: World, s: Run, s': Run, t: CollectionTask)
    requires WellPlanned(w) && Accounted(w, s) && Finish(w, s, s', t)
    ensures Accounted(w, s')
  {
    hide Materialize.Materialized, RecordAll, Recorded;
    if BaseAccount(w, s) {
      RecordSnoc(InitialData(), s.log, t, w.outcomes);
      assert BaseAccount(w, s');
    } else {
      var baseLog :| DependentAccount(w, s, baseLog);
      var d := RecordAll(InitialData(), baseLog, w.outcomes);
      var built := Materialize.Materialized(w.ops, w.plan, w.request, d);
      RecordSnoc(d.(seen := built.seen), s.log, t, w.outcomes);
      assert DependentAccount(w, s', baseLog);
    }
  }

  lemma SameAccount(w: World, s: Run, s': Run)
    requires WellPlanned(w) && Accounted(w, s)
    requires s'.phase == s.phase && s'.tasks == s.tasks && s'.data == s.data && s'.log == s.log
    ensures Accounted(w, s')
  {
    hide Materialize.Materialized, RecordAll, WellPlanned;
    if BaseAccount(w, s) {
      assert BaseAccount(w, s');
    } else {
      var baseLog :| DependentAccount(w, s, baseLog);
      assert DependentAccount(w, s', baseLog);
    }
  }

  lemma StepKeeps(w: World, s: Run, s': Run)
    requires WellPlanned(w) && Safe(s) && Accounted(w, s) && Next(w, s, s')
    ensures Safe(s') && Accounted(w, s')
  {
    hide Safe, Materialize.Materialized, RecordAll, WellPlanned, Finish;
    if t :| Start(s, s', t) {
      StartSafe(s, s', t);
      SameAccount(w, s, s');
    } else if t :| Finish(w, s, s', t) {
      FinishSafe(w, s, s', t);
      FinishAccounted(w, s, s', t);
    } else if NextLevel(s, s') {
      NextLevelSafe(s, s');
      SameAccount(w, s, s');
    } else {
      SecondPhaseKeeps(w, s, s');
      assert DependentAccount(w, s', s.log);
    }
  }

  lemma InitKeeps(w: World, s: Run)
    requires WellPlanned(w) && Init(w, s)
    ensures Safe(s) && Accounted(w, s)
  {
    hide Safe;
    PhaseStartSafe(s, Base, w.plan.baseTasks);
    assert BaseAccount(w, s);
  }

  lemma {:induction false} BehaviourKeeps(w: World, trace: seq<Run>)
    requires WellPlanned(w) && Behaviour(w, trace)
    ensures Safe(Last(trace)) && Accounted(w, Last(trace))
    decreases |trace|
  {
    hide Safe, Accounted, Next, Init, WellPlanned;
    if |trace| == 1 {
      InitKeeps(w, trace[0]);
    } else {
      BehaviourKeeps(w, Front(trace));
      StepKeeps(w, trace[|trace| - 2], trace[|trace| - 1]);
    }
  }

  /** In every reachable state, whatever is dispatched or finished has all its dependencies
      finished before it, and at most eight tasks are in dispatch. */
  lemma BarrierAndCap(w: World, s: Run, t: CollectionTask, d: string)
    requires WellPlanned(w) && Reachable(w, s)
    ensures |s.inDispatch| <= 8
    ensures InOrder(s.log)
    ensures t in s.inDispatch && d in t.dependsOn ==> FinishedBy(s.log, d)
  {
    hide WellPlanned, Accounted, Behaviour, InOrder, FinishedBy, Barrier;
    var trace :| Behaviour(w, trace) && trace != [] && Last(trace) == s;
    BehaviourKeeps(w, trace);
    if t in s.inDispatch && d in t.dependsOn {
      DispatchedIsReady(s, t, d);
    }
  }
}

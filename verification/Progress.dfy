/** A run can start, neither gets stuck nor goes on for ever, and can always be completed: until it
    is completed some step is possible, and the number of steps is bounded before it starts. */
module Progress {
  import opened Containers
  import opened CollectionTypes
  import opened ExecutionState
  import opened TaskGraph
  import opened Replay
  import opened Executor
  import Materialize
  import LevelChains
  import TaskIds

  // ----- No deadlock -----------------------------------------------------------------------

  lemma SingleLevel(tasks: seq<CollectionTask>)
    requires Materialize.Numbered(tasks)
    ensures IsLevelling(tasks, if tasks == [] then [] else [tasks])
  {
    hide TaskIds.DependentTaskId;
    var levels := if tasks == [] then [] else [tasks];
    assert forall t :: t in tasks ==> t.dependsOn == [];
    if tasks != [] {
      assert Front(levels) == [] && Flatten(levels) == tasks;
    }
  }

  lemma StartSecondPhase(w: World, s: Run) returns (s': Run)
    requires WellPlanned(w) && s.phase == Base && s.level == |s.levels|
    ensures SecondPhase(w, s, s')
  {
    hide IsLevelling, Materialize.ProcessAll, Schedulable;
    var built := Materialize.Materialized(w.ops, w.plan, w.request, s.data);
    MaterializedTasks(w, s.data);
    SingleLevel(built.tasks);
    var levels := if built.tasks == [] then [] else [built.tasks];
    s' := Run(Dependent, built.tasks, levels, 0, {}, [], s.data.(seen := built.seen));
  }

  /** Every reachable state that is not completed has a next state. */
  lemma NoDeadlock(w: World, s: Run) returns (s': Run)
    requires WellPlanned(w) && Reachable(w, s) && !Completed(s)
    ensures Next(w, s, s')
  {
    hide WellPlanned, Behaviour, RecordAll, Recorded, InOrder, IsLevelling, UniqueIds, SecondPhase;
    var trace :| Behaviour(w, trace) && trace != [] && Last(trace) == s;
    BehaviourKeeps(w, trace);
    if s.level == |s.levels| {
      s' := StartSecondPhase(w, s);
    } else if s.inDispatch != {} {
      var t :| t in s.inDispatch;
      s' := s.(inDispatch := s.inDispatch - {t}, log := s.log + [t], data := Recorded(s.data, t, w.outcomes(t)));
      assert Finish(w, s, s', t);
    } else if t :| t in s.levels[s.level] && t !in s.log {
      s' := s.(inDispatch := s.inDispatch + {t});
      assert Start(s, s', t);
    } else {
      s' := s.(level := s.level + 1);
      assert NextLevel(s, s');
    }
  }

  // ----- Termination -----------------------------------------------------------------------

  /** Steps still to come in the current phase. */
  function PhaseSteps(s: Run): int {
    2 * (|s.tasks| - |s.log|) - |s.inDispatch| + |s.levels| - s.level
  }

  /** An upper bound on the steps still to come. */
  function Remaining(w: World, s: Run): int {
    PhaseSteps(s)
    + match s.phase
      case Base => 1 + 3 * Materialize.TotalBound(w.plan.dependentTemplates)
      case Dependent => 0
  }

  lemma {:induction false} LevelsAtMostTasks<T>(levels: seq<seq<T>>)
    requires forall k :: 0 <= k < |levels| ==> levels[k] != []
    ensures |levels| <= |Flatten(levels)|
  {
    if levels != [] {
      LevelsAtMostTasks(Front(levels));
    }
  }

  lemma PhaseStepsAtStart(s: Run, phase: Phase, tasks: seq<CollectionTask>)
    requires StartsPhase(s, phase, tasks)
    ensures PhaseSteps(s) <= 3 * |tasks|
  {
    LevelsAtMostTasks(s.levels);
    PermutationLength(tasks, Flatten(s.levels));
  }

  /** Dispatched and finished tasks are distinct tasks of the phase. */
  lemma PhaseStepsNonNegative(s: Run)
    requires Safe(s)
    ensures PhaseSteps(s) >= 0
  {
    hide InOrder, UniqueIds;
    var logged := set t | t in s.log;
    var all := set t | t in s.tasks;
    PermutationLength(s.tasks, Flatten(s.levels));
    forall t | t in s.inDispatch + logged ensures t in all {
      FlattenMember(s.levels, t);
    }
    DistinctSetSize(s.log);
    SetSizeAtMost(s.tasks);
    SubsetSize(s.inDispatch + logged, all);
    assert |s.inDispatch + logged| == |s.inDispatch| + |logged|;
  }

  lemma SecondPhaseDecreases(w: World, s: Run, s': Run)
    requires WellPlanned(w) && Safe(s) && SecondPhase(w, s, s')
    ensures Remaining(w, s') < Remaining(w, s)
  {
    hide IsLevelling, Safe, Materialize.ProcessAll, Schedulable, PhaseSteps, Materialize.TotalBound;
    var built := Materialize.Materialized(w.ops, w.plan, w.request, s.data);
    Materialize.MaterializedBounded(w.ops, w.plan, w.request, s.data, w.plan.dependentTemplates);
    PhaseStepsAtStart(s', Dependent, built.tasks);
    PhaseStepsNonNegative(s);
  }

  lemma StepDecreases(w: World, s: Run, s': Run)
    requires WellPlanned(w) && Safe(s) && Accounted(w, s) && Next(w, s, s')
    ensures Remaining(w, s') < Remaining(w, s)
  {
    hide WellPlanned, Safe, Accounted, RecordAll, Recorded, IsLevelling;
    if t :| Start(s, s', t) {
      assert |s'.inDispatch| == |s.inDispatch| + 1;
    } else if t :| Finish(w, s, s', t) {
      assert |s'.inDispatch| == |s.inDispatch| - 1;
    } else if NextLevel(s, s') {
    } else {
      SecondPhaseDecreases(w, s, s');
    }
  }

  lemma {:induction false} BehaviourDecreases(w: World, trace: seq<Run>)
    requires WellPlanned(w) && Behaviour(w, trace)
    ensures Remaining(w, Last(trace)) + |trace| - 1 <= Remaining(w, trace[0])
    decreases |trace|
  {
    hide Safe, Accounted, Next, Init, WellPlanned, Remaining;
    if |trace| > 1 {
      BehaviourDecreases(w, Front(trace));
      BehaviourKeeps(w, Front(trace));
      StepDecreases(w, trace[|trace| - 2], trace[|trace| - 1]);
    }
  }

  lemma StartedPhase(s: Run, phase: Phase, tasks: seq<CollectionTask>)
    requires StartsPhase(s, phase, tasks)
    ensures s.phase == phase
  {
  }

  /** Every run ends: no behaviour takes more steps than three per task, base or dependent,
      plus the phase switch. */
  lemma BehavioursAreBounded(w: World, trace: seq<Run>)
    requires WellPlanned(w) && Behaviour(w, trace)
    ensures |trace| - 1 <= 1 + 3 * (|w.plan.baseTasks| + Materialize.TotalBound(w.plan.dependentTemplates))
  {
    hide Safe, Accounted, Next, WellPlanned, PhaseSteps, Materialize.TotalBound, StartsPhase;
    BehaviourDecreases(w, trace);
    BehaviourKeeps(w, trace);
    assert StartsPhase(trace[0], Base, w.plan.baseTasks);
    assert trace[0].phase == Base by { StartedPhase(trace[0], Base, w.plan.baseTasks); }
    PhaseStepsAtStart(trace[0], Base, w.plan.baseTasks);
    PhaseStepsNonNegative(Last(trace));
  }

  // ----- Completion ------------------------------------------------------------------------

  /** Every well-planned world has an initial state. */
  lemma RunStarts(w: World) returns (s: Run)
    requires WellPlanned(w)
    ensures Init(w, s)
  {
    hide Schedulable, IsLevelling;
    var levels := LevelChains.LevellingExists(w.plan.baseTasks);
    s := Run(Base, w.plan.baseTasks, levels, 0, {}, [], InitialData());
  }

  lemma RemainingNonNegative(w: World, s: Run)
    requires Safe(s)
    ensures Remaining(w, s) >= 0
  {
    hide Safe, PhaseSteps, Materialize.TotalBound;
    PhaseStepsNonNegative(s);
  }

  lemma OneMoreStep(w: World, trace: seq<Run>, s': Run)
    requires WellPlanned(w) && Behaviour(w, trace) && Next(w, Last(trace), s')
    ensures Behaviour(w, trace + [s'])
  {
    hide Next, Init, WellPlanned;
    var longer := trace + [s'];
    forall i, j | 0 <= i && j == i + 1 < |longer| ensures Next(w, longer[i], longer[j]) {
      if j < |trace| {
        assert longer[i] == trace[i] && longer[j] == trace[j];
      }
    }
  }

  lemma BehaviourNotEmpty(w: World, trace: seq<Run>)
    requires WellPlanned(w) && Behaviour(w, trace)
    ensures trace != []
  {
  }

  /** Every behaviour extends to one that ends in a completed state. */
  lemma {:induction false} BehaviourCompletes(w: World, trace: seq<Run>) returns (full: seq<Run>)
    requires WellPlanned(w) && Behaviour(w, trace)
    ensures Behaviour(w, full) && trace <= full && Completed(Last(full))
    decreases Remaining(w, Last(trace))
  {
    hide WellPlanned, Behaviour, Safe, Accounted, Next, Remaining;
    BehaviourNotEmpty(w, trace);
    BehaviourKeeps(w, trace);
    RemainingNonNegative(w, Last(trace));
    full := trace;
    if !Completed(Last(trace)) {
      assert Reachable(w, Last(trace));
      var s' := NoDeadlock(w, Last(trace));
      StepDecreases(w, Last(trace), s');
      OneMoreStep(w, trace, s');
      full := BehaviourCompletes(w, trace + [s']);
    }
  }

  /** Every well-planned world has a completed run, so what is said about completed runs is never
      said about nothing. */
  lemma RunCompletes(w: World) returns (s: Run)
    requires WellPlanned(w)
    ensures Reachable(w, s) && Completed(s)
  {
    hide Next, WellPlanned, Init, Completed;
    var start := RunStarts(w);
    var full := BehaviourCompletes(w, [start]);
    s := Last(full);
  }
}
